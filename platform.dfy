/**
  Host-platform values the Erlang plugin consumes: nullable results, virtual
  files with their registered file type, text ranges, and the file-name
  helper that strips an extension.
 */
module Platform {

  /** A Java reference that may be null. */
  datatype Option<+T> = None | Some(value: T)

  /** The file types the plugin registers; only `Module` (.erl sources) is indexed. */
  datatype FileType = Module | Header | AppResource | OtherType(description: string)

  /** `s` holds no value twice (a list built from a set). */
  predicate Distinct<T(==)>(s: seq<T>) {
    forall i, j :: 0 <= i < j < |s| ==> s[i] != s[j]
  }

  /** A file of the virtual file system: its directory, its name (with
      extension) and the type the platform assigned to it. Two files with the
      same name in different directories are different files. */
  datatype VirtualFile = VirtualFile(directory: string, name: string, fileType: FileType)

  /** Index of the last occurrence of `c` in `s`, or -1 (Java's `lastIndexOf`). */
  function LastIndexOf(s: string, c: char): (r: int)
    ensures -1 <= r < |s|
    ensures r >= 0 ==> s[r] == c
    ensures forall j :: r < j < |s| ==> s[j] != c
  {
    if |s| == 0 then -1
    else if s[|s| - 1] == c then |s| - 1
    else LastIndexOf(s[..|s| - 1], c)
  }

  /** A file name with its extension removed: everything before the last
      '.', or the whole name when it has no '.'. */
  function NameWithoutExtension(name: string): (r: string)
    ensures '.' !in name ==> r == name
    ensures '.' in name ==> exists ext :: name == r + "." + ext && '.' !in ext
  {
    var i := LastIndexOf(name, '.');
    if i == -1 then name
    else
      assert name == name[..i] + "." + name[i + 1..];
      name[..i]
  }

  /** The base name is cut at the LAST dot: an extension never contains a dot,
      so the result is determined by how the name ends. */
  lemma NameWithoutExtensionOfDotted(base: string, ext: string)
    requires '.' !in ext
    ensures NameWithoutExtension(base + "." + ext) == base
  {
    var name := base + "." + ext;
    assert name[|base|] == '.';
    assert name[..|base|] == base;
  }

  /** A half-open range [startOffset, endOffset) of document offsets. */
  datatype TextRange = TextRange(startOffset: nat, endOffset: nat) {

    /** The range covers no character. */
    predicate IsEmpty() {
      startOffset >= endOffset
    }

    /** The characters of `text` inside the range. */
    function Substring(text: string): (r: string)
      requires startOffset <= endOffset <= |text|
      ensures |r| == endOffset - startOffset
      ensures forall k :: 0 <= k < |r| ==> r[k] == text[startOffset + k]
    {
      text[startOffset..endOffset]
    }
  }
}
