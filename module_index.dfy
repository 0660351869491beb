/**
  The Erlang module index: a file-based index whose keys are module names.
  The host indexes every file the input filter accepts, storing for each key
  the files whose indexer output contains it; `GetByName` turns the files
  stored under one name into PSI-level results.
 */
module ModuleIndex {
  import opened Platform

  /** What the indexer is handed for one file: the file and its content. */
  datatype FileContent = FileContent(file: VirtualFile, content: string)

  /** The `-module(...)` declaration of an Erlang file. A PSI element has an
      identity: the declarations of two files are different elements even when
      they name the same module. */
  datatype ErlangModule = ErlangModule(containingFile: VirtualFile, name: string)

  /** The PSI of an Erlang file; `declaredModule` is null when it declares none. */
  datatype ErlangFile = ErlangFile(virtualFile: VirtualFile, declaredModule: Option<ErlangModule>)

  /** What the PSI manager finds for a virtual file: Erlang PSI or PSI of another language. */
  datatype PsiFile = ErlangPsi(erlangFile: ErlangFile) | OtherPsi(virtualFile: VirtualFile)

  /** The input filter: only Erlang module files are indexed. */
  predicate AcceptInput(file: VirtualFile) {
    file.fileType == Module
  }

  /** The index declares that its keys do not depend on file content. */
  predicate DependsOnFileContent() {
    false
  }

  /** The data indexer: a singleton map whose key is the file's base name.
      The values carry no data (Java's `Void`). */
  function IndexerMap(input: FileContent): (r: map<string, ()>)
    ensures r.Keys == {NameWithoutExtension(input.file.name)}
  {
    map[NameWithoutExtension(input.file.name) := ()]
  }

  /** The indexer's output depends on the file alone, never on its content. */
  lemma IndexerMapIgnoresContent(file: VirtualFile, content: string, otherContent: string)
    ensures IndexerMap(FileContent(file, content)) == IndexerMap(FileContent(file, otherContent))
  {
  }

  /** The files stored under `key` when the given corpus has been indexed. */
  function EntryFiles(corpus: set<VirtualFile>, contentOf: VirtualFile -> string, key: string): set<VirtualFile>
  {
    set f | f in corpus && AcceptInput(f) && key in IndexerMap(FileContent(f, contentOf(f)))
  }

  /** Every key the indexer produces for an accepted file of the corpus. */
  function IndexedNames(corpus: set<VirtualFile>, contentOf: VirtualFile -> string): set<string>
  {
    set f, key | f in corpus && AcceptInput(f) && key in IndexerMap(FileContent(f, contentOf(f))) :: key
  }

  /** A name is indexed exactly when some accepted file of the corpus has it as base name. */
  lemma IndexedNamesMembers(corpus: set<VirtualFile>, contentOf: VirtualFile -> string, key: string)
    ensures key in IndexedNames(corpus, contentOf) <==>
      exists f :: f in corpus && AcceptInput(f) && NameWithoutExtension(f.name) == key
  {
    if key in IndexedNames(corpus, contentOf) {
      var f :| f in corpus && AcceptInput(f) && key in IndexerMap(FileContent(f, contentOf(f)));
    }
    if exists f :: f in corpus && AcceptInput(f) && NameWithoutExtension(f.name) == key {
      var f :| f in corpus && AcceptInput(f) && NameWithoutExtension(f.name) == key;
      assert key in IndexerMap(FileContent(f, contentOf(f)));
    }
  }

  /** The index built from scratch over a corpus: module name to defining files. */
  function Index(corpus: set<VirtualFile>, contentOf: VirtualFile -> string): map<string, set<VirtualFile>>
  {
    map key | key in IndexedNames(corpus, contentOf) :: EntryFiles(corpus, contentOf, key)
  }

  /** A file is stored under a name exactly when it is an Erlang module file
      of the corpus whose base name is that name; no name is stored without files. */
  lemma IndexEntry(corpus: set<VirtualFile>, contentOf: VirtualFile -> string, key: string, f: VirtualFile)
    ensures (key in Index(corpus, contentOf) && f in Index(corpus, contentOf)[key]) <==>
      (f in corpus && f.fileType == Module && key == NameWithoutExtension(f.name))
    ensures key in Index(corpus, contentOf) ==> Index(corpus, contentOf)[key] != {}
  {
    IndexedNamesMembers(corpus, contentOf, key);
    if key in Index(corpus, contentOf) {
      var g :| g in corpus && AcceptInput(g) && NameWithoutExtension(g.name) == key;
      assert g in EntryFiles(corpus, contentOf, key);
    }
  }

  /** The files the index holds for `name`; none when the name is unknown. */
  function ContainingFiles(corpus: set<VirtualFile>, contentOf: VirtualFile -> string, name: string): set<VirtualFile>
  {
    var idx := Index(corpus, contentOf);
    if name in idx then idx[name] else {}
  }

  /** The index does not depend on file content, as it declares. */
  lemma IndexIgnoresContent(corpus: set<VirtualFile>, contentOf: VirtualFile -> string, otherContentOf: VirtualFile -> string)
    ensures !DependsOnFileContent()
    ensures Index(corpus, contentOf) == Index(corpus, otherContentOf)
  {
    forall key ensures EntryFiles(corpus, contentOf, key) == EntryFiles(corpus, otherContentOf, key) {
    }
    forall key ensures key in IndexedNames(corpus, contentOf) <==> key in IndexedNames(corpus, otherContentOf) {
      IndexedNamesMembers(corpus, contentOf, key);
      IndexedNamesMembers(corpus, otherContentOf, key);
    }
    assert IndexedNames(corpus, contentOf) == IndexedNames(corpus, otherContentOf);
  }

  /** Files under different names are disjoint: each file has exactly one key. */
  lemma EntriesDisjoint(corpus: set<VirtualFile>, contentOf: VirtualFile -> string, key1: string, key2: string)
    requires key1 != key2
    ensures ContainingFiles(corpus, contentOf, key1) !! ContainingFiles(corpus, contentOf, key2)
  {
  }

  /** Two maps from names to non-empty file sets that agree on which file
      is stored under which name are equal. */
  lemma SameEntriesSameIndex(a: map<string, set<VirtualFile>>, b: map<string, set<VirtualFile>>)
    requires forall k :: k in a ==> a[k] != {}
    requires forall k :: k in b ==> b[k] != {}
    requires forall k, f :: (k in a && f in a[k]) <==> (k in b && f in b[k])
    ensures a == b
  {
    forall k | k in a ensures k in b && a[k] == b[k] {
      var f: VirtualFile :| f in a[k];
      assert f in b[k];
    }
    forall k | k in b ensures k in a {
      var f: VirtualFile :| f in b[k];
      assert f in a[k];
    }
  }

  /** The index after `file` is added to the corpus, stated incrementally. */
  function IndexWithFile(corpus: set<VirtualFile>, contentOf: VirtualFile -> string, file: VirtualFile): map<string, set<VirtualFile>>
  {
    var key := NameWithoutExtension(file.name);
    if AcceptInput(file) then Index(corpus, contentOf)[key := ContainingFiles(corpus, contentOf, key) + {file}]
    else Index(corpus, contentOf)
  }

  /** Membership in the incrementally stated index, file by file. */
  lemma IndexWithFileEntry(corpus: set<VirtualFile>, contentOf: VirtualFile -> string, file: VirtualFile,
                           key: string, f: VirtualFile)
    ensures (key in Index(corpus + {file}, contentOf) && f in Index(corpus + {file}, contentOf)[key]) <==>
      (key in IndexWithFile(corpus, contentOf, file) && f in IndexWithFile(corpus, contentOf, file)[key])
  {
    IndexEntry(corpus, contentOf, key, f);
    IndexEntry(corpus + {file}, contentOf, key, f);
  }

  /** Adding one file to the corpus changes only the entry of its own name
      (and only when the filter accepts it): the from-scratch index equals
      the old index with that file's contribution added. */
  lemma IndexAddFile(corpus: set<VirtualFile>, contentOf: VirtualFile -> string, file: VirtualFile)
    ensures Index(corpus + {file}, contentOf) == IndexWithFile(corpus, contentOf, file)
  {
    var after, expected := Index(corpus + {file}, contentOf), IndexWithFile(corpus, contentOf, file);
    forall k, f ensures (k in after && f in after[k]) <==> (k in expected && f in expected[k]) {
      IndexWithFileEntry(corpus, contentOf, file, k, f);
    }
    forall k | k in after ensures after[k] != {} {
      IndexEntry(corpus + {file}, contentOf, k, file);
    }
    forall k | k in expected ensures expected[k] != {} {
      IndexEntry(corpus, contentOf, k, file);
    }
    SameEntriesSameIndex(after, expected);
  }

  /** Removing a file from the corpus retracts it from every entry. */
  lemma RemovedFileRetracted(corpus: set<VirtualFile>, contentOf: VirtualFile -> string, file: VirtualFile, name: string)
    ensures file !in ContainingFiles(corpus - {file}, contentOf, name)
  {
  }

  /** The index after `file` leaves the corpus, stated incrementally: the
      file is taken out of its own name's entry, and that name is dropped
      when no other file remains under it. */
  function IndexWithoutFile(corpus: set<VirtualFile>, contentOf: VirtualFile -> string, file: VirtualFile): map<string, set<VirtualFile>>
  {
    var idx := Index(corpus, contentOf);
    var key := NameWithoutExtension(file.name);
    if key !in idx then idx
    else if idx[key] - {file} == {} then idx - {key}
    else idx[key := idx[key] - {file}]
  }

  /** Membership in the index without `file`, file by file. */
  lemma IndexWithoutFileEntry(corpus: set<VirtualFile>, contentOf: VirtualFile -> string, file: VirtualFile,
                              key: string, f: VirtualFile)
    ensures (key in Index(corpus - {file}, contentOf) && f in Index(corpus - {file}, contentOf)[key]) <==>
      (key in IndexWithoutFile(corpus, contentOf, file) && f in IndexWithoutFile(corpus, contentOf, file)[key])
  {
    var idx := Index(corpus, contentOf);
    IndexEntry(corpus, contentOf, key, f);
    IndexEntry(corpus - {file}, contentOf, key, f);
    var without := IndexWithoutFile(corpus, contentOf, file);
    var name := NameWithoutExtension(file.name);
    if key != name {
      assert key in without <==> key in idx;
      assert key in idx ==> without[key] == idx[key];
    } else if name in idx && idx[name] - {file} != {} {
      assert without[key] == idx[key] - {file};
    } else {
      assert key !in without;
    }
  }

  /** Removing one file from the corpus changes only the entry of its own
      name: the from-scratch index equals the old index with that file's
      contribution retracted, and every other entry is unchanged. */
  lemma IndexRemoveFile(corpus: set<VirtualFile>, contentOf: VirtualFile -> string, file: VirtualFile)
    ensures Index(corpus - {file}, contentOf) == IndexWithoutFile(corpus, contentOf, file)
  {
    var after, expected := Index(corpus - {file}, contentOf), IndexWithoutFile(corpus, contentOf, file);
    forall k, f ensures (k in after && f in after[k]) <==> (k in expected && f in expected[k]) {
      IndexWithoutFileEntry(corpus, contentOf, file, k, f);
    }
    forall k | k in after ensures after[k] != {} {
      IndexEntry(corpus - {file}, contentOf, k, file);
    }
    forall k | k in expected ensures expected[k] != {} {
      IndexEntry(corpus, contentOf, k, file);
    }
    SameEntriesSameIndex(after, expected);
  }

  /** The base names of the two files of the scenario below. */
  lemma ScenarioBaseNames()
    ensures NameWithoutExtension("foo.erl") == "foo"
    ensures NameWithoutExtension("foo_test.erl") == "foo_test"
  {
  }

  /** Two module files with different base names: each name finds only its own file. */
  lemma TwoModuleFiles(a: VirtualFile, b: VirtualFile, contentOf: VirtualFile -> string)
    requires a.fileType == Module && b.fileType == Module
    requires NameWithoutExtension(a.name) != NameWithoutExtension(b.name)
    ensures ContainingFiles({a, b}, contentOf, NameWithoutExtension(a.name)) == {a}
  {
    var key := NameWithoutExtension(a.name);
    forall f ensures f in ContainingFiles({a, b}, contentOf, key) <==> f == a {
      IndexEntry({a, b}, contentOf, key, f);
    }
  }

  /** foo.erl and foo_test.erl: the name "foo" finds only
      foo.erl and the name "foo_test" only foo_test.erl. */
  lemma DistinctBaseNames(foo: VirtualFile, fooTest: VirtualFile, contentOf: VirtualFile -> string)
    requires foo.name == "foo.erl" && fooTest.name == "foo_test.erl"
    requires foo.fileType == Module && fooTest.fileType == Module
    ensures ContainingFiles({foo, fooTest}, contentOf, "foo") == {foo}
    ensures ContainingFiles({foo, fooTest}, contentOf, "foo_test") == {fooTest}
  {
    ScenarioBaseNames();
    TwoModuleFiles(foo, fooTest, contentOf);
    TwoModuleFiles(fooTest, foo, contentOf);
    assert {fooTest, foo} == {foo, fooTest};
  }

  /** `vFile` yields `v` in getByName: it is in a source root, it resolves to
      Erlang PSI, and the mapper returns a non-null `v` for that PSI. */
  predicate Yields<T(==)>(vFile: VirtualFile, isInSource: VirtualFile -> bool, findFile: VirtualFile -> Option<PsiFile>,
                      mapper: ErlangFile -> Option<T>, v: T)
  {
    && isInSource(vFile)
    && findFile(vFile).Some?
    && findFile(vFile).value.ErlangPsi?
    && mapper(findFile(vFile).value.erlangFile) == Some(v)
  }

  /** What one containing file adds to getByName's result set. */
  function Contribution<T(==,!new)>(vFile: VirtualFile, isInSource: VirtualFile -> bool, findFile: VirtualFile -> Option<PsiFile>,
                           mapper: ErlangFile -> Option<T>): (r: set<T>)
    ensures forall v :: v in r <==> Yields(vFile, isInSource, findFile, mapper, v)
  {
    if !isInSource(vFile) then {}
    else match findFile(vFile)
      case Some(ErlangPsi(erlangFile)) => (match mapper(erlangFile) case Some(v) => {v} case None => {})
      case _ => {}
  }

  /** The result set after getByName's loop has visited `files`. */
  function Collected<T(==,!new)>(files: seq<VirtualFile>, isInSource: VirtualFile -> bool, findFile: VirtualFile -> Option<PsiFile>,
                        mapper: ErlangFile -> Option<T>): set<T>
    decreases |files|
  {
    if files == [] then {}
    else Collected(files[..|files| - 1], isInSource, findFile, mapper)
         + Contribution(files[|files| - 1], isInSource, findFile, mapper)
  }

  /** Soundness and completeness of getByName's result set: a value is in it
      exactly when some containing file yields it. */
  lemma {:induction false} CollectedMembers<T(!new)>(files: seq<VirtualFile>, isInSource: VirtualFile -> bool,
                                               findFile: VirtualFile -> Option<PsiFile>, mapper: ErlangFile -> Option<T>, v: T)
    ensures v in Collected(files, isInSource, findFile, mapper) <==>
      exists j :: 0 <= j < |files| && Yields(files[j], isInSource, findFile, mapper, v)
    decreases |files|
  {
    if files != [] {
      var prefix := files[..|files| - 1];
      CollectedMembers(prefix, isInSource, findFile, mapper, v);
      if v in Collected(files, isInSource, findFile, mapper) {
        if v in Collected(prefix, isInSource, findFile, mapper) {
          var j :| 0 <= j < |prefix| && Yields(prefix[j], isInSource, findFile, mapper, v);
          assert files[j] == prefix[j];
        } else {
          assert Yields(files[|files| - 1], isInSource, findFile, mapper, v);
        }
      } else {
        forall j | 0 <= j < |files| ensures !Yields(files[j], isInSource, findFile, mapper, v) {
          if j < |prefix| { assert files[j] == prefix[j]; }
        }
      }
    }
  }

  /** A file outside the source roots, one that does not resolve to Erlang
      PSI, or one the mapper maps to null leaves the result unchanged. */
  lemma DroppedFile<T(!new)>(files: seq<VirtualFile>, isInSource: VirtualFile -> bool, findFile: VirtualFile -> Option<PsiFile>,
                       mapper: ErlangFile -> Option<T>, vFile: VirtualFile)
    requires || !isInSource(vFile)
             || findFile(vFile).None?
             || findFile(vFile).value.OtherPsi?
             || mapper(findFile(vFile).value.erlangFile).None?
    ensures Collected(files + [vFile], isInSource, findFile, mapper) == Collected(files, isInSource, findFile, mapper)
  {
  }

  /** The list view of a set (`new ArrayList<T>(set)`): every element once,
      in the set's iteration order, which the model leaves unspecified. */
  method ToList<T(==)>(s: set<T>) returns (r: seq<T>)
    ensures Distinct(r)
    ensures forall v :: v in r <==> v in s
  {
    r := [];
    var rest := s;
    while rest != {}
      invariant forall v :: v in s <==> v in r || v in rest
      invariant forall v :: v in r ==> v !in rest
      invariant Distinct(r)
      decreases rest
    {
      var x :| x in rest;
      r := r + [x];
      rest := rest - {x};
    }
  }

  /** getByName: visit the files the index holds for a name, skip those
      outside the source roots, keep those that resolve to Erlang PSI, add
      the mapper's non-null results to a set and return it as a list. */
  method GetByName<T(==,!new)>(files: seq<VirtualFile>, isInSource: VirtualFile -> bool, findFile: VirtualFile -> Option<PsiFile>,
                      mapper: ErlangFile -> Option<T>) returns (r: seq<T>)
    ensures Distinct(r)
    ensures forall v :: v in r <==> exists j :: 0 <= j < |files| && Yields(files[j], isInSource, findFile, mapper, v)
  {
    var result: set<T> := {};
    for i := 0 to |files|
      invariant result == Collected(files[..i], isInSource, findFile, mapper)
    {
      assert files[..i + 1][..i] == files[..i];
      var vFile := files[i];
      if !isInSource(vFile) {
        continue;
      }
      var psiFile := findFile(vFile);
      if psiFile.Some? && psiFile.value.ErlangPsi? {
        var mapped := mapper(psiFile.value.erlangFile);
        if mapped.Some? {
          result := result + {mapped.value};
        }
      }
    }
    assert files[..|files|] == files;
    r := ToList(result);
    forall v ensures v in r <==> exists j :: 0 <= j < |files| && Yields(files[j], isInSource, findFile, mapper, v) {
      CollectedMembers(files, isInSource, findFile, mapper, v);
    }
  }

  /** The mapper of getFilesByName: the Erlang file itself. */
  function IdentityMapper(erlangFile: ErlangFile): Option<ErlangFile>
  {
    Some(erlangFile)
  }

  /** The mapper of getModulesByName: the file's module declaration, possibly null. */
  function ModuleMapper(erlangFile: ErlangFile): Option<ErlangModule>
  {
    erlangFile.declaredModule
  }

  /** getFilesByName: the Erlang PSI of the in-source files among `files`, each once. */
  method GetFilesByName(files: seq<VirtualFile>, isInSource: VirtualFile -> bool, findFile: VirtualFile -> Option<PsiFile>)
    returns (r: seq<ErlangFile>)
    ensures Distinct(r)
    ensures forall e :: e in r <==>
      exists j :: 0 <= j < |files| && isInSource(files[j]) && findFile(files[j]) == Some(ErlangPsi(e))
  {
    r := GetByName(files, isInSource, findFile, IdentityMapper);
  }

  /** getModulesByName: the non-null module declarations of the in-source
      Erlang files among `files`, each once. */
  method GetModulesByName(files: seq<VirtualFile>, isInSource: VirtualFile -> bool, findFile: VirtualFile -> Option<PsiFile>)
    returns (r: seq<ErlangModule>)
    ensures Distinct(r)
    ensures forall m :: m in r <==>
      exists j :: 0 <= j < |files| && isInSource(files[j]) && findFile(files[j]).Some? &&
        findFile(files[j]).value.ErlangPsi? && findFile(files[j]).value.erlangFile.declaredModule == Some(m)
  {
    r := GetByName(files, isInSource, findFile, ModuleMapper);
  }

  /** The PSI manager finds, for a virtual file, PSI belonging to that file. */
  predicate FindsOwnFile(findFile: VirtualFile -> Option<PsiFile>, vFile: VirtualFile)
  {
    findFile(vFile).Some? && findFile(vFile).value.ErlangPsi? ==>
      findFile(vFile).value.erlangFile.virtualFile == vFile
  }

  /** When `files` are files the index holds for `name` and the PSI manager
      returns each file's own PSI, every file getFilesByName returns is an
      in-source Erlang module file whose base name is `name`. */
  lemma FilesByNameAreNamedModules(corpus: set<VirtualFile>, contentOf: VirtualFile -> string, name: string,
                                   files: seq<VirtualFile>, isInSource: VirtualFile -> bool,
                                   findFile: VirtualFile -> Option<PsiFile>, e: ErlangFile)
    requires forall j :: 0 <= j < |files| ==> files[j] in ContainingFiles(corpus, contentOf, name)
    requires forall j :: 0 <= j < |files| ==> FindsOwnFile(findFile, files[j])
    requires exists j :: 0 <= j < |files| && isInSource(files[j]) && findFile(files[j]) == Some(ErlangPsi(e))
    ensures e.virtualFile in ContainingFiles(corpus, contentOf, name)
    ensures e.virtualFile.fileType == Module && NameWithoutExtension(e.virtualFile.name) == name
    ensures isInSource(e.virtualFile)
  {
  }

  /** Two different source files whose PSI declares a module of the same
      name give two results: getModulesByName does not merge them. */
  lemma SameNamedModulesStayApart(a: VirtualFile, b: VirtualFile, name: string, isInSource: VirtualFile -> bool,
                                  findFile: VirtualFile -> Option<PsiFile>)
    requires a != b && isInSource(a) && isInSource(b)
    requires findFile(a) == Some(ErlangPsi(ErlangFile(a, Some(ErlangModule(a, name)))))
    requires findFile(b) == Some(ErlangPsi(ErlangFile(b, Some(ErlangModule(b, name)))))
    ensures Collected([a, b], isInSource, findFile, ModuleMapper) == {ErlangModule(a, name), ErlangModule(b, name)}
    ensures |Collected([a, b], isInSource, findFile, ModuleMapper)| == 2
  {
    assert [a, b][..1] == [a];
    assert [a][..0] == [];
    assert Contribution(a, isInSource, findFile, ModuleMapper) == {ErlangModule(a, name)};
    assert Contribution(b, isInSource, findFile, ModuleMapper) == {ErlangModule(b, name)};
    assert Collected([a], isInSource, findFile, ModuleMapper) == {ErlangModule(a, name)};
  }
}
