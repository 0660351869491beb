/**
  Keyword completion for Erlang files. At a completion position the
  contributor reparses the document up to the position into a scratch file,
  lets the parser report what it expected at the end of that text into a
  completion state, and offers every collected keyword as a bold lookup
  element.
 */
module Completion {
  import opened Platform

  /** A token or rule type of the Erlang grammar; `toString` gives its debug name. */
  datatype ElementType = ElementType(debugName: string)

  /** An object the parser reports as expected at the completion point:
      an element type, a plain string, or any other object. */
  datatype ExpectedItem = TypeItem(elementType: ElementType) | TextItem(text: string) | OtherItem

  /** The platform's placeholder for "something is being typed here". */
  const DummyIdentifier: string := "IntellijIdeaRulezzz "

  /** The PSI element at the caret: its text range and the text of its file. */
  datatype Position = Position(textRange: TextRange, fileText: string)

  /** A PSI element's range lies inside the text of its file. */
  predicate ValidPosition(position: Position) {
    position.textRange.startOffset <= position.textRange.endOffset <= |position.fileText|
  }

  /** The part of the document that is reparsed: from the start of the file
      up to the start of the position. */
  function PrefixRange(position: Position): (range: TextRange)
    ensures range.startOffset == 0
    ensures range.IsEmpty() <==> position.textRange.startOffset == 0
  {
    TextRange(0, position.textRange.startOffset)
  }

  /** The text of the scratch file handed to the parser: the document before
      the position, or the placeholder when that is empty. */
  function QueryText(position: Position): (text: string)
    requires ValidPosition(position)
    ensures position.textRange.startOffset == 0 ==> text == DummyIdentifier
    ensures position.textRange.startOffset > 0 ==>
      |text| == position.textRange.startOffset &&
      forall k :: 0 <= k < |text| ==> text[k] == position.fileText[k]
  {
    var range := PrefixRange(position);
    if range.IsEmpty() then DummyIdentifier else range.Substring(position.fileText)
  }

  /** Where completion happens inside the scratch file: its end when the
      prefix is non-empty, since the scratch file starts at document offset 0. */
  function CompletionOffset(position: Position): (offset: int)
    requires ValidPosition(position)
    ensures offset == position.textRange.startOffset
    ensures position.textRange.startOffset > 0 ==> offset == |QueryText(position)|
  {
    position.textRange.startOffset - PrefixRange(position).startOffset
  }

  /** The contributor's `convertItem`: a keyword element type becomes its
      name, a string stays as it is, anything else becomes null. */
  function ConvertItem(item: ExpectedItem, keywords: set<ElementType>): (r: Option<string>)
    ensures item.TypeItem? ==> (r.Some? <==> item.elementType in keywords)
    ensures item.TypeItem? && r.Some? ==> r.value == item.elementType.debugName
    ensures item.TextItem? ==> r == Some(item.text)
    ensures item.OtherItem? ==> r == None
  {
    match item
    case TypeItem(t) => if t in keywords then Some(t.debugName) else None
    case TextItem(s) => Some(s)
    case OtherItem => None
  }

  /** The completion state's items after the parser reported `expected`, in
      order: each converted, non-null item is added unless it is already there.
      The items never repeat and never outnumber the reported items. */
  function Collect(expected: seq<ExpectedItem>, keywords: set<ElementType>): (items: seq<string>)
    ensures Distinct(items)
    ensures |items| <= |expected|
    decreases |expected|
  {
    if expected == [] then []
    else
      var items := Collect(expected[..|expected| - 1], keywords);
      match ConvertItem(expected[|expected| - 1], keywords)
      case None => items
      case Some(text) => if text in items then items else items + [text]
  }

  /** The non-null converted items, duplicates included, in order. */
  function Converted(expected: seq<ExpectedItem>, keywords: set<ElementType>): seq<string>
    decreases |expected|
  {
    if expected == [] then []
    else
      var items := Converted(expected[..|expected| - 1], keywords);
      match ConvertItem(expected[|expected| - 1], keywords)
      case None => items
      case Some(text) => items + [text]
  }

  /** The suggestions at a position, given what the parser expects at the end
      of a text when completing at an offset. */
  function Suggestions(position: Position, parse: (string, int) -> seq<ExpectedItem>, keywords: set<ElementType>): seq<string>
    requires ValidPosition(position)
  {
    Collect(parse(QueryText(position), CompletionOffset(position)), keywords)
  }

  /** A string is collected exactly when some expected item converts to it. */
  lemma {:induction false} CollectMembers(expected: seq<ExpectedItem>, keywords: set<ElementType>, s: string)
    ensures s in Collect(expected, keywords) <==>
      exists j :: 0 <= j < |expected| && ConvertItem(expected[j], keywords) == Some(s)
    decreases |expected|
  {
    if expected != [] {
      var prefix := expected[..|expected| - 1];
      CollectMembers(prefix, keywords, s);
      if s in Collect(expected, keywords) {
        if s in Collect(prefix, keywords) {
          var j :| 0 <= j < |prefix| && ConvertItem(prefix[j], keywords) == Some(s);
          assert expected[j] == prefix[j];
        }
      } else {
        forall j | 0 <= j < |expected| ensures ConvertItem(expected[j], keywords) != Some(s) {
          if j < |prefix| { assert expected[j] == prefix[j]; }
        }
      }
    }
  }

  /** When the parser never reports the same suggestion twice, the state
      holds exactly the converted items in the order they were reported. */
  lemma {:induction false} CollectKeepsOrder(expected: seq<ExpectedItem>, keywords: set<ElementType>)
    requires Distinct(Converted(expected, keywords))
    ensures Collect(expected, keywords) == Converted(expected, keywords)
    decreases |expected|
  {
    if expected != [] {
      var prefix := expected[..|expected| - 1];
      var before := Converted(prefix, keywords);
      match ConvertItem(expected[|expected| - 1], keywords)
      case None =>
        CollectKeepsOrder(prefix, keywords);
      case Some(text) =>
        assert Converted(expected, keywords) == before + [text];
        assert Distinct(before) by {
          forall i, j | 0 <= i < j < |before| ensures before[i] != before[j] {
            assert before[i] == Converted(expected, keywords)[i];
            assert before[j] == Converted(expected, keywords)[j];
          }
        }
        CollectKeepsOrder(prefix, keywords);
        assert text !in before by {
          forall i | 0 <= i < |before| ensures before[i] != text {
            assert Converted(expected, keywords)[i] == before[i];
            assert Converted(expected, keywords)[|before|] == text;
          }
        }
    }
  }

  /** Every suggestion is the name of a keyword element type the parser
      expected, or a plain string the parser expected. */
  lemma SuggestionsAreKeywordsOrStrings(position: Position, parse: (string, int) -> seq<ExpectedItem>,
                                        keywords: set<ElementType>, s: string)
    requires ValidPosition(position)
    requires s in Suggestions(position, parse, keywords)
    ensures
      var expected := parse(QueryText(position), CompletionOffset(position));
      exists j :: 0 <= j < |expected| &&
        ((expected[j].TypeItem? && expected[j].elementType in keywords && expected[j].elementType.debugName == s) ||
         expected[j] == TextItem(s))
  {
    var expected := parse(QueryText(position), CompletionOffset(position));
    CollectMembers(expected, keywords, s);
    var j :| 0 <= j < |expected| && ConvertItem(expected[j], keywords) == Some(s);
  }

  /** Prefix locality: two documents that agree before the position give
      the same suggestions, whatever follows the position. */
  lemma SuggestionsDependOnPrefixOnly(position: Position, other: Position,
                                      parse: (string, int) -> seq<ExpectedItem>, keywords: set<ElementType>)
    requires ValidPosition(position) && ValidPosition(other)
    requires other.textRange.startOffset == position.textRange.startOffset
    requires other.fileText[..other.textRange.startOffset] == position.fileText[..position.textRange.startOffset]
    ensures Suggestions(other, parse, keywords) == Suggestions(position, parse, keywords)
  {
  }

  /** Appending text to the document never changes the suggestions. */
  lemma SuggestionsIgnoreSuffix(range: TextRange, text: string, tail: string,
                                parse: (string, int) -> seq<ExpectedItem>, keywords: set<ElementType>)
    requires range.startOffset <= range.endOffset <= |text|
    ensures Suggestions(Position(range, text + tail), parse, keywords) == Suggestions(Position(range, text), parse, keywords)
  {
    assert (text + tail)[..range.startOffset] == text[..range.startOffset];
    SuggestionsDependOnPrefixOnly(Position(range, text), Position(range, text + tail), parse, keywords);
  }

  /** At the very start of the file the parser sees the placeholder at
      completion offset 0, never an empty text. */
  lemma EmptyPrefixUsesPlaceholder(position: Position, parse: (string, int) -> seq<ExpectedItem>, keywords: set<ElementType>)
    requires ValidPosition(position) && position.textRange.startOffset == 0
    ensures QueryText(position) == DummyIdentifier && QueryText(position) != ""
    ensures Suggestions(position, parse, keywords) == Collect(parse(DummyIdentifier, 0), keywords)
  {
  }

  /** The parser's completion state: the offset to complete at, the keyword
      set its `convertItem` consults, and the items collected so far. */
  class CompletionState {
    const offset: int
    const keywords: set<ElementType>
    var items: seq<string>

    constructor (offset: int, keywords: set<ElementType>)
      ensures this.offset == offset && this.keywords == keywords && items == []
    {
      this.offset := offset;
      this.keywords := keywords;
      items := [];
    }

    /** Records one suggestion; one already recorded is not recorded again. */
    method AddItem(text: string)
      modifies this
      ensures items == if text in old(items) then old(items) else old(items) + [text]
    {
      if text !in items {
        items := items + [text];
      }
    }
  }

  /** Parsing the scratch file with the state attached: the parser reports
      the items it expects at the completion offset, and each one that
      `convertItem` keeps is added to the state. */
  method EnsureParsed(text: string, state: CompletionState, parse: (string, int) -> seq<ExpectedItem>)
    requires state.items == []
    modifies state
    ensures state.items == Collect(parse(text, state.offset), state.keywords)
  {
    var expected := parse(text, state.offset);
    for i := 0 to |expected|
      invariant state.items == Collect(expected[..i], state.keywords)
    {
      assert expected[..i + 1][..i] == expected[..i];
      var converted := ConvertItem(expected[i], state.keywords);
      if converted.Some? {
        state.AddItem(converted.value);
      }
    }
    assert expected[..|expected|] == expected;
  }

  /** suggestKeywords: reparse the prefix before the position and return the
      items the completion state collected. */
  method SuggestKeywords(position: Position, parse: (string, int) -> seq<ExpectedItem>, keywords: set<ElementType>)
    returns (items: seq<string>)
    requires ValidPosition(position)
    ensures items == Suggestions(position, parse, keywords)
    ensures Distinct(items)
  {
    var range := TextRange(0, position.textRange.startOffset);
    var text := if range.IsEmpty() then DummyIdentifier else range.Substring(position.fileText);
    var completionOffset := position.textRange.startOffset - range.startOffset;
    var state := new CompletionState(completionOffset, keywords);
    EnsureParsed(text, state, parse);
    items := state.items;
  }

  /** A completion variant shown to the user. */
  datatype LookupElement = LookupElement(lookupString: string, bold: bool)

  /** The platform's sink for completion variants. */
  class CompletionResultSet {
    var elements: seq<LookupElement>

    constructor ()
      ensures elements == []
    {
      elements := [];
    }

    method AddElement(element: LookupElement)
      modifies this
      ensures elements == old(elements) + [element]
    {
      elements := elements + [element];
    }
  }

  /** addCompletions: one bold lookup element per suggested keyword, in the
      order of the suggestions, after whatever the result set already held. */
  method AddCompletions(position: Position, parse: (string, int) -> seq<ExpectedItem>, keywords: set<ElementType>,
                        result: CompletionResultSet)
    requires ValidPosition(position)
    modifies result
    ensures var suggestions := Suggestions(position, parse, keywords);
      |result.elements| == |old(result.elements)| + |suggestions| &&
      result.elements[..|old(result.elements)|] == old(result.elements) &&
      forall k :: 0 <= k < |suggestions| ==>
        result.elements[|old(result.elements)| + k] == LookupElement(suggestions[k], true)
  {
    var suggestions := SuggestKeywords(position, parse, keywords);
    for i := 0 to |suggestions|
      invariant |result.elements| == |old(result.elements)| + i
      invariant result.elements[..|old(result.elements)|] == old(result.elements)
      invariant forall k :: 0 <= k < i ==> result.elements[|old(result.elements)| + k] == LookupElement(suggestions[k], true)
    {
      result.AddElement(LookupElement(suggestions[i], true));
    }
  }
}
