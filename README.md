# Erlang module index and keyword completion

A Dafny model of two pieces of the IntelliJ Erlang plugin.

**The module index** (`ErlangModuleIndex`) is a file-based index keyed by module name. Its input filter accepts only files whose type is the Erlang module type. Its indexer maps each accepted file to one key: the file name without its extension, taken from the name alone and never from the content. Its lookup, `getByName`, walks the files the index holds for a name. It skips files outside the source roots and keeps files whose PSI is an Erlang file. It applies a mapper (the identity for `getFilesByName`, the module declaration for `getModulesByName`), drops null results, and returns the survivors as a duplicate-free list.

**Keyword completion** (`ErlangCompletionContributor`) reparses the document from offset 0 up to the start of the caret element. When that prefix is empty, it parses the platform's dummy identifier instead. The completion offset is the caret's start offset. The parser reports the items it expected at that offset to a completion state. The contributor's `convertItem` keeps keyword element types (as their names) and plain strings (unchanged), and turns everything else into null. `addCompletions` then adds one bold lookup element per collected suggestion, in order.

Files:
- `platform.dfy`, module `Platform`: host values. These are nullable results (`Option`), virtual files with their file type, text ranges, and the extension-stripping helper.
- `module_index.dfy`, module `ModuleIndex`: the filter, the indexer and the index built from scratch over a corpus. It also holds the imperative `GetByName` loop and the two lookups built on it.
- `completion.dfy`, module `Completion`: the query text and offset, `convertItem`, and the completion state as a class. It also holds the parse-driven collection loop and `SuggestKeywords`/`AddCompletions`.

Host collaborators are parameters of the model:
- `isInSource`, `findFile`, the mapper and the parser (`parse`) are function parameters.
- The lexer's keyword set is a set parameter.
- The files `getContainingFiles` returns are a sequence parameter.
- The corpus an index is built from is a set of virtual files, plus a content function that the index is proved to ignore.

Assumptions about host code that is not part of this model:
- `getNameWithoutExtension` is taken as "cut at the last `.`; the whole name when there is none" (`Platform.NameWithoutExtension`).
- `CompletionInitializationContext.DUMMY_IDENTIFIER` is taken to be `"IntellijIdeaRulezzz "`.
- The completion state's `items` collection records each string once, in the order first added (`Completion.CompletionState.AddItem`).

Two behaviours of the code worth noting:
- The code's `convertItem` passes plain string items through unchanged, besides keyword element types. So suggestions are not only keywords (`Completion.SuggestionsAreKeywordsOrStrings`).
- The code does not check the caret offset against the document. The model's `ValidPosition` requires what the platform guarantees of a PSI element's range instead of an invalid-argument error.
- Incremental index maintenance (add, change or remove events) belongs to the host. The model states each event as a property of the from-scratch index. An added file is `IndexAddFile`. A removed file is `IndexRemoveFile` and `RemovedFileRetracted`. A content change that keeps the name leaves the index as it was, by `IndexIgnoresContent`. A rename is a removal followed by an add.

## Model

| member | source | states |
|---|---|---|
| Platform.NameWithoutExtension | src/org/intellij/erlang/ErlangModuleIndex.java:126 | With no `.` in the name the result is the whole name; otherwise the name is the result, a `.`, and an extension without `.` |
| Platform.NameWithoutExtensionOfDotted | src/org/intellij/erlang/ErlangModuleIndex.java:126 | Stripping the extension from `base.ext` (ext without `.`) gives back `base`: the cut is at the last dot |
| ModuleIndex.AcceptInput | src/org/intellij/erlang/ErlangModuleIndex.java:44-46 | The input filter accepts a file exactly when its file type is the Erlang module type (a definition; its consequences are `IndexEntry`) |
| ModuleIndex.DependsOnFileContent | src/org/intellij/erlang/ErlangModuleIndex.java:79-81 | The index declares that it does not depend on content (a definition; `IndexIgnoresContent` proves the declaration holds) |
| ModuleIndex.IndexerMap | src/org/intellij/erlang/ErlangModuleIndex.java:122-128 | The indexer's output is a singleton map whose only key is the file's name without extension |
| ModuleIndex.IndexerMapIgnoresContent | src/org/intellij/erlang/ErlangModuleIndex.java:125-126 | Two inputs for the same file with different content give the same indexer output |
| ModuleIndex.IndexedNamesMembers | src/org/intellij/erlang/ErlangModuleIndex.java:42-47 | A name is a key of the index exactly when some accepted (module-type) file of the corpus has it as base name |
| ModuleIndex.IndexEntry | src/org/intellij/erlang/ErlangModuleIndex.java:42-47 | A file is stored under a name iff it is in the corpus, has the module file type and has that base name; no key maps to an empty set |
| ModuleIndex.IndexIgnoresContent | src/org/intellij/erlang/ErlangModuleIndex.java:78-81 | The index declares no content dependence, and the index over a corpus is the same under any file contents |
| ModuleIndex.EntriesDisjoint | src/org/intellij/erlang/ErlangModuleIndex.java:125-126 | The file sets of two different names are disjoint: each file contributes exactly one key |
| ModuleIndex.IndexAddFile | src/org/intellij/erlang/ErlangModuleIndex.java:42-47 | Rebuilding after adding a file equals the old index with the file added under its own base name (unchanged if the filter rejects it) |
| ModuleIndex.IndexRemoveFile | src/org/intellij/erlang/ErlangModuleIndex.java:42-47 | Rebuilding after removing a file equals the old index with the file taken out of its own base name's entry, and that name dropped when its entry becomes empty; every other entry is unchanged |
| ModuleIndex.RemovedFileRetracted | src/org/intellij/erlang/ErlangModuleIndex.java:122-128 | After a file leaves the corpus, no name lists it |
| ModuleIndex.DistinctBaseNames | src/org/intellij/erlang/ErlangModuleIndex.java:125-126 | With foo.erl and foo_test.erl indexed, "foo" holds exactly foo.erl and "foo_test" exactly foo_test.erl |
| ModuleIndex.Contribution | src/org/intellij/erlang/ErlangModuleIndex.java:113-117 | One containing file adds a value exactly when it is in source, resolves to Erlang PSI and the mapper gives that value as non-null |
| ModuleIndex.CollectedMembers | src/org/intellij/erlang/ErlangModuleIndex.java:110-118 | Soundness and completeness: a value is in the result set iff some containing file in source, with Erlang PSI, maps to it |
| ModuleIndex.DroppedFile | src/org/intellij/erlang/ErlangModuleIndex.java:113-116 | A non-source file, a file without Erlang PSI, or a null mapper result leaves the result set unchanged |
| ModuleIndex.ToList | src/org/intellij/erlang/ErlangModuleIndex.java:119 | The list built from the set holds every element of the set exactly once and nothing else |
| ModuleIndex.GetByName | src/org/intellij/erlang/ErlangModuleIndex.java:108-120 | The returned list has no duplicates, and a value is in it iff some containing file in source, resolving to Erlang PSI, maps to it as non-null |
| ModuleIndex.IdentityMapper | src/org/intellij/erlang/ErlangModuleIndex.java:100-105 | The mapper of getFilesByName returns the Erlang file itself, never null (a definition; its consequence is `GetFilesByName`) |
| ModuleIndex.ModuleMapper | src/org/intellij/erlang/ErlangModuleIndex.java:89-95 | The mapper of getModulesByName returns the file's module declaration, null when there is none (a definition; its consequence is `GetModulesByName`) |
| ModuleIndex.GetFilesByName | src/org/intellij/erlang/ErlangModuleIndex.java:99-106 | With the identity mapper: a duplicate-free list of exactly the Erlang files found for in-source containing files |
| ModuleIndex.GetModulesByName | src/org/intellij/erlang/ErlangModuleIndex.java:88-96 | With the module mapper: a duplicate-free list of exactly the non-null module declarations of those files; each declaration carries its own file, so same-named modules of different files are all returned |
| ModuleIndex.SameNamedModulesStayApart | src/org/intellij/erlang/ErlangModuleIndex.java:88-96 | Two different in-source files that each declare a module of the same name give two distinct module results: the result set does not merge them |
| ModuleIndex.FilesByNameAreNamedModules | src/org/intellij/erlang/ErlangModuleIndex.java:99-120 | If the containing files come from the index for a name, every file returned is in source, is in that entry, has the module type and has that base name |
| Completion.PrefixRange | src/org/intellij/erlang/ErlangCompletionContributor.java:42 | The reparsed range starts at offset 0, and it is empty exactly when the caret element starts at 0 |
| Completion.QueryText | src/org/intellij/erlang/ErlangCompletionContributor.java:42-43 | The parsed text is the placeholder when the caret starts at 0; otherwise exactly the document's characters before the caret's start offset |
| Completion.CompletionOffset | src/org/intellij/erlang/ErlangCompletionContributor.java:46 | The completion offset equals the caret's start offset, which is the end of a non-empty parsed prefix |
| Completion.ConvertItem | src/org/intellij/erlang/ErlangCompletionContributor.java:49-52 | An element type gives its name iff it is a keyword (null otherwise); a string is returned unchanged; any other object gives null |
| Completion.Collect | src/org/intellij/erlang/ErlangCompletionContributor.java:47-56 | The items the completion state holds after the parser reports its expected items contain no duplicates and never outnumber the reported items |
| Completion.CollectMembers | src/org/intellij/erlang/ErlangCompletionContributor.java:47-56 | A string is suggested iff some expected item converts to it |
| Completion.CollectKeepsOrder | src/org/intellij/erlang/ErlangCompletionContributor.java:54-56 | When no suggestion is reported twice, the suggestions are exactly the converted items in the order reported |
| Completion.SuggestionsAreKeywordsOrStrings | src/org/intellij/erlang/ErlangCompletionContributor.java:47-56 | Each suggestion is the name of an expected keyword element type or an expected plain string |
| Completion.SuggestionsDependOnPrefixOnly | src/org/intellij/erlang/ErlangCompletionContributor.java:42-45 | Two documents that agree before the caret give the same suggestions |
| Completion.SuggestionsIgnoreSuffix | src/org/intellij/erlang/ErlangCompletionContributor.java:42-45 | Appending text to the document does not change the suggestions |
| Completion.EmptyPrefixUsesPlaceholder | src/org/intellij/erlang/ErlangCompletionContributor.java:43 | At a caret starting at 0 the parser sees the non-empty placeholder at completion offset 0 |
| Completion.CompletionState.constructor | src/org/intellij/erlang/ErlangCompletionContributor.java:47 | A new state holds the completion offset and the keyword set, and no items |
| Completion.CompletionState.AddItem | src/org/intellij/erlang/ErlangCompletionContributor.java:56 | Appends an item not yet present; leaves the items unchanged otherwise |
| Completion.EnsureParsed | src/org/intellij/erlang/ErlangCompletionContributor.java:54-55 | After parsing, the state holds the collection of the converted expected items, in order, without repeats |
| Completion.SuggestKeywords | src/org/intellij/erlang/ErlangCompletionContributor.java:38-57 | Returns the suggestions for the position's prefix text and offset, without duplicates |
| Completion.CompletionResultSet.AddElement | src/org/intellij/erlang/ErlangCompletionContributor.java:32 | Appends one lookup element to the result set |
| Completion.AddCompletions | src/org/intellij/erlang/ErlangCompletionContributor.java:30-34 | Appends exactly one bold lookup element per suggestion, in suggestion order, keeping what the result set held |

## Left out

- The host index machinery is not modelled: the index ID, version, key descriptor, and the getters that return the filter and indexer (ErlangModuleIndex.java:40-76). Neither are `getNames`/`getAllKeys` (83-85) or the storage and incremental maintenance of the index. These are platform code. The index is modelled as a function of the corpus instead.
- `getContainingFiles` and search-scope filtering are not modelled. The files it returns are an input sequence, which may be in any order and may hold repeats.
- `ProjectFileIndex.isInSource` and `PsiManager.findFile` are function parameters: they are platform code. `FindsOwnFile` states the one thing assumed of `findFile` (it returns the file's own PSI), and only where it is needed.
- PSI equality: `THashSet` uses Java `equals`, which for PSI elements is identity. The model gives each module declaration the virtual file it belongs to, so the declarations of two files stay distinct (`SameNamedModulesStayApart`). Two PSI values for the same file with equal contents are equal in the model, while Java could hold two distinct objects; the platform returns one PSI object per file.
- ModuleIndex.ToList: the iteration order of `new ArrayList<T>(set)` is left unspecified. The model picks the elements in an arbitrary order.
- The Erlang lexer and parser, and the offset-based filtering inside the completion state of `GeneratedParserUtilBase`, are not modelled. That code is not part of this model. The parser is the function `parse` from (text, completion offset) to the expected items in reporting order. `ErlangLexer.KEYWORDS` is the `keywords` parameter.
- Completion.CompletionState.AddItem: `items` is declared in `GeneratedParserUtilBase`, which is not part of this model. Its "each string once, in first-added order" behaviour is an assumption.
- `PsiFileFactory.createFileFromText`, `putUserData` and `TreeUtil.ensureParsed` are modelled only by their effect. The scratch file is its text, and `EnsureParsed` feeds the parser's expected items to the state.
- The cast of the containing file to `ErlangFile` is not modelled. The contributor is registered only for Erlang files.
- `LookupElementBuilder` rendering is recorded only as (text, bold). The `extend(...)` pattern registration is left out.
- gen/org/intellij/erlang/psi/ErlangRecordField.java is a generated interface with no behaviour.
- Offsets: documents are Dafny strings, whose offsets count Unicode scalar values. Java `String` offsets (and so `TextRange.substring`) count UTF-16 code units, which differ for characters outside the Basic Multilingual Plane.
- Concurrency and read/write-action discipline belong to the platform and are not modelled.
