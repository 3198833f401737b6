# Simplify-Docx core, modelled in Dafny

Simplify-Docx turns the element tree of a WordprocessingML document
(ECMA-376 Part 1, Office Open XML) into a tree of JSON-shaped
`{TYPE, VALUE, ...}` dictionaries. This project models the library's own
logic between the read-only XML node tree and the output dictionaries, and
proves properties of that model.

- **Dispatch registry.** A registry maps a name such as `CT_P` or
  `EG_PContent` to a definition. A definition holds tables of tags to yield,
  nest, ignore, warn about and skip, plus the groups it `extends`.
  `register_iterator` fills the registry, with a duplicate check.
  `build_iterators` resolves inheritance depth-first. `set_options` rebuilds
  the two option-dependent groups. The registration modules
  (`iterators/*.py`) are kept as data: the exact keyword calls they make.
- **Tree walker.** `xml_iter` classifies each child in sibling order, with
  precedence yield > nest > warn > ignore > skip > unexpected. `skip_range`
  elides a range of siblings.
- **Per-element serialisers.**
  - the property snapshot and `get_val` unwrapping;
  - containers;
  - the text-normalisation pipeline;
  - symbol, special-character and empty markers;
  - the body and table-cell loops, which share a peekable cursor and filter
    empty paragraphs;
  - table caption and description.
- **Complex fields.** Section 17.16 of ECMA-376 Part 1 defines complex
  fields. Here they cover:
  - the `fldChar` state machine (field codes → field results → complete);
  - checkbox, dropdown, text-input and generic field values;
  - the paragraph driver, which routes run contents into an open field and
    can greedily consume the next paragraph;
  - `merge_run_contents` and paragraph trimming.
- **Output-tree utilities.**
  - `get_tag` parses Clark-notation tags; `get_attrs` filters attributes.
  - `walk` is an explicit-stack pre-order search with early exit.
  - `apply_friendly_names` renames `TYPE` fields.

How the model is built:

- **Modelled on values.**
  - XML nodes are a `Node` datatype. Output dictionaries are `Json` values
    whose objects are association lists, so Python's insertion order, `del`,
    `pop` and `update` can be stated exactly.
  - Python exceptions are `Err`/`Fail` values carrying an `Error`.
  - Generators are a `Walked` value: the items produced, the warnings issued,
    and the error that ended the walk, if any.
- **Modelled imperatively, where the source mutates state.**
  - The registry is a class whose methods update its fields.
  - `fldChar` is a class whose `Update` method advances its state.
  - Dropdown trimming works in place on an array.
  - The loops (`xml_iter`, `skip_range`, the paragraph driver, the body/cell
    loop, trimming, `merge_run_contents`, `walk`, `get_attrs`, the property
    snapshot and `to_json`) are methods with `while` loops. Each is proved
    equal to a pure specification function, and the lemmas are stated about
    that function.

The options dictionary is a `map<string, bool>`. `Flag` models
`options.get(key, default)` and `Required` models `options[key]`, which
raises `KeyError` when the key is missing.

## Model

| member | source | states |
|---|---|---|
| Registry.Registry.constructor | src/simplify_docx/iterators/generic.py:31-32 | the registry starts with no definitions, no registration order and nothing built |
| Registry.Registry.Register | src/simplify_docx/iterators/generic.py:35-54 | with check_name, re-registering an existing name fails with the duplicate error and leaves the table unchanged; otherwise the definition replaces any earlier one, and the order grows only by new names |
| Registry.Own | src/simplify_docx/iterators/generic.py:71-75 | the copy a resolution starts from keeps the definition's own five tables and drops its extends list |
| Registry.Resolve | src/simplify_docx/iterators/generic.py:61-104 | a definition without extends resolves to itself unchanged; a resolved definition has no extends left; every failure is a RuntimeError |
| Registry.ResolveDeps | src/simplify_docx/iterators/generic.py:77-94 | folding the dependencies one by one preserves the accumulator's (empty) extends list; failures are RuntimeErrors |
| Registry.Registry.ResolveName | src/simplify_docx/iterators/generic.py:61-104 | the recursive `_resolve` succeeds exactly when the specification `Resolve` does, with the same error; an unregistered name raises KeyError; a resolved name is memoised, and entries for other names are untouched |
| Registry.Registry.FoldDeps | src/simplify_docx/iterators/generic.py:71-104 | the dependency loop computes exactly `Resolve` of the name, or fails with its error |
| Registry.Registry.ResolveDep | src/simplify_docx/iterators/generic.py:77-94 | one dependency step advances the fold by one dependency, or fails with the fold's error |
| Registry.Registry.Build | src/simplify_docx/iterators/generic.py:57-107 | building returns the first resolution failure in registration order; on success every registered name resolves and `built` gains exactly the resolved definitions; on failure too, every earlier entry stays, each entry is either an unchanged earlier one or a resolved table, and every name before the failing one is built with its resolution |
| Registry.Registry.PrefixResolves | src/simplify_docx/iterators/generic.py:106-107 | the names already handled by the build loop all resolve |
| Registry.Registry.BuildStops | src/simplify_docx/iterators/generic.py:106-107 | the build stops at the first name that fails, with that name's error |
| Registry.Registry.BuildCompletes | src/simplify_docx/iterators/generic.py:96-107 | after a full pass every registered name has a built definition equal to its resolution |
| Registry.AllResolvePass | src/simplify_docx/iterators/generic.py:106-107 | when every remaining name resolves, the build succeeds |
| Registry.FirstFailure | src/simplify_docx/iterators/generic.py:106-107 | the build's error is that of the first failing name in registration order |
| Registry.BuiltAfterBuild | src/simplify_docx/iterators/generic.py:96-107 | once every name is in the resolved list, the built table is the old one overridden by all resolutions |
| Registry.FoldMergeParts | src/simplify_docx/iterators/generic.py:84-94 | merging the dependencies one after another updates each table map with each dependency's map in extends order, and appends each dependency's ignore list |
| Registry.FoldMapsLookup | src/simplify_docx/iterators/generic.py:84-94 | a key is in the merged map iff it is in the own map or in some dependency's map; on a collision the last dependency having the key wins over earlier ones and over the own entry |
| Registry.ResolveDepsFold | src/simplify_docx/iterators/generic.py:77-94 | a successful resolution is the fold of the own tables with the resolved dependencies, in extends order, and every dependency resolved |
| Registry.ResolvedShape | src/simplify_docx/iterators/generic.py:71-94 | the resolved yield/nest/warn/skip maps are the own maps updated by each resolved dependency in order (the dependency wins); the ignore list is the own list followed by each dependency's list |
| Registry.MissingDependency | src/simplify_docx/iterators/generic.py:77-82 | an unregistered dependency raises the RuntimeError naming both the dependent and the missing group |
| Registry.SoleDependency | src/simplify_docx/iterators/generic.py:66-94 | a definition with empty tables that extends one group resolves to exactly that group's resolution |
| SetOptions.PContentTablesEntries | src/simplify_docx/utils/set_options.py:16-42 | EG_PContent always yields w:subDoc, nests w:r into CT_R, ignores w:customXmlPr and w:smartTagPr, and extends EG_RunLevelElts; fldSimple and hyperlink are nested into EG_PContent when their flatten flag is on, and yielded as their own kind otherwise |
| SetOptions.PContentFlagsExclusive | src/simplify_docx/utils/set_options.py:23-32 | each of w:fldSimple and w:hyperlink is in the nest map iff its flag is on and in the yield map iff it is off |
| SetOptions.ContentRunTablesEntries | src/simplify_docx/utils/set_options.py:45-73 | EG_ContentRunContents always yields w:sdt as empty, nests w:r into CT_R, warns "Ignoring text-direction tags" for w:dir and w:bdo, and extends EG_RunLevelElts; smartTag and customXml are nested or yielded according to their flags |
| SetOptions.ContentRunFlagsExclusive | src/simplify_docx/utils/set_options.py:52-61 | each of w:smartTag and w:customXml is in exactly one of the nest map (flag on) or the yield map (flag off) |
| SetOptions.SetPContents | src/simplify_docx/utils/set_options.py:16-42 | fails with KeyError exactly when a flatten-simpleField or flatten-hyperlink key is missing, changing nothing; otherwise it replaces EG_PContent with the flag-dependent tables without a duplicate error |
| SetOptions.SetContentRunContents | src/simplify_docx/utils/set_options.py:45-73 | fails with KeyError exactly when a flatten-smartTag or flatten-customXml key is missing; otherwise it replaces EG_ContentRunContents with the flag-dependent tables |
| SetOptions.Apply | src/simplify_docx/utils/set_options.py:9-13 | both groups are re-registered in order (a missing key stops at the first failing call), then the registry is rebuilt: the result is the build outcome, and on success every name resolves and is built |
| Iterators.ParamIndex | src/simplify_docx/iterators/generic.py:35-43 | the parameter a keyword binds to: a declared upper-case name always binds to itself; without the lower-case aliases, exactly the declared names bind |
| Iterators.BindFromFails | src/simplify_docx/iterators/generic.py:35-43 | binding keywords fails iff some keyword names no parameter |
| Iterators.BindFromFirstError | src/simplify_docx/iterators/generic.py:35-43 | the TypeError names the first keyword that matches no parameter |
| Iterators.BindError | src/simplify_docx/iterators/generic.py:35-43 | a call's keywords are rejected iff one of them is unknown, and the error names the first unknown one |
| Iterators.AliasesConservative | src/simplify_docx/iterators/generic.py:37-42 | for calls that use only the declared upper-case names, accepting lower-case aliases binds exactly as Python does |
| Iterators.CallEffect | src/simplify_docx/iterators/generic.py:35-54 | one registration call succeeds iff its keywords bind and the name is new; it then adds the bound definition and appends the name; any failure leaves the table and order unchanged |
| Iterators.RegisterCall | src/simplify_docx/iterators/generic.py:35-54 | performing one registration call on the registry has exactly the effect `CallEffect` describes |
| Iterators.RunCalls | src/simplify_docx/iterators/__init__.py:1-13 | running a module's calls in order keeps every earlier definition, and on success appends the calls' names to the order |
| Iterators.RunCallsAppend | src/simplify_docx/iterators/__init__.py:1-13 | importing one batch of calls after another is the same as importing them as one sequence, stopping at the first failure |
| Iterators.RunCallsFresh | src/simplify_docx/iterators/generic.py:49-54 | calls with fresh names whose keywords bind all succeed, and register exactly their names |
| Iterators.RunCallsFreshTables | src/simplify_docx/iterators/generic.py:49-54 | each fresh call leaves its own bound definition in the table |
| Iterators.BindTableCalls | src/simplify_docx/iterators/table.py:9-43 | with the intended keyword mapping, the table-module calls bind to: CT_Tbl ignoring tblPr/tblGrid and extending EG_ContentRowContent; EG_ContentRowContent yielding tr and sdt and nesting customXml into itself; CT_Row; EG_ContentCellContent; CT_Tc ignoring tcPr and extending EG_BlockLevelElts |
| Iterators.BindParagraphCalls | src/simplify_docx/iterators/paragraph.py:8-20 | CT_P ignores w:pPr, CT_CustomXmlRun ignores w:customXmlPr, CT_SmartTagRun ignores w:smartTagPr; CT_Hyperlink and CT_SimpleField add nothing; all five extend EG_PContent |
| Iterators.BindRangeMarkupCall | src/simplify_docx/iterators/body.py:9-30 | EG_RangeMarkupElements ignores the bookmark, comment-range and moveTo-range markers, warns "Ignoring Revision Tags" for the eight customXml revision markers, and skips from w:moveFromRangeStart as written |
| Iterators.BindRunLevelCall | src/simplify_docx/iterators/body.py:33-51 | EG_RunLevelElts yields m:oMathPara and m:oMath as empty, nests w:ins and w:moveTo into itself, ignores proofErr, perm, del, moveFrom and the range markers, and extends EG_RangeMarkupElements |
| Iterators.BindBlockLevelAndBodyCalls | src/simplify_docx/iterators/body.py:54-68 | EG_BlockLevelElts yields p, tbl, sdt and altChunk, nests customXml into itself, ignores sectPr, tcPr and pPr, and extends EG_RunLevelElts; CT_Body ignores sectPr and extends EG_BlockLevelElts |
| Iterators.BindRunAndDocumentCalls | src/simplify_docx/iterators/run.py:8-47 | CT_R yields text, SymbolChar, the six simple-text tags, fldChar, the empty-marker tags and contentPart, ignores its formatting and deleted-text children, and has no extends; CT_Document yields w:body and ignores w:docPartPr |
| Iterators.ImportModule | src/simplify_docx/iterators/body.py:9-68 | executing one registration module is running its calls in order on the registry |
| Iterators.ImportIterators | src/simplify_docx/iterators/__init__.py:1-13 | importing the package runs every module's calls in import order on the registry |
| Iterators.ImportAsWritten | src/simplify_docx/iterators/table.py:9-13 | as written, importing the package fails at its first call, with the TypeError for the lower-case keyword `tags_to_ignore`, and registers nothing |
| Iterators.ModulesAsWritten | src/simplify_docx/iterators/body.py:11 | as written, every registration module fails at its first call on a lower-case keyword |
| Iterators.ImportCorrected | src/simplify_docx/iterators/generic.py:35-54 | with the intended keyword mapping, importing into a registry that has none of the names registers all sixteen, in import order, each with its intended definition |
| Iterators.ImportTwice | src/simplify_docx/iterators/generic.py:49-50 | a second import fails at its first call with the duplicate error and changes nothing |
| Iterators.ImportedTables | src/simplify_docx/iterators/__init__.py:1-13 | the imported table holds exactly the sixteen registered names, each with its definition |
| Iterators.ImportRanked | src/simplify_docx/iterators/generic.py:61-84 | the imported extends graph is acyclic, so resolution terminates |
| Iterators.ImportedRun | src/simplify_docx/iterators/run.py:8-47 | CT_R has no extends, so its resolved definition is exactly its registration: any other run child is unexpected |
| Iterators.ImportedDocument | src/simplify_docx/iterators/document.py:8-12 | CT_Document resolves to exactly its registration |
| Iterators.ImportedParagraph | src/simplify_docx/iterators/paragraph.py:8-20 | before set_options registers EG_PContent, resolving any of the five paragraph-level names fails with the missing-dependency error naming EG_PContent |
| Iterators.NoPContent | src/simplify_docx/utils/set_options.py:16-42 | importing the registration modules never registers EG_PContent; only set_options does |
| Iterators.PassThroughTables | src/simplify_docx/iterators/paragraph.py:14-17 | CT_Hyperlink and CT_SimpleField resolve to exactly EG_PContent's resolution |
| Walker.Classify | src/simplify_docx/iterators/generic.py:125-157 | each tag gets exactly one treatment, by precedence yield > nest > warn > ignore > skip > unexpected, carrying the entry from the table that matched |
| Walker.Then | src/simplify_docx/iterators/generic.py:118-157 | continuing a walk: an error ends it there; otherwise the items are concatenated and the later part decides the error |
| Walker.ThenAssociative | src/simplify_docx/iterators/generic.py:118-157 | the order in which pieces of a walk are joined does not matter |
| Walker.RangeEnd | src/simplify_docx/iterators/generic.py:164-174 | a found range end lies among the later siblings |
| Walker.RangeEndFindsFirst | src/simplify_docx/iterators/generic.py:164-174 | a found end has the awaited local name and the start's id, and no earlier sibling does; when none is found, no sibling does |
| Walker.RangeEndRaises | src/simplify_docx/iterators/generic.py:170-173 | the search raises KeyError only when a sibling with the awaited local name lacks the id attribute |
| Walker.SkipTo | src/simplify_docx/iterators/generic.py:164-174 | the end found by the range search lies strictly after the start and among the siblings |
| Walker.SkipRangeLoop | src/simplify_docx/iterators/generic.py:164-174 | the while loop of `skip_range` returns exactly the specification's range end, a KeyError, or None |
| Walker.Walk | src/simplify_docx/iterators/generic.py:110-161 | walking under an unbuilt name raises KeyError; every emitted element is a strict descendant of the walked node |
| Walker.WalkFrom | src/simplify_docx/iterators/generic.py:118-157 | walking the children from a given index emits only strict descendants of the parent |
| Walker.WalkFromSkip | src/simplify_docx/iterators/generic.py:149-154 | at a skip-start the walk ends when no end is found, and otherwise resumes after the end |
| Walker.XmlIter | src/simplify_docx/iterators/generic.py:110-161 | the sibling loop yields exactly the items, warnings and terminating error of the recursive specification `Walk` |
| Walker.VisitChild | src/simplify_docx/iterators/generic.py:125-157 | one loop iteration produces this child's contribution and the next cursor, or ends the walk |
| Walker.FlatWalk | src/simplify_docx/iterators/generic.py:125-147 | with no nest and no skip entries, the walk never fails and yields exactly the children with a yield entry, in sibling order |
| Walker.SilentChild | src/simplify_docx/iterators/generic.py:140-157 | a warned, ignored or unexpected child emits nothing and is not descended; it adds its warning or UnexpectedElementWarning text (none when ignored) before the rest of the walk's warnings |
| Walker.YieldThenNest | src/simplify_docx/iterators/generic.py:126-133 | a tag in both yield and nest emits the element, then the nested walk's elements, then the later siblings' elements; an error in the nested walk ends the walk |
| Walker.UnclosedRangeEndsWalk | src/simplify_docx/iterators/generic.py:149-154 | a range whose end never comes ends the walk: the later siblings are dropped |
| Walker.SkippedRangeExample | src/simplify_docx/iterators/generic.py:149-154 | in a concrete tree, the skipped range emits nothing and the sibling after its end is emitted |
| Walker.SiblingOrderExample | src/simplify_docx/iterators/generic.py:118-128 | in a concrete tree, yielded siblings come out in document order |
| Walker.MoveFromEndMatches | src/simplify_docx/iterators/body.py:29 | the end tag registered for w:moveFromRangeStart parses as Clark notation with local name "MoveFromRangeEnd" |
| Walker.LocalNameNeverClark | src/simplify_docx/iterators/generic.py:172 | no tag's local name equals the qualified name registered as the moveFrom end |
| Walker.MoveFromNeverCloses | src/simplify_docx/iterators/generic.py:164-174 | as registered, the search for the moveFrom end finds nothing, whatever the siblings |
| Walker.MoveFromDropsRest | src/simplify_docx/iterators/body.py:29 | as registered, a w:moveFromRangeStart with a bare `id` attribute ends the walk, dropping every later sibling; one without that key raises KeyError |
| Walker.MoveFromQualifiedId | src/simplify_docx/iterators/generic.py:164-166 | as registered, a w:moveFromRangeStart whose attributes are all namespaced, as in every real document, makes the walk raise KeyError("id") at the range start |
| Walker.RangeEndByLocalName | src/simplify_docx/iterators/generic.py:170-173 | the first later sibling with the awaited local name and the start's id is the end found |
| Walker.SkipResumes | src/simplify_docx/iterators/generic.py:149-154 | when a matching end follows, the walk resumes right after it and nothing in the range is emitted |
| Walker.WalkFromSkipped | src/simplify_docx/iterators/generic.py:149-154 | a skip whose end is found continues exactly as the walk from after the end |
| Walker.MoveFromResumes | src/simplify_docx/iterators/body.py:29 | with the range keyed by the qualified `w:id` attribute and its end named by the local name "moveFromRangeEnd", a moveFrom range is skipped and the walk resumes right after its end |
| Tag.GetAttrs | src/simplify_docx/utils/tag.py:21-27 | the result holds exactly the requested names that are present on the node, with their values |
| Tag.LastIndexOf | src/simplify_docx/utils/tag.py:51 | the position of the last occurrence of a character, or None when it does not occur |
| Tag.MatchTag | src/simplify_docx/utils/tag.py:51 | a match has a non-empty word-character local part and, when braced, a non-empty namespace without `]` |
| Tag.MatchTagShape | src/simplify_docx/utils/tag.py:51 | a matched tag is exactly `{namespace}local` or `local`, optionally followed by one newline |
| Tag.MatchPlainWord | src/simplify_docx/utils/tag.py:34-36 | a plain word tag matches with no namespace and itself as local part |
| Tag.MatchClark | src/simplify_docx/utils/tag.py:37-42 | `{uri}local` matches with that namespace and local part |
| Tag.InvertKeys | src/simplify_docx/utils/tag.py:33 | every URI of the prefix table is a key of the inverted table |
| Tag.InvertEntries | src/simplify_docx/utils/tag.py:33 | every entry of the inverted table comes from a prefix/URI pair of the original |
| Tag.InvertLast | src/simplify_docx/utils/tag.py:33 | when several prefixes share a URI, the inverted table keeps the last one |
| Tag.LocalNameSpec | src/simplify_docx/iterators/generic.py:172 | the local name used by `skip_range` is the matched local part, or the whole tag when the pattern does not match |
| Tag.GetTag | src/simplify_docx/utils/tag.py:30-43 | a non-matching tag yields (None, None, tag, tag); a matching one keeps its namespace and local part; the prefix is set iff the namespace is in the inverted caller table (or the built-in table when none is given), giving "prefix:local", and the original tag otherwise |
| TreeWalk.Children | src/simplify_docx/utils/walk.py:74-88 | whatever the walk descends into is strictly smaller than the node |
| TreeWalk.FirstHitSpec | src/simplify_docx/utils/walk.py:50-72 | the search result is None iff no visited node gives a result; otherwise it is the result of the first such node in visit order |
| TreeWalk.VisitFirstHit | src/simplify_docx/utils/walk.py:50-101 | the recursive search returns the first non-None result over the pre-order sequence of visited nodes, children left to right |
| TreeWalk.VisitFromFirstHit | src/simplify_docx/utils/walk.py:80-88 | the same holds for a list of children visited from a given index |
| TreeWalk.NotDescended | src/simplify_docx/utils/walk.py:80-88 | a node whose TYPE is in no_iter is visited, but its VALUE list is not descended |
| TreeWalk.WalkTree | src/simplify_docx/utils/walk.py:7-101 | any keyword other than TYPE raises TypeError; a TYPE keyword overrides node_type; otherwise the result is the recursive pre-order search from the root with no context |
| TreeWalk.Search | src/simplify_docx/utils/walk.py:50-101 | the explicit-stack loop returns exactly the recursive search's result |
| TreeWalk.Step | src/simplify_docx/utils/walk.py:50-101 | one pop of the stack either finishes with the search's result or leaves a smaller stack owing the same result |
| TreeWalk.StepNode | src/simplify_docx/utils/walk.py:57-88 | visiting a node calls `fun` on it when the type matches, returns a non-None result at once, and otherwise pushes what is to be descended |
| TreeWalk.StepList | src/simplify_docx/utils/walk.py:80-99 | a list frame advances its index and pushes the next child |
| TreeWalk.CallVisitor | src/simplify_docx/utils/walk.py:62-68 | a one-parameter `fun` gets the node; a three-parameter one also gets the containing list and index, or (None, None) at the root |
| FriendlyNames.FriendlyIdempotent | src/simplify_docx/utils/friendly_names.py:11-38 | renaming a TYPE twice equals renaming it once, because no replacement is itself a table key |
| FriendlyNames.RelabelNode | src/simplify_docx/utils/friendly_names.py:37-52 | a non-dict fails, a dict without TYPE raises KeyError; on success TYPE is replaced by its table entry (or kept), the keys are unchanged and every key other than TYPE and VALUE is untouched |
| FriendlyNames.RelabelAllSpec | src/simplify_docx/utils/friendly_names.py:49-52 | renaming a list succeeds iff each element's renaming does, elementwise and in order |
| FriendlyNames.RelabelShape | src/simplify_docx/utils/friendly_names.py:41-52 | a node is renamed, then its VALUE dict if that has a TYPE, or every element of its VALUE list if the first has a TYPE; nothing else is descended |
| FriendlyNames.RelabelOutline | src/simplify_docx/utils/friendly_names.py:37-52 | only TYPE fields change: the tree with TYPEs erased is the same before and after, including nodes under keys other than VALUE |
| FriendlyNames.RelabelAllOutline | src/simplify_docx/utils/friendly_names.py:49-52 | the same holds for a list of nodes |
| FriendlyNames.StillTyped | src/simplify_docx/utils/friendly_names.py:37-38 | a typed node stays typed and keeps its truthiness |
| FriendlyNames.TypeFixed | src/simplify_docx/utils/friendly_names.py:11-38 | a renamed TYPE is a fixed point of the table |
| FriendlyNames.RelabelTwice | src/simplify_docx/utils/friendly_names.py:37-52 | applying the renaming twice equals applying it once |
| FriendlyNames.RelabelAllTwice | src/simplify_docx/utils/friendly_names.py:49-52 | the same for a list of nodes |
| ElementBase.GetValSpec | src/simplify_docx/elements/base.py:74-84 | `get_val` succeeds iff the value is convertible; it passes str/bool through, unwraps string, on-off and decimal wrappers to `.val` and Twips to `.twips`, maps lists elementwise, and raises otherwise |
| ElementBase.GetValsSpec | src/simplify_docx/elements/base.py:80-81 | a list converts iff every element does, elementwise |
| ElementBase.FirstMissing | src/simplify_docx/elements/base.py:33-37 | the first declared property the node does not have |
| Xml.GetProp | src/simplify_docx/elements/base.py:33-37 | reading a property succeeds iff the node has it, with its value; otherwise it raises AttributeError naming it |
| ElementBase.PropsOfSpec | src/simplify_docx/elements/base.py:30-37 | construction succeeds iff the node has every declared property; the snapshot holds each declared name with its value, in order; otherwise the AttributeError names the first missing one |
| ElementBase.Snapshot | src/simplify_docx/elements/base.py:30-37 | the construction loop builds exactly that snapshot |
| ElementBase.PropValueOf | src/simplify_docx/elements/base.py:30-37 | each declared property is read from the snapshot as the node had it |
| ElementBase.EmittedSpec | src/simplify_docx/elements/base.py:45-54 | serialisation succeeds iff every non-None property converts; the keys emitted are exactly the non-None properties, each with its converted value |
| ElementBase.ElToJson | src/simplify_docx/elements/base.py:39-54 | the `to_json` loop builds exactly TYPE followed by the emitted properties |
| ElementBase.ElJsonUnique | src/simplify_docx/elements/base.py:39-54 | the output has no repeated key, and its TYPE is the element's type name |
| RunContents.TextValueSpec | src/simplify_docx/elements/run_contents.py:54-102 | text serialisation fails iff flatten-inner-spaces is on (default on), because the compiled pattern is called; otherwise it applies the quote, space, hyphen, joiner, LTR-mark and RTL-mark steps in that order, each gated by its option |
| RunContents.TextNormal | src/simplify_docx/elements/run_contents.py:54-102 | the result contains no character any enabled step targets, is no longer than the input, and equals the input when it had none |
| RunContents.ReversedQuoteOrder | src/simplify_docx/elements/run_contents.py:57-77 | U+201B becomes `'` when dumb-quotes is on, because the quote step runs first, and a space when only dumb-spaces is on |
| RunContents.DefaultTextSucceeds | src/simplify_docx/__init__.py:40-80 | with the default option table (flatten-inner-spaces False), text serialisation succeeds |
| RunContents.AfterLastBraceSpec | src/simplify_docx/elements/run_contents.py:48 | the type name is the part of the tag after its last `}` |
| RunContents.EmptyMarker | src/simplify_docx/elements/run_contents.py:15-29 | an empty element's VALUE is "[w:<local name>]", and its TYPE is CT_Text iff empty-as-text is on |
| RunContents.SymbolSpec | src/simplify_docx/elements/run_contents.py:105-124 | with symbol-as-text (default on) a symbol is CT_Text with its char, or None when absent; otherwise it is SymbolChar with {char, font} |
| RunContents.TablesAgree | src/simplify_docx/elements/run_contents.py:127-158 | every special-character kind has a text replacement |
| RunContents.SpecialSpec | src/simplify_docx/elements/run_contents.py:127-158 | with special-characters-as-text, break and CR map to "\r", tab and ptab to "\t", and the two hyphens to "-"; without it only the kind name is emitted |
| RunContents.SpecialUnknown | src/simplify_docx/elements/run_contents.py:150-152 | a tag outside the kind table raises KeyError on construction |
| Form.MakeFfDataParts | src/simplify_docx/elements/form.py:33-76 | an ffData element holds a checkbox, dropdown or text-input part iff the node has that child |
| Form.MakeFieldKind | src/simplify_docx/elements/form.py:93-115 | the field kind is Checkbox, else DropDown, else TextInput, else generic-field, checked in that order |
| Form.MakeFieldNamed | src/simplify_docx/elements/form.py:93-99 | a field's snapshot holds only its declared properties, without repeats |
| Form.MakeFieldBuilt | src/simplify_docx/elements/form.py:93-115 | a constructed field carries the ffData parts its kind needs |
| Form.UpdateStep | src/simplify_docx/elements/form.py:219-239 | update on a completed field raises; a begin marker raises the nesting error; a separate marker switches to results, an end marker completes and returns true; any other element is appended to results or codes according to the state, and nothing else changes |
| Form.FeedPrefix | src/simplify_docx/elements/form.py:235-239 | content elements are collected one by one into the current list |
| Form.FeedStops | src/simplify_docx/elements/form.py:231-233 | once the field completes, later elements are not consumed |
| Form.FeedWholeField | src/simplify_docx/elements/form.py:219-239 | feeding codes, a separator, results and an end completes the field with exactly those codes and results |
| Form.FldChar.constructor | src/simplify_docx/elements/form.py:93-115 | a new field starts collecting field codes, with no codes and no results |
| Form.FldChar.Update | src/simplify_docx/elements/form.py:219-239 | the in-place update changes the state exactly as `UpdateSpec` says and returns its flag, or raises and leaves the state unchanged |
| FieldJson.ValSpec | src/simplify_docx/elements/form.py:142-154 | reading `.val` succeeds exactly on string, on-off and decimal wrappers, agrees with `get_val`, and yields a scalar |
| FieldJson.UpdateFrom | src/simplify_docx/elements/form.py:242-247 | the `_update_from` loop produces exactly the specified copy |
| FieldJson.UpdatedFromSpec | src/simplify_docx/elements/form.py:242-247 | only the named attributes that are not None are copied, converted by `get_val`; every other key keeps its value |
| FieldJson.CheckboxValueOf | src/simplify_docx/elements/form.py:125-129 | a checkbox's value is `checked` if set, else `default` when use-checkbox-default is on, else None |
| FieldJson.CheckboxSimplified | src/simplify_docx/elements/form.py:130-137 | simplified checkbox output drops fldCharType, sets VALUE to the checkbox value and copies `default` |
| FieldJson.CheckboxAsText | src/simplify_docx/elements/form.py:130-132 | checkbox-as-text takes precedence over simplify-checkbox and gives CT_Text with the value rendered as text |
| FieldJson.CheckboxFull | src/simplify_docx/elements/form.py:203-217 | an unsimplified checkbox carries TYPE, VALUE, ffData, the field codes and the merged field results |
| FieldJson.TrimDropdownOptions | src/simplify_docx/elements/form.py:142-144 | entries are stripped in place, and a non-string entry fails the trim |
| FieldJson.TrimSpec | src/simplify_docx/elements/form.py:142-144 | trimming succeeds iff every entry is a string wrapper, and replaces each by its stripped string |
| FieldJson.TrimFails | src/simplify_docx/elements/form.py:142-144 | the first non-string entry decides the error |
| FieldJson.DropDownValueAt | src/simplify_docx/elements/form.py:145-154 | the value is the entry at `result`, else at `default`, else the first entry, with Python's negative indices; an index out of range raises IndexError |
| FieldJson.DropDownValueEmpty | src/simplify_docx/elements/form.py:145-148 | an empty or absent list gives None |
| FieldJson.DropDownSimplified | src/simplify_docx/elements/form.py:139-169 | simplified dropdown output has VALUE set, keeps `default` and `result`, and has the trimmed entries renamed from listEntry_lst to options |
| FieldJson.DropDownAsText | src/simplify_docx/elements/form.py:156-158 | dropdown-as-text takes precedence over simplify-dropdown and gives CT_Text |
| FieldJson.DropDownIndexError | src/simplify_docx/elements/form.py:149-154 | a result index outside the list raises IndexError, since nothing checks bounds |
| FieldJson.DropDownFinishSpec | src/simplify_docx/elements/form.py:160-169 | the finished dropdown keeps VALUE, `default` and `result` and moves the list to `options` |
| FieldJson.OptionsMoved | src/simplify_docx/elements/form.py:168 | popping listEntry_lst into `options` moves the value and leaves the other keys alone |
| Json.Pop | src/simplify_docx/elements/form.py:168 | `dict.pop` succeeds iff the key is present, returning its value and the dict without that key |
| Json.SetGet | src/simplify_docx/elements/form.py:242-247 | after assigning a key it reads back the new value, and every other key reads as before |
| FieldJson.TextInputAsTextFails | src/simplify_docx/elements/form.py:180-183 | textinput-as-text always fails; once its inputs succeed, the error is the format string's TypeError |
| FieldJson.TextInputSimplified | src/simplify_docx/elements/form.py:171-193 | simplified text input has VALUE equal to the first merged result's VALUE, or "" when there are none, and copies `default` |
| FieldJson.GenericFlattened | src/simplify_docx/elements/form.py:195-201 | a generic field with flatten-generic-field gets VALUE = the merged results and loses fldCharType |
| FieldJson.GenericFull | src/simplify_docx/elements/form.py:203-217 | an unflattened generic field without ffData raises when `ffData.to_json` is called; otherwise it carries ffData, codes and merged results |
| FieldJson.FullJsonSpec | src/simplify_docx/elements/form.py:203-217 | full output succeeds iff the results, their merge and the codes succeed and ffData exists and serialises; it sets TYPE, VALUE, ffData, fieldCodes and fieldResults |
| Merge.MergeRunContents | src/simplify_docx/elements/paragraph.py:78-102 | the loop produces exactly the specified merge |
| Merge.MergeEntry | src/simplify_docx/elements/paragraph.py:82-100 | one entry of the loop is exactly one merge step |
| Merge.ConcatenatedSpec | src/simplify_docx/elements/paragraph.py:94-98 | the concatenated entry keeps the earlier entry's TYPE and stays non-empty |
| Merge.StepCases | src/simplify_docx/elements/paragraph.py:82-100 | each entry is dropped (empty CT_Text under ignore-empty-text), concatenated onto a preceding CT_Text (merge-consecutive-text), or appended |
| Merge.MergeShape | src/simplify_docx/elements/paragraph.py:78-102 | the output is no longer than the input; with merging on no two adjacent outputs are both CT_Text; with ignore-empty-text no output is an empty CT_Text |
| Merge.MergeKeepsOrder | src/simplify_docx/elements/paragraph.py:78-102 | non-text entries keep their order and none is lost or added |
| Merge.MergeIdempotent | src/simplify_docx/elements/paragraph.py:78-102 | re-applying the merge to its own output with the same options changes nothing |
| ParagraphTrim.EdgeSpec | src/simplify_docx/elements/paragraph.py:134-154 | an edge child is dropped iff it is a CT_Text left empty by stripping; a kept CT_Text gets its stripped VALUE; a non-text child is untouched |
| ParagraphTrim.LeadTrimmedSpec | src/simplify_docx/elements/paragraph.py:134-143 | leading trimming drops a prefix of children left empty, strips the first kept one and leaves the rest unchanged |
| ParagraphTrim.TrailTrimmedSpec | src/simplify_docx/elements/paragraph.py:145-154 | trailing trimming is the symmetric rstrip from the end |
| ParagraphTrim.LeadNonText | src/simplify_docx/elements/paragraph.py:136-139 | a non-text first child stops leading trimming at once |
| ParagraphTrim.TrimLeading | src/simplify_docx/elements/paragraph.py:134-143 | the pop/insert loop computes exactly the leading trim |
| ParagraphTrim.TrimTrailing | src/simplify_docx/elements/paragraph.py:145-154 | the pop/append loop computes exactly the trailing trim |
| ParagraphTrim.TrimParagraph | src/simplify_docx/elements/paragraph.py:125-154 | the paragraph applies the trims its options enable |
| Serialize.Alone | src/simplify_docx/elements/base.py:90-101 | an element that takes nothing from the cursor consumes no siblings |
| Serialize.ElemJson | src/simplify_docx/elements/body.py:22-36 | an element consumes no more siblings than the cursor has left |
| Serialize.PContentJson | src/simplify_docx/elements/paragraph.py:15-75 | a paragraph-content element consumes no more siblings than remain |
| Serialize.Finished | src/simplify_docx/elements/paragraph.py:74-75 | the result reports exactly the siblings consumed while driving |
| Serialize.Drive | src/simplify_docx/elements/paragraph.py:28-72 | the driver consumes no more siblings than remain |
| Paragraph.DriveLoop | src/simplify_docx/elements/paragraph.py:15-75 | the driver loop, with its in-place field object and cursor, returns exactly the specified driver result |
| Paragraph.TakeOne | src/simplify_docx/elements/paragraph.py:28-47 | taking one element either raises the driver's error or leaves a state owing the same result |
| Paragraph.TakeIntoField | src/simplify_docx/elements/paragraph.py:34-44 | an element goes to the open field's `update`; on completion the field's JSON is spliced or appended and the field closes |
| Paragraph.TakeFree | src/simplify_docx/elements/paragraph.py:45-47 | with no open field, a fldChar opens a fresh field and anything else is serialised and appended |
| Paragraph.TakeStep | src/simplify_docx/elements/paragraph.py:28-47 | one pass of the element loop, using the field object in place, either ends with the driver's result or takes the next walked element, keeping the cursor |
| Paragraph.EndOfRun | src/simplify_docx/elements/paragraph.py:49-72 | at the end of the contents the driver stops, raises, or bridges into the next paragraph from the cursor, matching the specification |
| Paragraph.EndStep | src/simplify_docx/elements/paragraph.py:49-58 | with the contents exhausted and a field open, the driver either ends with its result or bridges, and consumes one sibling from the cursor |
| Paragraph.ContentToJson | src/simplify_docx/elements/paragraph.py:15-75 | serialising a paragraph-content element by the loop equals the specification |
| Paragraph.Finish | src/simplify_docx/elements/paragraph.py:74-75 | the result is {TYPE: kind, VALUE: the merge of the collected entries} |
| Paragraph.BridgeStep | src/simplify_docx/elements/paragraph.py:53-58 | in greedy mode, with a field open and a following paragraph, the driver consumes that paragraph from the cursor and continues with its walked contents |
| DriverSpec.DriveTakes | src/simplify_docx/elements/paragraph.py:34-38 | an element that does not complete the open field just advances the field's state |
| DriverSpec.DriveCompletes | src/simplify_docx/elements/paragraph.py:34-44 | an element that completes the field closes it, and its JSON joins the contents |
| DriverSpec.DriveFeeds | src/simplify_docx/elements/paragraph.py:34-44 | driving an open field over elements is feeding them to the state machine until it completes |
| DriverSpec.DriveCollects | src/simplify_docx/elements/paragraph.py:34-38 | content elements are collected into the open field in order |
| DriverSpec.DriveWholeField | src/simplify_docx/elements/paragraph.py:28-44 | a begin marker, codes, a separator, results and an end become one completed field with exactly those codes and results |
| DriverSpec.DriveOpens | src/simplify_docx/elements/paragraph.py:45-46 | any fldChar, whatever its marker, opens a pending field |
| DriverSpec.DriveAppends | src/simplify_docx/elements/paragraph.py:47 | any other element is serialised without a cursor and appended, or its error raised |
| DriverSpec.RunEnds | src/simplify_docx/elements/paragraph.py:49-72 | at the end of the contents: a walk error is raised; with no open field or non-greedy mode the driver stops; greedy mode with no cursor fails, with no sibling stops, and with a non-paragraph sibling stops |
| DriverSpec.RunEndDrops | src/simplify_docx/elements/paragraph.py:59-72 | every stop discards the open field's contents |
| DriverSpec.DriveUngreedy | src/simplify_docx/elements/paragraph.py:49-72 | without greedy-text-input the driver ignores the cursor and consumes no siblings |
| ContainerSpec.ElemsJsonSpec | src/simplify_docx/elements/base.py:98 | a container's children serialise in walk order, each without a sibling cursor, and one failure fails the whole |
| ContainerSpec.ContainerShape | src/simplify_docx/elements/base.py:90-101 | a container's TYPE is its kind name, its VALUE is its walked children serialised in order, and its other keys are its properties |
| ContainerSpec.BareContainerKeys | src/simplify_docx/elements/base.py:90-101 | a container without properties has exactly the keys TYPE and VALUE |
| ContainerSpec.PlainContainer | src/simplify_docx/elements/table.py:36-40 | a row, the document and customXml serialise as plain containers and consume no siblings |
| ContainerSpec.ElemUngreedy | src/simplify_docx/elements/paragraph.py:53 | without greedy-text-input the cursor plays no part in serialisation |
| ContainerSpec.KeptSpec | src/simplify_docx/elements/body.py:27-34 | a child is dropped iff ignore-empty-paragraphs is on (absent counts as off) and it is a CT_P with empty VALUE; other children are kept even when empty |
| ContainerSpec.KeptAllSpec | src/simplify_docx/elements/body.py:27-34 | filtering removes exactly the empty paragraphs when the option is on, and nothing otherwise |
| ContainerSpec.ShareUngreedy | src/simplify_docx/elements/body.py:22-36 | without greedy bridging, the body's VALUE is its walked children serialised in walk order, then filtered |
| ContainerSpec.ShareLoopHead | src/simplify_docx/elements/body.py:23-25 | each child gets the shared cursor, and the siblings it consumed are skipped by the body's loop |
| ContainerSpec.TableNeedsPr | src/simplify_docx/elements/table.py:49-53 | a table without w:tblPr raises the missing-child error |
| ContainerSpec.CaptionRule | src/simplify_docx/elements/table.py:54-59 | tblCaption is emitted only when a caption exists and its value is non-empty or ignore-empty-table-caption (default on) is off; nothing else changes |
| ContainerSpec.DescriptionRule | src/simplify_docx/elements/table.py:61-66 | tblDescription follows the same rule under ignore-empty-table-description, and a missing val counts as empty |
| ContainerSpec.RelSpec | src/simplify_docx/elements/document.py:20-53 | a subDoc, contentPart or altChunk serialises as its kind name with the related part found by rId, and fails when the rId is missing or unknown |
| Bodies.ShareToJson | src/simplify_docx/elements/body.py:15-37 | the body and cell serialisation equals the specification |
| Bodies.Share | src/simplify_docx/elements/body.py:22-34 | the loop over the shared peekable cursor builds exactly the specified contents |
| Bodies.ShareHead | src/simplify_docx/elements/body.py:23-32 | the contents are the first child's kept output followed by the loop over the siblings it did not consume |
| Bodies.ShareTurn | src/simplify_docx/elements/body.py:23-32 | one iteration serialises the next child with the cursor, skips what it consumed and keeps or drops the result |
| Bodies.Turn | src/simplify_docx/elements/body.py:23-25 | serialising the next child never consumes more siblings than remain after it |
| Tables.TableToJson | src/simplify_docx/elements/table.py:49-67 | the table serialisation equals the specification |
| Tables.CaptionInto | src/simplify_docx/elements/table.py:54-59 | the caption assignment equals the specified rule |
| Tables.DescriptionInto | src/simplify_docx/elements/table.py:61-66 | the description assignment equals the specified rule |
| Options.Flag | src/simplify_docx/elements/run_contents.py:56 | `options.get(key, default)`: the stored value when present, the default otherwise |
| Options.Required | src/simplify_docx/utils/set_options.py:23 | `options[key]` succeeds iff the key is present, else raises KeyError for it |
| Options.WithDefaults | src/simplify_docx/__init__.py:27 | merging with the default table: caller keys win, and every default key is present |
| Options.CallSiteDefaultsDisagree | src/simplify_docx/__init__.py:40-80 | the call-site fallbacks of flatten-inner-spaces (True) and ignore-empty-paragraphs (False) differ from the default table |
| Runtime.PyIndex | src/simplify_docx/elements/form.py:152-154 | Python list indexing, with negative indices counting from the end and IndexError out of range |
| Runtime.LStripSpec | src/simplify_docx/elements/paragraph.py:139 | `lstrip` removes exactly the longest whitespace prefix |
| Runtime.RStripSpec | src/simplify_docx/elements/paragraph.py:150 | `rstrip` removes exactly the longest whitespace suffix |
| Runtime.StripSpec | src/simplify_docx/elements/form.py:144 | `strip` leaves no whitespace at either end |
| Runtime.LStripIdempotent | src/simplify_docx/elements/paragraph.py:139 | stripping leading whitespace a second time changes nothing |

## Left out

- Paragraph style and numbering are not part of this model. They are looked
  up in the styles and numbering parts (`utils/paragrapy_style.py`,
  `elements/paragraph.py:156-167`), so paragraphs never carry a `style` key.
- The related-part graph of `elements/document.py` is the `rels` parameter. It
  maps a relationship id to the already-serialised JSON of the part.
- Diagnostics are partly modelled.
  - The walker returns its warning texts.
  - The warnings raised by the serialisers (`form.py`, `paragraph.py`) are not
    modelled.
  - The walker's debug `print` trace and its `msg` parameter are not modelled.
- Unicode character classes are written out or restricted.
  - `IsSpace` lists the characters for which Python's `str.isspace()` holds.
  - `\w` in the tag pattern is restricted to ASCII letters, digits and `_`.
- `more_itertools.peekable` is a `Cursor`: the parent node and the siblings
  still to come. Bridging into the next paragraph removes the head of that
  list.
- In-place aliasing is modelled with value semantics.
  - `merge_run_contents` mutates the caller's dicts; the model builds new
    values.
  - `apply_friendly_names` mutates the tree in place; the model returns the
    renamed tree.
- The global registry is a `Registry` object passed explicitly. The built
  table is handed to the walker as a value, so non-reentrancy is not modelled.
- `inspect.signature` arity detection in `walk` is the `Visitor` datatype: a
  one-argument or a three-argument visitor.
- `el.simplify` and `el.append` (`base.py:65-71`) are not modelled, because
  no code in the modelled core calls them.
- `__iter_xpath__` is not modelled, and no element sets `__iter_name__`.
  Containers therefore always walk under their own type name.
- Registry.Resolve requires the extends graph to be acyclic, witnessed by a
  rank map. The code has no cycle check: on a cycle `_resolve` recurses until
  Python raises RecursionError, and that path is not modelled. The graph the
  library itself registers is acyclic (`Iterators.ImportRanked`), and
  `set_options` re-registers both groups with the same extends
  (`SetOptions.RankedWithTables`).
- The resolved definitions do not depend on registration order. This holds
  by construction: `Resolve` reads only the definitions map, not the order,
  because dependencies are resolved recursively first.
- On a key collision during resolution, a dependency's entry overwrites the
  definition's own entry (`generic.py:84-94`).
- TreeWalk.WalkTree: the TypeError for unexpected keywords carries a fixed
  message. The sorted, comma-separated list of the offending keywords that
  `walk.py:40` appends is not modelled; the error kind and its condition are.
- Options are a map of booleans, so a missing `flatten-*` key is a `KeyError`
  as in the code. Non-boolean option values are not modelled.
- The serialisers read `flatten-inner-spaces` with a default of True, while
  the default table says False. Text serialisation therefore fails whenever
  the key is absent or True (see `Options.CallSiteDefaultsDisagree`).
- Element construction errors (a missing property, an unknown special
  character) are raised in Python while the walker yields. In the model they
  surface when the element is serialised, which is the next thing Python
  does with it.
- `simplify` in `__init__.py` is not modelled beyond `DocumentJson`, which
  serialises the root. The option merge is `Options.WithDefaults`, and
  friendly names is `FriendlyNames.Relabel`.

## Findings

| source | as written | input that shows it | evidently intended | confidence | as-written member | corrected member |
|---|---|---|---|---|---|---|
| src/simplify_docx/iterators/body.py:11 | The registration modules pass lower-case keywords (`tags_to_ignore=`, `tags_to_yield=`). `register_iterator` (`generic.py:37-42`) declares only upper-case parameters and takes no `**kwargs`. | Importing the iterators package: the first call, `CT_Tbl` with `tags_to_ignore=`, raises TypeError, and nothing is registered. | The keywords bind to the table parameters of the same name. | not executed | Iterators.ImportAsWritten | Iterators.ImportCorrected |
| src/simplify_docx/iterators/body.py:29 | The skip entry for `w:moveFromRangeStart` names its end as the qualified tag `{…main}MoveFromRangeEnd`. `skip_range` (`generic.py:172`) compares local names, and the capitalisation differs too. | A `w:moveFromRangeStart` whose attributes include a bare `id`, followed by its `w:moveFromRangeEnd` and more siblings: no end ever matches, the walk stops, and the later siblings are dropped. On a real document the bare `id` key is already missing, and the walk raises KeyError first (next row). | The local name `moveFromRangeEnd`, so that the walk resumes after the range end. | not executed | Walker.MoveFromDropsRest | Walker.MoveFromResumes |
| src/simplify_docx/iterators/generic.py:166 | The skip entry at `body.py:29` gives the id attribute as the bare key `"id"`, and `skip_range` reads `x.attrib["id"]`. lxml stores `w:id` under its Clark name `{…main}id`. | Any real document containing `<w:moveFromRangeStart w:id="0" …/>`: `x.attrib["id"]` raises KeyError('id') at `generic.py:166`, which ends the whole walk. | The qualified key `qn("w:id")`, as used for the id comparison at `generic.py:172` too. | not executed | Walker.MoveFromQualifiedId | Walker.MoveFromResumes |
