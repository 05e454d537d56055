# Astroix, modelled and verified in Dafny

Astroix edits the content of an Astro project from the running site: it writes a form's
draft back into an entry file, ranks the CSS rules behind an element, maps canvas URLs to
entries and back, and supervises the processes behind the editor. This project models the
parts of it whose correctness is not visible in any one function, and proves what their
documentation, comments and tests promise.

| part | modules |
|---|---|
| content serializer | `Json`, `EntryDocument`, `EntrySplice`, `EntryWrite`, `EntryPaths`, `EntryLaws`, `EntryOrder`, `EntryAnchors`, `EntryTies`, `EntryRoot`, `EntryInputs`, `EntryFile`, `EntryRoundTrip`, `FormTree` |
| selector specificity | `Matcher`, `Selectors`, `SelectorScan`, `RuleRanking` |
| URL and entry resolution | `Percent`, `RouteResolver`, `RouteCode`, `RouteForward`, `RouteRoundTrip` |
| stream splitters | `Splitting`, `FrameStream`, `LineProtocol`, `HarnessLines`, `HarnessRuns`, `BootObserver` |
| concurrent protocols | `FreshRunner`, `Sessions`, `WriteExecutors`, `StopPass`, `Activation` |
| complexity engine and ratchet | `LineIndex`, `Complexity`, `ComplexityLaws`, `ComplexitySyntax`, `Ratchet` |
| virtual-host router | `VirtualHosts`, `HostRouter` |
| shared | `Text` |

How the model is laid out. Where the source updates state step by step, a class or a loop
does the same and is proved against a specification function; the laws are then proved about
that function, for every input or for every run. A stretch of code between two awaits is one
atomic step, and a run is any sequence of steps that can happen, in any interleaving.

What is assumed of code outside the model, always as an argument or a hypothesis:

- the YAML library: a document that defines no anchor twice and in which every alias stands for
  an anchored node (`EntryAnchors.Consistent`) prints to text that ends in a line break, has no
  `---` directly before a line end, and reads back to the document's JSON projection without
  that last break; the empty text is an empty document (`Readable`, `yaml.parse("")`). A
  mapping's keys are strings or other scalars, and a path finds string keys only; of two keys
  that show the same name in JSON the later one counts. An alias says what its anchored node
  says, and no path enters it. Of a node's style only the anchor is looked at;
- the order in which an object enumerates its keys: any order, by the place of the object;
- the URL parser: an absolute path of unreserved characters and escapes keeps them and loses
  its dot segments as the URL standard says (`ParsesPaths`);
- JSON payloads, image detection and the supervisor's admission: function or event arguments.
  The supervisor admits one attempt at a time, reserves a new pair for each, and calls
  `startCandidate` exactly once inside an admitted `begin` and never in a refused one;
- listeners that appear on a transport are new functions (`FreshRunner.AppearNew`); what goes
  wrong otherwise is a lemma.

## Model

| member | source | states |
|---|---|---|
| `Json.JsonEqualIsIdentity` | packages/core/src/entry-writer.ts:163-176 | the deep comparison of plain form values is equality, inherited names notwithstanding |
| `EntrySplice.Document.SetIn` | packages/core/src/entry-writer.ts:243 | setting a node replaces exactly that place, creating missing parents, and throws exactly below something that is no collection |
| `EntrySplice.Document.DeleteIn` | packages/core/src/entry-writer.ts:204-236 | deleting removes exactly that node, answers whether there was one, and throws where the library does |
| `EntrySplice.Document.SetNode` | packages/core/src/entry-writer.ts:230-245 | the in-place whole-value write changes the place at its path as the specification says and nothing else |
| `EntrySplice.Document.DropKeys` | packages/core/src/entry-writer.ts:202-207 | the first loop removes the keys the draft no longer has, in place, and touches nothing outside the path |
| `EntrySplice.Document.SpliceEntries` | packages/core/src/entry-writer.ts:208-211 | the second loop splices every key of the draft under its own path, in place, on top of the first |
| `EntrySplice.Document.ApplyDraft` | packages/core/src/entry-writer.ts:191-214 | the recursive in-place edit by absolute paths equals a local rewrite of the place it is called for; every other node of the document stands |
| `EntryWrite.PlaceMeans` | packages/core/src/entry-writer.ts:204-243 | what the document does with a key, spelled out on its nodes: it deletes without throwing exactly where mappings lead to a mapping or a sequence around the key, and takes a value exactly when nothing but mappings stands on the way |
| `EntryWrite.WriteThrows` | packages/core/src/entry-writer.ts:191-245 | for any document, baseline, draft and protected paths: the write throws exactly when the document cannot take it, decided along the paths of the two values |
| `EntryWrite.WriteReports` | packages/core/src/entry-writer.ts:191-245 | for any input: the write answers true exactly when somewhere a key of the baseline is dropped or a whole value is set or cleared that was not held |
| `EntryWrite.WriteIsIdle` | packages/core/src/entry-writer.ts:182-245 | for any input: not one node changes exactly when every dropped key is missing and every whole value written leaves the very node |
| `EntryWrite.ReportedInVain` | packages/core/src/entry-writer.ts:114-120 | only a real splice re-serializes the block, except exactly when the write reports and is idle |
| `EntryWrite.FalseMeansUnchanged` | packages/core/src/entry-writer.ts:191-214 | for any document, baseline and protected paths, an answer of false means not one node changed |
| `EntryPaths.ChildAfter` | packages/core/src/entry-writer.ts:200-212 | after an object is spliced into an object each child is the splice of that child, gone, or as it was |
| `EntryPaths.HeldValueStays` | packages/core/src/entry-writer.ts:182-189 | a node that already holds the draft's value, with string keys only and no aliases, takes the write and keeps its value, style and order whatever the baseline says |
| `EntryPaths.NodeStaysExactly` | packages/core/src/entry-writer.ts:182-245 | for any input and any path that has a node: the very node is there afterwards if and only if the path is kept, by a protected or agreeing place on the way, by a key the draft drops being none of the baseline's or an inherited one, or by the whole value written |
| `EntryPaths.ProtectedNodeStays` | packages/core/src/entry-writer.ts:58-63 | the node at a protected path is kept when baseline and draft reach it through objects |
| `EntryPaths.DifferingPathSays` | packages/core/src/entry-writer.ts:182-214 | for any document, protected paths and baseline, stale or not: where the values differ and no prefix of the path is protected the document says the draft afterwards |
| `EntryPaths.WholeKeepsFlow` | packages/core/src/entry-writer.ts:226-245 | a replaced collection keeps the flow style of the one before, and a new one has none |
| `EntryLaws.SpliceSaysDraft` | packages/core/src/entry-writer.ts:191-245 | from a document that says the baseline, unless the write throws: the document says the draft afterwards if and only if it keeps it, keys of every kind and aliases included |
| `EntryLaws.BuiltSaysDraft` | packages/core/src/entry-writer.ts:191-245 | a place built up from nothing says the draft exactly when the differences alone make it up |
| `EntryLaws.OddAfter` | packages/core/src/entry-writer.ts:200-212 | keys that are no strings stay as they are, and one of them shows exactly where no string key is left or where it stands behind one |
| `EntryRoot.OrdinarySaysDraft` | packages/core/src/entry-writer.ts:191-245 | with string keys and no aliases the write never throws, and the document says the draft if and only if at no depth it drops a key every object inherits |
| `EntryRoot.EmptyTakes` | packages/core/src/entry-writer.ts:235-237 | an empty document refuses exactly the drafts that clear an inherited name before any value exists |
| `EntryRoot.EmptySaysDraft` | packages/core/src/entry-writer.ts:191-245 | a draft written into an empty document is what the new contents say |
| `EntryRoot.NullTakes` | packages/core/src/entry-writer.ts:109-119 | a frontmatter spelling out null takes no value: the write throws exactly when a value is set or an inherited name cleared |
| `EntryRoot.RootSaysDraft` | packages/core/src/entry-writer.ts:109-119 | for any contents spliced from their own data: afterwards they say the draft if and only if they keep it |
| `EntryOrder.SplicedKeys` | packages/core/src/entry-writer.ts:182-214 | for any document, baseline, draft and protected paths: the keys of a mapping after a splice are the old ones that did not lose their node, in their order, then the new ones as the draft enumerates them; flow style, anchor and keys that are no strings stay, and a mapping that was not there is written as a new one |
| `EntryOrder.SplicedIsListed` | packages/core/src/entry-writer.ts:182-214 | every key of a spliced mapping is listed once, if it was so before |
| `EntryOrder.AbovePlace` | packages/core/src/entry-writer.ts:204-243 | above the place a write sets or deletes, at every depth, each mapping keeps its style, its other keys in order and the nodes under them; the next key of the path goes last if it is new and goes if its node does |
| `EntryOrder.BuiltIsCreated` | packages/core/src/entry-writer.ts:208-243 | setting the keys of an object one by one where nothing stands leaves the very node that creating the object at once does |
| `EntryAnchors.PairIsSingle` | packages/core/src/entry-writer.ts:182-245 | the document model that is written back: two nodes side by side, in a list or a mapping, are fine together exactly when they share no anchor |
| `EntryTies.AliasesStayTrue` | packages/core/src/entry-writer.ts:182-245 | for any document, baseline, draft and protected paths: if every alias the write leaves stands for an anchored node it leaves, so does every alias of the final document; and from a consistent document the final one is consistent in no other case |
| `EntryTies.UnaliasedStaysTrue` | packages/core/src/entry-writer.ts:182-245 | a write may edit, replace or drop any anchored node that no alias stands for, and anything in a document without anchors or without aliases |
| `EntryInputs.InheritedNameSurvives` | packages/core/src/entry-writer.ts:202-204 | in any document a dropped key named like an inherited method leaves its node in place |
| `EntryInputs.OddKeyStays` | packages/core/src/entry-writer.ts:202-207 | in any document dropping a key that is no string is reported and leaves it, value and all |
| `EntryInputs.OddKeyIsNotDropped` | packages/core/src/entry-writer.ts:202-207 | a number key beside a string key, dropped: a reported change of nothing, for every such pair |
| `EntryInputs.OddKeyDoubles` | packages/core/src/entry-writer.ts:230-245 | setting such a key appends a second one that shows alike |
| `EntryInputs.EnteringAliasThrows` | packages/core/src/entry-writer.ts:230-245 | changing a value below an alias throws |
| `EntryInputs.AnchoredEditSpreads` | packages/core/src/entry-writer.ts:230-245 | editing an anchored mapping leaves an alias of it standing for a node that is no longer there |
| `EntryInputs.UnaliasedEditStands` | packages/core/src/entry-writer.ts:230-245 | without an alias the same edit leaves a consistent document and keeps the anchor |
| `EntryInputs.AliasSaysItsAnchor` | packages/core/src/entry-writer.ts:216-224 | read again, such an alias says the edited value |
| `EntryInputs.StaleDropIsReported` | packages/core/src/entry-writer.ts:202-207 | against a stale baseline a key that is long gone is reported as a change of nothing |
| `EntryInputs.ProtectedNodeIsDropped` | packages/core/src/entry-writer.ts:202-207 | at any depth a dropped key takes the nodes of the protected paths below it along, unless every object inherits its name |
| `EntryFile.SerializeEntry` | packages/core/src/entry-writer.ts:102-138 | the write, document edited in place, leaves exactly the specified bytes or throws |
| `EntryRoundTrip.SplitMeans` | packages/core/src/entry-writer.ts:77-94 | the split in the terms of the regular expression: a file has frontmatter exactly when it can be read as fences around a text at all, and the reading with the shortest text is taken |
| `EntryRoundTrip.SplitOfPrinted` | packages/core/src/entry-writer.ts:78-94 | a printed block between fences splits back into that block, its text, its closing line end and the body |
| `EntryRoundTrip.SplitOfReplacedBody` | packages/core/src/entry-writer.ts:78-132 | replacing what follows the closing fence leaves the frontmatter, byte for byte, where it was read |
| `EntryRoundTrip.AnchoredBodyTrims` | packages/core/src/entry-writer.ts:146-151 | a re-anchored body trims to the body written, also behind a line break |
| `EntryRoundTrip.AnchorRestores` | packages/core/src/entry-writer.ts:140-151 | anchoring a body's own text restores the raw body, its white space included, if and only if the raw body is empty or not blank; a blank one is doubled |
| `EntryRoundTrip.AnchorOfBlank` | packages/core/src/entry-writer.ts:146-151 | around any new text a body of white space alone is put back twice, in front and behind |
| `EntryRoundTrip.TailOnce` | packages/core/src/entry-writer.ts:140-151 | a draft that already ends with the file's trailing white space does not get it twice |
| `EntryRoundTrip.BodyComesBack` | packages/core/src/entry-writer.ts:140-151 | writing a body and then the old one again gives the raw body back if and only if it has no white space around it, or neither text is blank |
| `EntryRoundTrip.ClearAndRetype` | packages/core/src/entry-writer.ts:122-151 | clearing a body between two blank lines and typing it again leaves four |
| `EntryRoundTrip.BodyReadsBack` | packages/core/src/entry-writer.ts:124-133 | a body-only write reads back as the old data with the new body |
| `EntryRoundTrip.PrintedReadsBack` | packages/core/src/entry-writer.ts:134-137 | a rewritten block and body read back as the document's data and the trimmed body, and the body's bytes are those written |
| `EntryRoundTrip.NothingToWrite` | packages/core/src/entry-writer.ts:96-130 | a draft that changes nothing leaves the file byte for byte |
| `EntryRoundTrip.WrittenReadsBack` | packages/core/src/entry-writer.ts:43-51 | whatever baseline and protected paths the caller passes, the written file parses to what the splice ended with and the draft's body |
| `EntryRoundTrip.BodyWriteSurgical` | packages/core/src/entry-writer.ts:122-133 | a write of the body alone keeps every byte before it if and only if the closing fence has a line end or the new text is empty; otherwise exactly a line break comes between |
| `EntryRoundTrip.BodyEditSurgical` | packages/core/src/entry-writer.ts:122-151 | a write of the body alone replaces the body's text and changes no other byte if and only if no line break has to come in front of it and the old body is empty or not blank |
| `EntryRoundTrip.PlainFileGainsBreak` | packages/core/src/entry-writer.ts:126-132 | a trimmed file without frontmatter gains a line break with every new body that is not empty |
| `EntryRoundTrip.RoundTrip` | packages/core/src/entry-writer.ts:43-151 | for every file that parses and every draft with a trimmed body: serializing throws when the document cannot take the draft; otherwise, whenever the final document is consistent, it does not, and parsing gives the draft back if and only if the document keeps it; from consistent contents the final document is so exactly when every alias left stands for an anchored node left |
| `EntryRoundTrip.ProjectionWrite` | packages/app-shell/src/features/content/write/serialize-entry-write.ts:78-93 | the editor's own call, from a schema projection and with protected image paths, throws when the document cannot take the draft; otherwise the final document says the draft at every exposed path that differs and keeps exactly the kept nodes, and if it is consistent the file reads back as that document and the draft's body |
| `FormTree.PeelWrappers` | packages/core/src/form-tree.ts:154-179 | the bounded loop peels what its specification peels, with the required flag and the initial value |
| `FormTree.RequiredMeans` | packages/core/src/form-tree.ts:158-175 | a field is required exactly when only readonly and catch wrap it |
| `FormTree.FieldRequired` | packages/core/src/form-tree.ts:154-226 | a walked field is required exactly when only readonly and catch are among its first 32 wrappers |
| `FormTree.InitialMeans` | packages/core/src/form-tree.ts:163-171 | the initial value is that of the innermost default among the wrappers peeled, and an undefined one counts as none |
| `FormTree.FieldInitial` | packages/core/src/form-tree.ts:154-192 | a field has an initial value exactly when the innermost default among its first 32 wrappers is not undefined |
| `FormTree.CollectImagePaths` | packages/core/src/form-tree.ts:137-144 | the collecting loop lists the image paths of the field tree in order |
| `FormTree.NameIsDotted` | packages/core/src/entry-writer.ts:198 | a path's name is its keys with dots between them |
| `FormTree.CollectedPathsAreImages` | packages/core/src/form-tree.ts:126-226 | the collected names are the dotted paths of the schema's image fields, all of them and no other |
| `FormTree.ImageNodeSurvives` | packages/core/src/entry-writer.ts:191-214 | with the collected paths protected, the node of an image field reached through objects on both sides is untouched, style included |
| `Matcher.NameCharsAre` | packages/core/src/matcher.ts:139-145 | names are made of the ASCII letters, digits, hyphen and underscore, by their codes |
| `Matcher.SkipName` | packages/core/src/matcher.ts:139-145 | the index loop ends right after the longest run of name characters |
| `Matcher.SkipBlock` | packages/core/src/matcher.ts:147-158 | the depth counter finds the matching close, or answers the last index |
| `Matcher.SplitTopLevel` | packages/core/src/matcher.ts:160-175 | the index loop yields the non-blank pieces between commas outside brackets |
| `Matcher.SelectorSpecificity` | packages/core/src/matcher.ts:75-116 | the scanning loop sums the tokens' weights, for every text, and terminates |
| `Matcher.SelectorListSpecificity` | packages/core/src/matcher.ts:64-73 | the loop keeps the greatest specificity of the list's selectors |
| `Matcher.ListIsGreatest` | packages/core/src/matcher.ts:59-73 | a list weighs what one of its selectors does, and none of them has more ids, or as many and more classes, or as many of both and more types |
| `SelectorScan.SimpleToken` | packages/core/src/matcher.ts:80-107 | a printed simple selector is taken off whole, as one token of its kind, nested lists included |
| `SelectorScan.ScanListWeighs` | packages/core/src/matcher.ts:64-175 | on the text of every selector list of the grammar, names in any letter case, the scanner returns the weight of its tree |
| `Selectors.SpellingDecides` | packages/core/src/matcher.ts:75-132 | for every simple selector, given that inner lists are spelled so, its weight is the specificity section 17 of Selectors Level 4 defines if and only if a check of its spelling holds |
| `Selectors.PrefixDecides` | packages/core/src/matcher.ts:75-116 | the weight of a type or universal selector is what that section defines if and only if it is written without a namespace name of its own |
| `Selectors.SpecificityCounts` | packages/core/src/matcher.ts:13-14 | what section 17 defines is, without selector lists, three counts: ids; classes, attributes and pseudo-classes; types and pseudo-elements |
| `Selectors.MostSpecificIsGreatest` | packages/core/src/matcher.ts:118-122 | the specificity of a list by section 17 is the greatest of its selectors', by ids, then classes, then types |
| `SelectorScan.ScanSimpleExactly` | packages/core/src/matcher.ts:75-132 | the same of the scanner run on its text |
| `SelectorScan.ScanParts` | packages/core/src/matcher.ts:75-116 | the scanner inverts printing of complex selectors spelled so: it returns the specificity section 17 defines |
| `SelectorScan.ScanList` | packages/core/src/matcher.ts:64-175 | the same for selector lists and every nesting of is, not, has and where |
| `SelectorScan.OneColonCountsAsClass` | packages/core/src/matcher.ts:104-107 | a pseudo-element in its one-colon spelling, in any letter case, counts as a class, in the standard as a type |
| `SelectorScan.UpperCaseNot` | packages/core/src/matcher.ts:123-132 | `:NOT(#x)` is an id by the standard and a class to the scanner |
| `SelectorScan.NthChildOfId` | packages/core/src/matcher.ts:118-132 | `:nth-child(2 of #x)` is a class and an id by the standard and a class to the scanner |
| `SelectorScan.NamespaceCountsAsType` | packages/core/src/matcher.ts:75-116 | a type selector with a namespace name before it is one type by the standard and two to the scanner |
| `RuleRanking.MatchRules` | packages/core/src/matcher.ts:30-57 | the pushing loop and the sort answer the matching rules, ranked, the first marked |
| `RuleRanking.MatchMeans` | packages/core/src/matcher.ts:30-57 | the rules that match, spelled out: a scoped rule by its compiled selector only, any other by the compiled one if there is one, else by the one in the source |
| `RuleRanking.SortRanks` | packages/core/src/matcher.ts:46-48 | the ranking holds exactly the matches, each outranking all after it |
| `RuleRanking.OneRanking` | packages/core/src/matcher.ts:46-48 | the comparator leaves one ranking, whichever sort the library uses |
| `RuleRanking.WinnerIsEarliestOfMostSpecific` | packages/core/src/matcher.ts:13-20 | the winner is the earliest of the most specific matching rules |
| `RuleRanking.WinnerSpelledOut` | packages/core/src/matcher.ts:17-61 | no match has more ids than the winner; none with as many has more classes; none with as many of both more types; and none equal in all three comes earlier |
| `RuleRanking.WinnerIsCascadeWinner` | packages/core/src/matcher.ts:17-19 | the winner is the last of the most specific matching rules, as the cascade has it, if and only if no other match has its specificity |
| `Percent.DecodeUndoesEncode` | packages/core/src/route-resolver.ts:326-336 | decoding a percent-encoded segment gives it back, for every text |
| `Percent.LeftAlone` | packages/core/src/route-resolver.ts:295-310 | encoding leaves exactly the texts of letters, digits and nine marks alone |
| `Percent.EscapesOfEachLength` | packages/core/src/route-resolver.ts:295-310 | other characters become the upper-case escapes of their UTF-8 bytes, shown at one of each length |
| `Percent.HexMeans` | packages/core/src/route-resolver.ts:326-336 | hexadecimal digits of escapes are read in either case |
| `Percent.OnlyItsOwnBytes` | packages/core/src/route-resolver.ts:326-336 | a character is only ever decoded from the escapes of its own UTF-8 bytes: nothing overlong, cut off or out of range is accepted |
| `RouteCode.Flatten` | packages/core/src/route-resolver.ts:235-262 | the flattening loop accepts exactly single-part routes with no param, or one that is last if it is a rest |
| `RouteCode.MatchesUrl` | packages/core/src/route-resolver.ts:264-282 | the early-exit matching loop decides the pattern's match |
| `RouteCode.Build` | packages/core/src/route-resolver.ts:295-310 | the pushing loop builds the candidate URL for exactly the ids the route's shape takes |
| `RouteCode.EntryHitsFor` | packages/core/src/route-resolver.ts:206-225 | the nested loops leave in the keyed map what its specification says |
| `RouteCode.RankedCandidates` | packages/core/src/route-resolver.ts:171-187 | the loop lists the candidates in route order |
| `RouteCode.PickCandidate` | packages/core/src/route-resolver.ts:129-143 | re-verifying every candidate and taking the first of the stable sort is what the picking rule says |
| `RouteCode.LastRouteDecides` | packages/core/src/route-resolver.ts:206-225 | of two routes that render different entries under one key the last decides the resolution, so the two orders of the list answer differently |
| `RouteCode.NulTurnsAnswer` | packages/core/src/route-resolver.ts:220-222 | with a NUL in a collection name there are such routes |
| `RouteForward.RouteMeans` | packages/core/src/route-resolver.ts:235-262 | which routes take part: every segment in one part, a rest only at the end, at most one segment that is not static, each read as its part is marked |
| `RouteForward.HitsAreRendered` | packages/core/src/route-resolver.ts:206-225 | every hit is an entry some route renders at the URL, and every such entry has its key among the hits |
| `RouteForward.OnlyServingRoutes` | packages/core/src/route-resolver.ts:166-225 | every hit and every candidate comes from a route that is rendered on demand, did not settle, or lists the id |
| `RouteForward.SettledRoutes` | packages/core/src/route-resolver.ts:166-225 | a prerendered route that settled contributes neither a hit nor a candidate for an id it does not list, and both for one it lists |
| `RouteForward.ForwardMeans` | packages/core/src/route-resolver.ts:99-115 | forward resolution selects an entry if and only if no static page serves the URL and it is the only entry any route renders there |
| `RouteForward.ForwardOrderIndependent` | packages/core/src/route-resolver.ts:99-115 | with NUL-free names the answer depends neither on the order of routes or collections nor on repeats |
| `RouteForward.ResolvedIsUnique` | packages/core/src/route-resolver.ts:99-115 | a resolved id is held by the collection named and by no other |
| `RouteForward.SortStartsLeast` | packages/core/src/route-resolver.ts:139-142 | the stable sort starts with the least candidate, the first among equals |
| `RouteForward.LeastMeans` | packages/core/src/route-resolver.ts:117-143 | the least candidate spelled out: a single segment before a rest, then the shallower pattern, then the earlier route |
| `RouteForward.PickedNeverWrong` | packages/core/src/route-resolver.ts:117-143 | a picked URL belongs to the most specific candidate, exactly one collection holds the id, and every candidate resolves forward to that entry |
| `RouteRoundTrip.DotsDecode` | packages/core/src/route-resolver.ts:312-332 | every segment the URL parser takes for a dot segment decodes to a dot |
| `RouteRoundTrip.PlainReadsItself` | packages/core/src/route-resolver.ts:312-332 | unreserved static text that is no dot segment is read as itself |
| `RouteRoundTrip.CaptureOfBuilt` | packages/core/src/route-resolver.ts:235-336 | the URL built for an id captures that id again if and only if no part of the id is a dot segment and every static text of the route is read as itself |
| `Splitting.SplitExtends` | packages/app-shell/src/app-client.ts:432-448 | text that arrives later only splits the remainder further |
| `Splitting.Reassembles` | packages/app-shell/src/app-client.ts:432-448 | pieces and remainder reassemble the input, and the remainder holds no separator |
| `Splitting.OnlyCut` | packages/app-shell/src/app-client.ts:432-448 | the cut is the only one into pieces that end at their first separator |
| `Splitting.PiecesAreLeftmost` | packages/app-shell/src/app-client.ts:437-443 | every piece of the cut ends at its first separator |
| `FrameStream.DeliverFrames` | packages/app-shell/src/app-client.ts:424-463 | the nested read loops deliver exactly the events of the text read so far, split once, up to the abort if there is one |
| `FrameStream.SentIsReceived` | packages/app-shell/src/app-client.ts:424-463 | payloads on one line each, sent as data frames, are received in order, and nothing is left over |
| `FrameStream.OtherFramesSayNothing` | packages/app-shell/src/app-client.ts:437-448 | a frame without the data prefix delivers no event |
| `FrameStream.ChunkingInvisible` | packages/app-shell/src/app-client.ts:432-448 | two ways of cutting the same text deliver the same events |
| `HarnessLines.HarnessRun.Pump` | e2e/desktop/harness-kit.ts:144-172 | one chunk: complete lines are observed, the fragment is carried, the tail stays bounded |
| `HarnessLines.HarnessRun.WaitForNext` | e2e/desktop/harness-kit.ts:231-248 | a new waiter joins the end of the list and sees later events only |
| `HarnessLines.HarnessRun.WaitFor` | e2e/desktop/harness-kit.ts:216-224 | the first event already seen that is wanted is the answer, else the waiter joins |
| `HarnessLines.HarnessRun.Expire` | e2e/desktop/harness-kit.ts:240-244 | a timer that goes off takes its waiter out in place and rejects it, if it still waits |
| `HarnessLines.HarnessRun.AnswerWaiters` | e2e/desktop/harness-kit.ts:162-169 | the in-place splicing loop answers exactly the matching waiters, each once, and keeps the others in order |
| `HarnessRuns.ChunkingInvisible` | e2e/desktop/harness-kit.ts:138-172 | however the output is cut, and whatever is asked in between, the harness ends as if every line had come whole, each request between the lines finished before and after it |
| `HarnessRuns.StepsOfWholeText` | e2e/desktop/harness-kit.ts:144-149 | those lines are the whole text split once, the rest is its remainder, and the requests keep their order |
| `HarnessRuns.KeptLines` | e2e/desktop/harness-kit.ts:150-153 | the kept lines are the last 500 of all non-blank ones |
| `HarnessRuns.AllEvents` | e2e/desktop/harness-kit.ts:154-161 | the events are all those the non-blank lines report, in order |
| `LineProtocol.PrintedIsReported` | e2e/desktop/harness-kit.ts:144-161 | payloads printed on one line each behind the prefix are reported in order, and nothing is left over |
| `HarnessRuns.FirstComeFirstServed` | e2e/desktop/harness-kit.ts:162-248 | an event that several waiters want answers them in the order they asked, and waits are rejected in the order they time out |
| `HarnessRuns.FirstMatchAnswers` | e2e/desktop/harness-kit.ts:162-248 | over every run, with waiters joining and timing out anywhere: a waiter is answered at most once, with the first later event it matches, unless its timer goes off before, and waits until then |
| `HarnessRuns.RunAnswers` | e2e/desktop/harness-kit.ts:144-248 | the same for output cut anywhere |
| `HarnessRuns.WaitForAnswers` | e2e/desktop/harness-kit.ts:216-224 | asking for an event seen or to come is answered with the first wanted one of all, unless the timer goes off before it comes |
| `BootObserver.Observer.Data` | scripts/candidate/registry-lease.ts:211-230 | one chunk updates tail, boot flag and carried fragment as specified |
| `BootObserver.Observer.End` | scripts/candidate/registry-lease.ts:231-235 | the end of the stream observes the carried fragment |
| `BootObserver.BootLine` | scripts/candidate/registry-lease.ts:211-230 | a line reports the boot exactly when it is a payload that does behind the product's name |
| `BootObserver.BootSeen` | scripts/candidate/registry-lease.ts:191-236 | however the output is cut, the boot is seen exactly when a line of the whole text reports it, and the tail is the whole text's last 50 lines |
| `FreshRunner.ListenerResidue` | packages/runtime/astro-project-adapter/fresh-runner.ts:195-208 | the two loops find own residue first, then unregistered growth, else none |
| `FreshRunner.HotTransport.Create` | packages/runtime/astro-project-adapter/fresh-runner.ts:94-101 | the create block pins and registers exactly the listeners that appeared in it, whatever else the constructor removed |
| `FreshRunner.HotTransport.Prove` | packages/runtime/astro-project-adapter/fresh-runner.ts:107-179 | what follows the inspection: the errors caught, the proof block that releases what is gone and keeps what leaked registered, and the specified outcome, each caught value tested against undefined |
| `FreshRunner.RunElapses` | packages/runtime/astro-project-adapter/fresh-runner.ts:89-142 | over every interleaving the registry holds exactly the present listeners passes pinned, and each pass saw exactly the older ones |
| `FreshRunner.StepMeans` | packages/runtime/astro-project-adapter/fresh-runner.ts:89-142 | what each step leaves on the transport and in the registry |
| `FreshRunner.NothingIsRuledOut` | packages/runtime/astro-project-adapter/fresh-runner.ts:89-142 | at every point a new pass can begin, anything else can change the transport, and every pass that began and did not prove can prove |
| `FreshRunner.AmbientOrRegistered` | packages/runtime/astro-project-adapter/fresh-runner.ts:56-76 | when nothing is brought from outside every listener present is ambient or registered, at every step |
| `FreshRunner.PassVerdict` | packages/runtime/astro-project-adapter/fresh-runner.ts:89-208 | under any interleaving the verdict is own exactly when a listener that appeared in the pass's create block is present, foreign exactly when otherwise one that appeared outside every create block since is, and siblings' leaks never count |
| `FreshRunner.PassOutcome` | packages/runtime/astro-project-adapter/fresh-runner.ts:107-202 | under any interleaving a pass rejects first with a runner that is still open, then with its own leak, then with growth from outside, then with the reason its close gave, which is the cause of the others; the reason its inspection gave is reported beside them; and it returns exactly when there is none of these |
| `FreshRunner.UnreportedInspection` | packages/runtime/astro-project-adapter/fresh-runner.ts:103-176 | a failed inspection goes unreported exactly when it rejected with undefined, and the pass then returns exactly when it would have after a success |
| `FreshRunner.UndefinedRejectionReturns` | packages/runtime/astro-project-adapter/fresh-runner.ts:103-179 | on a clean transport such a pass returns, without a result |
| `FreshRunner.PassEvidence` | packages/runtime/astro-project-adapter/fresh-runner.ts:41-48 | the counts in the evidence, and in a cleanup error that names them, are those just before the create block and at the proof |
| `FreshRunner.StaleRegistrationHidesGrowth` | packages/runtime/astro-project-adapter/fresh-runner.ts:131-136 | on any transport a leaked listener that goes and is added again by an outsider escapes the next pass: new identities are needed |
| `Sessions.PairKeyInjective` | apps/web/src/candidates.ts:69-72 | different session pairs have different keys, whatever the epoch contains |
| `WriteExecutors.ExecutorTable.WriteExecutorFor` | apps/web/src/executor.ts:1061-1082 | up to the await: the session's entry, or a spawned, entered and tracked child, or nothing without a root |
| `WriteExecutors.ExecutorTable.ReadyRejected` | apps/web/src/executor.ts:1083-1092 | failed readiness evicts its own handle only and kills it |
| `WriteExecutors.ExecutorTable.OnExit` | apps/web/src/executor.ts:1113-1121 | an observed exit evicts its own handle only |
| `WriteExecutors.ExecutorTable.DisposeHungExecutor` | apps/web/src/executor.ts:1140-1155 | disposal evicts its own handle only and kills it |
| `WriteExecutors.ExecutorTable.EvictGrants` | apps/web/src/control-plane.ts:520-537 | eviction tells the session's child to stop before its entry goes |
| `WriteExecutors.EveryChildAccountedFor` | apps/web/src/executor.ts:1061-1156 | over all interleavings every spawned child has exited, was told to stop, or is the entry under its own pair key |
| `WriteExecutors.NothingIsRuledOut` | apps/web/src/executor.ts:1061-1156 | at every point any session can be edited or evicted, any child can exit, be observed to have, be disposed of or settle its readiness |
| `WriteExecutors.EditMeans` | apps/web/src/executor.ts:1061-1094 | an edit spawns, enters, tracks and awaits its child exactly where the session has no entry and its root is known, and else changes nothing |
| `WriteExecutors.ReactionsTell` | apps/web/src/executor.ts:1083-1156 | failed readiness and a hung disposal tell their own child to stop whether or not it still has its entry, and no other; observed exits are recorded |
| `WriteExecutors.EvictionStops` | apps/web/src/control-plane.ts:520-537 | after an eviction the session has no entry, the child it had was told to stop, and no other session's entry or child is touched |
| `WriteExecutors.ToldNeverServes` | apps/web/src/executor.ts:1049-1156 | over all interleavings no later edit is served a child that was told to stop |
| `WriteExecutors.OneLiveChild` | apps/web/src/executor.ts:1049-1094 | at most one live child that nobody told to stop exists per session |
| `WriteExecutors.OnlyItsOwnEntry` | apps/web/src/executor.ts:1086-1146 | a late reaction never removes a successor's or another session's entry |
| `WriteExecutors.EntriesGoWithTheirChild` | apps/web/src/executor.ts:1061-1156 | an entry is never replaced while it stands, and goes only with its child told to stop or seen to have exited |
| `WriteExecutors.ObservedNeverServes` | apps/web/src/executor.ts:1049-1060 | after its exit was observed a child is never handed out again; the next edit has a usable entry |
| `WriteExecutors.CrashEvicts` | apps/web/src/executor.ts:1096-1121 | every entry's exit listener is attached under its own key, so an observed crash clears the entry |
| `WriteExecutors.SessionsApart` | apps/web/src/candidates.ts:69-72 | different sessions never share an entry |
| `StopPass.StopOwnedWriteExecutors` | apps/web/src/executor.ts:1171-1249 | for any handles and settlement times the pass kills exactly the children whose stop missed the deadline, answers stopped exactly when there were none, and ends, within twice the deadline, exactly when the last handle is through: with its stop, with the exit after its kill, or with the second deadline |
| `StopPass.DeadlinesMean` | apps/web/src/executor.ts:1171-1249 | the two races in terms of the clock: when a stop misses, and when the pass is through with a child |
| `Activation.CandidateStore.RememberRun` | apps/web/src/candidates.ts:50-53 | remembering records run and port under the pair |
| `Activation.CandidateStore.ClearAllExcept` | apps/web/src/candidates.ts:60-65 | the deleting loop keeps exactly the named pair, in whatever order the keys come |
| `Activation.Composition.Activate` | apps/web/src/executor.ts:319-337 | up to the await of the port: unknown projects and the one already active are answered at once, with nothing changed |
| `Activation.Composition.CandidateStart` | apps/web/src/control-plane.ts:284-295 | the closure takes the first queued port and remembers the run it starts with it |
| `Activation.Composition.Continue` | apps/web/src/executor.ts:337-359 | the stretch from the picked port to the next await changes queue, store and attempt as specified |
| `Activation.PortsNeverSwapped` | apps/web/src/executor.ts:333-359 | for any interleaved activations, at every await the queue is empty, no desync was thrown, at most one pair is remembered, and every run has the port its own request picked |
| `Activation.NothingIsRuledOut` | apps/web/src/executor.ts:319-359 | at every point a new request can be made, a recorded one can get its port and be refused or admitted, and attempts and sessions can end |
| `Activation.StoredPort` | apps/web/src/candidates.ts:55-58 | the port the store names for a pair it holds is the one picked for it |
| `Activation.RememberedHavePorts` | apps/web/src/candidates.ts:54-58 | in every run the store has a port for exactly the pairs it remembers, and answers -1 for any other |
| `Activation.AskMeans` | apps/web/src/executor.ts:319-333 | a request is recorded exactly when its project is known and the active session is of another |
| `Activation.AnswerMeans` | apps/web/src/executor.ts:333-359 | with its port a request is answered with the active session exactly when that is of its project, and else refused or attempted as the supervisor decides |
| `Activation.AttemptMeans` | apps/web/src/executor.ts:343-359 | an attempt is of the project asked for and launches its run with its port, and any other answer leaves supervisor and launches alone |
| `Activation.AttemptsCommit` | apps/web/src/executor.ts:360-378 | an attempt becomes the active session when it commits, and only then |
| `Activation.RefusedChangesNothing` | apps/web/src/executor.ts:343-354 | a refused request, and one for the project already active, leave queue, store and supervisor as they were |
| `Activation.AttemptRemembered` | apps/web/src/candidates.ts:36-43 | the run of the attempt in flight stays remembered until the attempt ends |
| `LineIndex.LineAt` | packages/core/src/indexer.ts:73-79 | the scan counts the line feeds before the offset, wherever the offset lies |
| `LineIndex.LineCounts` | packages/core/src/indexer.ts:73-79 | the line is one more than the number of code units 10 before the offset |
| `LineIndex.UnitLineIndexer` | src/core/complexity.ts:87-93 | the table holds where each line begins |
| `LineIndex.LineLookup` | src/core/complexity.ts:66-77 | binary search in the table equals the scan, for every offset |
| `Complexity.WithoutPosition` | src/core/complexity.ts:156-162 | a function without a start is reported on the first line, one without an end on the line where it starts |
| `Complexity.Analyzer.Visit` | src/core/complexity.ts:181-214 | the counter-stack walk adds the subtree's records and bumps only the innermost open counter |
| `Complexity.Analyzer.FunctionNode` | src/core/complexity.ts:196-207 | a function's record enters before those inside it and gets its count as the walk leaves; the stack below is untouched |
| `Complexity.AnalyzeComplexity` | src/core/complexity.ts:167-218 | the stack ends empty and the records are those of the walk |
| `ComplexityLaws.WalkRefines` | src/core/complexity.ts:167-218 | the records are the functions in preorder, each with 1 plus the decisions whose innermost enclosing function it is |
| `ComplexitySyntax.CodeIsKept` | src/core/complexity.ts:15-32 | for all code of a source language with every construct the convention names: the engine finds in its syntax tree every function written in it, under its own or its lent name and its lines, with 1 and the decisions written in it outside functions of its own, and nothing else |
| `ComplexityLaws.SitesInOrder` | src/core/complexity.ts:181-214 | nodes are visited in preorder, none twice |
| `ComplexityLaws.SumOfComplexities` | src/core/complexity.ts:15-32 | the complexities sum to the functions plus the decisions inside some function |
| `ComplexityLaws.OneOwner` | src/core/complexity.ts:27-29 | no decision has two innermost functions |
| `Ratchet.EvaluateGate` | src/core/crap.ts:477-495 | the loop sorts the gated entries into the three lists by verdict, in order |
| `Ratchet.MergeBaseline` | src/core/crap.ts:503-522 | the loop leaves the merged baseline and the refused entries |
| `Ratchet.KeysTell` | src/core/crap.ts:450-466 | two functions share a key exactly when they share file and name, and line where they have no name |
| `Ratchet.VerdictMeans` | src/core/crap.ts:477-495 | below its stop an entry passes; at or above it the pin decides |
| `Ratchet.RefusedInOrder` | src/core/crap.ts:510-517 | the refused come in report order, and are those that would violate without any baseline and have no pin |
| `Ratchet.VerdictsPartition` | src/core/crap.ts:477-495 | every entry passes or is in exactly one list, none lost or doubled |
| `Ratchet.MergeTightens` | src/core/crap.ts:497-522 | a merge keeps only pinned keys that still violate, each with the lesser value |
| `Ratchet.RefusedAreUnpinned` | src/core/crap.ts:510-517 | the refused entries are exactly the gated ones without a pin |
| `Ratchet.NothingLaundered` | src/core/crap.ts:497-522 | what violated before a merge violates after it, in every report |
| `Ratchet.OnlyTightens` | src/core/crap.ts:497-522 | over any sequence of reports keys only disappear and values only fall |
| `Ratchet.DroppedNeverReturns` | src/core/crap.ts:497-522 | a dropped key never returns |
| `Ratchet.RegateStable` | src/core/crap.ts:455-522 | gating the same report after its merge gives the same violations and nothing improved, whatever the baseline, if and only if gated entries that share a key score the same |
| `Ratchet.MergeIdempotent` | src/core/crap.ts:503-522 | merging a report twice is merging it once, shared keys or not |
| `VirtualHosts.ParseMeans` | packages/runtime/origin/virtual-hosts.ts:80-125 | the parse accepts exactly the well-formed names, alone or with the listener's port, and answers them in lower case |
| `Text.SpacesAre` | packages/runtime/origin/virtual-hosts.ts:88 | what trimming strips, by code point |
| `Text.LowersTo` | packages/runtime/origin/virtual-hosts.ts:96 | what lower-casing changes, by code point: the capitals of ASCII and Latin-1, 32 up |
| `VirtualHosts.NameMeans` | packages/runtime/origin/virtual-hosts.ts:80-125 | a well-formed name spelled out: non-empty labels with single dots between them, and none of the characters a host cannot have |
| `VirtualHosts.RefusalMeans` | packages/runtime/origin/virtual-hosts.ts:80-125 | every refusal has exactly its reason: missing, duplicate, malformed when the value has no host's shape, else a trailing dot, else the port |
| `HostRouter.Router.Grant` | packages/runtime/origin/host-router.ts:88-96 | a grant is admitted for a valid key while nothing is leased and changes nothing otherwise |
| `HostRouter.Router.Revoke` | packages/runtime/origin/host-router.ts:97-101 | a revocation retires exactly the active key |
| `HostRouter.Router.Route` | packages/runtime/origin/host-router.ts:75-87 | the guards answer the specified decision |
| `HostRouter.GrantMeans` | packages/runtime/origin/host-router.ts:88-96 | after any history a grant is refused as invalid exactly when its key is not 26 base32 characters, as occupied exactly when otherwise a project is leased, and else granted its own hostname |
| `HostRouter.StateIsHistory` | packages/runtime/origin/host-router.ts:68-102 | the active key is the one admitted and not revoked since, and the remembered hostnames are those of every key ever admitted |
| `HostRouter.AdmittedMeans` | packages/runtime/origin/host-router.ts:88-92 | a grant is admitted exactly when its key is valid and nothing is leased |
| `HostRouter.RoutingIsHistory` | packages/runtime/origin/host-router.ts:9-22 | a valid key's hostname, in any letter case, with or without the port, resolves to its project while leased, to retired afterwards, to unknown if never granted |
| `HostRouter.OnlyTheLeaseRoutes` | packages/runtime/origin/host-router.ts:14-17 | a header resolves to a project if and only if the project is leased and the header spells its hostname |
| `HostRouter.OneProjectRoutes` | packages/runtime/origin/host-router.ts:10-13 | at most one project routes at a time |
| `HostRouter.LauncherAlwaysRoutes` | packages/runtime/origin/host-router.ts:82 | the launcher's hostname resolves to the launcher in every state, and nothing else does |
| `HostRouter.RetiredForever` | packages/runtime/origin/host-router.ts:18-21 | a key once admitted stays remembered over every later history |
| `HostRouter.NoKeyIsTheLauncher` | packages/runtime/origin/virtual-hosts.ts:24-43 | no project key's hostname is the launcher's |

Where the code and its own words differ, the code is modelled:

- `entry-writer.ts:117-118` says only a real splice re-serializes the block; a deletion of a
  key that is not there counts as one (exactly when: `EntryWrite.ReportedInVain`; inputs:
  `EntryInputs.StaleDropIsReported`, `EntryInputs.OddKeyIsNotDropped`).
- `entry-writer.ts:122-123` calls body writes byte-surgical; where no line end follows a closing
  fence a line break is put in front of a body, and the white space of a blank body is put back
  twice (exactly when: `EntryRoundTrip.BodyWriteSurgical`, `EntryRoundTrip.BodyEditSurgical`;
  inputs: `EntryRoundTrip.PlainFileGainsBreak`, `EntryRoundTrip.ClearAndRetype`).
- `entry-writer.ts:58-63` calls protected paths never touched; a dropped key, or a whole value
  written over an ancestor, loses them (exactly when: `EntryPaths.NodeStaysExactly`; input:
  `EntryInputs.ProtectedNodeIsDropped`).
- `entry-writer.ts:183` leaves siblings untouched; an alias of an edited node is edited with
  it (exactly when: `EntryTies.AliasesStayTrue`; input: `EntryInputs.AnchoredEditSpreads`), and
  a key that is no string cannot be dropped or set (exactly when that matters:
  `EntryLaws.SpliceSaysDraft`; inputs: `EntryInputs.OddKeyStays`, `EntryInputs.OddKeyDoubles`).
- `matcher.ts:118-122` counts `:nth-child()` as one pseudo-class, and the scanner compares names
  as they are spelled and takes a namespace for a type (exactly when that is right:
  `Selectors.SpellingDecides`, `Selectors.PrefixDecides`).
- `matcher.ts:18` speaks of the cascade winner; on equal specificity the earliest rule is first
  (exactly when they are the same: `RuleRanking.WinnerIsCascadeWinner`).
- `fresh-runner.ts:103-106` lets no failure hide another; one that rejects with `undefined` is
  reported nowhere (exactly when: `FreshRunner.UnreportedInspection`; input:
  `FreshRunner.UndefinedRejectionReturns`).
- `app-client.ts:423` promises `true` or `false`; the function answers `ended` or `aborted`.

## Left out

- EntryFile.SerializeEntry: a frontmatter that does not parse throws as soon as the data differ; the library's partial documents for such text are not modelled.
- EntryLaws.SpliceSaysDraft: own keys named `__proto__` are excluded, because assigning them changes a prototype instead of a key; drafts are trees, so no object occurs twice in one, for which the library would write an anchor and an alias.
- EntryWrite.WriteThrows: a whole value is compared with the aliases in the old node as they were read; where the same write has by then edited a node one of them stands for, the library compares the edited node, or throws when the anchor is gone.
- EntryRoundTrip.RoundTrip: the same comparison; `a: &s 1` beside `b: *s`, with new values for both, throws in the library.
- EntryRoundTrip.ProjectionWrite: the same comparison.
- EntryTies.AliasesStayTrue: a document that defines one anchor twice, where an alias stands for the nearest one before it, is covered one way only.
- EntryDocument.ToJson: keys that are collections, and tags, merge keys and directives, are left out.
- EntrySplice.Document.SetIn: a path segment that is a decimal index into a sequence addresses an item in the library; here a sequence takes no key. Only a write whose baseline has an object where the document has a sequence, and a numeral among its keys, gets there.
- FormTree.CollectedPathsAreImages: labels, initial values and enum options of the fields are left out, because the collected paths do not depend on them; keys are non-empty, since an empty key and its parent share a dotted path.
- SelectorScan.ScanList: functional pseudo-elements, `:host()` and `:host-context()` (which another standard weighs), escapes, and brackets or parentheses inside attribute values are no part of the grammar; type names and namespace prefixes begin with a letter; the keyword `of` is printed in lower case between single blanks.
- RouteRoundTrip.CaptureOfBuilt: static text is non-empty and of characters the URL parser leaves alone (unreserved ones of section 2.3 of RFC 3986, the marks an encoded segment keeps, and percent signs); other text is rewritten by the parser.
- Percent.DecodeUndoesEncode: text is code points; lone surrogates, on which encoding throws, do not occur.
- FrameStream.DeliverFrames: chunks are text; a code point split between two byte chunks is left out.
- HarnessRuns.FirstMatchAnswers: when a timer goes off is an event of the run; the clock and the standard-error tail are left out.
- FreshRunner.HotTransport.Create: a constructor that throws begins no pass; what it leaves on the transport is a change from outside.
- WriteExecutors.EveryChildAccountedFor: holds until `close()`, which clears the table after an await; handles a test harness seeds into the table are left out.
- StopPass.StopOwnedWriteExecutors: the parallel waits are folded one handle at a time, which is sound because no wait depends on another.
- Activation.PortsNeverSwapped: the order in which runs are enumerated at teardown is left out; the store holds at most one at every await.
- Complexity.AnalyzeComplexity: the parser is left out; a syntax tree has distinct keys in every node, in their enumeration order.
- Ratchet.MergeTightens: scores are numbers without NaN, and the score itself (`crapScore`, `coverageWithin`, the tier tables) is arithmetic a reading settles.
- VirtualHosts.ParseMeans: header values are Latin-1, as the HTTP server delivers them; lower-casing beyond Latin-1 is left out.
- HostRouter.RoutingIsHistory: the listener's sockets and the request-target classification (`classifyRequestTarget`) are left out.
- RuleRanking.MatchRules: whether a selector matches the element, or throws, is the DOM's answer and an argument here.
- The TypeScript-compiler complexity oracle and the Astro and CSS indexers beyond `lineAt`.
- Process spawning, the kernel lease, the supervisor, fence, coordinator and grant table, zod schemas, React and DOM code, staging and certification scripts.
