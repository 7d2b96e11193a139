# Diffploit core, modelled in Dafny

Diffploit carries a working proof-of-concept exploit for a CVE from the
library versions where it already reproduces to the other affected versions.
This project models the deterministic core of that process and proves
properties of the model. The core has four parts.

- **Maven diagnostics** (module `ErrorManager`). The `[ERROR]` lines of a
  build log become `StructuredError` records through a line-by-line state
  machine. The records are then deduplicated, given the surefire fallback
  when nothing was found, sorted by position, filled in with their source
  lines, and grouped by message.
- **Diff store and evidence rankers** (modules `DiffUnits`, `DiffBlocks`
  and `DiffManager`). A unified diff is loaded into hunks (`DiffUnit`), which
  can be rendered and queried. Each hunk is split into maximal runs of
  added or removed lines, and the nearest removal run of an added line is
  found. Hunks are scored against the root causes, and three rankers keep
  the top five.
- **Version selection and the controller** (modules `VersionSelector`,
  `VersionAnalyzer` and `MainProcess`).
  - The CVE record gives the affected and reproduced versions.
  - The selector picks the pending version nearest to a reproduced one.
  - The controller loop attempts each selected version, by executing the
    exploit directly or by adapting it from the nearest reproduced base.
    It logs each attempt and stops at the first failed adaptation.
- **Evaluation scripts** (modules `ScriptStep` and `ScriptRun`). They strip
  ANSI codes, count re-executions after the adaptation marker, look up
  migrated versions, load batch jobs, total the interval counts, and update
  the ablation summary.

Module `Strings` (in `common.dfy`) holds the Python string operations the
core uses: `startswith`, `in`, `strip`, `split`/`join` on one character,
`replace`, `count`, `lower`, `int`/`str` on naturals, and `os.path.join`.
Module `Wrappers` holds `Option` and `Result`.

The core's imperative code stays imperative in the model.
- The parser, the diff loader, the block grouping, the semantic scorer, the
  rankers, the selector, the controller loop and the script loops are
  methods with loops.
- `ErrorManager`, `DiffManager` and `CVEProcessor` are classes whose fields
  the methods update.
- Each method is proved equal to a specification function, and the
  properties the code promises are proved as lemmas about those functions.

The executor, the adapter and the preparer are not shown in the source, so
the controller takes `execute` and `adapt` as function parameters. The same
goes for the similarity libraries (`ratio`, `closeToken`), the files a
method reads (maps from path to text), the HTTP fetch (`fetch`), and the
benchmark subprocess (`run`).

## Model

| member | source | states |
|---|---|---|
| ErrorManager.SameErrorIff | Diffploit/error_manager.py:24-32 | two diagnostics are equal exactly when file, line, column, message, symbol and location agree; equal diagnostics hash alike; the source line takes no part |
| ErrorManager.MarkedLines | Diffploit/error_manager.py:50-52 | keeps exactly the lines containing `[ERROR]`, and only lines of the input |
| ErrorManager.ExtractErrorLines | Diffploit/error_manager.py:46-53 | every returned line holds `[ERROR]`; without the goal banner it is all marked lines of the log; with it, it is exactly the marked lines of the text from the banner's first occurrence to the end, starting with the banner's line |
| ErrorManager.ExtractFromFirstBanner | Diffploit/error_manager.py:48-53 | when the banner first occurs at position k, the kept lines are the `[ERROR]` lines of the log from k on |
| ErrorManager.BannerLineFirst | Diffploit/error_manager.py:48-50 | text from the first banner on yields a non-empty marked list whose first line starts with the banner |
| ErrorManager.BannerHasTag | Diffploit/error_manager.py:48-51 | a banner line is itself a marked line, so the fallback to the whole log is never taken once the banner occurs |
| ErrorManager.FirstLine | Diffploit/error_manager.py:50 | the first `splitlines` piece of text keeps every newline-free prefix of that text |
| ErrorManager.LeadingDigits | Diffploit/error_manager.py:85 | `\d+` matches the maximal run of leading digits |
| ErrorManager.MatchInOrder | Diffploit/error_manager.py:58-60 | a `.*`-separated pattern match ends within the line, at or after its start |
| ErrorManager.MatchInOrderIff | Diffploit/error_manager.py:58-60 | the earliest-place search matches exactly when the literals can be placed one after another from the start position |
| ErrorManager.InOrderEarlier | Diffploit/error_manager.py:58-60 | a placement of the literals from one position is also one from any earlier position |
| ErrorManager.LeadingVersionChars | Diffploit/error_manager.py:76 | the maximal run of digits and dots at the front, as the greedy `[\d\.]+` takes it |
| ErrorManager.LazySplitSpec | Diffploit/error_manager.py:85 | the lazy `(.*?)` file part is the shortest prefix after which `:[line,col] message` matches, and there is none when no split point matches |
| ErrorManager.Classify | Diffploit/error_manager.py:85-116 | first match in the parser's order: a line is ignored exactly when an ignored pattern matches; otherwise a header exactly when the header pattern matches (with the stripped file, line, column and stripped message); otherwise a `symbol:` line, then a `location:` line, then a generic marker line, each exactly when its pattern matches, carrying the captured value and the stripped text after `[ERROR]` |
| ErrorManager.InspectAll | Diffploit/error_manager.py:78-84 | each raw line is classified once, after stripping, in order |
| ErrorManager.RunFromExisting | Diffploit/error_manager.py:83-119 | diagnostics already pending stay in front; the loop's own output does not depend on them |
| ErrorManager.SurefireLine | Diffploit/error_manager.py:74-81 | the fallback exists exactly when some line is the surefire line (ending in the literal `There are test failures.`), and it is the stripped first such line |
| ErrorManager.Deduplicate | Diffploit/error_manager.py:120 | no two results are equal, every result comes from the input, and every input diagnostic has an equal result |
| ErrorManager.ParseErrorsDistinct | Diffploit/error_manager.py:118-127 | the parsed list holds no two equal diagnostics |
| ErrorManager.ParseErrorsFallback | Diffploit/error_manager.py:123-127 | with no diagnostic and a surefire line the result is the single UNKNOWN (-1, -1) diagnostic holding that line; with diagnostics, nothing is added |
| ErrorManager.NothingPendingWhileClosed | Diffploit/error_manager.py:92-116 | while no diagnostic is open nothing has been pushed |
| ErrorManager.DiagnosticsHaveOrigin | Diffploit/error_manager.py:92-116 | every diagnostic is an UNKNOWN one at (-1, -1) or sits at the position of some header line |
| ErrorManager.StepOrigin | Diffploit/error_manager.py:92-116 | one line pushes only an UNKNOWN diagnostic, the header's, or one whose position was already there |
| ErrorManager.PositionsKept | Diffploit/error_manager.py:92-116 | a line never loses a diagnostic's position: symbol, location and generic lines only extend the open one |
| ErrorManager.HeadersYieldDiagnostics | Diffploit/error_manager.py:92-99 | every header line leaves a diagnostic at its file, line and column |
| ErrorManager.RepeatedHeaderOnce | Diffploit/error_manager.py:92-120 | two identical header lines yield one diagnostic |
| ErrorManager.StrLeTotal | Diffploit/error_manager.py:131 | string comparison is total |
| ErrorManager.StrLeAntisymmetric | Diffploit/error_manager.py:131 | string comparison is antisymmetric |
| ErrorManager.StrLeTransitive | Diffploit/error_manager.py:131 | string comparison is transitive |
| ErrorManager.PositionLeTotal | Diffploit/error_manager.py:131 | the (file, line, column) key compares any two diagnostics |
| ErrorManager.PositionLeTransitive | Diffploit/error_manager.py:131 | the (file, line, column) key is transitive |
| ErrorManager.InsertByPosition | Diffploit/error_manager.py:131 | inserting into a sorted list keeps it sorted and adds exactly that diagnostic |
| ErrorManager.SortByPosition | Diffploit/error_manager.py:130-132 | the result is ordered by (file, line, column) and is a permutation of the input |
| ErrorManager.WithCodeLine | Diffploit/error_manager.py:146-150 | the source line is the 1-indexed line when in range, None out of range, untouched for an unreadable file; identity is unchanged |
| ErrorManager.Annotate | Diffploit/error_manager.py:135-150 | every diagnostic, in order, gets its source line |
| ErrorManager.WithKey | Diffploit/error_manager.py:176-178 | a group holds exactly the diagnostics with its key |
| ErrorManager.GroupKeysIff | Diffploit/error_manager.py:176-178 | a key is a group exactly when some diagnostic has it |
| ErrorManager.NoKeyNoGroup | Diffploit/error_manager.py:176-178 | a key no diagnostic has has an empty group |
| ErrorManager.ErrorsOfFileMembers | Diffploit/error_manager.py:153-154 | a diagnostic is in the result exactly when it is in the list and belongs to the file |
| ErrorManager.ErrorsOfFileCount | Diffploit/error_manager.py:153-154 | each diagnostic of the file is kept as often as it occurs, every other one is dropped |
| ErrorManager.ErrorsOfFileConcat | Diffploit/error_manager.py:153-154 | the filter distributes over concatenation, so the kept diagnostics stay in their order |
| ErrorManager.FindSurefireLine | Diffploit/error_manager.py:78-81 | the search loop finds the stripped first surefire line |
| ErrorManager.RunLines | Diffploit/error_manager.py:83-116 | the parsing loop ends in the state the line-by-line specification gives |
| ErrorManager.GroupErrors | Diffploit/error_manager.py:174-179 | the map has exactly the keys of the diagnostics, each mapped to its diagnostics in order |
| ErrorManager.ErrorManager.constructor | Diffploit/error_manager.py:36-43 | raw lines are the extracted lines; pending diagnostics are parsed, sorted and annotated; nothing is resolved |
| ErrorManager.ErrorManager.ParseAll | Diffploit/error_manager.py:55-127 | pending diagnostics become the parse of the raw lines on top of those already pending |
| ErrorManager.ErrorManager.SortErrors | Diffploit/error_manager.py:130-132 | both lists are sorted by position |
| ErrorManager.ErrorManager.LoadCodeLines | Diffploit/error_manager.py:135-150 | every pending diagnostic is annotated from the readable files |
| ErrorManager.ErrorManager.ErrorsByFile | Diffploit/error_manager.py:153-154 | the pending diagnostics of the file, filtered in order as `ErrorsOfFile` does |
| ErrorManager.ErrorManager.GroupByType | Diffploit/error_manager.py:174-179 | the grouping of the pending diagnostics by stripped `message \| symbol` |
| DiffUnits.FlushedGood | Diffploit/diff_manager.py:51-82 | a hunk is appended only with a file, a header and content, its lines right-stripped |
| DiffUnits.FeedGood | Diffploit/diff_manager.py:49-87 | one line keeps every stored and open hunk well formed |
| DiffUnits.ContentGood | Diffploit/diff_manager.py:86-87 | appending a right-stripped line keeps the content free of trailing space |
| DiffUnits.LoadUnitsGood | Diffploit/diff_manager.py:49-91 | every loaded hunk has a non-empty file, header and content, and no content line ends in white space |
| DiffUnits.LoaderGood | Diffploit/diff_manager.py:49-87 | the loop variables stay well formed over any input |
| DiffUnits.FeedAppends | Diffploit/diff_manager.py:50-82 | a line appends at most one hunk, and only one ended by `diff --git` keeps the pending type; otherwise it is MODIFIED |
| DiffUnits.LoadKeepsOrder | Diffploit/diff_manager.py:49-91 | hunks keep input order: the hunks of a prefix come first |
| DiffUnits.LastHunkModified | Diffploit/diff_manager.py:90-91 | the hunk still open at the end is stored as MODIFIED |
| DiffUnits.NewFileAtEndIsModified | Diffploit/diff_manager.py:64-91 | a new file that ends the diff is stored as MODIFIED |
| DiffUnits.ExampleGitLine | Diffploit/diff_manager.py:50-59 | from any state, a `diff --git` line flushes the open hunk with its pending type and resets file, hunk, content, candidate and type |
| DiffUnits.ExampleNewFileLine | Diffploit/diff_manager.py:64-65 | `new file mode` sets the pending type to NEW_FILE |
| DiffUnits.ExampleFileLine | Diffploit/diff_manager.py:72-73 | `+++ b/` sets the file to the stripped path |
| DiffUnits.ExampleHunkLine | Diffploit/diff_manager.py:80-84 | `@@` flushes as MODIFIED and opens a hunk with the stripped header |
| DiffUnits.ExampleContentLine | Diffploit/diff_manager.py:86-87 | inside a hunk a line is appended right-stripped |
| DiffUnits.ReversedTypeInvolution | Diffploit/diff_manager.py:126-130 | the rendered operation swaps NEW_FILE and DELETED_FILE, keeps MODIFIED, and undoes itself |
| DiffUnits.RenderedLines | Diffploit/diff_manager.py:133-136 | the first min(100, n) content lines, unchanged |
| DiffUnits.RenderById | Diffploit/diff_manager.py:99-139 | text exactly for an id in range, None otherwise |
| DiffUnits.RenderSplits | Diffploit/diff_manager.py:126-139 | the rendered text is the header line followed by the hunk's first lines |
| DiffUnits.BriefById | Diffploit/diff_manager.py:240-245 | (file, header, full content) in range, (`<unknown>`, `<none>`, []) otherwise |
| DiffBlocks.ScanInvHolds | Diffploit/diff_manager.py:142-155 | after each line, the closed blocks are the maximal runs seen so far and the open run is one still going |
| DiffBlocks.BlocksAreRuns | Diffploit/diff_manager.py:142-155 | the blocks are exactly the maximal runs of lines with the sign, ordered and disjoint |
| DiffBlocks.NoSignNoBlocks | Diffploit/diff_manager.py:142-155 | no signed line gives no block |
| DiffBlocks.AllSignOneBlock | Diffploit/diff_manager.py:153-154 | all n lines signed gives the one block (0, n-1, all lines) |
| DiffBlocks.SecondRunAfterFirst | Diffploit/diff_manager.py:142-155 | consecutive blocks are separated and in range |
| DiffBlocks.GroupContinuousBlocks | Diffploit/diff_manager.py:142-155 | the loop returns the specification's blocks |
| DiffBlocks.HasEmptyLineBetween | Diffploit/diff_manager.py:163-168 | true exactly when a blank line lies strictly between the two positions |
| DiffBlocks.BlockAt | Diffploit/diff_manager.py:170-174 | the first block containing the position, or none contains it |
| DiffBlocks.LastFitBefore | Diffploit/diff_manager.py:182-185 | the last removal block ending before the position with no blank line between, or none fits |
| DiffBlocks.FirstFitAfter | Diffploit/diff_manager.py:187-190 | the first removal block starting after the position with no blank line between, or none fits |
| DiffBlocks.NearbyAreRuns | Diffploit/diff_manager.py:158-192 | both returned line lists are empty or a maximal `-` run of the hunk |
| DiffBlocks.FindNearbyDeleteBlocks | Diffploit/diff_manager.py:158-192 | the method returns the specification's pair of nearby removal runs |
| DiffBlocks.FindBlockAt | Diffploit/diff_manager.py:170-174 | the search finds the first block holding the position |
| DiffBlocks.FindLastFitBefore | Diffploit/diff_manager.py:182-185 | the backward search finds the last fitting block |
| DiffBlocks.FindFirstFitAfter | Diffploit/diff_manager.py:187-190 | the forward search finds the first fitting block |
| DiffBlocks.CausesIn | Diffploit/diff_manager.py:197-198 | at most one per cause, and zero exactly when no cause occurs in the text |
| DiffBlocks.TallyStepOk | Diffploit/diff_manager.py:225-235 | the subtotal is 4 once high, 2 once only mid, 0 before either, and nothing changes after a high |
| DiffBlocks.TallyRunsOk | Diffploit/diff_manager.py:205-235 | over all added runs the subtotal stays fixed by the two flags |
| DiffBlocks.SemanticScoreValues | Diffploit/diff_manager.py:196-237 | the score is 0, 2n or 4n for n causes found, and 0 when no cause occurs |
| DiffBlocks.ScoreBlock | Diffploit/diff_manager.py:207-235 | one run changes the tally only when it mentions a cause, as the one-shot flags say |
| DiffBlocks.ScoreSemanticSimilarity | Diffploit/diff_manager.py:196-237 | the method returns the specification's score |
| DiffManager.Insert | Diffploit/diff_manager.py:270 | insertion adds exactly that pair |
| DiffManager.SortByScore | Diffploit/diff_manager.py:297 | the sort is a permutation |
| DiffManager.InsertRanked | Diffploit/diff_manager.py:297 | stable insertion of a later index keeps the ranking |
| DiffManager.SortRanked | Diffploit/diff_manager.py:297 | pairs in index order sort to highest score first, ties in index order |
| DiffManager.RankTop | Diffploit/diff_manager.py:297-298 | at most five pairs, all from the scores, ranked, and no pair left out beats one kept |
| DiffManager.PomScores | Diffploit/diff_manager.py:249-268 | one pair per hunk, in order, with that hunk's pom score |
| DiffManager.PomCausesBounds | Diffploit/diff_manager.py:259-266 | each cause present is worth 5 and the fuzzy token adds at most 1 per cause |
| DiffManager.ScoresOf | Diffploit/diff_manager.py:276-294 | pairs in index order, none for a new file, each with its hunk's score |
| DiffManager.ScoresOfCovers | Diffploit/diff_manager.py:279-294 | every hunk that is not a new file is scored |
| DiffManager.DetectErrorType | Diffploit/diff_manager.py:340-352 | each kind is returned exactly when its rule matches and no earlier rule does, in the order MissingPackage, MissingClass, MissingMethod, TypeMismatch, TestFailure, Unknown |
| DiffManager.DetectExtends | Diffploit/diff_manager.py:340-352 | a longer group key never moves to a later rule, since every rule only asks for substrings |
| DiffManager.Basename | Diffploit/diff_manager.py:317 | the slash-free tail of the path |
| DiffManager.TestBonusBounds | Diffploit/diff_manager.py:314-325 | between 0 and 10 per cause, and 0 for kinds other than MissingPackage, MissingClass and TestFailure |
| DiffManager.DiffManager.constructor | Diffploit/diff_manager.py:29-38 | the hunks of the diff, or none when the file is missing |
| DiffManager.DiffManager.LoadDiff | Diffploit/diff_manager.py:35-91 | appends the loaded hunks of the lines |
| DiffManager.DiffManager.GetDiffById | Diffploit/diff_manager.py:99-139 | text exactly for an id in range |
| DiffManager.DiffManager.GetDiffBriefById | Diffploit/diff_manager.py:240-245 | the hunk's file, header and full content in range, the placeholders otherwise |
| DiffManager.DiffManager.SelectRelatedDiffPom | Diffploit/diff_manager.py:248-271 | the top five of the pom scores of all hunks |
| DiffManager.DiffManager.SelectRelatedDiffAssert | Diffploit/diff_manager.py:274-298 | the top five of the assert scores of the hunks that are not new files |
| DiffManager.DiffManager.SelectRelatedDiffTest | Diffploit/diff_manager.py:301-336 | the top five of the test scores, for the kind detected from the group key |
| DiffManager.ScoreAssertHunk | Diffploit/diff_manager.py:277-292 | one hunk's assert score: the similarity, halved outside `.java` |
| DiffManager.ScoreTestHunk | Diffploit/diff_manager.py:306-330 | one hunk's test score: the file bonus plus the similarity part |
| VersionSelector.IndexOf | Diffploit/version_selector.py:19-20 | a position of the version in the release list |
| VersionSelector.IndexOfFirst | Diffploit/version_selector.py:19-20 | that position is the first occurrence |
| VersionSelector.Positions | Diffploit/version_selector.py:19-20 | each version's first position, in order |
| VersionSelector.FirstMin | Diffploit/version_selector.py:27-31 | the first least value: no later one is smaller, every earlier one is larger |
| VersionSelector.FirstMinUnique | Diffploit/version_selector.py:27-31 | only one position is the first least value |
| VersionSelector.DistancesFrom | Diffploit/version_selector.py:28 | the distance to each reproduced position |
| VersionSelector.GapsOf | Diffploit/version_selector.py:26-30 | each pending position's least distance |
| VersionSelector.Selection | Diffploit/version_selector.py:12-39 | (None, None) on an empty list, the ValueError for an unknown version, otherwise a pending version and a reproduced base |
| VersionSelector.GapAtLeast | Diffploit/version_selector.py:27-30 | the gap is the least distance, attained at the chosen base |
| VersionSelector.SelectionIsNearest | Diffploit/version_selector.py:26-35 | the pair is nearest over all pairs; ties go to the first pending version and, for it, the first base |
| VersionSelector.NearestPairUnique | Diffploit/version_selector.py:26-35 | that pair is unique |
| VersionSelector.ClosestReproduced | Diffploit/version_selector.py:27-30 | the scan returns the least distance and the first closest base |
| VersionSelector.Indices | Diffploit/version_selector.py:19-20 | the positions, or failure exactly when a version is missing |
| VersionSelector.ScanPending | Diffploit/version_selector.py:26-35 | the loop settles on the first nearest pending version and its base |
| VersionSelector.SelectNearestReproducedVersion | Diffploit/version_selector.py:4-39 | the method returns the specification's selection |
| VersionAnalyzer.FindEntry | Diffploit/version_analyzer.py:32-34 | the first record with that CVE, or no record has it |
| VersionAnalyzer.LoadCveData | Diffploit/version_analyzer.py:24-37 | FileNotFoundError without the file, the first matching record, or ValueError |
| VersionAnalyzer.FirstMatchIsFound | Diffploit/version_analyzer.py:32-34 | the first matching record is the one found |
| VersionAnalyzer.NoMatchIsNotFound | Diffploit/version_analyzer.py:36-37 | with no match nothing is found |
| VersionAnalyzer.KeepIn | Diffploit/version_analyzer.py:50 | exactly the listed versions in the kept set |
| VersionAnalyzer.KeepInConcat | Diffploit/version_analyzer.py:50 | the filter keeps release order |
| VersionAnalyzer.KeepInCount | Diffploit/version_analyzer.py:50 | every copy of a kept version is kept and no copy of another |
| VersionAnalyzer.NoReleasesNoneReproduced | Diffploit/version_analyzer.py:15-50 | with no release list yet nothing is reproduced |
| VersionAnalyzer.CacheFileName | Diffploit/version_analyzer.py:88 | the group id with dots as underscores, `_`, the artifact id, `.txt` |
| VersionAnalyzer.CacheFileNameGroup | Diffploit/version_analyzer.py:88 | a group id without underscores is recovered from the name |
| VersionAnalyzer.MetadataUrl | Diffploit/version_analyzer.py:100 | the Maven Central prefix, the group id with dots as slashes, the artifact id, `maven-metadata.xml` |
| VersionAnalyzer.MetadataUrlGroup | Diffploit/version_analyzer.py:100 | a group id without slashes is recovered from the URL |
| VersionAnalyzer.StripNonBlank | Diffploit/version_analyzer.py:94 | stripped non-blank lines, each clean |
| VersionAnalyzer.CacheText | Diffploit/version_analyzer.py:107-110 | one line per version, empty exactly for no versions |
| VersionAnalyzer.CacheRoundTrip | Diffploit/version_analyzer.py:94-110 | a cache written from clean versions reads back as the same list |
| VersionAnalyzer.CVEProcessor.constructor | Diffploit/version_analyzer.py:9-22 | the record is kept and every other field starts empty |
| VersionAnalyzer.CVEProcessor.IdentifyReproducedVersions | Diffploit/version_analyzer.py:39-50 | the fields copy the record; affected is its set; reproduced is the release-ordered filter by affected minus required |
| VersionAnalyzer.CVEProcessor.FetchAllMavenVersions | Diffploit/version_analyzer.py:82-104 | a KeyError without group or artifact; otherwise the cached list when the cache exists, else the fetched one; every other field is unchanged |
| VersionAnalyzer.NewProcessor | Diffploit/version_analyzer.py:9-12 | construction fails as the record loading does, or holds the found record |
| MainProcess.Pos | Diffploit/main_process.py:70 | a listed version's key is its first release position |
| MainProcess.InsertByPos | Diffploit/main_process.py:70 | insertion adds exactly that version |
| MainProcess.SortByPos | Diffploit/main_process.py:70 | the sort is a permutation |
| MainProcess.InsertByPosSorted | Diffploit/main_process.py:132 | insertion keeps release order |
| MainProcess.SortByPosSorted | Diffploit/main_process.py:70 | the sort orders by release position |
| MainProcess.RemoveFirst | Diffploit/main_process.py:118 | drops one copy of a present version, and nothing otherwise |
| MainProcess.Unreproduced | Diffploit/main_process.py:69 | exactly the affected versions not reproduced |
| MainProcess.SplitAt | Diffploit/main_process.py:82-84 | exactly the versions after, or at or before, the start position |
| MainProcess.Setup | Diffploit/main_process.py:66-87 | a successful setup has nothing attempted and nothing logged (its lists are characterised by SetupSplit and SetupSucceedsIff) |
| MainProcess.SetupGood | Diffploit/main_process.py:66-87 | the setup meets the loop invariant, keeps only unreproduced affected versions pending, and none after the start version |
| MainProcess.SetupSplit | Diffploit/main_process.py:69-87 | pending is in release order, and pending and reproduced together hold the unreproduced affected versions and the reproduced ones, each as often as before |
| MainProcess.SetupSucceedsIff | Diffploit/main_process.py:69-87 | the setup fails, with ValueError, exactly when a pending or reproduced version is not a released version |
| MainProcess.SplitAtSorted | Diffploit/main_process.py:82-84 | filtering by the start position keeps release order |
| MainProcess.SplitAtPartition | Diffploit/main_process.py:82-84 | the versions after the start and those at or before it make up the whole list |
| MainProcess.Next | Diffploit/main_process.py:102-178 | a pass that goes on shrinks pending, so the loop ends |
| MainProcess.NextGood | Diffploit/main_process.py:102-178 | no offer stops the loop; an offered version is pending and unattempted, leaves pending, joins reproduced and is logged on success, and is logged failed and exits otherwise |
| MainProcess.StepGood | Diffploit/main_process.py:121-132 | moving a version from pending to reproduced keeps them disjoint and reproduced ordered |
| MainProcess.StopFacts | Diffploit/main_process.py:109-178 | a stopping pass raises nothing and adds nothing or one failed attempt at a pending version |
| MainProcess.ContinueFacts | Diffploit/main_process.py:121-161 | a continuing pass logs one truthful success and moves the version to reproduced |
| MainProcess.RunExits | Diffploit/main_process.py:102-178 | the loop raises nothing, only appends to the log, and exits exactly when it added an entry and the last is a failure |
| MainProcess.RunAdded | Diffploit/main_process.py:102-178 | each entry the loop adds is a distinct pending version and says what the oracles did |
| MainProcess.RunFinished | Diffploit/main_process.py:129-155 | on finishing, reproduced holds the earlier and the new versions in release order |
| MainProcess.ProcessLog | Diffploit/main_process.py:66-178 | only the setup raises; each entry is an affected unreproduced version, no version is logged twice, and the process exits exactly when the last entry failed |
| MainProcess.RunOfSelection | Diffploit/main_process.py:103-111 | a selector failure raises and no offer ends the loop |
| MainProcess.NextOfPick | Diffploit/main_process.py:115-178 | the four outcomes of an offered version: already attempted, direct success, adaptation success, failure |
| MainProcess.RunMainProcess | Diffploit/main_process.py:66-178 | the loop's outcome is the specification's |
| ScriptStep.ParamRun | Script/step.py:7 | the maximal run of `[0-9;]` |
| ScriptStep.CodeAt | Script/step.py:7 | the colour code at the front, or none starts there |
| ScriptStep.CodeUnique | Script/step.py:7 | a colour code matches in one way only |
| ScriptStep.RemoveAnsi | Script/step.py:5-7 | never longer, and unchanged without ESC |
| ScriptStep.RemoveAnsiCode | Script/step.py:7 | a leading colour code disappears |
| ScriptStep.RemoveAnsiKeeps | Script/step.py:7 | any other character is kept |
| ScriptStep.FirstStart | Script/step.py:17-20 | the first start line, or none exists |
| ScriptStep.CountAfterAdaptation | Script/step.py:9-30 | 0 without a start line, otherwise one less than the occurrences from the start line on, never negative |
| ScriptStep.CountReproductionAfterAdaptation | Script/step.py:9-30 | the method returns the specification's count |
| ScriptStep.StartLineOfPrefix | Script/step.py:18 | a start line of a version is one of each prefix, as "1.2" matches "1.21" |
| ScriptStep.JsonKeyIsLower | Script/step.py:45-50 | every group's key is its lower-cased name |
| ScriptStep.IsVersionMigrated | Script/step.py:41-54 | migrated only when the CVE and the group's key are present |
| ScriptStep.MigratedAfterWrite | Script/step.py:53-54 | after a summary write, migrated exactly when the version has a positive count |
| ScriptStep.MigratedOtherCve | Script/step.py:41-54 | writing another CVE changes no answer |
| ScriptStep.LogCount | Script/step.py:32-38 | 0 without a log file |
| ScriptStep.GetLogCount | Script/step.py:32-38 | the method returns the specification's count |
| ScriptStep.Row | Script/step.py:80-88 | one cell per group |
| ScriptStep.RowColumns | Script/step.py:81-88 | the first cell is the main group's count; the others are 999 unless migrated |
| ScriptStep.RowFor | Script/step.py:80-88 | the loop builds the specification's row |
| ScriptStep.RowLineRoundTrip | Script/step.py:88-89 | a written row reads back as the row |
| ScriptStep.StepReport | Script/step.py:76-89 | the output is one written row per target |
| ScriptRun.ModuleList | Script/run.py:6-13 | five entries, the first two names joined, no plain "diffploit" |
| ScriptRun.CveOrder | Script/run.py:107-115 | each CVE of the list once, and only those |
| ScriptRun.VersionsFor | Script/run.py:112 | no versions for an unlisted CVE |
| ScriptRun.LastIndex | Script/run.py:113 | the last item for a pair, or none lists it |
| ScriptRun.JobsMapMeaning | Script/run.py:107-115 | keys are the listed CVEs, each with its versions in list order, duplicates kept |
| ScriptRun.CountsMapMeaning | Script/run.py:113 | a pair has a count exactly when listed, and it is the last item's |
| ScriptRun.LoadBatchJobs | Script/run.py:100-115 | the loop builds the specification's maps |
| ScriptRun.GroupingKeepsEveryItem | Script/run.py:107-115 | grouping loses no item |
| ScriptRun.IntervalCount | Script/run.py:79-82 | 0 for a non-zero exit, else the listed count defaulting to 0 |
| ScriptRun.CountIntervals | Script/run.py:72-88 | the loop builds the specification's intervals and total |
| ScriptRun.IntervalsKeys | Script/run.py:86 | the recorded versions are those of the results |
| ScriptRun.IntervalsRecordEach | Script/run.py:86 | each version records its own count |
| ScriptRun.TotalIsRecordedSum | Script/run.py:85-88 | the total is the sum of the recorded counts |
| ScriptRun.TotalIsCountSum | Script/run.py:85 | the total is the sum of the counts |
| ScriptRun.WriteSummary | Script/run.py:30-36 | sets the module's entry, creates the CVE's entry when absent, and keeps every other entry |
| ScriptRun.RunDiffploitBatch | Script/run.py:46-94 | the loop over the modules builds the specification's summary |
| ScriptRun.BatchRecordsEachModule | Script/run.py:46-94 | each module whose results were read records its intervals and total; a module that failed keeps the entry it had |
| ScriptRun.BatchKeepsOthers | Script/run.py:46-94 | a module not run keeps its entry |
| ScriptRun.BatchNeverWritesDiffploit | Script/run.py:6-94 | a batch never writes a plain "diffploit" entry |
| Strings.ContainsIff | Diffploit/diff_manager.py:341 | `in` holds exactly when the pattern occurs at some position |
| Strings.StripSpec | Diffploit/error_manager.py:84 | `strip` removes leading and trailing white space and nothing else |
| Strings.SplitJoin | Diffploit/error_manager.py:50 | splitting a join of newline-free pieces gives the pieces back |
| Strings.ReplaceAll | Diffploit/diff_manager.py:73 | a text without the pattern comes back unchanged |
| Strings.ReplaceCharInverse | Diffploit/version_analyzer.py:88 | replacing a character that was absent can be undone |
| Strings.Count | Script/step.py:28 | the non-overlapping occurrence count is zero exactly without occurrences |
| Strings.NatStringValue | Script/step.py:88 | a count written in decimal reads back as itself |

## Left out

- LLM prompting and its post-processing (`Diffploit/error_manager.py:201-304`) and `Diffploit/llm_client.py`: network calls to a language model.
- `run_adaptation` and `run_with_timeout` (`Diffploit/main_process.py:15-47`): process-based concurrency with a timeout, never called by `main_process`.
- File system, logging and printing: the directory creation, the `shutil` copies and the `result.json` write in `main_process`, the diff file open, the cache file write, `Diffploit/logger.py`, `summary`, `debug_print`, `print_summary`, `__repr__` and `get_grouped_errors`. A file the code reads is a map from path to text.
- The Maven metadata HTTP request and XML parse (`_fetch_versions_from_metadata`): the result is the parameter `fetch`.
- `difflib.SequenceMatcher.ratio` and `Levenshtein.ratio`: floating-point library scores, taken as the parameter `ratio`. The pom ranker's single token comparison is the oracle `closeToken`, because the token it inspects depends on set iteration order.
- The `re.error` that a cause containing regex syntax raises in the method-definition pattern (`Diffploit/diff_manager.py:285, 323`). That bonus never applies, because a match object or None is compared with a string, and the model gives it 0.
- ErrorManager.Deduplicate: the source builds `list(set(...))`, whose order Python leaves open. The model keeps the first diagnostic of each identity in input order. Every property stated holds for any order, and the sort that follows fixes the order except among equal positions.
- ErrorManager.Classify: `\d` matches only the ASCII digits, while Python's `\d` also matches other Unicode decimal digits. `int()` on the digits of a header is their decimal value.
- DiffManager.HasToken: `[\w\.\-]` is matched with ASCII letters, digits and `_`, while Python's `\w` matches every Unicode letter and digit. Content whose only word characters are non-ASCII, such as `+é`, therefore has no token here and loses the `closeToken` point.
- Strings.Lower: lowers only the ASCII letters, while `str.lower()` lowers every Unicode letter. A group name with non-ASCII capitals therefore gets a different summary key here.
- Strings.SplitLines: `splitlines` is modelled on `\n` only, not on the other Unicode line boundaries.
- The CVE record: a JSON `null` and an absent key are both `None`. Values of the wrong JSON type are not modelled.
- ScriptRun.LoadBatchJobs: the items arrive with `count` already an integer, and a failing `int()` is not modelled.
- ScriptRun.RunDiffploitBatch: the subprocess and the temporary output file are the parameter `run`; a failing subprocess or unreadable output records nothing.
- `ExploitPreparer`, `ExploitExecutor` and `ExploitAdapter` are not part of this model. `execute` and `adapt` are pure functions of the versions, and preparation has no effect on the outcome.
- `Script/abalation.py`, `Script/edit_distance.py` and `Script/sum.py`: subprocess orchestration, a library demo, and a printing script.
