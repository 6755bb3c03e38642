# A verified model of the planner, the editors and the parsers

This project models nine source files of the repository in Dafny and proves what they keep over every input, every run
and every reachable state. Where the source changes things step by step, so does the model: a loop is a method with
invariants, an object whose fields are assigned is a class, and each such method is proved equal to a function that the
theorems are about. `dafny verify dfyconfig.toml` checks everything.

**Decision-lattice planner** (`DecisionLattice`, `LatticeFrontier`, `LatticeBound`, `LatticeDive`, `LatticeReport`). The search with its open list,
`best` map, snapshots and 64-expansion cap; the linear route evaluator; normalization, selection and the validator. The
central result is an invariant of the frontier: every node ever pushed is the outcome of some action sequence, repeats
no state, and is covered by `best`. It follows what a dry frontier means, when the A* path's `complete` flag tells the
truth (the exact condition, and a problem where it does not), that the grid alone decides reachability, how many nodes
can be expanded at most (`LatticeBound`, from start and goal alone), how many are expanded when a sequence of actions
leads straight to the goal, as on the program's default problem (`LatticeDive`), that the search does not depend on how
the sort treats ties, and that the evaluator agrees with the search on every frontier node. No optimality in f is claimed: the
code does not have it.

**Capture attestation** (`CaptureEvidence`, `CaptureAttestation`). Adapters, results and attestations are heap objects
and only their identity counts. The registry invariant holds over any sequence of events, including foreign adapters
and foreign code that overwrites a result's fields or lends its attestation to another result. Success means: an adapter
made by the factory, and a result minted by some factory wrapper for the same request. A scenario shows that it cannot
mean more: another adapter may present an old result, twice.

**Owned regions of a TOML text** (`TomlLines`, `BridgeConfig`, `BridgeBinding`, `BridgeLaws`, `BridgeReversal`,
`BridgeCatalog`, `AutoReview`, `AutoReviewLaws`, `AutoReviewFixpoint`). A text is a sequence of lines; the three tests
for the end of the top level are kept apart as in the code, so the readers see the first table when its header is on
the first line, also after a clean-up has put it there. `BridgeLaws.UpdateMeaning` says for an arbitrary text when the
managed binding is refused and every non-blank line an accepted update leaves; idempotence, undoing, switching the
catalog and the exact exceptions follow from it.

**SQL and manual migrations** (`SqlScan`, `SqlStatements`, `SqlClassify`, `SqlConcat`, `SqlQuotes`, `SqlOpen`,
`ManualMigration`, `ManualLive`, `ManualInactive`, `ManualOpen`, `ManualGates`). The comment stripper and the quote-aware
splitter work on characters, for every text including unclosed quotes and comments; no visible character is lost. The
stripper is compared with a scan that knows quotes and comments together. The classifier is a homomorphism over
concatenation at a statement end. The two-section migration file is proved a faithful container; what is live of it is
described for every accepted file and for every rendered one, also when its forward text leaves a block comment open;
and the gates are given their meaning statement by statement.

**Diff scope, line ranges and the sanity review** (`DiffScope`, `DiffTexts`, `LineRanges`, `ScanFindings`,
`SanityReview`). The diff
loop recovers exactly the added lines of a printed zero-context diff (POSIX.1-2017, `diff`, "Diff -u or -U Output
Format") under a condition that is proved necessary; when the hunks turn an old text into a new one, these are
lines of the new text under their own numbers. The ranges are the unique canonical and minimal cover. A scan's
candidate ids are distinct, a review is accepted only when it is bound to a fresh scan, and a completed seed over an
unchanged scope is accepted.

**The `bridge` command line** (`BridgeArgs`, `BridgeCli`). The option parser succeeds on exactly the printed command
lines, and the dispatch yields exactly the requests that can be expressed.

`Common`, `Sorting` and `Text` hold what the others share: optional values and paths, a stable sort by a comparator, and
the JavaScript string operations.

## What turned out false of the code

- The A* path may be marked `complete` although the goal is out of reach: with a debt weight below 0.0005 the rounded
  heuristic of an unmet goal is 0 (`LatticeFrontier.LightDebtMisreports`; exact condition in `CompleteIffReachable`).
- A diff's added lines are misnumbered when the old text has no final line end, and lost when they start with `++`
  (`DiffScope.UnterminatedTextShifts`, `PlusPlusIsLost`; exact condition in `RecoversExactly`).
- A rollback text with an inner `*/` is accepted by the parser's lazy match, and what follows is live SQL
  (`ManualInactive.EscapeIsLive`; exact condition in `InactiveExactly`).
- A forward text that leaves a block comment open runs on into the rollback's comment, so that the file has fewer
  statements than the gates look at (`ManualOpen.OpenStartIsSwallowed`; exact condition in `RollbackIsInactive`).
- Comment marks inside quotes are stripped: of `select '--'; drop table x;` only `select '` is classified
  (`SqlQuotes.QuotedMarkHides`; exact condition in `AgreeExactly`). A block comment that starts inside a line comment
  hides the lines down to its end (`BlockInLineHides`).
- SQL between a migration file's header line and its forward marker is live, and no gate looks at it
  (`ManualInactive.PrefaceIsNotGated`; exact condition in `AcceptedFileExactly`).
- `upsertDesktopBridgeManagedConfig` does not refuse an unmarked key whose value is not a readable double-quoted
  string; it replaces it (`BridgeReversal.UnreadableIsReplaced`; exact condition in `UnmarkedSurvivesExactly`).
- `removeDesktopBridgeManagedConfig` can refuse a text that the upsert just wrote, when removing the binding brings a
  table that holds the catalog marker to the first line (`BridgeReversal.RemovalRefusesItsOwnUpdate`; exact condition in
  `RemoveRestoresExactly`).
- Switching the managed catalog off does not take when a header on the first line makes the readers find a catalog in
  the first table (`BridgeCatalog.SwitchOffMisses`; exact condition in `SwitchTakesExactly`).
- `reconcileRetiredSksConfigText` is a fixed point of itself only when no retired profile has two tables or two
  selectors (`AutoReviewFixpoint.TwiceNamedIsNotFixed`; exact condition in `FixedExactly`), and it removes an empty
  retired table without counting it (`EmptyTableIsUnreported`).
- A live evidence record whose screenshot file is the root itself is built and fails the reader's check, because its
  relative path is empty (`CaptureEvidence.RootFileIsRefused`; exact condition in `Built`). The file has to be read for
  that, so it happens only when the root names a regular file.

## Model

| member | source | states |
|---|---|---|
| DecisionLattice.RunAStar | src/core/decision-lattice.ts:253-299 | the search loop with its sorts, shifts, pushes, `best` updates, snapshots and cap computes the function `Search` that the frontier theorems are about |
| DecisionLattice.EvaluateRoutePath | src/core/decision-lattice.ts:301-333 | the evaluator's running state and sums give the outcome of walking the route's resolved actions from the start |
| LatticeFrontier.AddIsAdditive | src/core/decision-lattice.ts:479-481 | rounding the running sum in thousandths adds exactly the rounded contribution of the step, whatever was accumulated before |
| LatticeFrontier.ProofDebtZero | src/core/decision-lattice.ts:374-380 | with a debt weight of at least 0.0005 the heuristic is zero exactly at goal states |
| LatticeFrontier.RelaxKeeps | src/core/decision-lattice.ts:270-288 | trying one action keeps the frontier invariant, never raises an entry of `best`, and leaves the successor covered |
| LatticeFrontier.PushLowersBest | src/core/decision-lattice.ts:273-288 | a push adds one node, and creates or strictly lowers the `best` entry of its state and changes no other |
| LatticeFrontier.ExpandKeeps | src/core/decision-lattice.ts:260-289 | one whole turn of the outer loop keeps the invariant: closed nodes are no goals and have all successors covered |
| LatticeFrontier.RunKeeps | src/core/decision-lattice.ts:260-289 | the invariant holds when the loop stops, and it stops only on a dry frontier, at the cap or at a goal |
| LatticeFrontier.EveryNodeReplays | src/core/decision-lattice.ts:253-299 | every node ever on the frontier is the outcome of some finite sequence of the problem's actions, repeats no state on its path, and takes at most one step more than the debt of the start |
| LatticeFrontier.SortedOpenIsUnique | src/core/decision-lattice.ts:261-262 | at every turn the open list has exactly one sorted order, so the search does not depend on how the sort treats ties |
| LatticeFrontier.DryFrontierIsExhaustive | src/core/decision-lattice.ts:255-288 | when the frontier runs dry, every reachable state is in `best` with at most the cost of any way to reach it, attained by some way, and none is a goal |
| LatticeFrontier.FoundIffReachable | src/core/decision-lattice.ts:260-288 | below 64 expansions the search stops at a goal exactly when some finite action sequence reaches the goal |
| LatticeFrontier.FoundIsReachable | src/core/decision-lattice.ts:265-268 | a goal node found is really reachable, also when the cap was hit |
| LatticeFrontier.CompleteIffReachable | src/core/decision-lattice.ts:342-361 | below the cap `complete` equals reachability if and only if every axis in debt has a candidate action or the start's rounded heuristic is not zero |
| LatticeFrontier.CompleteMeansReachable | src/core/decision-lattice.ts:342-361 | with a debt weight of at least 0.0005 a complete A* path is never a false claim, and below the cap a reachable goal is always reported |
| LatticeFrontier.LightDebtMisreports | src/core/decision-lattice.ts:374-376 | a concrete problem without actions whose A* path is complete although the goal is unreachable |
| LatticeFrontier.ReachableIffCandidates | src/core/decision-lattice.ts:382-400 | the goal is reachable exactly when every axis in debt has a candidate action in its grid cell |
| LatticeFrontier.GridPredictsCompleteness | src/core/decision-lattice.ts:382-400 | so the conceptual grid alone predicts, below the cap, whether the A* path is complete |
| LatticeBound.ExpansionsBounded | src/core/decision-lattice.ts:260-289 | the search expands at most as many nodes as there are pairs of a state between start and goal and a path length that its paid debt allows |
| LatticeBound.CompleteForeseen | src/core/decision-lattice.ts:260-361 | when start and goal leave fewer such pairs than the cap, the grid and the rounded starting debt tell beforehand whether `complete` will be true to reachability, and the grid whether a goal will be found |
| LatticeDive.SearchDives | src/core/decision-lattice.ts:253-299 | when a sequence of actions leads from the start to the goal, each getting ahead of everything seen before, the search selects the node it reaches, with one expansion a node |
| LatticeDive.DefaultIsSolved | src/core/decision-lattice.ts:3-93 | the program's default problem is solved with six expansions, and its A* path reaches the goal and is complete |
| LatticeFrontier.FrontierAgreesWithEvaluator | src/core/decision-lattice.ts:301-366 | evaluating the step ids of any frontier node as a route gives the same steps, final state and all six cost figures (unique action ids) |
| LatticeReport.SelectionMeaning | src/core/decision-lattice.ts:335-340 | the selected path is a candidate, no dearer than the A* path or any complete candidate, and incomplete only if it is the A* path or nothing is complete |
| LatticeReport.ValidatorVerdict | src/core/decision-lattice.ts:185-201 | a freshly built report fails its own validation at most with `selected_path_not_min_f`, and exactly when some candidate is strictly cheaper than the selected one |
| LatticeReport.CompleteSelection | src/core/decision-lattice.ts:116-135 | when the A* path is complete, the selected path is complete with the least f of all complete candidates, and the validator complains exactly when an incomplete candidate is strictly cheaper |
| LatticeReport.IncompleteSelection | src/core/decision-lattice.ts:199 | when no candidate is complete the report always validates |
| LatticeReport.GridExplainsAStar | src/core/decision-lattice.ts:158-166 | in a report below the cap the A* path is complete exactly when every axis with debt lists a candidate action |
| LatticeReport.ActionsIgnoreOrder | src/core/decision-lattice.ts:219-232 | permuting the supplied actions leaves the normalized actions unchanged, given explicit ids that stay distinct when made safe |
| LatticeReport.RoutesIgnoreOrder | src/core/decision-lattice.ts:234-245 | the same for route paths |
| LatticeReport.ReportIgnoresOrder | src/core/decision-lattice.ts:116-175 | the whole report, frontier and snapshots included, is unchanged when actions and routes are permuted |
| CaptureEvidence.Built | src/core/computer-use-live-evidence.ts:206-302 | exactly when each mode is reported, success exactly with an official adapter, an attested result and a saved file; when a record passes the reader's check |
| CaptureEvidence.RootFileIsRefused | src/core/computer-use-live-evidence.ts:304-321 | a concrete opted-in capture with an attested answer whose screenshot is the root: the record says success and the reader's check fails it |
| CaptureEvidence.Attempted | src/core/computer-use-live-evidence.ts:351-421 | a capture attempt records a screenshot exactly when adapter, attestation and file are all good, and a blocker otherwise |
| CaptureAttestation.MintKeepsConsistent | src/core/computer-use-live-evidence.ts:139-151 | attesting a fresh result keeps map and log in agreement and attestations pairwise distinct |
| CaptureAttestation.Registry.CreateOfficialAdapter | src/core/computer-use-live-evidence.ts:127-156 | adds one fresh adapter to the weak set and changes nothing else |
| CaptureAttestation.Registry.WrapperCapture | src/core/computer-use-live-evidence.ts:137-152 | an object with `ok` true becomes a fresh result with a fresh attestation of the request, registered under that result; anything else passes through and registers nothing |
| CaptureAttestation.Registry.AttemptScreenshotCapture | src/core/computer-use-live-evidence.ts:351-426 | mutating the evidence step by step gives the attempted record, with the adapter and the attestation judged by the registry |
| CaptureAttestation.Registry.BuildLiveEvidence | src/core/computer-use-live-evidence.ts:206-302 | success implies an official adapter and a result minted by some wrapper for the same root, route, mission and output path; every record passes the reader's check unless its file is the root itself |
| CaptureAttestation.Registry.CertifiedIsMinted | src/core/computer-use-live-evidence.ts:381-396 | a result is certified for a request exactly when a wrapper minted it for that request and it still carries the very attestation it was given |
| CaptureAttestation.Registry.LentAttestationFails | src/core/computer-use-live-evidence.ts:382-383 | a genuine attestation on any other result object is worthless, also when that object was minted itself |
| CaptureAttestation.RunEvents | src/core/computer-use-live-evidence.ts:116-156 | over every sequence of factory calls, captures, foreign objects, overwritten fields and evidence builds, with replies that are objects, other values, nothing or failures, every success logged is justified by a mint |
| CaptureAttestation.OldResultSucceedsElsewhere | src/core/computer-use-live-evidence.ts:374-396 | the guarantee is no stronger: a result minted through one adapter succeeds through another, and again |
| TomlLines.ReadMeaning | src/cli/install-helpers-codex-lb-config.ts:195-198 | a key reads as something exactly when some line binds it to a non-empty double-quoted string, and then as such a value |
| BridgeConfig.RemoveTopLevelLine | src/cli/install-helpers-codex-lb-config.ts:214-222 | splicing from the last line up removes the marker from the whole top level and nothing below |
| BridgeConfig.UpsertTopLevelTomlString | src/core/codex-runtime/codex-desktop-config-policy.ts:161-175 | the loop replaces the first top-level binding or inserts one at the end of the top level |
| BridgeConfig.RemoveOrphanMarkers | src/cli/install-helpers-codex-lb-config.ts:172-193 | the loops remove exactly the markers whose key the readers do not find with a value of the program's |
| BridgeConfig.UpsertDesktopBridgeManagedConfig | src/cli/install-helpers-codex-lb-config.ts:92-139 | the stepwise update computes the function `UpsertManaged` that the laws are about |
| BridgeConfig.RemoveDesktopBridgeManagedConfig | src/cli/install-helpers-codex-lb-config.ts:142-163 | the stepwise removal computes the function `RemoveManaged` |
| BridgeBinding.WriteView | src/cli/install-helpers-codex-lb-config.ts:129-130 | writing and marking a key that is not there adds its marker and its binding, in that order, below the other top-level lines, and keeps the tables |
| BridgeBinding.StripView | src/cli/install-helpers-codex-lb-config.ts:214-234 | removing keys and markers takes out exactly those lines above the first table, up to blank lines |
| BridgeBinding.Seen | src/cli/install-helpers-codex-lb-config.ts:195-203 | what the readers see is the top level, or the first table when its header is on the first line |
| BridgeLaws.OrphansView | src/cli/install-helpers-codex-lb-config.ts:172-193 | the orphan clean-up takes out exactly the orphan markers, and what the readers see afterwards |
| BridgeLaws.UpdateMeaning | src/cli/install-helpers-codex-lb-config.ts:92-139 | for an arbitrary text: over which key the update is refused, and every non-blank line that an accepted update leaves |
| BridgeLaws.UpdatedReads | src/cli/install-helpers-codex-lb-config.ts:195-203 | after an accepted update the readers find the provider, the base URL and the catalog as written and marked, or the user's own catalog |
| BridgeReversal.LastUpdateWins | src/cli/install-helpers-codex-lb-config.ts:92-139 | an update after an update does what it would have done alone, and is refused exactly when it binds a catalog over the user's own |
| BridgeReversal.UpdateIsIdempotent | src/cli/install-helpers-codex-lb-config.ts:92-139 | repeating an accepted update succeeds and changes blank lines at most, on every text |
| BridgeReversal.OnlyOwnedLinesChange | src/cli/install-helpers-codex-lb-config.ts:107-139 | besides the three keys and markers every line keeps its place, the tables entirely, and so does a user's own catalog |
| BridgeReversal.BridgeServesExactly | src/cli/install-helpers-codex-lb-config.ts:26-31 | after an update `codexReadsBridgeModels` holds exactly when no catalog was bound and the user has none of their own |
| BridgeReversal.UnmarkedSurvivesExactly | src/cli/install-helpers-codex-lb-config.ts:108-126 | an unmarked binding survives an accepted update exactly when it is a readable catalog |
| BridgeReversal.UnreadableIsReplaced | src/cli/install-helpers-codex-lb-config.ts:108-115 | a concrete text whose unreadable provider is replaced without a refusal |
| BridgeReversal.RemovalShown | src/cli/install-helpers-codex-lb-config.ts:142-163 | the removal on an arbitrary text is the removal on its view, with what the readers see recomputed after each step |
| BridgeReversal.RemoveRestoresExactly | src/cli/install-helpers-codex-lb-config.ts:142-163 | on a text with none of the keys or markers above its tables, removing after updating restores all non-blank lines in order if and only if the catalog was bound, a line stands above the tables, or the first table has no catalog marker |
| BridgeReversal.RemovalRefusesItsOwnUpdate | src/cli/install-helpers-codex-lb-config.ts:152-160 | a concrete text whose unbound update is accepted and then cannot be removed |
| BridgeReversal.RemovesExactlyMarked | src/cli/install-helpers-codex-lb-config.ts:142-163 | on every text a successful removal keeps the tables and every other line; unless it can expose a first table with keys or markers, it succeeds exactly when each key is marked and valid or unmarked and unreadable, and takes out exactly the markers and the bindings under them |
| BridgeCatalog.UpsertKeeps | src/core/codex-runtime/codex-desktop-config-policy.ts:161-175 | replacing or inserting a key makes it read as the value and keeps every other top-level line and all tables |
| BridgeCatalog.AddMarkKeeps | src/cli/install-helpers-codex-lb-config.ts:205-212 | marking a bound key leaves its marker there, its value as it was, and every other line |
| BridgeCatalog.SwitchKeepsOthers | src/cli/install-helpers-codex-lb-config.ts:46-57 | the catalog switch changes no line but the catalog's key and marker, on every text |
| BridgeCatalog.SwitchTakesExactly | src/cli/install-helpers-codex-lb-config.ts:46-57 | on a managed binding the readers find what the switch was asked for, if and only if it is not a catalog of a first table on the first line that is to go; where it takes, switching again returns the same text |
| BridgeCatalog.SwitchOffMisses | src/cli/install-helpers-codex-lb-config.ts:46-57 | a concrete managed text on which switching the catalog off succeeds and leaves a catalog to be read |
| BridgeCatalog.SwitchIsUnboundUpdate | src/cli/install-helpers-codex-lb-config.ts:46-57 | switching off after a bound update leaves what an unbound update leaves, and switching on again restores the bound form |
| BridgeCatalog.UserCatalogIsFixed | src/cli/install-helpers-codex-lb-config.ts:34-38 | a user's own catalog keeps its value through an update and makes the switch return the text unchanged |
| AutoReview.ReadTableBody | src/core/auto-review.ts:191-205 | the flagged loop reads the lines under the table's first header, up to the next header |
| AutoReview.SpliceTable | src/core/auto-review.ts:252-266 | finding the header, finding the region's end and splicing removes the first table of that name |
| AutoReview.ReplaceTable | src/core/auto-review.ts:234-250 | the same search replaces the region by a block, or appends the block |
| AutoReview.RemoveTopLevelStringIfValue | src/core/auto-review.ts:268-280 | the loop removes the first top-level selector of the profile and no other line |
| AutoReview.ReconcileRetiredSksConfigText | src/core/auto-review.ts:113-142 | the loop over the profiles, with its counter and its conflict flag, and the policy step compute the function `Reconcile` |
| AutoReviewLaws.RemovesExactlyTheRegion | src/core/auto-review.ts:191-266 | `removeTable` deletes the header and exactly the lines `tableBody` reads, and joins what stood before and after |
| AutoReviewLaws.OtherTablesKept | src/core/auto-review.ts:252-266 | it leaves every other table's non-blank lines and the top level unchanged |
| AutoReviewLaws.BlockIsRead | src/core/auto-review.ts:234-250 | after replacing a table its body reads as the block |
| AutoReviewFixpoint.LegacyCounts | src/core/auto-review.ts:218-222 | removing a profile takes out one header and one selector if there are any, shortens the text exactly then, and keeps other tables |
| AutoReviewFixpoint.UnchangedExactly | src/core/auto-review.ts:113-142 | reconciling leaves every non-blank line exactly when no retired profile is named and the policy is not a retired one it may replace |
| AutoReviewFixpoint.OtherTablesStay | src/core/auto-review.ts:113-142 | reconciling keeps the lines of every table but the retired profiles' and the policy's |
| AutoReviewFixpoint.StaleAfter | src/core/auto-review.ts:122-132 | a retired profile is still named afterwards exactly when it had two tables or two selectors |
| AutoReviewFixpoint.FixedExactly | src/core/auto-review.ts:113-142 | the text result is a fixed point, blank lines included, if and only if no retired profile has two tables or two top-level selectors |
| AutoReviewFixpoint.TwiceNamedIsNotFixed | src/core/auto-review.ts:252-266 | a concrete text with two tables of one retired profile that a second reconciling changes |
| AutoReviewFixpoint.ConflictExactly | src/core/auto-review.ts:122-132 | a conflict is reported exactly when a retired table of the text as given holds lines the program never generated, or the first one only blank lines |
| AutoReviewFixpoint.EmptyTableIsUnreported | src/core/auto-review.ts:123-132 | a concrete text from which an empty retired table is removed although nothing is counted |
| SqlScan.SplitSqlStatements | src/core/db-safety.ts:70-83 | the character loop over quotes, escapes and semicolons computes the statements of the stripped text |
| SqlScan.StripIsCanonical | src/core/db-safety.ts:45-51 | stripped text has no closed block comment, no `--`, single blanks only and no margins, for every input |
| SqlScan.StripIdempotent | src/core/db-safety.ts:45-51 | stripping comments twice is stripping them once, whatever is left unclosed |
| SqlStatements.SplitOfJoin | src/core/db-safety.ts:70-83 | splitting the blank-joined statements of any input gives the same statements back |
| SqlStatements.SplitConserves | src/core/db-safety.ts:70-83 | the visible characters of the stripped text are those of its statements, in order: nothing is lost and nothing appears twice |
| SqlQuotes.AgreeExactly | src/core/db-safety.ts:45-51 | where no closed block comment starts inside a line comment, the two stripping passes agree with a scan that knows quotes and comments together if and only if it meets no comment mark inside quotes; then the statements are those of that scan |
| SqlQuotes.QuotedMarkHides | src/core/db-safety.ts:70-83 | a concrete text whose second statement a quoted comment mark hides |
| SqlQuotes.BlockInLineHides | src/core/db-safety.ts:70-83 | a concrete text whose second statement is hidden by a block comment that starts inside a line comment |
| SqlClassify.ClassifySql | src/core/db-safety.ts:92-132 | the loop that raises the level and collects reasons computes the verdict function, and returns the statements |
| SqlClassify.LevelIsHighest | src/core/db-safety.ts:92-132 | the level of a text is the highest own level among its statements |
| SqlClassify.LevelIgnoresOrder | src/core/db-safety.ts:92-132 | two texts with the same statements in any order and number have the same level |
| SqlClassify.StatementsAreFixed | src/core/db-safety.ts:70-83 | each statement of a split is text that stripping leaves alone |
| SqlClassify.ReasonsDependOnOrder | src/core/db-safety.ts:110-128 | the reasons do depend on the order: a finding after a destructive statement is dropped |
| SqlConcat.StripConcat | src/core/db-safety.ts:45-51 | stripping a text that ends outside comments and not in half a comment mark, and another after it, strips both with only blanks between |
| SqlConcat.SplitOfConcat | src/core/db-safety.ts:70-83 | appending to a text whose last statement is followed only by white space and closed comments appends its statements |
| SqlConcat.LevelOfConcat | src/core/db-safety.ts:92-132 | so the level of the whole is the higher of the levels of the parts |
| ManualMigration.ParseManualMigrationSql | src/core/db-review.ts:450-484 | the parser, with its blockers pushed in order, computes the function `Parsed` |
| ManualMigration.ParseOfFile | src/core/db-review.ts:450-466 | a laid-out file gives both texts back and no complaint about its shape, whatever marker-free text stands between its header line and its forward marker |
| ManualMigration.ParseOfRender | src/core/db-review.ts:450-466 | parsing a rendered file gives both texts back |
| ManualGates.DestructiveReasonMeaning | src/core/db-safety.ts:92-132 | a destructive reason is reported exactly when some statement has it: no statement before or after can suppress it |
| ManualGates.GateMeaning | src/core/db-review.ts:467-483 | each gate blocker is raised exactly when its reason holds of the statements of the two texts |
| ManualGates.GatesPassExactly | src/core/db-review.ts:467-483 | the gates pass exactly when both texts write, no statement of either has a finding that must not be there, and tables are dropped only if the forward text creates them |
| ManualGates.AcceptedExactly | src/core/db-review.ts:450-484 | a file is accepted exactly when it starts with the header line, its markers are in order, both texts end in a semicolon, the rollback in one comment, and the gates pass |
| ManualInactive.PiecesExactly | src/core/db-safety.ts:45-83 | a file in pieces has the statements of its forward section exactly when nothing above that is live and nothing escapes the rollback's comment |
| ManualInactive.AcceptedFileExactly | src/core/db-review.ts:450-466 | for every accepted file whose markers end their lines and which leaves no block comment open above the rollback: its statements are the forward statements if and only if nothing above the forward marker is live and nothing escapes the rollback's comment |
| ManualOpen.LiveExactly | src/core/db-review.ts:450-466 | the statements of every accepted file are those of its text above the first comment that runs into the rollback's, and of what escapes that comment, whatever stands on the marker lines |
| ManualInactive.InactiveExactly | src/core/db-review.ts:460-462 | for every rendered file whose forward text leaves no block comment open the rollback is inactive if and only if what follows an end mark in it comes to nothing |
| ManualOpen.RenderedExactly | src/core/db-review.ts:460-462 | the statements of a rendered file, for any two texts: those of the forward text up to a comment start that it leaves open, and of what escapes the rollback's comment |
| ManualOpen.RollbackIsInactive | src/core/db-safety.ts:70-83 | when the rollback text has no end mark, the file's statements are the forward text's if and only if this leaves no block comment open, or only one whose start is in a line comment with nothing live below |
| ManualOpen.OpenStartIsSwallowed | src/core/db-review.ts:450-466 | a concrete file of accepted shape whose forward text is cut short by the comment that runs into the rollback's |
| ManualOpen.EscapedStatements | src/core/db-review.ts:460-462 | after whole statements, the file's statements are those of the forward text's closed part followed by those of what escapes |
| ManualOpen.RenderedLevel | src/core/db-safety.ts:92-132 | a rendered file whose rollback has no end mark is classified exactly as the closed part of its forward text, reasons included |
| ManualInactive.EscapeIsLive | src/core/db-review.ts:460-462 | a concrete file of accepted shape, with a rollback that drops the table which forward creates, whose rollback text lets a statement out |
| ManualInactive.PrefaceIsNotGated | src/core/db-review.ts:459-471 | a concrete file of accepted shape with a live statement above the forward marker that the gates do not see |
| BridgeArgs.ParseArgs | src/commands/bridge.ts:461-490 | the index loop over the tokens computes the function `Parse`, errors included |
| BridgeArgs.ParseOfFlatten | src/commands/bridge.ts:461-490 | parsing inverts printing, wherever options stand among the positionals |
| BridgeArgs.FlattenOfParse | src/commands/bridge.ts:461-490 | an accepted argv splits into positionals, flags and option-value pairs that use each token exactly once and collect to the result |
| BridgeArgs.ParsesExactlyPrinted | src/commands/bridge.ts:461-490 | parsing succeeds on exactly the printed command lines without repeated options |
| BridgeArgs.HasSecretArgv | src/commands/bridge.ts:516-533 | the scan finds an option that would carry a secret exactly when there is one |
| BridgeArgs.FlattenHasNoSecrets | src/commands/bridge.ts:516-533 | no printed command line is taken for one that carries a secret |
| BridgeArgs.SpelledIsNotSecret | src/core/codex-lb/bridge-cli-contract.ts:18-42 | no option of the table is itself taken for a secret |
| BridgeCli.ParseInvocation | src/commands/bridge.ts:231-459 | secret scan, option parser and dispatch give the invocation or the first error |
| BridgeCli.DispatchOfPrinted | src/commands/bridge.ts:231-459 | a parsed command line that spells a request, fed its input, dispatches to that request |
| BridgeCli.InvocationOfPrinted | src/commands/bridge.ts:231-459 | every expressible request, printed with its options anywhere among the positionals, comes back with its output flags |
| BridgeCli.RequestIsExpressible | src/commands/bridge.ts:231-459 | the dispatch never yields a request outside the expressible ones |
| BridgeCli.ParsedExactlyExpressible | src/commands/bridge.ts:31-59 | a request comes out of some command line and some input exactly when it is expressible |
| BridgeCli.IdsOfSetValue | src/commands/bridge.ts:395-401 | the printed `--set` value reads back as the ids, also when the first looks like an option |
| LineRanges.ContiguousLineRanges | src/core/code-structure.ts:763-772 | the loop that extends the last range in place computes the ranges of the lines |
| LineRanges.RangesMeaning | src/core/code-structure.ts:763-772 | the ranges are positive, sorted, separated by gaps, and cover exactly the positive lines |
| LineRanges.CanonicalIsUnique | src/core/code-structure.ts:763-772 | a set of lines has one canonical form |
| LineRanges.RangesDependOnSet | src/core/code-structure.ts:763-772 | equal sets of positive lines give equal ranges, and nothing else does |
| LineRanges.CanonicalIsMinimal | src/core/code-structure.ts:763-772 | no list of ranges, sorted or not, covers the same lines with fewer ranges |
| LineRanges.NormalizeKeepsRanges | src/core/engineering-sanity-review.ts:178-183 | normalizing leaves the ranges computed from lines as they are |
| LineRanges.NormalizeIgnoresOrder | src/core/engineering-sanity-review.ts:178-183 | normalizing does not depend on the order supplied |
| DiffScope.CollectAddedRows | src/core/code-structure.ts:333-358 | the diff loop with its current file, current line and Map computes the added rows of each file (the loop at 296-312 walks the diff in the same way) |
| DiffScope.HunkLineReads | src/core/code-structure.ts:341-345 | every printed hunk header, with or without counts and section, reads back as its new start line |
| DiffScope.RecoversExactly | src/core/code-structure.ts:333-358 | on every printed zero-context diff the loop recovers exactly the added lines with files and numbers if and only if none starts with `++` and no hunk adds lines after an unterminated old text |
| DiffTexts.RowsAreNewLines | src/core/code-structure.ts:333-358 | on a printed diff of actual texts every recovered row is a line of the new text under its own number, and every other line of the new text is one of the old |
| DiffScope.UnterminatedTextShifts | src/core/code-structure.ts:357 | a concrete diff of a text without a final line end whose added line gets the wrong number |
| DiffScope.PlusPlusIsLost | src/core/code-structure.ts:346-357 | a concrete diff whose added line is lost because it starts with two plus signs |
| DiffScope.ScopeIsExact | src/core/code-structure.ts:360-373 | the line ranges reported for a file are canonical and cover exactly its added lines |
| DiffScope.GroupedLines | src/core/code-structure.ts:346-355 | a file is in the Map exactly when it has added lines, in their order |
| SanityReview.CheckDispositions | src/core/engineering-sanity-review.ts:113-134 | the loop over the dispositions collects exactly the blockers of each, in order |
| SanityReview.DigestMeaning | src/core/engineering-sanity-review.ts:137-156 | two scopes have the same hash exactly when mode, base and file sets agree and they have the same entries in any order |
| SanityReview.SortedUniqueMeaning | src/core/engineering-sanity-review.ts:174-176 | the sorted unique strings are trimmed, not empty, without repeats, and have the members of the input |
| SanityReview.AcceptedIsBound | src/core/engineering-sanity-review.ts:81-135 | an accepted review is complete (passed, hunks and callers reviewed, the four checks settled with evidence, nothing unresolved), is over the report it names, has the fresh scan's scope hash and files, reviews exactly its candidates, carries their findings, and disposes of each finally, with reason and evidence, at its own scope and line ranges |
| SanityReview.ChangedEntryIsRejected | src/core/engineering-sanity-review.ts:137-156 | a review hashed over other entries than the fresh scan's is rejected |
| ScanFindings.CollectDrafts | src/core/code-structure.ts:506-589 | the loop over the scanned files collects their findings in order, between those about the change and those about markers |
| ScanFindings.IdDetermines | src/core/code-structure.ts:590-593 | two findings about files that hash to the same id have the same tag and file, whatever colons the file names hold |
| ScanFindings.ReviewedIdsDiffer | src/core/code-structure.ts:506-594 | the findings of a scan that the review takes up have pairwise different ids |
| SanityReview.ScanIdsAreClean | src/core/engineering-sanity-review.ts:163-168 | the candidate ids of a scan are trimmed and distinct |
| SanityReview.CompletedSeedAccepted | src/core/engineering-sanity-review.ts:19-135 | a fully disposed seed over an unchanged scope is accepted |
| Sorting.SortIsPermutation | src/core/decision-lattice.ts:261 | sorting by any comparator only reorders |
| Sorting.SortIsSorted | src/core/decision-lattice.ts:261 | under a total preorder the result is sorted |
| Sorting.ArrangedIgnoresOrder | src/core/decision-lattice.ts:219-232 | map, filter and sort do not depend on the order supplied when no two different results tie |

## Left out

Planner:
- Labels, notes, research basis, summaries and `rejected_alternatives` of the report; the validator's checks of them and of finite costs cannot fail on a built report.
- Default routes and goal inference, and default actions and weights except in `LatticeDive`: inputs here.
- `safeId` lower-cases ASCII letters only; `localeCompare` is the order punctuation, digits, letters on the id alphabet.
- Weights and risks are exact reals and sums exact thousandths; floating-point error is not modelled.
- LatticeBound.CompleteForeseen: the bound reaches problems with fewer than 64 pairs of state and path length; `LatticeDive` covers the default problem and others with a sequence that leads.

Capture attestation:
- The request binding is the record of resolved paths and ids instead of its SHA-256, and attestation ids are non-empty strings, not random ones.
- Capability detection, platform, warnings, message redaction and the image-voxel link.
- Writing and reading the screenshot file: its outcome is a parameter of the build.

TOML texts:
- Indented keys, trailing comments, multi-line strings and table headers other than whole lines.
- A value with a double quote or a line end, which the editors would write unquoted: not expressible here.
- An empty string counts as unreadable everywhere; `auto-review.ts` would stop at it and not look at a second binding of the same key.
- Base URL validation: the URL is taken as valid. The catalog path is taken as trimmed.
- BridgeReversal.RemovesExactlyMarked: where the first table holds keys or markers and no foreign line stands above it, only says what a removal keeps, because the readers may take that table for the top level; `RemovalShown` gives the step-by-step answer there.
- `repairManagedCodexLbClientSelection`, the per-profile files and the other migrations of `auto-review.ts`.
- AutoReview.ReconcileRetiredSksConfigText: the numbers counted as detected are computed but not characterized beyond the code.

SQL:
- Keyword patterns (verbs, `where`, `limit`, object names, forbidden content) are arbitrary predicates on one statement or text, and so is the stripping of string literals, which only serves them.
- Characters are Unicode scalar values, not UTF-16 units.
- Reading the migration file, its digests and the review around it, where the transaction strategy is checked.
- ManualInactive.AcceptedFileExactly: not stated as an equivalence where text follows a marker on its line or a block comment is left open above the rollback; `ManualOpen.LiveExactly` says what is live there.
- ManualInactive.InactiveExactly: not stated where the forward text leaves a block comment open; `ManualOpen.RenderedExactly` says what is live there.
- SqlQuotes.AgreeExactly: not stated where a closed block comment starts inside a line comment; the stripper may agree or not.

Bridge command line:
- Reading standard input and decoding the subagent-model document: its text and decoded rows are parameters. Running requests and printing results.
- `path.isAbsolute` and `path.basename` follow POSIX.
- `allowOnly` also guards against an option missing from the shared table, which cannot happen once parsing succeeded.

Diff scope and review:
- Running git, splitting its output into lines, quoted paths, paths with a trailing tab, and carriage returns.
- Added files without a diff, the joined hunk text and the signals searched in it.
- SHA-256 of report text, scope and finding ids, these shortened to 16 digits: taken as injective. The report's JSON is given decoded.
- The measurements that lead to findings, and the fixed message texts, which are phrases without a colon.
- `localeCompare` on paths and ids is an arbitrary total preorder.
