# Verified model of sot-graph's ownership transfer, oracles and gates

sot-graph keeps a journal of source files whose rows it owns and can hand files over to an external
engine. Around that core it has evaluation code that decides, fail-closed, whether an extractor or a
rendered repository map is good enough. This project models those parts in Dafny and proves what they
are for.

| file | models |
|---|---|
| `CbmStore.dfy` | which database readers open, and which files it covers |
| `JournalLookup.dfy` | which rows the journal lookup of a path may return |
| `OwnershipMachine.dfy` | publish, gap fill and purge as a state machine with failures, crashes, readers and a changing working tree |
| `OwnershipTransfer.dfy` | one reconcile run as methods over a mutable repository, each write recorded as a step of the machine |
| `SelfStabilisation.dfy` | one undisturbed run repairs whatever earlier runs left behind; a fallback undoes it |
| `EdgeOracle.dfy`, `EdgeEvaluation.dfy` | the exact edge oracle: what its counters mean, their laws, and the imperative pass proved against them |
| `EdgeSlots.dfy` | which slot, reason and confusion entry each result goes to, in plain terms |
| `EdgeDiagnostics.dfy` | the identity-only and loose diagnostics, compared with the exact recall |
| `RegressionGate.dfy` | the baseline gate and chains of re-baselines |
| `ReverseClosure.dfy` | the bounded reverse breadth-first search, against path length |
| `RenderedMap.dfy` | the printer and parser of the rendered repository map |
| `MapGrammar.dfy` | the grammar of that parser, by characters |
| `CategoryOracle.dfy` | the declared contamination oracle beside the production classifier |
| `ContaminationGate.dfy`, `PinnedCheckout.dfy`, `CorpusGate.dfy` | the gate chain from one rendered text to the verdict over a pinned corpus |
| `Calibration.dfy` | normalisation, tertile cutoffs, cross-validation, and saving of the risk model |
| `RiskScores.dfy` | what its probabilities, normalisation and loss mean |
| `Spans.dfy` | nested span recording with exceptions |
| `Claims.dfy` | substring search, line lookup and hit classification of the claim linter |
| `Denominators.dfy` | accounting blocks and their fold |
| `CorpusPath.dfy` | corpus-relative paths in payloads |
| `Counting.dfy`, `Arithmetic.dfy`, `Rounding.dfy`, `Text.dfy` | counting over sequences, finite sums, products and quotients of reals, half-even rounding, substrings |

## Where the code and its documentation disagree

The model follows the code. Each point is a lemma, with the exact condition where the claim does hold.

- A path's rows are documented to come from exactly one provider. That is no invariant: after a complete
  engine run a builtin fallback journals a file the published snapshot covers (`FallbackBreaksOwnership`).
  One undisturbed engine run restores it after any history (`AnyHistoryIsRepaired`). Coverage reads and
  deletes may fail silently; `SingleOwnershipRestored` has the exact condition for any single run.
- `reconcile_paths` promises that paths whose lock is busy are deferred, never dropped. Only a lock that is
  busy at a delete is deferred. At a commit the exception is caught and becomes an error, and the path is
  neither journalled, deferred nor counted (`BusyPathsDeferredIff`, `BusyCommitIsDropped`).
- Gap fill is documented to fill every scanned path the engine does not cover, and an unchanged hash means
  that the index is up to date. The lookup behind it takes any row that is the path's real path or ends in
  the path, letter case apart. A file with the content of such a row is reported unchanged, and is then
  neither covered, journalled, deferred, counted nor failed (`EveryScannedPathHasOnePlace`,
  `AliasedPathIsNowhere`); where no other row can match, no such path is left
  (`UnaliasedPathHasAPlaceIff`).
- A corpus PASS is documented to require the minimum number of symbols of every default run. The code
  requires it of the run with the largest budget; the two agree, whatever maps are built, exactly when all
  budgets are equal (`EveryRunSampledOnlyForEqualBudgets`, `PassUndersampled`).
- The category oracle is documented as a superset of the production classifier that can only over-flag.
  It under-flags minified files below `.tox` or `.venv`, and nothing else (`UnderFlagsIff`).
- The map parser is documented never to skip a line outside the grammar. It takes a path line that begins
  with `(` for a footer, and then credits that file's stubs to the previous one
  (`ParenthesisedGroupIsMisread`, `RoundTripIff`).
- `normalize_corpus_path` is documented as idempotent. It is not on paths that mix the two separator
  styles after the corpus marker (`IdempotentIff`).

Four more results are unexpected without contradicting any documentation.

- A learned model is usable after saving exactly when every feature varies by more than half a millionth;
  a constant feature reloads with deviation 0, and prediction divides by it (`LearnedModelReloadsIff`).
- The identity-only recall, a share of the groups, can be lower than the exact recall, a share of the
  positives (`ExactRecallCanBeHigher`, `IdentityRecallIsHigherIff`).
- `prf1` scores an empty prediction of an empty expectation with 0, and its rounding can publish 1.0 for an
  imperfect prediction from 20000 elements on (`PerfectScoreIff`, `PublishedPerfectIff`).
- The worktree scan skips the extra token of a rename but not that of a copy, which can swallow the next
  entry (`CopyCanSwallowAnEntry`); a tree is still found clean only when it is (`CleanIff`).

## Assumptions

- One writer. `os.replace` is atomic and `Connection.backup` copies one committed generation whole.
- `realpath`, `isabs` and `relpath` are uninterpreted and do not change while the model runs; files may
  come and go at any step.
- The engine never rewrites a database bound to the repository root into one that is not, and removes no
  entry from its cache. Its listing order is otherwise free, and so are the entries it adds.
- An existing `published.db` can be read by `find_cbm_db`.
- Numbers are exact reals. `exp`, `ln` and `sqrt` are parameters. Most of the calibration needs only that
  `exp` is positive and `sqrt(0)` is 0; what is said of scores and losses also uses that `exp` is strictly
  increasing with `exp(z) * exp(-z) == 1`, that `ln` is increasing with `ln(1) == 0`, and that `sqrt` is the
  square root (`RiskScores.Analytic`).
- A path given to a classifier is a list of segments.

## Model

| member | source | states |
|---|---|---|
| CbmStore.FindCbmDb | src/sot_graph/cbm.py:184-197 | whatever readers resolve to binds the root; the live store only when no published one does; nothing only when nothing binds |
| CbmStore.LiveCbmDb | src/sot_graph/cbm.py:175-181 | the first cache database, in listing order, that binds the root |
| CbmStore.StoreBindsIff | src/sot_graph/cbm.py:154-172 | a store binds the repository iff some project of it has a root that is not empty and resolves to the repository's |
| CbmStore.CoversIff | src/sot_graph/cbm.py:454-464 | a location is covered iff a file hash of the bound project, or of the reported one where that has no name, resolves to it |
| CbmStore.CommitMovesLiveForward | src/sot_graph/cbm.py:175-181 | after an engine commit, rewriting or adding an entry anywhere in the listing, the live store is the one before or the newly committed one |
| OwnershipMachine.StepKeepsInv | src/sot_graph/cbm.py:577-629 | every atomic step, failure, crash, reader or disk change keeps the full protocol invariant |
| OwnershipMachine.RunKeepsInv | src/sot_graph/cbm.py:525-629 | hence every state of every run satisfies it |
| OwnershipMachine.ReadersSeeWholeGenerations | src/sot_graph/cbm.py:184-228 | over all interleavings readers get only committed generations bound to the root, in non-decreasing order, and never the live store after a first publish |
| OwnershipMachine.FailedPublishKeepsSnapshot | src/sot_graph/cbm.py:200-228 | without the final rename, whatever failed or crashed, the previous snapshot is untouched |
| OwnershipMachine.SnapshotNeverGoesBack | src/sot_graph/cbm.py:200-228 | from any point of a run to its end the published generation never gets older |
| OwnershipMachine.PublishedOnceMeansEver | src/sot_graph/cbm.py:200-228 | a run that once renamed has a snapshot ever after |
| OwnershipMachine.PurgedPathsKeepAnOwner | src/sot_graph/cbm.py:581-629 | at every step a path whose rows were purged is covered by what readers resolve to at that moment, or gone from disk, or came back after its purge; a path the same run gap-filled is purged only in the latter cases |
| OwnershipMachine.QuietDiskBringsNothingBack | src/sot_graph/cbm.py:614-629 | with an unchanged working tree the third case cannot arise |
| OwnershipTransfer.Repository.PublishStore | src/sot_graph/cbm.py:200-228 | the snapshot becomes the whole source store exactly when no step failed, and is otherwise the old one; every write is a legal step of the machine |
| OwnershipTransfer.Repository.ReconcilePaths | src/sot_graph/reconciler.py:485-596 | the resulting journal, the count and the deferred set, independent of order; `RunByAnswers` has them in terms of the answers |
| OwnershipTransfer.Repository.PurgeOwned | src/sot_graph/cbm.py:614-629 | exactly the covered or vanished rows whose delete succeeds are gone, and the counter is their number |
| OwnershipTransfer.Repository.TransferOwnership | src/sot_graph/cbm.py:587-629 | coverage of the resolved store, gap fill of what it leaves out, purge of the rest, with all four counts |
| OwnershipTransfer.Repository.ReconcileDispatch | src/sot_graph/cbm.py:525-650 | when the engine branch is taken and why not; the snapshot; after an engine run every journal row is there iff an accepted commit wrote it or it was there and no gap path found gone or unsupported stands for it, and it is neither covered nor gone or its delete raised; published and deferred counts by the answers of the gap paths; single ownership: after the engine iff the run was restorable, after a fallback iff it journals nothing covered or gone |
| SelfStabilisation.UndisturbedRunRestoresOwnership | src/sot_graph/cbm.py:577-629 | from any journal and any snapshot, with readers in between and publishing allowed to fail, every undisturbed run that reaches its end leaves no row that is covered by what readers then resolve to or gone from disk, and keeps every path whose own row it wrote or found up to date |
| SelfStabilisation.SettledRunPurgesNothing | src/sot_graph/cbm.py:614-629 | a run on a repository already in single ownership under the coverage it sees purges nothing |
| SelfStabilisation.AnyHistoryIsRepaired | src/sot_graph/cbm.py:525-629 | whatever fallbacks, crashes and failures came before, one engine commit and one undisturbed run restore single ownership, and what they purged has another owner or is gone |
| SelfStabilisation.SecondRunFindsNothing | src/sot_graph/cbm.py:525-629 | after any history, two consecutive undisturbed runs with equal coverage: the second purges nothing |
| SelfStabilisation.FallbackBreaksOwnership | src/sot_graph/cbm.py:550-575 | a legal engine run followed by a builtin fallback that ends without single ownership |
| OwnershipTransfer.SingleOwnershipRestored | src/sot_graph/cbm.py:604-629 | from any journal an engine run, gap fill and purge together, ends in single ownership iff every stale row that the fill does not drop was deletable and recognisable, and an unread coverage made it publish no covered path |
| OwnershipTransfer.GapPathJournalled | src/sot_graph/reconciler.py:557-596 | an uncovered scanned path is journalled afterwards exactly when it parsed with another hash and its commit was accepted, or it had a row and was not found gone or unsupported with the lock free |
| OwnershipTransfer.RunByAnswers | src/sot_graph/reconciler.py:502-596 | the journal of a run row by row, and its published and deferred counts, from the answers of the gap paths alone: deleted, committed and conflicting paths count, and only a busy delete defers |
| OwnershipTransfer.BusyPathsDeferredIff | src/sot_graph/reconciler.py:536-584 | every path that meets a busy lock is deferred iff none of the batch meets it at its commit, which an unchanged hash never reaches |
| OwnershipTransfer.BusyCommitIsDropped | src/sot_graph/reconciler.py:536-543 | an uncovered new file whose commit is reached and finds the lock held is neither journalled, deferred nor counted |
| OwnershipTransfer.EveryScannedPathHasOnePlace | src/sot_graph/reconciler.py:485-596 | a covered path is not journalled; an uncovered one is journalled, deferred or counted iff it was not excluded, and did not fail or read as unchanged without a row of its own |
| OwnershipTransfer.UnaliasedPathHasAPlaceIff | src/sot_graph/reconciler.py:502-539 | where no other row matches the lookup, only failure and exclusion leave an uncovered path without a place |
| JournalLookup.FoldedSuffixMatches | src/sot_graph/db.py:889-920 | any row that ends in the path, letter case apart, is one the lookup may return |
| SelfStabilisation.AliasedPathIsNowhere | src/sot_graph/reconciler.py:536-539 | a legal undisturbed run after which a scanned, uncovered file on disk has no row |
| SelfStabilisation.AliasedPathHasNoPlace | src/sot_graph/reconciler.py:536-586 | and is neither deferred nor counted |
| OwnershipTransfer.SecondRunPurgesNothing | src/sot_graph/cbm.py:614-629 | with disk and coverage unchanged the next run purges nothing |
| OwnershipTransfer.ReportedPathsAddUp | src/sot_graph/cbm.py:604-650 | the reported path counts miss exactly the gap paths whose reconcile failed, at a busy commit too, excluded them, or found them unchanged |
| OwnershipTransfer.EveryCrashPointIsSafe | src/sot_graph/cbm.py:577-629 | a run of the methods cut off after any number of writes orphans no purged path and leaves a snapshot no newer than the final one |
| EdgeOracle.ExactContract | scripts/sot_evaluator.py:253-289 | with unique identities a positive is hit iff the database has its five-part key on one of the group's true lines |
| EdgeOracle.FoundIff | scripts/sot_evaluator.py:253-289 | without that assumption: iff the latest edge of the identity has a line, and it is the line of some positive of the identity |
| EdgeOracle.Conservation | scripts/sot_evaluator.py:259-408 | TP + FN, FP_negative + TN and the three dynamic counts each add up to their class, and the classes to all truths |
| EdgeOracle.ExtraEdgeCannotInflate | scripts/sot_evaluator.py:280-388 | an extra edge off every static positive leaves TP and FN alone and changes FP only through itself |
| EdgeOracle.ExtraEdgeIsUnexpectedIff | scripts/sot_evaluator.py:359-388 | inserting an edge off every positive raises the unexpected count by one iff it is a call from the path and symbol of a positive, its identity is that of no dynamic or negative truth, and it is not the under-qualified form, same path, source, relation, target file and last name part, of a positive without a row; an edge of any other relation changes nothing |
| EdgeOracle.UnexpectedEdgesAre | scripts/sot_evaluator.py:359-388 | the unexpected count is the number of edges of which that is so |
| EdgeOracle.BareIsLastPart | scripts/sot_evaluator.py:210-211 | the bare name is the suffix after the last dot, and the whole symbol where there is none |
| EdgeOracle.OrderDoesNotMatter | scripts/sot_evaluator.py:244-438 | with unique identities all eight counters of positives, negatives, unexpected edges and dynamic claims are invariant under reordering truths and edges |
| EdgeOracle.MatchersNested | scripts/sot_evaluator.py:274-289 | among the positives exact matches are identity matches and identity matches are loose matches |
| EdgeDiagnostics.IdentityRecallIsHigherIff | scripts/sot_evaluator.py:411-422 | identity-only recall is at least the exact recall for every database iff no hittable group has more positives than the average group |
| EdgeDiagnostics.ExactRecallCanBeHigher | scripts/sot_evaluator.py:411-422 | two of three positives found against one of two groups |
| EdgeDiagnostics.DiagnosticsBounded | scripts/sot_evaluator.py:411-419 | identity-only recall is full iff every positive is in the database by identity; a full exact recall makes both diagnostics full; the loose count is at least the true positives |
| EdgeDiagnostics.DiagnosticsIgnoreOrder | scripts/sot_evaluator.py:411-419 | group, identity and loose counts are invariant under reordering |
| EdgeEvaluation.EvaluateEdges | scripts/sot_evaluator.py:244-463 | the pass computes the specified counters, the unexpected edges by their plain condition; slots attribute them to their buckets and sum to them; the confusion list names every error once; dynamic and diagnostic counts are as specified |
| EdgeEvaluation.Diagnose | scripts/sot_evaluator.py:289-328 | the reason for a miss is the first applicable rule, and the explained keys are exactly the same-file collisions |
| EdgeEvaluation.Scoreboard.Bump | scripts/sot_evaluator.py:267-357 | a global counter and its bucket slot move together |
| EdgeEvaluation.Scoreboard.ScorePositives | scripts/sot_evaluator.py:273-334 | log, confusions and explained keys of the positives, in group order |
| EdgeEvaluation.Scoreboard.ScoreNegatives | scripts/sot_evaluator.py:336-357 | log, confusions and matched keys of the negatives |
| EdgeEvaluation.Scoreboard.ScoreUnexpected | scripts/sot_evaluator.py:359-388 | log and confusions of the unexpected calls; `ExtraEdgeIsUnexpectedIff` and `ConfusionMeans` say which they are |
| EdgeEvaluation.SlotsSumToGlobals | scripts/sot_evaluator.py:440-462 | per-language, per-relation slots sum to the global counters |
| EdgeEvaluation.ConfusionListsEveryError | scripts/sot_evaluator.py:329-408 | the list length is FN + FP + dynamic misresolutions |
| EdgeEvaluation.LogTotals | scripts/sot_evaluator.py:273-388 | grouping by key and logging bucket by bucket loses no truth and counts none twice |
| EdgeEvaluation.LegacyLooseMatch | scripts/sot_evaluator.py:474-490 | the number of positives any of the three tiers accepts |
| EdgeOracle.LooseHitIff | scripts/sot_evaluator.py:474-490 | a positive is loosely hit iff the database has its path and relation with its source and target, its source and the bare target, or both bare |
| EdgeSlots.SlotsAttribute | scripts/sot_evaluator.py:267-388 | each slot holds the hits and misses of the positives of its language and relation, an identity having the language of its first positive, the negatives of them, and under calls the edges that count against the extractor |
| EdgeSlots.ReasonsMean | scripts/sot_evaluator.py:289-328 | each of the six reasons for a miss, exactly when, in terms of the edges and pending edges there are |
| EdgeSlots.DynamicCountsMean | scripts/sot_evaluator.py:390-409 | a dynamic truth is claimed, misresolved or unclaimed as the database has its identity, a colliding edge only, or neither |
| EdgeSlots.ConfusionMeans | scripts/sot_evaluator.py:329-408 | what is in the confusion list, exactly: the missed positives with their reason, the negatives found with the line of the latest edge, the edges that count against the extractor, and the misresolved dynamic truths with the first edge that collides |
| RegressionGate.EvaluateGate | scripts/sot_evaluator.py:2193-2299 | passes iff no rule is broken; the reasons are exactly the broken rules |
| RegressionGate.ReasonsMean | scripts/sot_evaluator.py:2216-2292 | for tolerance >= 0 each reason, exactly when: an overall metric under its own or the baseline's floor, a bucket gone, new or once clean with errors, a ratio of a bucket down by more than the tolerance |
| RegressionGate.RatiosMean | scripts/sot_evaluator.py:2184-2190 | precision times what was found, and recall times what there was to find, is what was right |
| RegressionGate.PassingWithFloors | scripts/sot_evaluator.py:2216-2292 | with floors of the caller's own: these replace the tolerance for the overall metrics, and nowhere else |
| RegressionGate.PassingMeansNoRegression | scripts/sot_evaluator.py:2193-2299 | for tolerance >= 0 passing is: no ratio drops by more than the tolerance, no bucket vanishes, clean or new buckets are clean |
| RegressionGate.ReflexiveIff | scripts/sot_evaluator.py:2193-2299 | a payload passes against itself iff tolerance >= 0 |
| RegressionGate.Composes | scripts/sot_evaluator.py:2193-2299 | tolerances of successive passes add up |
| RegressionGate.DriftIsBounded | scripts/sot_evaluator.py:2193-2299 | n re-baselines drift by at most n tolerances |
| RegressionGate.DriftIsReal | scripts/sot_evaluator.py:2193-2299 | and two passes at a tolerance need not compose at that tolerance |
| RegressionGate.CleanStaysClean | scripts/sot_evaluator.py:2254-2292 | a clean bucket stays present and clean through every chain, whatever the settings |
| RegressionGate.NewBucketsEnterClean | scripts/sot_evaluator.py:2256-2267 | so does one that was absent from a baseline |
| ReverseClosure.ExpectedClosure | scripts/bench_diff_impact.py:318-347 | callers and tests are the two halves of the full-depth ball, early exit included; the tests are the symbols that begin with test or end in Test, Tests, IT or Spec |
| ReverseClosure.BallIsReachability | scripts/bench_diff_impact.py:332-346 | the ball is the set of nodes with a path of at most depth allowed edges into the start set |
| ReverseClosure.ClosureIsBoundedReachability | scripts/bench_diff_impact.py:318-347 | the result is exactly the non-direct nodes so reachable, split disjointly |
| ReverseClosure.Saturated | scripts/bench_diff_impact.py:344-346 | stopping at an empty frontier loses nothing |
| ReverseClosure.ClosuresCompose | scripts/bench_diff_impact.py:318-347 | d1 levels and then d2 levels are d1 + d2 levels |
| ReverseClosure.ClosuresUnite | scripts/bench_diff_impact.py:318-347 | closures distribute over unions of start sets |
| ReverseClosure.FullExpectation | scripts/bench_diff_impact.py:269-293 | impacted symbols are those that reach an edited one; test files are the changed or importing ones |
| ReverseClosure.PerfectScoreIff | scripts/bench_diff_impact.py:350-354 | before rounding F1 lies in [0, 1] and is 1 exactly for a perfect, non-empty prediction |
| ReverseClosure.PublishedPerfectIff | scripts/bench_diff_impact.py:350-355 | rounded to four decimals F1 reads 1 iff at most one element in 20000 is on one side only; below 20000 elements iff the prediction is perfect and not empty |
| RenderedMap.ParseRenderedMap | evaluation/exit_gates/common.py:108-136 | the loop computes the parse that the following lemmas are about |
| RenderedMap.RejectsExactlyBadLines | evaluation/exit_gates/common.py:117-135 | the parse fails iff some line fits no rule, and names the first such line; `ParsesIff` has the rules by characters |
| MapGrammar.KindsMean | evaluation/exit_gates/common.py:104-131 | blank, footer, path and stub lines by their characters, and the path or symbol each yields: a path is what precedes the final colon, a symbol what follows two spaces up to trailing white space |
| MapGrammar.ParsesIff | evaluation/exit_gates/common.py:104-135 | a text parses iff every line of it is one of these, a stub only below some path; otherwise the error names the first line that is not |
| RenderedMap.MergesGroups | evaluation/exit_gates/common.py:130-135 | repeated groups merge in order of first appearance, stubs in order |
| RenderedMap.SymbolCountIsStubLines | evaluation/exit_gates/common.py:99-124 | the symbol count is the number of non-blank lines that start with two spaces |
| RenderedMap.RoundTripIff | src/sot_graph/repo_map.py:252-262 | parsing inverts printing, footer included, iff no path starts with a parenthesis |
| RenderedMap.ParsePrintParse | evaluation/exit_gates/common.py:108-136 | printing and parsing an accepted text is a fixed point |
| RenderedMap.ParenthesisedGroupIsMisread | evaluation/exit_gates/common.py:126-127 | what becomes of a group whose path starts with a parenthesis |
| CategoryOracle.UnderFlagsIff | evaluation/exit_gates/common.py:52-84 | for all tables and paths: the oracle misses a contaminated file iff it is minified, no test file by name, below a directory only the oracle calls generated, and in no other table of directories |
| CategoryOracle.NeverUnderFlagsElsewhere | evaluation/exit_gates/common.py:52-84 | outside exactly that family the oracle over-approximates the production classifier |
| CategoryOracle.ClassifiedByFirstRule | src/sot_graph/repo_map.py:74-96 | the first directory table with a name of the path gives the category; where none has, the file name does, and else it is production |
| CategoryOracle.OracleByFirstRule | evaluation/exit_gates/common.py:52-80 | the same of the oracle, with its longer tables and a directory that looks vendored in between |
| CategoryOracle.ClassifiedContaminatedIff | src/sot_graph/repo_map.py:74-96 | exactly which paths the production classifier finds contaminated |
| CategoryOracle.OracleContaminatedIff | evaluation/exit_gates/common.py:52-84 | and exactly which the oracle does |
| CategoryOracle.UnderFlagsVirtualenvs | evaluation/exit_gates/common.py:37-45 | the family is inhabited for the declared tables |
| ContaminationGate.BreakdownAddsUp | evaluation/exit_gates/sg201_contamination.py:55-100 | categories sum to all rendered symbols, fixture plus vendor to the contaminated ones |
| ContaminationGate.Breakdown | evaluation/exit_gates/sg201_contamination.py:95-100 | the accumulated dictionary holds each category's symbol total |
| ContaminationGate.UnderFloorMeans | evaluation/exit_gates/sg201_contamination.py:83-182 | the percentage rounded to three decimals is below the floor iff 200000 part < 3999 whole, which implies 50 part < whole |
| ContaminationGate.VerdictsMean | evaluation/exit_gates/common.py:174-201 | each verdict and the flag beside it, exactly when, for any flag, samples and metric |
| ContaminationGate.GateIs | evaluation/exit_gates/sg201_contamination.py:170-200 | a mismatch gives PARSE_MISMATCH; otherwise FAIL iff some default run with enough symbols has none or 200000 contaminated >= 3999 rendered; otherwise INSUFFICIENT_SAMPLING iff the run of the largest budget has too few, and else PASS; never NOT_EVALUABLE |
| ContaminationGate.PassIff | evaluation/exit_gates/sg201_contamination.py:170-200 | exact condition of a repository PASS |
| ContaminationGate.PassMeansBelowTwoPercent | evaluation/exit_gates/sg201_contamination.py:170-200 | a PASS puts every adequately sampled default run strictly below two percent |
| ContaminationGate.EveryRunSampledOnlyForEqualBudgets | scripts/bench_sg201_external_corpus.py:24-25 | a PASS guarantees the minimum for every default run, whatever maps are built, iff all budgets are equal |
| ContaminationGate.PassUndersampled | evaluation/exit_gates/sg201_contamination.py:170-200 | for any other budgets a run that passes with an undersampled default run |
| ContaminationGate.RunContamination | evaluation/exit_gates/sg201_contamination.py:103-232 | raises iff a text does not parse or no budget is given; one scored default run per budget; no mismatch iff every parsed map has the symbol count and files it was built with; the verdict and flag are exactly those of the runs |
| PinnedCheckout.WorktreeViolations | scripts/bench_sg201_external_corpus.py:166-184 | the loop with its skip flag computes the scan that the following lemmas are about |
| PinnedCheckout.ScanFindsEveryEntry | scripts/bench_sg201_external_corpus.py:166-184 | on the NUL-separated encoding of entries the scan reports exactly each entry's finding, in order, when renames alone leave an extra record |
| PinnedCheckout.CopyOriginIsScanned | scripts/bench_sg201_external_corpus.py:166-184 | for a copy the scan also reads the path it came from as a record |
| PinnedCheckout.CopySwallows | scripts/bench_sg201_external_corpus.py:169-178 | and if that path reads as a rename the next entry is not reported |
| PinnedCheckout.CleanIff | scripts/bench_sg201_external_corpus.py:166-184 | nothing is reported iff every entry is untracked below `.sot/`, renames and copies included |
| PinnedCheckout.VerifiedIff | scripts/bench_sg201_external_corpus.py:187-232 | verified iff cached, git answers, the pinned commit is present and HEAD, and the tree is clean in that sense |
| PinnedCheckout.ErrorsMean | scripts/bench_sg201_external_corpus.py:204-232 | each error, and the exception, exactly when no earlier cause applies |
| CorpusGate.MeasureRepo | scripts/bench_sg201_external_corpus.py:270-320 | a record is free of error iff the pin holds before and after, nothing raises and every text parses; it then vouches for a gate computed from its own runs |
| CorpusGate.AggregateGate | scripts/bench_sg201_external_corpus.py:353-378 | exact conditions of PASS, FAIL and INSUFFICIENT_SAMPLING over any records |
| CorpusGate.RunCorpus | scripts/bench_sg201_external_corpus.py:544-575 | FAIL iff some repository measured without error or mismatch has a default run with enough symbols and 1.9995% contaminated or none; PASS and INSUFFICIENT_SAMPLING exactly when; a PASS establishes, for every declared repository, the pin, the parse, the sampling of the largest budget and the two-percent bound of every adequately sampled default run |
| Calibration.ColumnsAreCentred | src/sot_graph/calibration.py:93-100 | every normalised training column sums to zero |
| Calibration.CutoffsOrdered | src/sot_graph/calibration.py:293-299 | the cutoffs are ordered for every training set, and the collapse is a no-op |
| Calibration.LowIsAtMostAThird | src/sot_graph/calibration.py:293-306 | at most n/3 training rows are LOW |
| Calibration.HighIsAtLeastAThird | src/sot_graph/calibration.py:293-306 | at least n - 2n/3, hence at least one, are HIGH |
| Calibration.BandsPartition | src/sot_graph/calibration.py:301-306 | every row is in exactly one band |
| Calibration.PredictsAsTrained | src/sot_graph/calibration.py:145-151 | the model in memory gives a row the probability it was banded by |
| Calibration.FitModel | src/sot_graph/calibration.py:255-320 | rejected iff too small or of one label, learned iff also the held-out loss is below the base rate; a learned model carries the fit on all rows, ordered cutoffs, total predictions, bands as its own level reports them, and never gives the higher of two probabilities the lower level |
| RiskScores.SigmoidRises | src/sot_graph/calibration.py:79-83 | the probability rises strictly with the score and is one half exactly at zero |
| RiskScores.OddsFollowScore | src/sot_graph/calibration.py:145-151 | a usable model gives a row a probability between 0 and 1 whose odds are the exponential of the linear score |
| RiskScores.LevelsFollowScore | src/sot_graph/calibration.py:145-159 | probabilities and levels are ordered as the scores are |
| RiskScores.FeatureRaisesRisk | src/sot_graph/calibration.py:145-159 | a larger feature of positive weight raises the probability and never lowers the level |
| RiskScores.LearnedIsUsable | src/sot_graph/calibration.py:255-320 | a learned model is usable in that sense |
| RiskScores.LearnsFromStandardRows | src/sot_graph/calibration.py:93-100 | the rows learned from have columns of sum zero, and of variance one where the feature varies by more than the floor |
| RiskScores.NearerIsNoWorse | src/sot_graph/calibration.py:119-124 | a probability nearer the label never has the larger loss |
| RiskScores.LossIsNotNegative | src/sot_graph/calibration.py:119-124 | the loss is not negative, and is zero for certain and right predictions |
| RiskScores.BaseRateIsShare | src/sot_graph/calibration.py:290-291 | the base rate loss predicts the share of adverse commits for all |
| RiskScores.ReloadedIsNearby | src/sot_graph/calibration.py:161-195 | saving moves every number of a model by at most half a millionth, each in its place |
| Calibration.PredictsAfterReloadIff | src/sot_graph/calibration.py:161-195 | after saving, prediction is defined iff every deviation exceeds half a millionth |
| Calibration.LearnedModelReloadsIff | src/sot_graph/calibration.py:94-98 | a learned model can predict after saving iff every training column varies by more than half a millionth; never with a constant feature |
| Calibration.ConstantFeatureBreaksReload | src/sot_graph/calibration.py:94-98 | a constant feature makes the saved model unusable |
| Calibration.ReloadedCutoffsOrdered | src/sot_graph/calibration.py:161-195 | rounding keeps the cutoffs ordered |
| Calibration.FoldsPartition | src/sot_graph/calibration.py:273-276 | each sample is tested in one fold and trained on in the others |
| Calibration.NoFoldIsEmpty | src/sot_graph/calibration.py:273-278 | the number of folds is the requested one, within two and the number of samples, and no side of any fold is empty |
| Calibration.CrossValidate | src/sot_graph/calibration.py:271-289 | the weighted fold losses equal the plain mean of the per-sample losses, each under the model fitted on the training indices of its fold |
| Calibration.NothingLeaks | src/sot_graph/calibration.py:273-288 | the model that scores a sample does not depend on that sample's row or label |
| Spans.Recorder.RunSpan | scripts/diagnose_native_latency.py:41-62 | exceptions included: stack restored, row closed, everything recorded inside laminar; the new rows are its own, then those of the spans its block enters, each with its name, parent and exception flag |
| Spans.Recorder.RunProgram | scripts/diagnose_native_latency.py:41-62 | every nesting of spans, raises and handlers appends one row for each span entered, in order of entry, under the row of the enclosing span, marked iff its block leaves by an exception; they form a laminar forest with parents before children and siblings disjoint |
| Spans.ChildrenWithinParent | scripts/diagnose_native_latency.py:57-62 | the direct children's wall times sum to at most the parent's |
| Spans.RootsWithinRecording | scripts/diagnose_native_latency.py:57-62 | the outermost spans take no longer than the recording |
| Claims.Occurrences | src/sot_graph/claims.py:277-287 | exactly all matches, overlapping ones included, in increasing order |
| Claims.LineOfIsTheLine | src/sot_graph/claims.py:269-274 | number and text name one entry of the text split at newlines, free of newlines, that holds the character |
| Claims.RegisterSpans | src/sot_graph/claims.py:449-456 | a hit is registered iff it starts inside an occurrence of a claim's pattern in a file the claim names |
| Claims.ClassifyHits | src/sot_graph/claims.py:458-483 | every hit is counted once: hedged, registered, allowed or reported |
| Claims.ClassesMean | src/sot_graph/claims.py:458-483 | each class exactly when: the line hedges; else the hit lies in a registered span; else an exemption of the file names a part of the line; else none |
| Claims.CleanMeansExcused | src/sot_graph/claims.py:474-483 | no violation iff every hit has one of the three excuses |
| Denominators.SampledBlockIsBalanced | scripts/bench_holdout.py:477-512 | its numbers: all targets in the denominator, the sampled ones measured, the rest accounted for by the cap, ambiguous names out of scope; nothing measurable iff there is no target |
| Denominators.AccountingMeans | scripts/bench_holdout.py:106-119 | an unmeasurable metric has no denominator; otherwise the numbers are as given |
| Denominators.FoldDenominators | scripts/bench_holdout.py:751-800 | the loop folds records by merging them one at a time |
| Denominators.TotalsAre | scripts/bench_holdout.py:766-799 | every aggregate number is the sum of the same number over the records with a measurable block, reason by reason |
| Denominators.ReasonsAre | scripts/bench_holdout.py:773-781 | and the last unmeasured record of a name gives the name its reason |
| Denominators.FoldConcat | scripts/bench_holdout.py:751-800 | the fold is a homomorphism over concatenation |
| Denominators.FoldPermutation | scripts/bench_holdout.py:758-786 | and independent of order when unmeasured repositories have distinct names |
| Denominators.CountedOnceIff | scripts/bench_holdout.py:763-786 | every record is counted exactly once iff no two unmeasured ones share a name |
| Denominators.ExclusionsAddUp | scripts/bench_holdout.py:777-791 | aggregate exclusions exceed aggregate reasons by exactly what the repositories' own do |
| Denominators.BalanceIsKept | scripts/bench_holdout.py:777-791 | reasons that account for everything per repository do so in the aggregate |
| CorpusPath.UnchangedIff | scripts/sot_evaluator.py:2150-2165 | exactly the marker-free strings are left alone |
| CorpusPath.StripsTheRoot | scripts/sot_evaluator.py:2150-2165 | where the corpus was unpacked has no influence on the result |
| CorpusPath.IdempotentIff | scripts/sot_evaluator.py:2150-2165 | normalising twice is normalising once iff the path does not mix separator styles |
| CorpusPath.StyleDoesNotMatterIff | scripts/sot_evaluator.py:2150-2165 | a path and its forward-slash spelling become the same iff it does not mix them |
| CorpusPath.MixedStylesAreNotIdempotent | scripts/sot_evaluator.py:2150-2165 | a concrete path on which the documented idempotence fails |
| CorpusPath.PayloadUnchangedIff | scripts/sot_evaluator.py:2168-2174 | a payload is left alone iff none of its strings holds a marker |
| CorpusPath.PayloadIdempotentIff | scripts/sot_evaluator.py:2168-2174 | and may be normalised twice iff none mixes separator styles |

## Left out

- Subprocesses, git, SQLite, file-system calls and clocks: they enter as answers, steps or parameters.
- `run_index`, `resolve_engine_command` and the configuration: one value says which branch a run takes.
- The project name a store is opened with is located in the database that readers resolve to, not
  searched for elsewhere; `schema_probe`, `snapshot_token` and `coverage_gaps` are diagnostics.
- The journal records which paths own rows, not the rows. The global clean-up after a batch is not modelled;
  a lock that is busy there ends the run, which the machine has as a crash.
- Which row the journal lookup returns, and its hash: they enter as one answer, so the model has every run
  of the code, and some in which an answer does not fit the journal; `OwnRowOnly` says when one does.
- The order in which gap paths, journal rows, buckets and frontier nodes are visited is left open.
- `_language_of_path` is a parameter; messages, anchors and detail texts are datatypes.
- Rounding of precision, recall and F1 to four decimals, and the `overall` slot of each language.
- The gate reads each bucket's counters as given; malformed payloads are not modelled.
- The file-level, first-20-files and source-share numbers of `_score_rendered`: published, not gated on.
- `build_repo_map`, `load_corpus_manifest`, `_disk_oracle_universe` and the rendering of reports.
- Backslashes, empty segments and `.` in a path given to a classifier: it receives the segments.
- The gradient descent of `_fit_logistic`: weights and intercept are any function of the normalised rows and the labels; IEEE rounding.
- Joining records to outcomes by commit in `fit_model`, and the empirical monotonicity flag.
- Process times, and a span's `phase` and `path` details.
- Which phrases are absolute, which hedge, and how a registry is loaded: tables and regular expressions.
- `_resolve_dotpath` and the artifact, provenance and staleness checks of `lint_claims`.
- The suites of `scripts/bench_holdout.py` other than their accounting, and averaging over repositories.
- Corpus builders, search probes, the command-line interface and packaging.
- PinnedCheckout.ScanFindsEveryEntry: not for entries with a copy's extra record, because the code reads that one as an entry.
- CorpusPath.IdempotentIff: repository ids are directory names, without a slash or backslash, as the only id in use is.
- Denominators.FoldPermutation: with repeated names the surviving reason depends on the order, so distinct names are required.
