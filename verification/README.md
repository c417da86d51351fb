# Calculation worker: verified kernels

A Dafny 4.11 model of the algorithmic kernels of a life-cycle calculation worker, with proofs of
the properties the worker relies on. `dafny verify dfyconfig.toml` checks everything.

Quantities that the worker keeps as `f64` are `real` here, identifiers are `nat`, hashes and documents are
opaque. Backends, clocks, validators and the order of hash-map iteration are parameters or
nondeterministic choices, so every theorem holds for all of them. Saturating and word-sized
arithmetic is written out where the worker depends on it.

| modules | subject |
|---|---|
| `GcModel`, `GcFields`, `GcLeaseFree`, `GcDetails`, `GcLeased`, `GcStaging`, `GcLog`, `GcRun` | Lease-fenced artifact garbage collection. A run yields a trace of backend calls and clock readings; safety is stated about every prefix of every trace. The lease-free candidate logic is the specification the leased one refines. |
| `CacheModel`, `CacheRecency`, `CacheHistory`, `FactorizationCache` | The byte-bounded factorization cache. Each public method is one locked step; a history is any interleaving of steps. |
| `ContributionGraph`, `ContributionCuts`, `ContributionPath`, `ContributionAlgebra` | Contribution-path analysis: the pruned provider graph, the depth-first traversal, and the decomposition of a score into direct contributions. |
| `ImportClosure`, `ImportPlan`, `PackageStaging` | Package import planning: breadth-first closures, blocked flags refined by validation, greedy staging. |
| `Elimination` | The exact-elimination oracle of the study benchmarks. |
| `RetentionSql`, `RetentionReasons` | The package-retention report and the deleting queries under SQL three-valued logic, and what they mean on the columns. |
| `BundleChunks`, `CsvRows`, `Families`, `NonregionalDefaults`, `NonregionalAgreement`, `CanonicalJson` | Result chunks and their query index, CSV printing, nonregional default factors from producer to consumer, canonical JSON. |
| `Wrappers` | The option type the others share. |

## How the proofs are organized

Code that changes state step by step is an imperative method or a class, proved against a
specification function or a property that does not mention the code: the kernel of a matrix, the
reachable set, the ball of a radius in a graph, the least oldest-first cut, the fewest chunks.
Properties of whole runs are lemmas about those specifications.

Some promises do not hold on all inputs, and the model says exactly when they do:

- The cache keeps its byte account for exactly the capacities below the `usize` maximum
  (`CacheModel.AccountedIffBelowMaximum`, with the failing run in `MaximalCapacityOverruns`).
- The contribution traversal finds everything within the depth limit exactly when those nodes fit the
  node cap; with more of them, a successful run fills the cap and ends some branch there
  (`ContributionPath.TraverseUpstream`).
- Rewriting correlated EXISTS as uncorrelated membership keeps the classification, as the comment at
  `crates/solver-worker/src/package_retention.rs:63-65` says (`RetentionSql.ActiveAgrees` and its
  siblings). The report as a whole marks eligible exactly the rows that the deleting queries select
  when the columns declared NOT NULL in `supabase/migrations/20260319120000_tidas_package_job_tables.sql`
  and `supabase/migrations/20260319143000_tidas_package_export_items.sql` are not null
  (`RetentionSql.ReportIsExact`). With a null in one of them a row can be reported eligible and never be
  selected; each such column has its row (`UndatedItemIsReportedOnly`, `NullAccessIsReportedOnly`,
  `NullPinIsReportedOnly`).
- A manifest accepted by `finish` may have gaps; the coverage sum of the query index rejects exactly
  those (`BundleChunks.FinishAcceptsShortChunks`, `BundleChunks.EncodeQueryIndex`).
- What the default-factor script prepares is refused by the worker when a listed default is a zero
  whose sign no cached number of its family has: the script compares decimals, which ignores the sign,
  the worker compares bit patterns (`NonregionalAgreement.SignedZeroIsRefused`). In every other case
  they agree (`NonregionalAgreement.BuildThenPrepare`).

## Model

| member | source | states |
|---|---|---|
| GcModel.FencedAt | crates/solver-worker/src/artifact_gc.rs:328-662 | Every event of a fenced trace was allowed by the events before it. |
| GcModel.NothingFollowsALostLease | crates/solver-worker/src/artifact_gc.rs:353-394 | Nothing of any kind, call or clock reading, follows the event that shows a lost lease. |
| GcModel.GrantWasClaimed | crates/solver-worker/src/artifact_gc.rs:635-671 | Through any number of renewals, the lease a worker holds goes back to a claim that granted the same token. |
| GcModel.LossWasClaimed | crates/solver-worker/src/artifact_gc.rs:353-394 | A trace shows a lost lease only when a claim granted one, for a batch or for a write set. |
| GcModel.CallsAreFenced | crates/solver-worker/src/artifact_gc.rs:576-662 | Each completion and each failure directly follows a clock reading strictly before the deadline last granted to that call's token. |
| GcModel.DeletesAreFenced | crates/solver-worker/src/artifact_gc.rs:397-574 | Each candidate delete directly follows a clock reading not past the deadline last granted to that candidate's own token; each locator delete one not past the deadline of its write set's token, and it deletes that set's next locator. |
| GcModel.StaleCompletedAfterDeletes | crates/solver-worker/src/artifact_gc.rs:397-472 | A stale write set is completed only after each of its locators was reported deleted or missing since it was claimed, and directly after a clock reading strictly before the deadline of its own token. |
| GcModel.GenuineAt | crates/solver-worker/src/artifact_gc.rs:231-280 | In a trace of the environment every prefix is what making its calls again gives, so each reading is the clock's next and each answer the backend's next. |
| GcModel.AnswersInOrder | crates/solver-worker/src/artifact_gc.rs:231-280 | No answer of backend or clock is skipped or used twice: each event carries the one whose number is that of the earlier events of its kind. |
| GcFields.WhitespaceIsWhiteSpace | crates/solver-worker/src/artifact_gc.rs:123-156 | Trimming removes exactly the code points with the Unicode White_Space property. |
| GcFields.ValidPathIsSafe | crates/solver-worker/src/artifact_gc.rs:165-180 | A path is accepted exactly when, between its first and last characters that are not white space, it has no backslash and no maximal slash-free piece that is empty, "." or "..". |
| GcFields.ValidMeans | crates/solver-worker/src/artifact_gc.rs:113-162 | A candidate is valid exactly when its fields are those of an expired object with bucket and safe path, or of a deleted artifact without a locator, with role, expiry and a 64-digit hexadecimal checksum. |
| GcLeaseFree.PlanIsOrderly | crates/solver-worker/src/artifact_gc.rs:673-766 | For every candidate and every backend: only the first call deletes, under the candidate's token, on its own path, and only an expired object in the expected bucket; only such an object or a remnant without locator is completed, the object with the outcome of that delete; a failure comes last and never with a completion; at most 30001 calls. |
| GcLeaseFree.PlanBegins | crates/solver-worker/src/artifact_gc.rs:481-549 | The first call is a delete exactly for an expired object in the expected bucket, a completion exactly for a remnant, and otherwise the only call, a failure. |
| GcLeaseFree.CompleteArtifactDetails | crates/solver-worker/src/artifact_gc.rs:673-718 | The bounded retry and round loops make exactly the calls of the recursive detail plan and return its rounds and sums, or an error exactly when that plan breaks. |
| GcDetails.CleanupStops | crates/solver-worker/src/artifact_gc.rs:673-718 | For every sequence of answers the calls take one answer after the other, up to the first that says nothing remains, is the third in a row without answer, or is the ten-thousandth answered; it ends well exactly in the first case. |
| GcDetails.PlanEnds | crates/solver-worker/src/artifact_gc.rs:673-766 | How a candidate ends shows in its last call: completed exactly on an answer that nothing remains, retry exactly on a recorded failure. |
| GcDetails.PlanAddsUp | crates/solver-worker/src/artifact_gc.rs:576-633 | The rounds are the answered calls, and the detail counts the sums of their answers, capped at 64 bits. |
| GcLeaseFree.ProcessArtifactGcCandidate | crates/solver-worker/src/artifact_gc.rs:720-766 | The lease-free processing of a valid candidate makes exactly the calls of the candidate plan; an invalid candidate is an error without any call. |
| GcLeased.EnsureCurrentClaim | crates/solver-worker/src/artifact_gc.rs:635-671 | Success exactly with more than the renewal margin left, and then without a call, or after one renewal of the same token whose deadline lies after the next reading, and then with the renewed lease; it leaves the clock's own reading, strictly before the deadline, as the last event; the lease counts as lost exactly when the trace shows it, and as unreadable only when it is; no call of the candidate is made. |
| GcLeased.CompleteClaimedCandidate | crates/solver-worker/src/artifact_gc.rs:576-633 | The leased completion makes the calls of the lease-free detail plan, or a prefix of them when the lease is lost or unreadable, and settles the totals exactly when it finishes. |
| GcLeased.DeleteUnderLease | crates/solver-worker/src/artifact_gc.rs:522-539 | At most one timed delete is made, on the candidate's path, and its answer is the backend's unless the lease ran out. |
| GcLeased.FollowingIsOrderly | crates/solver-worker/src/artifact_gc.rs:474-633 | Whatever interrupts it, a leased processing is as orderly as the plan. |
| GcLeased.ProcessClaimedCandidate | crates/solver-worker/src/artifact_gc.rs:474-574 | Refinement: for every backend and clock the calls are those of the lease-free plan, or a prefix when interrupted; the totals follow; if the clock never nears the deadline and no delete times out, the whole plan is carried out; which candidates that plan deletes, completes or fails is stated on their fields by `GcLeaseFree.PlanBegins`. |
| GcStaging.DeleteWriteSet | crates/solver-worker/src/artifact_gc.rs:424-460 | All locators are gone on success; only deletes are made; the counters equal the deletes in the trace; every other end is a lost lease or a named failure. |
| GcStaging.ReconcileStaleWriteSets | crates/solver-worker/src/artifact_gc.rs:397-472 | A fenced trace of the environment whose only calls are deletes; the counters equal what the trace shows; it ends by a handoff exactly when the lease is lost, otherwise because nothing is left, the batch limit is reached, or the backend broke. |
| GcLog.OneMoreSettled | crates/solver-worker/src/artifact_gc.rs:474-633 | A finished candidate raises completed together with exactly one of deleted, missing or detail cleanups, or it raises retryable failures. |
| GcLog.ObservedIsCounted | crates/solver-worker/src/artifact_gc.rs:522-558 | A candidate's delete is counted exactly once, under its outcome, even when the work on it is interrupted. |
| GcLog.TallySettles | crates/solver-worker/src/artifact_gc.rs:353-394 | When every candidate was dealt with, completed plus retryable failures is their number, completed splits into deleted, missing and detail cleanups, and batches and candidates count the claims and what they held. |
| GcLog.TallyEnds | crates/solver-worker/src/artifact_gc.rs:384-388 | When the last candidate was interrupted, all others are settled and at most one more is counted as begun. |
| GcLog.TallyCountsDeletes | crates/solver-worker/src/artifact_gc.rs:353-394 | Over a whole run the counters of deleted and missing objects, staging included, equal the deletes of the trace by outcome. |
| GcLog.TallyCountsDetails | crates/solver-worker/src/artifact_gc.rs:576-633 | Over a whole run the counters of rounds, occurrences, roots and issues are the sums over the answers that the candidates dealt with to the end received. |
| GcLog.LoggedIsOrderly | crates/solver-worker/src/artifact_gc.rs:353-394 | Every candidate of a run, finished or not, is orderly: at most one delete, of its own expired object in the expected bucket under its own token, completion only after that delete and with its outcome, never both completion and failure. |
| GcLog.LoggedIsLater | crates/solver-worker/src/artifact_gc.rs:353-394 | What the log accounts for lies after staging: the trace at the end of staging is a prefix of the whole. |
| GcRun.ProcessBatch | crates/solver-worker/src/artifact_gc.rs:374-392 | The candidates of a claim are processed in order under its token, each from where the one before ended; the totals are what the log adds up to; on a lost lease only the last is unfinished. |
| GcRun.RunBatch | crates/solver-worker/src/artifact_gc.rs:353-394 | One turn of the claim loop keeps log and totals in step, or ends drained, handed off or with a visible cause. |
| GcRun.RunBatches | crates/solver-worker/src/artifact_gc.rs:353-394 | The claim loop ends drained or at the batch limit with all claimed candidates dealt with, by a handoff, or with a visible cause; the totals are what the log adds up to. |
| GcRun.RunArtifactGc | crates/solver-worker/src/artifact_gc.rs:328-395 | For every backend and clock: the trace is the environment's and fenced; staging is a prefix of it and only deletes; from there on the log accounts for every call, candidate by candidate in claim order and under the claim's token, with the calls of the plan; every candidate but the last is finished, and the last has the status the run ended with; all totals are exactly what staging opens with and the log adds up to, so they balance without a handoff and fall strictly short with one, and count claimed candidates, dealt-with candidates, deletes and the details of the answers; limits hold; a handoff shows in the trace as the loss of a lease that a claim granted; an error has a cause the trace or log shows; a dry run only previews. |
| CacheModel.VictimExists | crates/solver-core/src/cache.rs:274-293 | Below the `usize` maximum the eviction loop never reaches its `break`. |
| CacheModel.EvictKeepsAccount | crates/solver-core/src/cache.rs:274-296 | Eviction keeps the byte account, leaves every survivor unchanged, and makes the new model fit. |
| CacheModel.EveryRunAccounts | crates/solver-core/src/cache.rs:204-388 | In every interleaving the resident bytes are the sum of the entry sizes and at most the capacity, for each capacity below the `usize` maximum. |
| CacheModel.MaximalCapacityOverruns | crates/solver-core/src/cache.rs:274-274 | At the `usize` maximum some run breaks the account, because the guard saturates. |
| CacheModel.AccountedIffBelowMaximum | crates/solver-core/src/cache.rs:240-313 | Exactly the capacities below the maximum keep the account in all runs. |
| CacheRecency.EvictsLeastCut | crates/solver-core/src/cache.rs:274-296 | What eviction removes is an oldest-first cut of the sized entries that makes room and would not without its newest member. |
| CacheRecency.LeastCutIsUnique | crates/solver-core/src/cache.rs:274-296 | There is only one such cut, so eviction is determined by it. |
| CacheRecency.EveryRunRefines | crates/solver-core/src/cache.rs:204-388 | While the access clock has not saturated, every interleaving leaves the same models, states and eviction order as an abstract recency list. |
| CacheRecency.LookupIsStoredLast | crates/solver-core/src/cache.rs:370-388 | In every interleaving a lookup finds a model exactly when the last step on the key stored it as ready and nothing evicted it since. |
| CacheRecency.BuildingIsMarkedLast | crates/solver-core/src/service.rs:216-218 | In every interleaving a key is building exactly when the last step that set it marked it so; eviction never clears it, so after a data error it stays until some caller sets it again. |
| CacheHistory.StateIsMadeLast | crates/solver-core/src/cache.rs:220-388 | In every interleaving a key is building, ready, failed or stale exactly when the last step to set it made it so, a ready one only until it is evicted. |
| CacheHistory.EvictionFollowsUse | crates/solver-core/src/cache.rs:275-287 | While the access clock has not saturated, of two sized entries the one whose last store or successful lookup lies further back is evicted first. |
| CacheHistory.EveryRunUnderstates | crates/solver-core/src/cache.rs:204-388 | For every capacity, the `usize` maximum included, the resident bytes never exceed the sum of the entry sizes. |
| CacheHistory.EveryRunCounts | crates/solver-core/src/cache.rs:204-430 | In every interleaving the counters are, up to 64 bits, the lookups that found a model, those that did not, the models larger than the capacity, the keys made stale, and the keys evicted. |
| FactorizationCache.FindOldest | crates/solver-core/src/cache.rs:275-287 | The scan returns the least recently used sized entry, ties by id, in whatever order the map is iterated, or nothing exactly when no entry is sized. |
| FactorizationCache.ListModel | crates/solver-core/src/cache.rs:337-368 | Lists each entry of a model version once. |
| FactorizationCache.SharedCache.SetBuilding | crates/solver-core/src/cache.rs:220-237 | One step of the abstract history; the byte account is kept. |
| FactorizationCache.SharedCache.SetFailed | crates/solver-core/src/cache.rs:316-334 | One step of the abstract history; the byte account is kept. |
| FactorizationCache.SharedCache.MakeRoom | crates/solver-core/src/cache.rs:274-296 | The loop computes the recursive eviction and makes room for every admissible model. |
| FactorizationCache.SharedCache.SetReady | crates/solver-core/src/cache.rs:240-313 | One step of the abstract history; a model is rejected exactly when it alone exceeds the capacity. |
| FactorizationCache.SharedCache.InvalidateModel | crates/solver-core/src/cache.rs:337-368 | All entries of the version, and no other, become stale and release their bytes; the count is returned. |
| FactorizationCache.SharedCache.GetReady | crates/solver-core/src/cache.rs:370-388 | One step of the abstract history; returns what the key holds. |
| FactorizationCache.PrepareInterleaved | crates/solver-core/src/service.rs:210-302 | Among any other callers, right after the last step of a `prepare` the key holds exactly the model it built if it returns success, and is failed otherwise; a data error has no last step and leaves the key building exactly as long as no other caller has set it. |
| FactorizationCache.Prepare | crates/solver-core/src/service.rs:210-302 | The cache steps of a `prepare` and the result it returns, which depends on the workload and the capacity alone: each result is returned exactly for its cause, in the order of the checks; a data error leaves the key building, every other failure leaves it failed, success leaves exactly the new model. |
| ContributionGraph.Normalized | crates/solver-worker/src/contribution_path.rs:38-55 | Each count becomes the nearest within its documented bounds, a cutoff above one becomes one, a negative or missing one a hundredth; options within bounds are kept. |
| ContributionGraph.BuildProviderAdjacency | crates/solver-worker/src/contribution_path.rs:365-389 | Fails exactly on an index out of bounds; otherwise each list holds exactly the providers, ascending and once each, which is what the traversal needs. |
| ContributionGraph.KeptIsTopK | crates/solver-worker/src/contribution_path.rs:481-513 | A provider is followed exactly when its contribution, of either sign, reaches the cutoff share of the total and fewer than top-k such providers lie farther from zero, ties by the smaller index. |
| ContributionGraph.KeptDescends | crates/solver-worker/src/contribution_path.rs:498-504 | They are followed the farthest from zero first, ties by the smaller index. |
| ContributionGraph.Shorten | crates/solver-worker/src/contribution_path.rs:522-537 | Any walk of the pruned graph has a simple one to the same node that is no longer, so cutting cycles loses no node and no distance. |
| ContributionPath.ChildrenExplore | crates/solver-worker/src/contribution_path.rs:457-574 | Once each kept provider lies on the path or has nothing left to find below it, every simple continuation within the depth limit is covered. |
| ContributionPath.ChildrenComplete | crates/solver-worker/src/contribution_path.rs:457-601 | A path has every branch that can begin with it, other than one cut at the node cap, once its own end is recorded and its kept providers are done. |
| ContributionPath.ChildrenLinked | crates/solver-worker/src/contribution_path.rs:515-563 | A path has every link from it or from a simple path below it once its kept providers are done. |
| ContributionPath.OnceMore | crates/solver-worker/src/contribution_path.rs:506-567 | Visiting one more kept provider records no branch a second time, as paths through different providers differ. |
| ContributionCuts.CutsAreListed | crates/solver-worker/src/contribution_path.rs:462-574 | The count kept along the walk is the number of cuts below the path: paths at the depth limit, providers that close a cycle, all providers where none counts, and those that count beyond the top-k limit, each once. |
| ContributionPath.WithinIsCovered | crates/solver-worker/src/contribution_path.rs:457-574 | Every node within the depth limit of the root has a recorded depth no greater than its distance. |
| ContributionPath.ExploredIsBall | crates/solver-worker/src/contribution_path.rs:457-574 | Exploring all simple paths gives exactly the nodes within the depth limit, with their shortest distances. |
| ContributionPath.CappedIsLarger | crates/solver-worker/src/contribution_path.rs:539-548 | A run that ends any branch at the node cap has filled the cap, and more nodes than that lie within the depth limit. |
| ContributionPath.WalkedFindsAll | crates/solver-worker/src/contribution_path.rs:457-601 | What a walk of the root has found is everything when the nodes within the depth limit fit the cap: the nodes with their distances, all branches, all links, and as many truncated nodes as there are cuts; otherwise the cap is full. |
| ContributionPath.TraversalState.RecordBranch | crates/solver-worker/src/contribution_path.rs:576-601 | Records the branch exactly when all its processes are in the index, and counts the cut; soundness is kept, which includes that a branch ends at the node cap only while the cap is full and its last node left out. |
| ContributionPath.TraversalState.RecordLink | crates/solver-worker/src/contribution_path.rs:555-562 | Records a link from the end of a simple path to a kept provider exactly when the source is in the index; soundness is kept. |
| ContributionPath.TraversalState.CutCycle | crates/solver-worker/src/contribution_path.rs:522-537 | A provider on the path ends a branch that repeats only that node, with a link marked as a cut and one node counted. |
| ContributionPath.TraversalState.Expand | crates/solver-worker/src/contribution_path.rs:550-562 | The node joins the expanded set at the lesser of its depths, within the node cap; the link follows exactly when the source is in the index. |
| ContributionPath.TraversalState.Walk | crates/solver-worker/src/contribution_path.rs:457-574 | Keeps soundness; on success some branch begins with the path and the new branches do so once each; unless a branch ends at the node cap, which takes a full cap, all nodes, branches and links below the path are found and the nodes cut off there counted; it succeeds when the nodes within the depth limit are in the index. |
| ContributionPath.TraversalState.VisitKept | crates/solver-worker/src/contribution_path.rs:506-567 | The loop deals with every kept provider and none beyond the top-k limit: nothing is left to find below it and the nodes cut off below are counted, unless a branch ends at a full node cap; each new branch is recorded once. |
| ContributionPath.TraverseUpstream | crates/solver-worker/src/contribution_path.rs:400-441 | In every run the recorded paths follow kept providers and repeat a node only at a cycle cut, each end has its stated reason, and the expanded nodes fit the cap. If the nodes within the depth limit fit the cap, it succeeds exactly when all of them are in the index, and finds exactly those nodes with their distances, exactly the possible branches and links, and counts exactly the paths at which a node is cut off; if they do not fit, success fills the cap. A branch ends at the cap exactly when they do not fit. No branch is recorded twice, every expanded node is indexed and on a branch, and normalized options never end a branch for the top-k limit. |
| ContributionAlgebra.SystemIsIdentityMinus | crates/solver-core/src/data_builder.rs:97-113 | The triplets handed to factorization mean I - A, repeated coordinates included. |
| ContributionAlgebra.FactorsByFlow | crates/solver-worker/src/contribution_path.rs:227-234 | The factor map sums repeated factors and holds nothing else. |
| ContributionAlgebra.DirectIntensities | crates/solver-worker/src/contribution_path.rs:236-253 | The filled array is the per-process intensity of the impact. |
| ContributionAlgebra.ContributionsSumToScore | crates/solver-worker/src/contribution_path.rs:236-259 | Exchanging the sums over flows and processes: activities against intensities give row k of C(Bx), for every triplet list. |
| ContributionAlgebra.DirectContributions | crates/solver-worker/src/contribution_path.rs:227-259 | On in-range data the direct contributions exist, are activity times intensity, and sum to h[k] as `crates/solver-core/src/service.rs:354-371` computes it. |
| ImportClosure.LevelIsShortest | crates/solver-worker/src/package_import_v2.rs:726-758 | No path is shorter than the level at which its end was discovered. |
| ImportClosure.TreePath | crates/solver-worker/src/package_import_v2.rs:726-758 | Each discovered document has a path as long as its level. |
| ImportClosure.Search | crates/solver-worker/src/package_import_v2.rs:726-742 | The queue loop discovers exactly the reachable documents, level by level, follows every edge, and remembers a blocked document of least level. |
| ImportClosure.BlockingPath | crates/solver-worker/src/package_import_v2.rs:743-757 | Walking the parents back gives a path whose earlier documents are unblocked. |
| ImportClosure.Closure | crates/solver-worker/src/package_import_v2.rs:726-758 | Members are exactly the reachable documents, ascending; blocked exactly when one of them is; the blocking path is a shortest path to a blocked document, unblocked before its end. |
| ImportPlan.RecordIssues | crates/solver-worker/src/package_import_v2.rs:560-592 | A document becomes blocked exactly by an unignored error on it, flags never fall, references stay; an error on no document is fatal. |
| ImportPlan.ValidateOne | crates/solver-worker/src/package_import_v2.rs:838-860 | One closure pass asks the validator about exactly the members of the root's closure, and records its answer as the next pass. |
| ImportPlan.MembersStayFixed | crates/solver-worker/src/package_import_v2.rs:829-874 | Rising flags leave the members of every closure as they were, and no other list is the closure. |
| ImportPlan.ValidateClosures | crates/solver-worker/src/package_import_v2.rs:833-867 | Each pass went over the closure of its root and holds the validator's answer for those members; afterwards every root reaches a blocked document or had its closure validated, and the blocked documents are exactly the given ones and those with an unignored error; it succeeds whenever the validator answers and the visit limit suffices. |
| ImportPlan.PlanRoots | crates/solver-worker/src/package_import_v2.rs:872-879 | The plan holds the closure of each root, in order, over the final flags. |
| ImportPlan.UnblockedIsCleared | crates/solver-worker/src/package_import_v2.rs:829-874 | A root left unblocked had its very closure validated, and no pass at all put an unignored error on a member. |
| ImportPlan.Prepare | crates/solver-worker/src/package_import_v2.rs:797-896 | In root-group mode every root left unblocked in the final plan had its closure put to the validator, and no pass, package-wide or per closure, put an unignored error on a member; the passes hold the validator's answers; documents end blocked exactly by indexing, the graph or an unignored error; whole-package mode is chosen exactly when nothing is blocked after the package pass; it succeeds whenever validation answers within the limits and the plan file can be written within its own. |
| PackageStaging.GreedyStaysAhead | crates/solver-worker/src/package_import_v2.rs:1025-1068 | The k-th greedy cut is at or beyond the k-th cut of any legal in-order split. |
| PackageStaging.GreedyIsFewest | crates/solver-worker/src/package_import_v2.rs:1025-1068 | No legal in-order split has fewer chunks. |
| PackageStaging.StageWholePackage | crates/solver-worker/src/package_import_v2.rs:1025-1068 | Succeeds exactly when every document fits a chunk; then the non-empty chunks obey both limits, join to the package in order at contiguous offsets, and are as few as possible. |
| Elimination.SwapKeepsKernel | scripts/check_study_p0_benchmarks.py:59-59 | Swapping rows keeps the kernel. |
| Elimination.ReduceKeepsKernel | scripts/check_study_p0_benchmarks.py:60-62 | Subtracting a multiple of another row keeps the kernel. |
| Elimination.FindPivot | scripts/check_study_p0_benchmarks.py:57-58 | Finds the first usable pivot row, or shows that there is none. |
| Elimination.ClearBelow | scripts/check_study_p0_benchmarks.py:60-62 | Clears the column under the pivot and keeps the kernel. |
| Elimination.PivotsForceZero | scripts/check_study_p0_benchmarks.py:53-62 | With a full set of pivots only the zero vector is annihilated. |
| Elimination.FreeColumnVector | scripts/check_study_p0_benchmarks.py:53-62 | A column without pivot yields a kernel vector that is one in that column. |
| Elimination.RequireUniqueSolution | scripts/check_study_p0_benchmarks.py:53-62 | Accepts a square matrix exactly when its kernel is trivial; a rejection comes with a nonzero kernel vector. |
| Elimination.UniqueIffTrivialKernel | scripts/check_study_p0_benchmarks.py:53-62 | The kernel is trivial exactly when a solvable right-hand side has no second solution. |
| Elimination.OnlySolution | scripts/check_study_p0_benchmarks.py:65-83 | Trivial kernel and Mx = y together mean exactly that x is the only solution. |
| Elimination.BalancesMeans | scripts/check_study_p0_benchmarks.py:77-79 | (I-A)z = y row by row: what an activity makes less what is used of it is its demand. |
| Elimination.CheckSystem | scripts/check_study_p0_benchmarks.py:65-83 | A case is accepted exactly when its instances are distinct, its versions and derivation not empty, its dimensions right and its axes not empty, x is the only vector that balances the demand and is nowhere negative, each entry of g is that row of B times x, and each entry of h that row of C times g. |
| RetentionSql.InColumn | crates/solver-worker/src/package_retention.rs:63-65 | Membership in a filtered column is true exactly when a row passes the filter with an equal non-null value. |
| RetentionSql.DeMorgan | crates/solver-worker/src/package_retention.rs:63-65 | Three-valued negation exchanges conjunction and disjunction. |
| RetentionSql.ActiveAgrees | crates/solver-worker/src/package_retention.rs:67-231 | Uncorrelated membership among active jobs is true exactly when the correlated EXISTS is. |
| RetentionSql.LiveArtifactAgrees | crates/solver-worker/src/package_retention.rs:510-559 | The same for live artifacts of an export item. |
| RetentionSql.CacheAgrees | crates/solver-worker/src/package_retention.rs:510-559 | The same for recent request-cache rows of an export item. |
| RetentionReasons.ActiveJobMeans | crates/solver-worker/src/package_retention.rs:86-94 | Both forms of the condition are true exactly when a queued, running or waiting job is the row's worker job or carries its job id. |
| RetentionReasons.OwnReasons | crates/solver-worker/src/package_retention.rs:80-85 | Each reason an artifact's own columns give, exactly, in the order of precedence: pinned, deleted, not ready, without expiry, expiring later. |
| RetentionReasons.ArtifactReasons | crates/solver-worker/src/package_retention.rs:80-114 | Of the expired unpinned artifacts: protected by an active job, else by a request-cache row in use that refers to it, else eligible, each exactly then. |
| RetentionReasons.CacheReasons | crates/solver-worker/src/package_retention.rs:129-156 | Each reason of a request-cache row, exactly: in progress, used since the cutoff, active job, live artifact, eligible. |
| RetentionReasons.RecencyMeans | crates/solver-worker/src/package_retention.rs:196-201 | The recency value is the first date set among finish, update and creation of the item's job and the item's own creation. |
| RetentionReasons.ItemReasons | crates/solver-worker/src/package_retention.rs:172-204 | Each reason of an export item, exactly: active job, live artifact beside it, request-cache row in use beside it, recent, eligible. |
| RetentionReasons.SelectedMeans | crates/solver-worker/src/package_retention.rs:270-297 | What each of the three deleting queries selects, on the columns of the row and the other tables. |
| RetentionSql.ArtifactReportIsExact | crates/solver-worker/src/package_retention.rs:270-297 | An artifact is selected exactly when it is reported eligible and its status and pin columns are not null. |
| RetentionSql.CacheReportIsExact | crates/solver-worker/src/package_retention.rs:457-482 | A request-cache row is selected exactly when it is reported eligible and its status and last access are not null. |
| RetentionSql.ItemReportIsExact | crates/solver-worker/src/package_retention.rs:510-559 | An export item is selected exactly when it is reported eligible and has a recency value. |
| RetentionSql.ReportIsExact | crates/solver-worker/src/package_retention.rs:67-231 | With the columns declared NOT NULL not null, the report marks eligible exactly the rows the deleting queries select, in all three tables. |
| RetentionSql.UndatedItemIsReportedOnly | crates/solver-worker/src/package_retention.rs:510-559 | An export item with no job and a null creation time, alone in the database, is reported eligible at every time and never selected. |
| RetentionSql.NullAccessIsReportedOnly | crates/solver-worker/src/package_retention.rs:457-482 | A request-cache row whose last access is null, and an old one whose status is null, alone in the database, are reported eligible and never selected. |
| RetentionSql.NullPinIsReportedOnly | crates/solver-worker/src/package_retention.rs:270-297 | An expired artifact whose status is null, and one whose pin is null, alone in the database, are reported eligible and never selected. |
| RetentionSql.ReportConserves | crates/solver-worker/src/package_retention.rs:67-231 | Every row falls in exactly one group: the groups' row counts, bytes and hits add up to the rows of the three tables and the sums of their columns; which group is stated by `RetentionReasons`. |
| RetentionReasons.ReportGroups | crates/solver-worker/src/package_retention.rs:205-231 | Each group counts exactly the rows of its table with its reason and adds up their bytes or hits. |
| CsvRows.WriteCsvRow | crates/solver-worker/src/calculation_bundle.rs:1842-1868 | The loop with its first flag appends exactly the printed row. |
| CsvRows.QuotesAsNeeded | crates/solver-worker/src/calculation_bundle.rs:1842-1868 | A field is enclosed in quotes exactly when it holds a comma, a quote, a line feed or a carriage return; any other is printed as it is. |
| CsvRows.RowRoundTrip | crates/solver-worker/src/calculation_bundle.rs:1842-1868 | Reading a printed row by the quoting rules of section 2 of RFC 4180, with LF as record end, gives it back and stops right after it. |
| CsvRows.RowsRoundTrip | crates/solver-worker/src/calculation_bundle.rs:1842-1868 | The same for any sequence of rows that have a field. |
| CsvRows.ReadsBackIffFields | crates/solver-worker/src/calculation_bundle.rs:1842-1868 | Printed rows read back exactly when every row has a field. |
| CsvRows.PrintIsInjective | crates/solver-worker/src/calculation_bundle.rs:1842-1868 | Different tables never print alike. |
| BundleChunks.EveryRunIsRecorded | crates/solver-worker/src/calculation_bundle.rs:726-758 | After any sequence of writes, successful or failed, chunk starts are distinct grid points and chunks stay within the axis and a chunk's width. |
| BundleChunks.RunLeaves | crates/solver-worker/src/calculation_bundle.rs:726-785 | After any sequence of writes a start is recorded exactly when a write of at most 256 processes on the grid and within the axis used it, and a chunk exists exactly when the first such write had complete items. |
| BundleChunks.BundleWriter.WriteResultChunk | crates/solver-worker/src/calculation_bundle.rs:726-758 | Records the start of every well-shaped write, even a failed one, and a chunk exactly when it succeeds: well-shaped, with a new start and complete items. |
| BundleChunks.BundleWriter.Finish | crates/solver-worker/src/calculation_bundle.rs:858-867 | Accepts exactly the complete sets of starts. |
| BundleChunks.CoveredFits | crates/solver-worker/src/artifacts.rs:138-179 | Chunks on the grid cover no more than up to the end of the last. |
| BundleChunks.TightMeansPartition | crates/solver-worker/src/artifacts.rs:138-179 | Covering everything leaves no gap and no short chunk before the last. |
| BundleChunks.PartitionIsTight | crates/solver-worker/src/artifacts.rs:138-179 | A partition passes the coverage sum. |
| BundleChunks.PartitionIffHeld | crates/solver-worker/src/artifacts.rs:138-179 | Sorted chunks partition the axis exactly when they hold every process. |
| BundleChunks.RunPartitions | crates/solver-worker/src/artifacts.rs:138-179 | The chunks of any run partition the axis exactly when every process was written with complete items by the first write with its start. |
| BundleChunks.EncodeQueryIndex | crates/solver-worker/src/artifacts.rs:138-179 | Whatever was written, the index is built exactly when the sorted chunks partition the process axis, that is, when every process was written with complete items; it lists the chunks in ascending order. |
| BundleChunks.FinishAcceptsShortChunks | crates/solver-worker/src/calculation_bundle.rs:858-867 | Some run passes `finish` without being a partition. |
| Families.Group | scripts/build_lcia_nonregional_defaults.py:48-57 | Grouping gives each family its entries, in order. |
| NonregionalDefaults.Build | scripts/build_lcia_nonregional_defaults.py:48-71 | Succeeds exactly when the cache holds the same numeric multiset and each family has one nonregional default; then the alternatives list exactly the families with regional entries, each with its default. |
| NonregionalDefaults.WhitespaceIsStripped | scripts/build_lcia_nonregional_defaults.py:60-60 | A location is blank exactly when it has only code points that stripping removes. |
| NonregionalDefaults.OneDefaultMeans | scripts/build_lcia_nonregional_defaults.py:59-62 | Each family has one default exactly when exactly one of its factors names no location or a blank one, and that factor is the default. |
| NonregionalDefaults.ZeroSignIsTopBit | crates/solver-worker/src/lcia_nonregional.rs:86-141 | Bit patterns of the two zeros differ in the sign bit alone. |
| NonregionalDefaults.PrepareRecords | crates/solver-worker/src/lcia_nonregional.rs:86-141 | Succeeds exactly on records the prepared method fits; then each family appears once, with its listed default or its only record. |
| NonregionalAgreement.PreparedIsAccepted | crates/solver-worker/src/lcia_nonregional.rs:86-141 | What the producer prepared is accepted, in any order of the cached records, exactly when each listed zero default has a cached number of its family that reads as the zero of the same sign. |
| NonregionalAgreement.ChosenIsDefault | crates/solver-worker/src/lcia_nonregional.rs:86-141 | Every chosen factor is the source default of its family: the same bits where the family has regional entries, else the same number with the cache's zero sign. |
| NonregionalAgreement.BuildThenPrepare | scripts/build_lcia_nonregional_defaults.py:48-71 | Producer and consumer together, for every source and every record order: success exactly when the numbers match, each family has one default and zero defaults agree in sign with the cache; then each family once, with its source default. |
| NonregionalAgreement.SignedZeroIsRefused | scripts/build_lcia_nonregional_defaults.py:48-71 | The sign condition is needed: for every flow and named region, a default of minus zero with a plain zero for the region, cached as two plain zeros, passes the producer and is refused by the consumer. |
| CanonicalJson.CanonDecidesSame | crates/solver-worker/src/calculation_evidence.rs:931-946 | Values without repeated keys have the same canonical form exactly when they are equal up to member order at every depth. |
| CanonicalJson.CanonIsSorted | crates/solver-worker/src/calculation_evidence.rs:931-946 | Canonical members ascend strictly. |
| CanonicalJson.LessIsLexicographic | crates/solver-worker/src/calculation_evidence.rs:931-946 | The key order is lexicographic by code point, a prefix first. |
| CanonicalJson.CanonFinds | crates/solver-worker/src/calculation_evidence.rs:931-946 | Each key keeps its value, made canonical. |
| CanonicalJson.CanonIsIdempotent | crates/solver-worker/src/calculation_evidence.rs:893-946 | Canonicalizing twice is canonicalizing once, for every value. |

## Left out

- UMFPACK factorization and sparse-matrix storage: `solve` is assumed to solve, triplet building to sum duplicates.
- Floating-point rounding and the zero-epsilon pruning of `CscMatrix`: the arithmetic kernels are over exact reals and keep every triplet; a cutoff that is not finite is an absent one.
- Error texts, timestamps for display, telemetry snapshots and log output: they carry no decisions.
- Object store, HDF5, ZIP, Parquet, gzip and SHA-256: library input and output.
- HTTP routes, command line, environment settings and connection pools: plumbing.
- ContributionPath.TraverseUpstream: when the nodes within the depth limit exceed the node cap, it states soundness and the full cap, not which nodes the visiting order leaves out, how many are truncated in all, or exactly when the index is then sufficient.
- Branch scores, ranks, labels and the sorting of recorded branches: reporting after the traversal.
- Contribution lists and summaries of `analyze_contribution_path`: filters and sorts over the proved contributions.
- The inventory aggregation loop of the bundle writer and the count checks of evidence validation: single-pass sums.
- Root accounting in `execute_plan`, `import_outcome` and receipts: they follow database answers that the model does not have.
- Sizes of the plan and evidence files of an import: whether the plan can be written within its limit is an input, and evidence that grows too large is a validation pass without an answer.
- Whether the import filter ignores a finding, and attribution of findings to documents: inputs of the import model.
- `LIMIT`, `ORDER BY` and row locks of the deleting queries, and the statements that mark and delete: the model compares conditions, and takes `worker_jobs.id` as the key of its table.
- `selected_fraction` and `check_allocation` of the study benchmarks: one-step arithmetic.
- Byte-level JSON output: the model canonicalizes values and compares keys by code point; the UTF-16 key order of section 3.2.3 of RFC 8785 differs from the order the code uses.
- Rounding of nonzero decimal factors to binary64: one arbitrary function, the same for producer and cache.
- `is_default_location` in `lcia_nonregional.rs`: it also accepts "GLO", the producer script does not; the model follows the script for what it lists as defaults.
- CacheRecency.EveryRunRefines: stops at a saturated access clock, where entries tie and the id order decides.
