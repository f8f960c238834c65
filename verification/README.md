# Continua: session comparison, run control, ingest, timeline and payload limits

Continua is a durable execution engine with an observability store. This project models the parts of
it whose correctness spans several functions or many transactions, and proves what they promise.

## What is modelled

- **Session comparison** (`SpanMatching`, `Forest`, `SpanRows`, `RowOrder`, `SessionCompare`, `SessionCoverage`,
  `SemanticPairs`). A builder pairs the spans of two traces, by id and then by rounds in which a matched
  parent unlocks its children, and walks both forests at once to emit diff rows. The matching is proved
  to be a least fixpoint, whatever order the maps are visited in; the walk is proved to show every span
  once and in tree order, with the exact condition under which candidate spans can be missed.
- **Run control** (`RunState`, `RunInvariants`, `RunLifecycle`, `RunEffects`, `EngineDb`,
  `EngineInvariant`, `EngineTheorems`, `EndedRuns`, `TerminateSubtree`, `Interference`, `DescendantLocks`, `TerminateInOrder`,
  `EngineControl`). `RunState` says what each operation does to the rows of one run; `EngineDb` makes
  them transactions over tables of runs, child relationships and instances. Theorems hold after every
  schedule of transactions. `EngineControl` is the service itself: it takes row locks one wait at a time
  while other transactions commit whatever the held locks allow, and updates the tables step by step;
  each call is proved to amount to one transaction on the state it saw.
- **Ingest** (`LockOrder`, `LockPlans`, `KeyedUpserts`, `IngestOrder`, `IngestProcessor`, `BatchOnce`,
  `BatchService`). One global lock order for batches and terminations; a write path that visits rows in
  lock order and yet writes what request order writes; batches that apply at most once across duplicate
  submissions, crashes, retries and commits whose answer is lost.
- **Starting runs** (`StartRun`, `StartService`). Idempotence per request key.
- **Timeline** (`Timeline`, `TimelinePages`). Two orders, cursors, pages, a walk over all pages, and polling.
- **OTLP ids** (`HexIds`, `IdText`). Hex text that arrives decoded as base64 (RFC 4648, sections 4 and
  8), and the pass over the document's tokens that comes first.
- **Payload limits** (`Truncation`, `ReservedId`). Size estimates against a JSON printer, and the loop
  that never loses an effect's or wait's id.

## Assumptions

- Span ids are unique within a trace, hold no `|`, and none is `__root__`: the comparison uses the first
  as a map key, the second as the separator of pair ids and the third as the key of the roots.
- Transactions are atomic, a row lock excludes other writers of the row, and a run's parent and depth
  never change (the last is proved). A step of another transaction needs the locks of the runs it writes
  and of the run whose children it adds, replaces or ends.
- Workflow replay is not modelled: an activation is any step its guards allow, so a run may complete or
  fail with tasks open. The events it writes before it parks or ends the run are steps of their own. Child
  depth and continuation depth have their default limits of 32.
- A worker of the engine does not claim a task again while it still runs it, so the attempt count it
  looked at before retrying is the task's.
- The termination writes its rows after its last lock without interference, which its locks justify.
- Rows of ingested sessions and traces are named by external id, to which the store gives one internal id.
- How JSON strings are quoted and how text is parsed are parameters. Sizes need the keys of the object in
  question, and the marker, to be free of escapes; the loop around the reserved id needs the parser to
  read the payload's own text as an object, and never to return one with a key twice.
- Times are integers.

## Where the code differs from what one would expect

Each of these properties fails for some input. The members named show one and say exactly when it holds.

- `SessionCoverage.CycleHidesMatch`, `SessionCoverage.CoveredByInput`: a rooted candidate span has no row
  when the baseline span with its id lies on or below a parent cycle.
- `EndedRuns.LateRetryReachable`, `EndedRuns.FinalIff`, `EndedRuns.TidyIffCleanEnds`: completing or failing
  a run does not cancel its open tasks, and a task's retry does not look at the run. So a late retry writes
  to an ended run's history and reopens its purged trace, even one whose journal was deleted.
- `EndedRuns.OutrunReachable`, `RunEffects.RetentionOutrunsProjector`: retention is documented to wait until
  a trace has consumed the whole journal, but a run's own cancellation does not move the column it looks at.
- `StartRun.ReusedKeyReachable`, `StartRun.OneRunIff`: retention deletes dedupe rows, and a start with such a
  key makes a second run if its instance key is new. The same request never does (`StartRun.RepeatMakesNoRun`).
- `Truncation.ArrayDropsUnmarked`, `Truncation.ArrayUnmarkedIff`: a truncated array can lose items without
  the marker; an object cannot.
- `IngestOrder.MetadataLost`, `IngestOrder.MetadataMergedIff`: a trace whose metadata was stored as SQL null
  keeps none, because concatenation with null is null.

## Model

| member | source | states |
|---|---|---|
| `SpanMatching.OrdinalInjective` | internal/store/session_compare.go:504-534 | siblings of one scope, kind and name are numbered without repeats, so a heuristic key names at most one span of a trace |
| `SpanMatching.MatchingSupported` | internal/store/session_compare.go:467-534 | every pair of the matching is an equal-id pair or allowed by the rule from pairs of the matching |
| `SpanMatching.MatchingTransposes` | internal/store/session_compare.go:467-534 | comparing the traces the other way round transposes the matching |
| `SpanMatching.PairIdInjective` | internal/store/session_compare.go:898-915 | a pair id names one pair when no span id holds the separator |
| `SpanMatching.PairIdNotRoot` | internal/store/session_compare.go:917-933 | no pair id is the root scope |
| `SessionCompare.ScopeAcross` | internal/store/session_compare.go:917-933 | spans of the two traces have the same heuristic scope exactly when both are roots or their parents are matched to each other |
| `SessionCompare.GroupHeuristicCandidates` | internal/store/session_compare.go:504-534 | groups the unmatched spans by scope, kind, name and ordinal |
| `SessionCompare.IndexById` | internal/store/session_compare.go:370-418 | indexes every span by its id |
| `SessionCompare.GroupSessionCompareChildren` | internal/store/session_compare.go:1001-1016 | lists each span under its parent, or under the root key, once and in order |
| `SessionCompare.SessionComparisonBuilder.constructor` | internal/store/session_compare.go:370-418 | starts with every span unmatched and both indexes and child lists right |
| `SessionCompare.SessionComparisonBuilder.AssignSpanPair` | internal/store/session_compare.go:898-915 | records one pair on both sides, with its pair id and source, and keeps the tables one partial bijection |
| `SessionCompare.SessionComparisonBuilder.MatchStableSpans` | internal/store/session_compare.go:467-475 | whatever the order of the map, pairs exactly the spans with equal ids |
| `SessionCompare.SessionComparisonBuilder.PairGroups` | internal/store/session_compare.go:484-495 | pairs two groups exactly when each holds one span and both are unmatched |
| `SessionCompare.SessionComparisonBuilder.HeuristicRound` | internal/store/session_compare.go:480-500 | one round adds only pairs the rule allows, and when it adds none the relation is closed under the rule |
| `SessionCompare.SessionComparisonBuilder.MatchHeuristicSpans` | internal/store/session_compare.go:477-502 | the rounds end, and leave the least relation that holds the equal-id pairs and is closed under the rule, for every order of the maps |
| `SessionCompare.SessionComparisonBuilder.AppendBaselineBranch` | internal/store/session_compare.go:536-559 | adds one row for each baseline span of a branch and for each candidate span it brings, at the right depth and in tree order: its own row, its children, and then its partner's unmatched children |
| `SessionCompare.SessionComparisonBuilder.AppendBaselineChildren` | internal/store/session_compare.go:545-558 | adds the branches of the listed baseline children |
| `SessionCompare.SessionComparisonBuilder.AppendUnmatchedChildren` | internal/store/session_compare.go:549-576 | adds the branches of the listed candidate children that are unmatched |
| `SessionCompare.SessionComparisonBuilder.AppendCandidateOnlyBranch` | internal/store/session_compare.go:561-577 | adds one row for each candidate span of a branch, cut off at matched spans, its own row first and then its children in order |
| `SessionCompare.SessionComparisonBuilder.Build` | internal/store/session_compare.go:420-443 | ends, and emits exactly one row for every rooted baseline span and every covered candidate span, matched pairs sharing theirs, in the order of their paths from the roots, with a summary that fits the tables |
| `RowOrder.ParentIsNearest` | internal/store/session_compare.go:536-577 | in rows of tree order a span's nearest earlier row that is less deep is its parent's |
| `RowOrder.SiblingsInOrder` | internal/store/session_compare.go:536-577 | in rows of tree order siblings come baseline first and then in trace order |
| `SessionCompare.SessionComparisonBuilder.BuildSummary` | internal/store/session_compare.go:445-465 | matched and unmatched spans add up to the spans of each side, and id matches and heuristic matches to the matches |
| `SessionCompare.CountMatchedCompareSpans` | internal/store/session_compare.go:1099-1107 | counts the matched spans |
| `SessionCompare.CountUnmatchedCompareSpans` | internal/store/session_compare.go:1109-1117 | matched and unmatched spans add up to all spans |
| `SessionCompare.MatchedCounts` | internal/store/session_compare.go:445-465 | both sides have as many matched spans as there are pairs |
| `SessionCompare.PairIdsDistinct` | internal/store/session_compare.go:898-915 | two pairs of the tables never share a pair id |
| `SessionCoverage.RowsTotal` | internal/store/session_compare.go:420-443 | rows are one for each baseline span shown and one for each unmatched candidate span shown |
| `SessionCoverage.CoveredIff` | internal/store/session_compare.go:420-443 | every rooted candidate span is shown if and only if each rooted candidate span that is matched has a rooted partner |
| `SessionCoverage.CoveredByInput` | internal/store/session_compare.go:420-443 | read off the two traces: every rooted candidate span is shown if and only if each rooted one with an equal-id baseline span meets a rooted one |
| `SessionCoverage.CompareSpans` | internal/store/session_compare.go:320-322 | a whole comparison: one row for each rooted baseline span, none twice, one for every rooted candidate span exactly under that condition on the input, with acyclic parents as many rows as spans less matched pairs; rows show the matching's pairs and are the walk of a tree |
| `SessionCoverage.RowsAreTree` | internal/store/session_compare.go:420-443 | every row is a root at depth 0 or follows its parent's row, one deeper, with only deeper rows between; siblings stand baseline first and in trace order, and all baseline trees before candidate-only roots |
| `SessionCoverage.CompareCycle` | internal/store/session_compare.go:536-577 | comparing a candidate root with the equal-id span of a baseline parent cycle leaves the root out |
| `SessionCoverage.AcyclicComplete` | internal/store/session_compare.go:420-443 | with acyclic parents every span of both traces has exactly one row, and rows are baseline plus candidate less matched |
| `SessionCoverage.CycleHidesMatch` | internal/store/session_compare.go:536-577 | a concrete pair of traces, with the tables of their matching, in which a rooted candidate span has no row |
| `SemanticPairs.PairSemanticEvents` | internal/store/session_compare.go:715-763 | one pass pairs exactly the events of a type whose key is unique on both sides |
| `SemanticPairs.GroupByKey` | internal/store/session_compare.go:723-745 | groups the unpaired events of a type by key |
| `SemanticPairs.PairAllTypes` | internal/store/session_compare.go:626-640 | the three passes together record exactly the partners of all events |
| `SemanticPairs.PartnerIff` | internal/store/session_compare.go:715-763 | two events are partners exactly when they have one type and key that no other event of either side has |
| `SemanticPairs.PartnersBijective` | internal/store/session_compare.go:715-763 | pairing is a partial bijection |
| `SemanticPairs.BuildMatchedSemanticGroups` | internal/store/session_compare.go:626-688 | emits the groups of the baseline events and then of the unpaired candidate events |
| `SemanticPairs.EmitBaselineEvents` | internal/store/session_compare.go:643-672 | one group for each baseline event, with its partner if it has one |
| `SemanticPairs.EmitCandidateEvents` | internal/store/session_compare.go:674-685 | one group for each candidate event not yet shown |
| `SemanticPairs.BaselineEventsOnce` | internal/store/session_compare.go:626-688 | every baseline event lands in exactly one group, whatever the candidate has |
| `SemanticPairs.CandidateEventsOnce` | internal/store/session_compare.go:626-688 | every candidate event lands in exactly one group, whatever the baseline has |
| `SemanticPairs.GroupsInOrder` | internal/store/session_compare.go:640-688 | the groups stand in the baseline's order with their partners, and then the unpaired candidate events in theirs |
| `RunInvariants.ApplyKeeps` | internal/api/engine_control.go:735-1346 | every step of a run keeps its rows in order: numbering, task leases, projection state and summary coherence |
| `RunInvariants.TerminateKeeps` | internal/api/engine_control.go:1071-1107 | terminating a live run leaves its rows in order, with no open task or inbox item |
| `RunInvariants.EndKeeps` | engine/internal/workflow/activation.go:335-409 | an activation that ends a run leaves its rows in order; a cancelled or continued run has no open task, a completed or failed one keeps those it has |
| `RunInvariants.SettleKeeps` | engine/internal/activity/worker.go:199-373 | the engine's own worker ending, retrying or giving back a task leaves the rows in order |
| `RunInvariants.ProjectKeeps` | engine/internal/projector/projector.go:609-680 | following one event keeps the rows in order and refreshes the summary when the checkpoint catches up |
| `RunInvariants.AppendedHistory` | internal/api/engine_control_helpers.go:222-282 | an appended event is numbered next, is the latest, and leaves the trace catching up |
| `RunLifecycle.ApplyAdvances` | internal/api/engine_control.go:735-1346 | no step rewrites a terminal row, shortens a history it does not delete, adds anything to an ended run but retries of tasks it left open, or changes a finished task |
| `RunLifecycle.AdvancesTransitive` | internal/api/engine_control.go:735-1346 | what one step keeps, any number of steps keeps |
| `RunLifecycle.SuspendedLeavesByResume` | internal/api/engine_control.go:1159-1242 | of a run's own steps exactly a resume takes it out of suspension |
| `RunLifecycle.SummaryOnlyLeaves` | internal/enginecontrol/service.go:110-267 | a summary-only trace is reopened exactly by a repair with unprojected history or the late retry of a task, and expires exactly by a full purge or retention |
| `RunLifecycle.JournalExpiredStays` | internal/api/engine_control_helpers.go:253-282 | a step of a run leaves its expired journal expired and empty, or is the late retry of a task, which starts a new history |
| `RunLifecycle.EndKeepsTidy` | engine/internal/workflow/activation.go:335-409 | an end leaves no open task behind exactly when it cancels them or there are none |
| `RunLifecycle.RetryReopens` | internal/api/engine_activities.go:289-316 | a task that may be retried can be, whatever became of its run: the claimant's calls append the event and set the trace to catch up |
| `RunLifecycle.OnlyClaimantChanges` | internal/api/engine_activities.go:513-529 | a claimed task changes only by its claimant while its lease and grace run, by a claim after the lease, or when retention deletes its ended run's rows |
| `RunLifecycle.OneRetryEventEach` | internal/api/engine_activities.go:289-316 | each reschedule of a task writes one retry event for it, and nothing else does |
| `RunLifecycle.RetriesBounded` | internal/api/engine_activities.go:289-316 | a task has fewer retry events than attempts allowed |
| `RunEffects.SignalEffect` | internal/api/engine_control.go:735-829 | a signal is one more pending inbox item, wakes a waiting run, and leaves the live summary on the trace |
| `RunEffects.CancelEffect` | internal/api/engine_control.go:1247-1346 | a cancel request leaves the pending counts alone, and a second one adds nothing |
| `RunEffects.SuspendEffect` | internal/api/engine_control.go:982-1069 | a queued or waiting run loses its claim, gets the event and shows as suspended with its pending counts; suspending again changes nothing and any other run is refused |
| `RunEffects.ResumeEffect` | internal/api/engine_control.go:1159-1242 | a suspended or quarantined run is queued without a wait, with the event and the live summary; any other live run stays as it is |
| `RunEffects.PurgeEffect` | internal/enginecontrol/service.go:110-190 | a purge leaves the terminal status with zero pending counts; the journal goes with a full one only, and nothing else changes |
| `RunEffects.ClaimEffect` | engine/db/queries/activity_tasks.sql:57-134 | a task is claimed exactly when it is due or its lease ran out, as one more attempt |
| `RunEffects.HeartbeatEffect` | engine/db/queries/activity_tasks.sql:149-176 | a heartbeat stretches its holder's running lease and nothing else |
| `RunEffects.EndEffect` | engine/internal/workflow/activation.go:335-409 | an activation's end: status, event, tasks and inbox kept or closed, and the trace marked unless cancelled |
| `RunEffects.ProjectFollows` | engine/internal/projector/projector.go:609-680 | a projection follows the first event above the checkpoint and no further |
| `RunEffects.ReapEffect` | engine/internal/store/retention.go:56-95 | retention empties an ended run's history, tasks and inbox and marks its trace expired exactly when its column is caught up, and leaves any other alone |
| `RunEffects.ParkEffect` | engine/internal/workflow/activation.go:321-334 | a waiting activation consumes its items, adds its task and timer, gives up its claim and shows its wait with the pending counts |
| `RunEffects.QuarantineEffect` | engine/internal/workflow/activation.go:363-376 | a quarantining activation likewise, without new work |
| `RunEffects.ClaimRunEffect` | engine/db/queries/runs.sql:297-367 | a claim and a release move status, claimant and the trace's status and nothing else |
| `RunEffects.TimerEffect` | engine/internal/worker/maintenance.go:21-48 | a due timer queues a waiting run and the trace shows the run as it is |
| `RunEffects.SettleEffect` | engine/internal/activity/worker.go:85-127 | the engine's own worker ends, retries or gives back its own task, and no other |
| `RunEffects.ReportTaken` | engine/db/queries/activity_tasks.sql:178-235 | a report on a task is taken from its remote claimant until its lease and the grace are over, and refused otherwise |
| `RunEffects.RetentionOutrunsProjector` | engine/internal/workflow/activation.go:264-277 | as a run ends, retention may delete its journal before the end is projected exactly when it ends as cancelled and its trace had caught up |
| `RunEffects.ProjectProgress` | engine/internal/projector/projector.go:609-680 | each projection takes a trace that is behind nearer to its journal's end |
| `RunEffects.ProjectorCatchesUp` | engine/internal/projector/projector.go:609-680 | a projector left to itself ends with the trace up to date and caching the live run |
| `EngineInvariant.StepKeepsInv` | internal/api/engine_control.go:735-1346 | every transaction keeps the tables in order: each run's rows, depths, and active relationships with live current runs |
| `EngineInvariant.InvAlways` | internal/api/engine_control.go:735-1346 | so does every schedule of transactions |
| `EngineInvariant.TerminateKeepsInv` | internal/api/engine_control.go:831-931 | terminating a subtree keeps the tables in order |
| `EngineInvariant.ContinueKeepsInv` | engine/internal/workflow/activation.go:411-515 | continuing a run as new keeps the tables in order |
| `EngineTheorems.ReadersSeeLiveRun` | internal/api/engine_control.go:1431-1485 | in every state, for a run whose journal has not expired, the projected status and pending counts equal the live run or the reader is sent to it |
| `EngineTheorems.ReadsLiveWhen` | internal/api/engine_control.go:1431-1485 | a reader is sent to the live run of a trace that catches up, was purged, continued, or lacks an event of the journal; the last is reported as catching up |
| `EngineTheorems.ReportedUpToDate` | internal/api/engine_control.go:1459-1473 | a trace reported as up to date caches the live run and has nothing left to project |
| `EngineTheorems.LifecycleAlways` | internal/api/engine_control.go:735-1346 | in every state histories are numbered from 1, nothing follows a termination, cancelled, terminated and continued runs have no open task, purged traces belong to ended runs, and an expired journal is empty |
| `EngineTheorems.RunsAdvance` | internal/api/engine_control.go:735-1346 | over every schedule terminal rows are absorbing, histories only grow until deleted, an ended run's by late retries alone, and task outcomes are final |
| `EngineTheorems.SuspendedUntil` | internal/api/engine_control.go:982-1069 | a suspended run leaves that status only when it is resumed or terminated with a subtree it is in |
| `EngineTheorems.PurgedTraceSteps` | internal/enginecontrol/service.go:110-267 | over all transactions: a purged trace is reopened by the late retry of a task; otherwise an expired journal stays expired, and a summary-only trace changes only by its own repair, purge or retention |
| `EngineTheorems.EndedLeftAlone` | internal/api/engine_control.go:831-931 | no transaction on another run touches an ended run |
| `EndedRuns.TidyIffCleanEnds` | engine/internal/workflow/activation.go:335-409 | in all states of a schedule no ended run has an open task and deleted journals stay deleted, exactly when each run that completes or fails has no open task then |
| `EndedRuns.FinalIff` | internal/api/engine_activities.go:289-316 | an ended run's history, expiry and fully projected purge are final in every continuation exactly when no task it left open may be retried |
| `EndedRuns.CleanEndsFinal` | engine/internal/workflow/activation.go:335-409 | after clean ends they are always final |
| `EndedRuns.LateRetryReachable` | internal/api/engine_activities.go:289-316 | a schedule in which a failed run's worker reports late: the retry follows the end, and brings a deleted journal and its trace back |
| `EndedRuns.RetentionWaits` | engine/db/queries/runs.sql:80-92 | in every state, only a cancelled run's journal can be deleted before it is projected |
| `EndedRuns.OutrunReachable` | engine/internal/store/retention.go:35-48 | a schedule in which that happens: the end is gone and readers are told that the run still runs |
| `EngineTheorems.ClaimedTaskSteps` | internal/api/engine_activities.go:240-340 | over all transactions: a claimed task changes only by its claimant, by a later claim, with an end of its run that cancels it, or when retention deletes its ended run's rows |
| `EngineTheorems.RetriesAlwaysBounded` | internal/api/engine_activities.go:289-316 | in every state a task has fewer retry events than attempts allowed |
| `TerminateSubtree.ClosureClosed` | internal/api/engine_control.go:933-980 | the active closure holds the target and is closed under active children |
| `TerminateSubtree.ClosureLeast` | internal/api/engine_control.go:933-980 | and is the least such set |
| `TerminateSubtree.TerminateExact` | internal/api/engine_control.go:831-931 | ends exactly the active closure, each run with its event, open tasks cancelled, open items discarded, relationship and instance closed; queues the parent if it waits on the target, with its pending counts on its trace, and changes no other run |
| `TerminateSubtree.EndLeavesAlone` | engine/internal/workflow/activation.go:875-911 | a run's own end queues its parent exactly if it waits on the run and has not given the wait up, and changes no other run |
| `TerminateSubtree.EndClosesOwn` | engine/internal/workflow/activation.go:875-924 | a run's own end closes its own relationship and instance and no other |
| `TerminateSubtree.ContinueLeavesAlone` | engine/internal/workflow/activation.go:411-515 | a continuation queues the waiting parent only when it has been followed too far |
| `TerminateSubtree.ContinueReplacesRun` | engine/internal/workflow/activation.go:411-515 | a continuation ends the run and starts one in its place, queued, with its parent, depth, key and instance |
| `TerminateSubtree.ContinueMovesLinks` | engine/internal/workflow/activation.go:411-515 | the relationships to a continued run follow it |
| `TerminateSubtree.ChildStarts` | engine/internal/workflow/activation.go:597-689 | a started child is queued, one level deeper, with its first event, its active relationship and its instance |
| `TerminateSubtree.WaitGivenUp` | engine/internal/workflow/activation.go:517-541 | a parent that has given up its wait is not woken by that child any more |
| `TerminateSubtree.TerminatedIdsDiffer` | internal/api/engine_control.go:898-911 | no two terminated events share a history id |
| `Interference.StepRespects` | internal/api/engine_control.go:845-869 | a transaction that needs none of the held run locks leaves the held rows, and the relationships under them, as they are |
| `DescendantLocks.FrontierDone` | internal/api/engine_control.go:933-980 | locking level by level with nothing left open has locked exactly the active closure |
| `DescendantLocks.FrontierStable` | internal/api/engine_control.go:933-940 | what is locked stays complete while other transactions go on |
| `DescendantLocks.ListedChild` | internal/api/engine_control.go:964-971 | a child listed under a held parent has not ended when its own lock comes |
| `DescendantLocks.ClosureStable` | internal/api/engine_control.go:880-893 | holding the closure keeps it the closure |
| `DescendantLocks.TracesOfSubtree` | internal/api/engine_control.go:895-911 | the traces to lock are those of the active subtree and of the parent and no others, each once and in byte order |
| `TerminateInOrder.PartialStep` | internal/api/engine_control.go:895-906 | terminating the next run in order is the next part of the whole termination |
| `TerminateInOrder.PartialEnd` | internal/api/engine_control.go:905-911 | and the target comes last, waking its parent |
| `EngineControl.ControlService.Wait` | internal/api/engine_control.go:933-940 | at each wait other transactions commit what the held locks allow, and what is held is respected |
| `EngineControl.ControlService.LockActiveDescendantRuns` | internal/api/engine_control.go:941-980 | ends, and whatever others commit during the waits the locked levels are the active closure in the state at return, locked in order of depth and run id |
| `EngineControl.ControlService.LockLevel` | internal/api/engine_control.go:957-975 | locks the listed children in turn, none of which has ended |
| `EngineControl.ControlService.LockSubtree` | internal/api/engine_control.go:862-893 | locks parent, target and subtree in lock order |
| `EngineControl.ControlService.TerminateLockedRun` | internal/api/engine_control.go:1071-1157 | ends one locked run with its tasks, inbox, instance and relationship, and wakes the parent if asked |
| `EngineControl.ControlService.LockTraces` | engine/pkg/projection/writer.go:255-269 | takes the listed trace locks in turn while others commit what the held run locks allow |
| `EngineControl.ControlService.TerminateRun` | internal/api/engine_control.go:831-931 | amounts to one termination step on the state at its commit, so to what `TerminateSubtree.TerminateExact` says; its locks are exactly those of parent, target and, if the target is live, active subtree, by depth and id, and then those of exactly these runs' traces in byte order |
| `EngineControl.ControlService.SignalRun` | internal/api/engine_control.go:735-829 | amounts to one signal step on what it saw, and answers by the run's status |
| `EngineControl.ControlService.CancelRun` | internal/api/engine_control.go:1247-1346 | amounts to one cancel step, with at most one cancel item |
| `EngineControl.ControlService.SuspendRun` | internal/api/engine_control.go:982-1069 | amounts to one suspend step, refused for running, quarantined and terminal runs |
| `EngineControl.ControlService.ResumeRun` | internal/api/engine_control.go:1159-1242 | amounts to one resume step |
| `EngineControl.ControlService.AppendEventOf` | internal/api/engine_control_helpers.go:222-282 | appends the next numbered event and moves the trace's freshness columns |
| `EngineControl.ControlService.AppendLockedRunHistoryEvent` | internal/api/engine_control_helpers.go:222-251 | numbers a new event after the run's last one |
| `EngineControl.ControlService.UpdateProjectedTraceLatestHistory` | internal/api/engine_control_helpers.go:253-282 | moves the freshness columns up to the event, and the state with them |
| `EngineControl.ControlService.WakeRunIfWaiting` | internal/api/engine_control.go:1592-1608 | queues the run exactly if it waits, and says so |
| `EngineControl.ControlService.SyncProjectedTraceSummary` | internal/api/engine_control.go:1610-1640 | caches the live status and pending counts |
| `EngineControl.ControlService.CompleteRemoteActivityTask` | internal/api/engine_activities.go:240-269 | amounts to one completion step, refused unless the worker owns the task; it leaves exactly one open task less, the history as it was and the live summary on the trace, and a second completion is refused |
| `EngineControl.ControlService.FailRemoteActivityTask` | internal/api/engine_activities.go:271-340 | amounts to one failure step: while attempts are left the task stays open with one retry event and the run as it was, and otherwise exactly this task is closed and no event written |
| `EngineControl.ControlService.EndTask` | internal/api/engine_activities.go:567-587 | ends a task, wakes its run if it waits, and projects it |
| `EngineControl.ControlService.PurgeRun` | internal/enginecontrol/service.go:110-202 | amounts to one purge step, refused for runs that have not ended |
| `EngineControl.ControlService.RepairRun` | internal/enginecontrol/service.go:204-267 | amounts to one repair step, requested exactly for a summary-only run with unprojected history |
| `EngineControl.ControlService.BackfillProjections` | internal/enginecontrol/service.go:269-338 | repairs the listed runs one by one: one result each, in order, counts that add up, and no change on a dry run |
| `LockOrder.StepKeepsInv` | internal/ingest/processor.go:80-93 | every transaction holds only locks below those it still needs, and no lock is held twice |
| `LockOrder.NeverDeadlocked` | internal/api/engine_control.go:845-893 | whatever mix of batches and terminations has run, some unfinished transaction is not blocked |
| `LockOrder.AllCanFinish` | internal/api/engine_control.go:845-893 | from every reachable state all transactions in progress can be run to their end |
| `LockOrder.LeqTotalOrder` | internal/ingest/processor.go:80-93 | batch keys, sessions, runs by depth and id, and traces are totally ordered |
| `Basics.StrLessAtDifference` | engine/pkg/projection/writer.go:254-268 | names are ordered at their first difference, the shorter first if there is none |
| `LockPlans.BatchPlanned` | internal/ingest/processor.go:134-219 | the locks a processed batch has taken are those of an ingest transaction of the lock order |
| `LockPlans.TerminationPlanned` | internal/api/engine_control.go:941-980 | the levels a termination locks are those of a termination of the lock order |
| `LockPlans.TracesPlanned` | internal/api/engine_control.go:895-911 | after its levels it takes the traces of its runs and of the waiting parent as the lock order asks |
| `KeyedUpserts.ReorderingKeepsTable` | internal/ingest/processor.go:134-219 | any reordering that keeps each key's items in order writes the same table |
| `KeyedUpserts.StableSortForKey` | internal/ingest/processor.go:151-153 | a stable sort keeps each key's items in order |
| `KeyedUpserts.StableSortSorts` | internal/ingest/processor.go:151-153 | and sorts by key |
| `KeyedUpserts.SortedNamesSpec` | internal/ingest/processor.go:193-194 | sorting and compacting lists every name once, in order |
| `KeyedUpserts.GroupedForKey` | internal/ingest/processor.go:196-206 | grouping by name keeps each name's items in order |
| `IngestOrder.SessionsInLockOrder` | internal/ingest/processor.go:134-168 | visiting the sessions in lock order writes what request order writes |
| `IngestOrder.TracesInLockOrder` | internal/ingest/processor.go:170-219 | visiting the traces grouped in lock order writes what request order writes |
| `IngestOrder.FirstNameWins` | db/platform/queries/sessions.sql:40-64 | however many traces name a session, it keeps the first non-empty name and user name |
| `IngestOrder.FirstUserIdWins` | db/platform/queries/sessions.sql:54-65 | it keeps the first non-empty user id too, and all metadata but the user name |
| `IngestOrder.StatusMerged` | db/platform/queries/traces.sql:189-193 | a trace's status is the first failure given to it, else the last status given, else running |
| `IngestOrder.LastValuesMerged` | db/platform/queries/traces.sql:167-178 | session, name, user, environment, release, input and output are the last ones given, and the tags the last non-empty ones |
| `IngestOrder.TimesMerged` | db/platform/queries/traces.sql:194-203 | a trace starts at the least and ends at the greatest time given |
| `IngestOrder.BatchMerges` | internal/ingest/processor.go:134-219 | a batch leaves each trace and session as its stored row with the batch's own merged in, in request order |
| `IngestOrder.StatusProtected` | db/platform/queries/traces.sql:157-204 | a failed trace stays failed, and patches without a status leave it alone |
| `IngestOrder.MetadataMergedIff` | db/platform/queries/traces.sql:173-176 | a trace ends with its stored metadata and all later metadata merged, exactly when its row starts with metadata or none is brought |
| `IngestOrder.MetadataLost` | db/platform/queries/traces.sql:173-176 | a trace reported first without metadata and then with some keeps none |
| `IngestProcessor.Processor.UpsertSessions` | internal/ingest/processor.go:138-168 | leaves the sessions that request order leaves, gives each trace its own session's id, and locks in order |
| `IngestProcessor.Processor.CollectInputs` | internal/ingest/processor.go:180-186 | lists the traces of each name in request order |
| `IngestProcessor.Processor.UpsertTraces` | internal/ingest/processor.go:198-206 | writes every trace of one name in request order |
| `IngestProcessor.Processor.LockTraces` | internal/ingest/processor.go:173-219 | leaves the traces that request order leaves and maps every reference, or reports the least missing one |
| `IngestProcessor.Processor.ProcessBatch` | internal/ingest/processor.go:74-132 | has the outcome of handling the traces in request order: the same sessions, traces and trace map, or not ready; what handling comes to, `IngestOrder.BatchMerges` and the laws of its fields say |
| `BatchOnce.StepKeepsInv` | internal/jobs/ingest_batch.go:38-96 | every batch transaction keeps: applied once exactly when completed, and the payload kept exactly while it may be needed |
| `BatchOnce.ExactlyOnce` | internal/jobs/ingest_batch.go:38-174 | over any schedule a key's writes apply at most once; an accepted batch is completed exactly when they are applied and the payload is gone; a failed one is not applied; and the tables hold exactly the applied writes |
| `BatchOnce.SettledStays` | internal/jobs/ingest_batch.go:137-175 | a completed or failed batch stays as it is |
| `BatchOnce.StepMoves` | internal/jobs/ingest_batch.go:38-175 | each transaction moves its own batch from one status to the next, counts claims, and touches no other; only an inline batch and an application write, and what request order writes |
| `BatchService.Service.ClaimBatch` | internal/jobs/ingest_batch.go:137-175 | claims a queued batch, resumes one in progress, skips a settled one |
| `BatchService.Service.Work` | internal/jobs/ingest_batch.go:38-96 | an attempt that ends without an error leaves the batch settled, whatever calls broke, commits were lost or others did; an undisturbed one completes a ready batch, fails one that is late or unreadable, and puts any other back |
| `BatchService.Service.Write` | internal/jobs/ingest_batch.go:54-88 | writes, completes and deletes the payload in one transaction; done only when settled |
| `BatchService.Service.ResolveCommitOutcome` | internal/jobs/ingest_batch.go:98-135 | reports done only for a settled batch |
| `BatchService.Service.HandleProcessingError` | internal/jobs/ingest_batch.go:211-236 | fails the batch exactly on a terminal error or on a missing trace after the deadline, and puts it back otherwise |
| `BatchService.Service.FinishTerminalFailure` | internal/jobs/ingest_batch.go:238-271 | reports done only for a failed batch |
| `BatchService.Service.RetryBatch` | internal/jobs/ingest_batch.go:273-298 | puts the batch back with its payload and never reports done |
| `BatchService.Service.IngestOnce` | internal/ingest/service.go:140-211 | one inline attempt: duplicate exactly if the key is taken, not ready exactly if a trace is missing, a conflict exactly if one was lost, and otherwise success with the writes of request order |
| `BatchService.Service.Ingest` | internal/ingest/service.go:123-245 | at most three attempts, a write conflict only after three lost ones; only a success, a lost answer or a crash come with writes, and then with one transaction; undisturbed, one attempt that answers ok, duplicate or not ready as the store says |
| `BatchService.Service.AcceptAsync` | internal/ingest/service.go:258-326 | accepted means queued with its payload; duplicate means the key is taken and nothing was written; undisturbed, a new key is accepted |
| `StartRun.RunsPerKey` | internal/api/engine_control.go:254-497 | over any schedule no claim is left in progress, and a request key has made one run per completed row it has had, so at most one while retention has not deleted its row |
| `StartRun.StartMakesRunIff` | internal/api/engine_control.go:254-497 | a start makes a run, and then one, exactly when the request is well formed, its key has no row, its definition is live and its instance key is new |
| `StartRun.NewKeyAnswered` | internal/api/engine_control.go:284-497 | a well-formed request with a new key is told that its definition is not live, or else that its instance exists, or else its run |
| `StartRun.BlankRefused` | internal/api/engine_control.go:254-280 | a request with a blank field is refused and changes nothing |
| `StartRun.OneRunIff` | internal/api/engine_control.go:254-497 | a request key has made at most one run exactly when no start of the schedule met those conditions while a run of the key existed |
| `StartRun.OneRunPerInstance` | engine/db/queries/instances.sql:1-8 | over every schedule an instance key has at most one run that a start made, whatever retention deletes |
| `StartRun.RepeatMakesNoRun` | internal/api/engine_control.go:337-360 | a request for an instance that has its run never makes another; once its row is deleted it is refused with instance_conflict while the definition is live |
| `StartRun.ReusedKeyReachable` | engine/db/queries/request_dedupe.sql:82-91 | a schedule in which a key whose row was deleted starts a second run under another instance key, and the first request is refused |
| `StartRun.ReplayAnswersTheSame` | internal/api/engine_control_helpers.go:114-132 | once answered, a request key is answered the same - result, or code, message and HTTP status - and changes nothing, until its row is deleted |
| `StartRun.StoredAnswer` | internal/api/engine_control_helpers.go:134-220 | the row a start leaves tells the answer it gave |
| `StartRun.RefusedMakesNothing` | internal/api/engine_control_helpers.go:156-176 | a refused request makes no instance, run, history or trace |
| `StartRun.StepKeepsInv` | internal/api/engine_control.go:254-497 | every start, publication, expiry and reaping keeps the tables in order |
| `StartService.Service.ClaimStartRequestDedupe` | internal/api/engine_control_helpers.go:42-112 | claims a new or expired key, or finds the finalized or running claim, in at most two tries |
| `StartService.Service.FinalizeStartFailure` | internal/api/engine_control_helpers.go:156-176 | records the error under the claimed key and changes nothing else |
| `StartService.Service.FinalizeStartSuccess` | internal/api/engine_control_helpers.go:134-154 | records the result under the claimed key and changes nothing else |
| `StartService.Service.CreateRun` | internal/api/engine_control.go:337-480 | makes one instance, run, first event and trace |
| `StartService.Service.StartRun` | internal/api/engine_control.go:254-497 | what the transaction commits, and answers, is one start on the tables it claimed its key in |
| `Timeline.BuildTimelineEntries` | internal/api/timeline.go:44-108 | one entry per event, and up to two per span |
| `Timeline.SyntheticIdInjective` | internal/api/mapper.go:771-773 | a synthetic id names one span and one event type |
| `Timeline.SpanEntriesSay` | internal/api/timeline.go:74-108 | a span has an entry at its start and one at its end that says whether it completed or failed |
| `Timeline.EntriesInOrder` | internal/api/timeline.go:44-72 | events come first, each with its id, times, sequence and span |
| `Timeline.EntriesDistinct` | internal/api/timeline.go:44-108 | the entries of a trace differ pairwise, by source and id and in the cursor order |
| `Timeline.OrderLaws` | internal/api/timeline.go:171-215 | both comparators are total orders on what they look at |
| `Timeline.LessComesFirst` | internal/api/timeline.go:171-272 | an entry compares as less exactly if its time is earlier, or at one time events before span entries, lower sequences first and missing ones last, starts before ends, and then by name |
| `Timeline.StrictTotalOrder` | internal/api/timeline.go:171-215 | on the entries of a trace both orders are strict and total |
| `Timeline.SortedUnique` | internal/api/timeline.go:157-169 | distinct entries have one sorted list in either order |
| `Timeline.SortSpec` | internal/api/timeline.go:165-169 | sorting orders the entries and neither loses nor repeats one |
| `TimelinePages.ResolveCursorIndex` | internal/api/timeline.go:325-340 | the first entry the cursor names, or none |
| `TimelinePages.StartAfterNamed` | internal/api/timeline.go:110-155 | a page starts right after the entry its cursor names, at the front without a cursor, and a cursor that names none is refused |
| `TimelinePages.CursorRoundTrip` | internal/api/timeline.go:287-340 | an entry's cursor resolves to that entry |
| `TimelinePages.PaginateTimelineEntries` | internal/api/timeline.go:110-155 | computes the page after a cursor, or rejects the cursor |
| `TimelinePages.WalkSlices` | internal/api/timeline.go:110-155 | the k-th page of a walk shows the k-th stretch of the cursor order |
| `TimelinePages.WalkShowsAllOnce` | internal/api/timeline.go:110-155 | a finished walk has shown every entry exactly once, and no walk is longer than the entries need |
| `TimelinePages.WalkShowsRest` | internal/api/timeline.go:110-155 | a finished walk from any cursor has shown every entry after it exactly once |
| `TimelinePages.WalkEnds` | internal/api/timeline.go:110-155 | following next cursors always comes to an end |
| `TimelinePages.PollShowsAdded` | internal/api/timeline.go:274-285 | if everything added sorts after what was read, be that nothing, a poll followed through all its pages shows exactly the added entries once and leaves the cursor for the next poll |
| `HexIds.WholeGroupsBack` | internal/otlp/json.go:14-24 | base64 text of whole groups is decoded and encoded to itself |
| `HexIds.HalfGroupPadded` | internal/otlp/json.go:149-151 | two characters too many come back padded |
| `HexIds.BytesBack` | internal/otlp/json.go:149-162 | every byte string comes back from its base64 text, so encoding an id loses nothing |
| `HexIds.CharsAsInTable` | internal/otlp/json.go:149-162 | base64 characters stand for their places in the table of RFC 4648 |
| `HexIds.GroupDigits` | internal/otlp/json.go:149-162 | a base64 group's characters are the digits of its bytes' number, most significant first |
| `HexIds.HexBack` | internal/otlp/json.go:149-162 | every byte string comes back from its hex text, high digit first |
| `HexIds.HexForth` | internal/otlp/json.go:149-162 | the bytes a hex text names have that text in lower case |
| `HexIds.HexAccepted` | internal/otlp/json.go:149-162 | texts of whole bytes are read, in digits of either case, and no others |
| `HexIds.TextAccepted` | internal/otlp/json.go:149-162 | exactly which texts are read as base64, by length, padding and newlines |
| `HexIds.HexTextSurvives` | internal/otlp/json.go:14-47 | every hex text survives base64 when its length is a multiple of four, and is rejected otherwise |
| `HexIds.HexIDs` | internal/otlp/json.go:149-162 | replaces each id in place by the bytes whose hex text, up to case, its base64 text is, up to the first that is not hex |
| `HexIds.HexIDsOfTexts` | internal/otlp/json.go:25-47 | for ids that passed the check: succeeds exactly when every text has whole groups, and yields bytes whose hex text is the text in lower case |
| `HexIds.SameBytesSameText` | internal/otlp/json.go:14-24 | two hex texts name the same bytes exactly when they differ in case only |
| `HexIds.NewlinesSlipThrough` | internal/otlp/json.go:19-24 | hex text broken by line ends would pass for an id without the check |
| `IdText.Decoder.CheckIdText` | internal/otlp/json.go:68-105 | reading tokens, decides on every document what the check of its tree decides, and reads it to its end |
| `IdText.Decoder.CheckNamed` | internal/otlp/json.go:85-97 | the same for a field's value: skipped, an id, or a list |
| `IdText.Decoder.CheckIdTextList` | internal/otlp/json.go:108-128 | the same for a list |
| `IdText.Decoder.CheckHexString` | internal/otlp/json.go:131-147 | the same for an id |
| `IdText.Decoder.Skip` | internal/otlp/json.go:85-90 | reads one value of any shape to its end |
| `IdText.CheckExport` | internal/otlp/json.go:25-28 | the pass over an export, under both names of each field |
| `IdText.AcceptedIdsAreHex` | internal/otlp/json.go:65-105 | in an accepted document every id the schema reaches is null or hex |
| `IdText.RejectedIdIsReached` | internal/otlp/json.go:131-147 | text is called not hex only when it is, and stands where the schema reaches an id |
| `Truncation.TruncateObject` | pkg/truncation/truncate.go:96-128 | the loop over members computes the truncated object |
| `Truncation.TruncateArray` | pkg/truncation/truncate.go:131-159 | the loop over items computes the truncated array |
| `Truncation.TruncateValueOf` | pkg/truncation/truncate.go:73-92 | cuts strings, truncates objects and arrays, and gives nothing for null |
| `Truncation.TruncatedObjectFits` | pkg/truncation/truncate.go:96-128 | for every object with unescaped keys, member order and limit from 2: without the marker it prints within the limit, with it at most 17 bytes over |
| `Truncation.TruncatedArrayFits` | pkg/truncation/truncate.go:131-159 | for every array and limit from 2: without the marker within the limit, with it at most 20 bytes over |
| `Truncation.ObjectKeepsFirst` | pkg/truncation/truncate.go:96-128 | a truncated object keeps its first members under their keys, whole or cut down: all, or some and the marker |
| `Truncation.FittingMembersKept` | pkg/truncation/truncate.go:96-128 | members are kept whole as long as they fit by the estimate, and an object that fits is kept as it is |
| `Truncation.CutKeepsFront` | pkg/truncation/truncate.go:80-88 | a string that is too long keeps its front, 20 less than the limit, and ends in the ellipsis |
| `Truncation.ArrayKeepsFirst` | pkg/truncation/truncate.go:131-159 | a truncated array is whole, or its first items and one cut down, or its first items and the marker |
| `Truncation.ArrayUnmarkedIff` | pkg/truncation/truncate.go:131-159 | for every array and limit: the result loses items without ending in the marker exactly when the first item that overflows is not the last and, once cut down, fits and is not itself the marker |
| `Truncation.ArrayDropsUnmarked` | pkg/truncation/truncate.go:139-149 | a family of arrays that lose items without the marker |
| `Truncation.TruncateJSON` | pkg/truncation/truncate.go:30-69 | returns the payload, the structured result if it fits, or the fallback |
| `Truncation.TruncatedTextWithin` | pkg/truncation/truncate.go:30-69 | the result never exceeds the limit |
| `Truncation.StructuredKept` | pkg/truncation/truncate.go:48-66 | a parsed payload's truncation is the result whenever it prints within the limit, and the marker object otherwise |
| `Truncation.TruncatedTextValid` | pkg/truncation/truncate.go:30-69 | a truncated result is valid JSON, with numbers as RFC 8259 has them, exactly when the limit is at least 19 or the structured attempt fits |
| `Truncation.RawTruncate` | pkg/truncation/truncate.go:162-173 | within the limit, a prefix of the marker object that uses all the room, and whole exactly from a limit of 19 |
| `ReservedId.IdOnlyShortest` | internal/ingest/semantic_ids.go:118-149 | no object that holds the id prints shorter than the one that holds only it |
| `ReservedId.OwnIdWins` | internal/ingest/semantic_ids.go:55-76 | an event's own non-empty id is its id, and only an event without one gets a derived id |
| `ReservedId.SetKeeps` | internal/ingest/semantic_ids.go:118-133 | putting the id in changes no other member |
| `ReservedId.DeleteKeeps` | internal/ingest/semantic_ids.go:108-109 | taking the id out takes no other member |
| `ReservedId.TruncatePayloadWithReservedString` | internal/ingest/semantic_ids.go:118-140 | ends, always returns an object that holds the id under its key and no other value there, is within the limit exactly when the id alone is, and is the first attempt, from the largest budget down, that fits |
| `ReservedId.ProcessPayload` | internal/ingest/processor.go:494-513 | keeps a payload that fits, and otherwise truncates it to the limit |
| `ReservedId.ProcessEventPayload` | internal/ingest/semantic_ids.go:86-116 | an effect's or wait's payload holds its id, once, whatever its size and the order its members are visited in, is kept whole if it fits, and is within the limit exactly when the id alone is |

## Left out

- Changed-field diffs of spans and events, the session narrative, and the validation and size limits of a comparison.
- SessionCompare.SessionComparisonBuilder.AssignSpanPair: the records are entries of two sequences, not shared objects, so aliasing of a record is not captured.
- EngineControl.ControlService.LockTraces: a trace lock keeps no other transaction from the trace; what the method shows is what others may do at each wait.
- EngineControl.ControlService.TerminateRun: its trace locks come in order, but keep nobody from the traces, which the run locks already cover.
- EngineControl.ControlService.CompleteRemoteActivityTask: the task row's own lock, taken before the run's, is not modelled, and the lock order does not cover remote tasks.
- EngineTheorems.ReadersSeeLiveRun: says nothing about a trace whose journal has expired, which keeps the summary of its last projection.
- Custom status, results, error texts, notifications, root spans, and the query that selects runs to backfill.
- Workflow replay, and the delay before a retry, which is a parameter.
- LockOrder.NeverDeadlocked: covers batches and terminations; activations, project deletion and trace rollups are not part of this model.
- IngestProcessor.Processor.ProcessBatch: span and event rows, which are written in request order under traces already held, and the counts of accepted rows are not modelled.
- IngestOrder.FirstNameWins: a JSON null inside session metadata is not told from a missing key.
- BatchService.Service.Work: compression of payloads, rollup jobs and the queue's own retry schedule are not modelled; a job has one active attempt.
- BatchService.Service.ResolveCommitOutcome: a commit without an answer has landed, or never will, by the time its outcome is read; one that lands later is not modelled.
- StartService.Service.StartRun: the session of a new run, its trace's details and its root span are not modelled.
- TimelinePages.PaginateTimelineEntries: the JSON and base64 text of a cursor is not modelled; a cursor is what it carries, or malformed.
- TimelinePages.PollShowsAdded: that polling never misses an event is not claimed; a late terminal marker keeps its span row's creation time and can sort before the cursor.
- IdText.Decoder.CheckIdText: for tokens that are no document's only its end is shown; the protobuf decoder rejects such text anyway.
- Truncation.TruncatedObjectFits: an object whose keys need escapes is bounded only by the whole of `TruncateJSON`, which measures the printed text.
- ReservedId.ProcessEventPayload: the hash that derives an id is a parameter.
- Wall-clock time, HTTP handlers, authentication, SQL text, and generated code.
