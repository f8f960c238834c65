/** The control service: each operation locks the rows it needs, one wait at a time while other
    transactions go on, and then updates the tables step by step. */
module EngineControl {
  import K = KeyedUpserts
  import E = RunEffects
  import opened Basics
  import opened RunState
  import opened RunInvariants
  import opened EngineDb
  import opened EngineInvariant
  import opened TerminateSubtree
  import opened Interference
  import opened DescendantLocks
  import opened TerminateInOrder

  datatype BackfillAction = WouldRepair | RepairWasRequested | SkippedRun

  datatype BackfillRun = BackfillRun(run: nat, action: BackfillAction)

  datatype Backfill = Backfill(eligible: nat, repairRequested: nat, skipped: nat, results: seq<BackfillRun>)

  function Count(results: seq<BackfillRun>, action: BackfillAction): nat
  {
    if results == [] then 0
    else Count(results[..|results| - 1], action) + (if results[|results| - 1].action == action then 1 else 0)
  }

  /** One result for each of the first n candidates, in order, and counts that add up. */
  ghost predicate Tallied(b: Backfill, candidates: seq<nat>, n: nat, dryRun: bool)
    requires n <= |candidates|
  {
    && b.eligible == |candidates| && |b.results| == n
    && (forall i: nat :: i < n ==> b.results[i].run == candidates[i])
    && b.repairRequested == Count(b.results, RepairWasRequested) && b.skipped == Count(b.results, SkippedRun)
    && Count(b.results, WouldRepair) == (if dryRun then n else 0)
    && b.repairRequested + b.skipped == (if dryRun then 0 else n)
  }

  function AddResult(b: Backfill, c: nat, action: BackfillAction): Backfill
  {
    var results := b.results + [BackfillRun(c, action)];
    match action
    case WouldRepair => b.(results := results)
    case RepairWasRequested => b.(results := results, repairRequested := b.repairRequested + 1)
    case SkippedRun => b.(results := results, skipped := b.skipped + 1)
  }

  lemma {:induction false} TalliedNext(b: Backfill, candidates: seq<nat>, n: nat, dryRun: bool, action: BackfillAction)
    requires n < |candidates| && Tallied(b, candidates, n, dryRun) && (action.WouldRepair? <==> dryRun)
    ensures Tallied(AddResult(b, candidates[n], action), candidates, n + 1, dryRun)
  {
    var results := b.results + [BackfillRun(candidates[n], action)];
    assert results[..|results| - 1] == b.results;
  }

  class ControlService {
    var runs: map<nat, RunView>
    var links: map<nat, Link>
    var instances: map<nat, InstanceStatus>
    var nextHistoryId: nat

    /** The run locks the current transaction holds, in the order it took them. */
    var lockOrder: seq<nat>
    var waits: nat
    /** What other transactions try to commit at the k-th wait. */
    const schedule: nat -> seq<Step>
    /** The external id of a run's trace. */
    const traceName: nat -> string

    ghost var begun: Db
    ghost var committed: seq<Step>

    ghost function State(): Db
      reads this
    {
      Db(runs, links, instances, nextHistoryId)
    }

    ghost function Held(): set<nat>
      reads this
    {
      set x | x in lockOrder
    }

    /** Outside its own writes, the service sees what it and others have committed since it began. */
    ghost predicate Valid()
      reads this
    {
      && Inv(State()) && Inv(begun) && State() == RunSteps(begun, committed)
      && Held() <= runs.Keys
    }

    lemma {:induction false} HoldsLock(x: nat)
      requires x in lockOrder
      ensures x in Held()
    {
    }

    constructor (db: Db, schedule: nat -> seq<Step>, traceName: nat -> string)
      requires Inv(db)
      ensures Valid() && begun == db && committed == [] && lockOrder == []
    {
      runs, links, instances, nextHistoryId := db.runs, db.links, db.instances, db.nextHistoryId;
      lockOrder, waits := [], 0;
      this.schedule, this.traceName := schedule, traceName;
      begun, committed := db, [];
    }

    /** Another transaction commits a step, if the held locks let it. */
    method OtherCommits(s: Step)
      requires Valid()
      modifies this`runs, this`links, this`instances, this`nextHistoryId, this`committed
      ensures old(committed) <= committed
      ensures Valid() && Respects(old(State()), State(), Held())
    {
      hide Respects, Inv, ApplyStep, MayCommit;
      var db := Db(runs, links, instances, nextHistoryId);
      RespectsReflexive(db, Held());
      if MayCommit(db, s, set x | x in lockOrder) {
        StepKeepsInv(db, s);
        StepRespects(db, s, Held());
        var db' := ApplyStep(db, s);
        assert (committed + [s])[..|committed|] == committed;
        RespectsKeys(db, db', Held());
        runs, links, instances, nextHistoryId := db'.runs, db'.links, db'.instances, db'.nextHistoryId;
        committed := committed + [s];
      }
    }

    /** Other transactions commit what the held locks let them. */
    method Wait()
      requires Valid()
      modifies this`runs, this`links, this`instances, this`nextHistoryId, this`waits, this`committed
      ensures old(committed) <= committed
      ensures Valid() && Respects(old(State()), State(), Held())
    {
      hide Respects, Inv;
      var todo := schedule(waits);
      waits := waits + 1;
      var n: nat := 0;
      RespectsReflexive(State(), Held());
      while n < |todo|
        invariant n <= |todo|
        invariant Valid() && Respects(old(State()), State(), Held()) && old(committed) <= committed
      {
        ghost var before := State();
        OtherCommits(todo[n]);
        RespectsTransitive(old(State()), before, State(), Held());
        n := n + 1;
      }
    }

    /** Takes a run's lock, after waiting for it. */
    method LockRun(x: nat)
      requires Valid() && x in runs
      modifies this`runs, this`links, this`instances, this`nextHistoryId, this`waits, this`committed, this`lockOrder
      ensures old(committed) <= committed
      ensures Valid() && Respects(old(State()), State(), old(Held()))
      ensures lockOrder == old(lockOrder) + [x] && x in runs
    {
      Wait();
      RespectsKeys(old(State()), State(), old(Held()));
      lockOrder := lockOrder + [x];
    }
  
    /** Locks the active subtree under a locked run, one level per depth. Whatever others commit
        during the waits, the locked runs are the run's active closure in the state at return, and
        the locks came in order of depth, then of run id. */
    method LockActiveDescendantRuns(t: nat) returns (levels: seq<seq<nat>>)
      requires Valid() && t in lockOrder
      modifies this`runs, this`links, this`instances, this`nextHistoryId, this`waits, this`committed, this`lockOrder
      ensures old(committed) <= committed
      ensures Valid() && Respects(old(State()), State(), old(Held()))
      ensures LevelsOf(State(), t, Closure(State(), t), levels) && Closure(State(), t) <= Held()
      ensures lockOrder == old(lockOrder) + Flatten(levels) && LockOrdered(State(), [t] + Flatten(levels))
    {
      hide Respects, LockedSoFar, OkTree, OkRuns, RunSteps, Children, Closure, LevelsOf, LockOrdered, Flatten, Held, Elements;
      levels := [];
      var parents := [t];
      ghost var s := {t};
      HoldsLock(t);
      assert lockOrder + Flatten(levels) == lockOrder by { NothingToFlatten(); }
      LockedStart(State(), t);
      RespectsReflexive(State(), old(Held()));
      while |parents| > 0
        invariant Valid() && Respects(old(State()), State(), old(Held())) && old(committed) <= committed
        invariant lockOrder == old(lockOrder) + Flatten(levels) && s <= Held() && old(Held()) <= Held()
        invariant LockedSoFar(State(), t, s, parents, levels)
        decreases if |parents| > 0 then MaxChildDepth + 1 - |levels| else 0
      {
        LockedDepth(State(), t, s, parents, levels);
        ghost var before := State();
        ghost var holding := Held();
        var level := LockNextLevel(t, s, parents, levels);
        FlattenGrows(levels, level);
        RespectsFewer(before, State(), holding, old(Held()));
        RespectsTransitive(old(State()), before, State(), old(Held()));
        s := s + Elements(level);
        levels := levels + [level];
        parents := level;
        if |parents| > 0 { LockedDepth(State(), t, s, parents, levels); }
      }
      LockedDone(State(), t, s, levels);
    }

    /** Lists the active children of the last level, and locks them. */
    method LockNextLevel(t: nat, ghost s: set<nat>, parents: seq<nat>, ghost levels: seq<seq<nat>>) returns (level: seq<nat>)
      requires Valid() && s <= Held() && LockedSoFar(State(), t, s, parents, levels)
      modifies this`runs, this`links, this`instances, this`nextHistoryId, this`waits, this`committed, this`lockOrder
      ensures old(committed) <= committed
      ensures Valid() && Respects(old(State()), State(), old(Held())) && lockOrder == old(lockOrder) + level
      ensures s + Elements(level) <= Held() && old(Held()) <= Held()
      ensures LockedSoFar(State(), t, s + Elements(level), level, levels + [level])
    {
      hide Respects, LockedSoFar, OkTree, OkRuns, InIdOrder, Children;
      Wait();
      LockedStable(old(State()), State(), old(Held()), t, s, parents, levels);
      var children := InIdOrder(Children(Db(runs, links, instances, nextHistoryId), Elements(parents)));
      ghost var before := State();
      level := LockLevel(t, s, parents, levels, children);
      RespectsTransitive(old(State()), before, State(), old(Held()));
      LockedMoves(State(), t, s, parents, levels, level);
    }

    /** Locks the listed children in turn. None of them has ended when its lock comes. */
    method LockLevel(t: nat, ghost s: set<nat>, ghost parents: seq<nat>, ghost levels: seq<seq<nat>>, children: seq<nat>)
      returns (level: seq<nat>)
      requires Valid() && s <= Held() && LockedSoFar(State(), t, s, parents, levels)
      requires children == InIdOrder(Children(State(), Elements(parents)))
      modifies this`runs, this`links, this`instances, this`nextHistoryId, this`waits, this`committed, this`lockOrder
      ensures old(committed) <= committed
      ensures Valid() && Respects(old(State()), State(), old(Held())) && lockOrder == old(lockOrder) + level
      ensures LockedSoFar(State(), t, s, parents, levels)
      ensures level == children && level == InIdOrder(Children(State(), Elements(parents)))
    {
      hide Respects, LockedSoFar, OkTree, OkRuns, InIdOrder, Children;
      InIdOrderLists(Children(State(), Elements(parents)));
      RespectsReflexive(State(), old(Held()));
      level := [];
      var n: nat := 0;
      while n < |children|
        invariant n <= |children| && level == children[..n]
        invariant Valid() && Respects(old(State()), State(), old(Held())) && lockOrder == old(lockOrder) + level
        invariant old(committed) <= committed
        invariant LockedSoFar(State(), t, s, parents, levels)
        invariant Children(State(), Elements(parents)) == old(Children(State(), Elements(parents)))
      {
        assert children[n] in children;
        ListedChild(State(), t, s, parents, levels, children[n]);
        ghost var before := State();
        ghost var holding := Held();
        LockRun(children[n]);
        assert old(Held()) <= holding;
        LockedStable(before, State(), holding, t, s, parents, levels);
        RespectsFewer(before, State(), holding, old(Held()));
        RespectsTransitive(old(State()), before, State(), old(Held()));
        ListedChild(State(), t, s, parents, levels, children[n]);
        if Terminal(runs[children[n]].run.status) {
          assert false;
        } else {
          level := level + [children[n]];
        }
        n := n + 1;
      }
    }
  
    // ---- shared writes ----

    /** Numbers a new event after the run's last one. */
    method AppendLockedRunHistoryEvent(r: nat, kind: EventKind) returns (id: nat)
      requires r in runs
      modifies this`runs, this`nextHistoryId
      ensures id == old(nextHistoryId) && nextHistoryId == id + 1
      ensures runs == old(runs)[r := old(runs[r]).(history := AppendEvent(old(runs[r]), id, kind).history)]
    {
      var rows := runs[r].history;
      var next := 1;
      if |rows| > 0 {
        next := rows[|rows| - 1].sequenceNo + 1;
      }
      id := nextHistoryId;
      nextHistoryId := id + 1;
      runs := runs[r := runs[r].(history := rows + [Event(id, next, kind)])];
    }

    /** Moves the trace's freshness columns up to a new event. */
    method UpdateProjectedTraceLatestHistory(r: nat, id: nat)
      requires r in runs
      modifies this`runs
      ensures runs == old(runs)[r := old(runs[r]).(trace := AppendEvent(old(runs[r]), id, OtherEvent).trace)]
    {
      var trace := runs[r].trace;
      if id > trace.latestHistoryId {
        trace := trace.(latestHistoryId := id);
      }
      if trace.lastProjectedHistoryId >= id {
        trace := trace.(state := UpToDate);
      } else {
        trace := trace.(state := ProjectionState.CatchingUp);
      }
      runs := runs[r := runs[r].(trace := trace)];
    }

    method AppendEventOf(r: nat, kind: EventKind)
      requires r in runs
      modifies this`runs, this`nextHistoryId
      ensures runs == old(runs)[r := AppendEvent(old(runs[r]), old(nextHistoryId), kind)]
      ensures nextHistoryId == old(nextHistoryId) + 1
    {
      var id := AppendLockedRunHistoryEvent(r, kind);
      UpdateProjectedTraceLatestHistory(r, id);
    }

    method WakeRunIfWaiting(r: nat) returns (woken: bool)
      requires r in runs
      modifies this`runs
      ensures runs == old(runs)[r := Wake(old(runs[r]))] && woken == old(runs[r].run.status.Waiting?)
    {
      woken := runs[r].run.status.Waiting?;
      if woken {
        runs := runs[r := runs[r].(run := runs[r].run.(status := Queued, waitingFor := NoWait, claimedBy := None))];
      } else {
        assert runs[r := Wake(runs[r])] == runs;
      }
    }

    /** Caches the run's status and pending counts on its trace. */
    method SyncProjectedTraceSummary(r: nat)
      requires r in runs
      modifies this`runs
      ensures runs == old(runs)[r := Sync(old(runs[r]))]
    {
      var pendingTasks := |OpenTasks(runs[r])|;
      var pendingInbox := |OpenInbox(runs[r])|;
      var run := runs[r].run;
      runs := runs[r := runs[r].(trace := runs[r].trace.(summary := Summary(run.status, run.waitingFor, pendingTasks, pendingInbox)))];
    }

    // ---- termination ----

    /** Ends a locked run and everything pending on it. */
    method TerminateLockedRun(x: nat, wakeParent: bool)
      requires x in runs
      modifies this`runs, this`links, this`instances, this`nextHistoryId
      ensures State() == TerminateOne(old(State()), x, wakeParent)
    {
      ghost var before := State();
      AppendEventOf(x, WorkflowTerminated);
      runs := runs[x := runs[x].(run := runs[x].run.(status := Terminated, waitingFor := NoWait, claimedBy := None))];
      runs := runs[x := CancelTasks(runs[x])];
      runs := runs[x := DiscardInbox(runs[x])];
      assert runs == old(runs)[x := TerminateRows(old(runs[x]), old(nextHistoryId))];
      hide TerminateRows, CancelTasks, DiscardInbox, AppendEvent;
      var db := Db(runs, links, instances, nextHistoryId);
      assert InstancesOf(db, {x}) == InstancesOf(before, {x});
      instances := EndInstances(db, {x}, RunStatus.Terminated);
      var run := runs[x].run;
      var waitedFor := WaitsFor(db, x);
      assert waitedFor == WaitsFor(before, x);
      links := CloseLinks(links, {x}, RunStatus.Terminated);
      if wakeParent && waitedFor && run.parent.Some? && run.parent.value in runs {
        runs := runs[run.parent.value := WakeOnChild(runs[run.parent.value], run.childKey)];
      }
    }
  
    /** The state the last committed call saw when it began to write. */
    ghost function Before(): Db
      requires committed != []
      reads this
    {
      RunSteps(begun, committed[..|committed| - 1])
    }

    /** The call's writes amount to one step on what it saw; with the commit its locks go. */
    method Commit(ghost s: Step)
      requires Inv(begun) && Inv(RunSteps(begun, committed)) && State() == ApplyStep(RunSteps(begun, committed), s)
      modifies this`lockOrder, this`committed
      ensures Valid() && lockOrder == [] && committed == old(committed) + [s]
      ensures Before() == RunSteps(begun, old(committed))
    {
      hide Inv, ApplyStep;
      StepKeepsInv(RunSteps(begun, committed), s);
      assert (committed + [s])[..|committed|] == committed;
      lockOrder, committed := [], committed + [s];
    }

    /** The last call committed this step, after what others committed meanwhile. */
    twostate predicate Did(s: Step)
      reads this
    {
      && Valid() && lockOrder == [] && old(committed) <= committed && |old(committed)| < |committed|
      && committed[|committed| - 1] == s && begun == old(begun)
    }

    /** Terminates the levels, deepest first. */
    method TerminateLevels(t: nat, ghost s: set<nat>, levels: seq<seq<nat>>)
      requires t in s && s <= runs.Keys && LevelsOf(State(), t, s, levels)
      modifies this`runs, this`links, this`instances, this`nextHistoryId
      ensures State() == Partial(old(State()), s, s - {t})
    {
      ghost var db := State();
      hide LevelsOf, Partial, Deeper;
      PartialStart(db, s);
      AllLevelsDone(db, t, s, levels);
      var i: nat := |levels|;
      while i > 0
        invariant i <= |levels|
        invariant State() == Partial(db, s, Deeper(db, s, Depth(db, t) + i))
      {
        i := i - 1;
        TerminateLevel(db, t, s, levels, i);
      }
    }

    /** Terminates one level's runs, in run id order. */
    method TerminateLevel(ghost db: Db, ghost t: nat, ghost s: set<nat>, levels: seq<seq<nat>>, i: nat)
      requires LevelsOf(db, t, s, levels) && i < |levels| && s <= db.runs.Keys
      requires State() == Partial(db, s, Deeper(db, s, Depth(db, t) + i + 1))
      modifies this`runs, this`links, this`instances, this`nextHistoryId
      ensures State() == Partial(db, s, Deeper(db, s, Depth(db, t) + i))
    {
      hide LevelsOf, TerminateOne, Partial, EarlierIn, DoneAt, Deeper;
      var j: nat := 0;
      DoneStart(db, t, s, levels, i);
      while j < |levels[i]|
        invariant j <= |levels[i]|
        invariant State() == Partial(db, s, DoneAt(db, t, s, levels, i, j))
      {
        DoneIsEarlier(db, t, s, levels, i, j);
        PartialStep(db, s, DoneAt(db, t, s, levels, i, j), levels[i][j]);
        TerminateLockedRun(levels[i][j], false);
        j := j + 1;
      }
      LevelDone(db, t, s, levels, i);
    }

    /** Locks the target's parent and then the target. */
    method LockTarget(r: nat)
      requires Valid() && lockOrder == [] && r in runs
      modifies this`runs, this`links, this`instances, this`nextHistoryId, this`waits, this`committed, this`lockOrder
      ensures old(committed) <= committed
      ensures Valid() && r in runs
      ensures lockOrder == (if runs[r].run.parent.Some? then [runs[r].run.parent.value] else []) + [r]
    {
      hide Respects, OkTree, OkRuns;
      ghost var db := State();
      ghost var none := Held();
      var parent := runs[r].run.parent;
      if parent.Some? {
        ParentAbove(db, r);
        LockRun(parent.value);
        RespectsKeys(db, State(), none);
      }
      ghost var mid := State();
      ghost var first := Held();
      LockRun(r);
      RespectsKeys(mid, State(), first);
    }

    /** Locks the parent, the target and, if it is live, its active subtree, in lock order. */
    method LockSubtree(r: nat) returns (levels: seq<seq<nat>>)
      requires Valid() && lockOrder == [] && r in runs
      modifies this`runs, this`links, this`instances, this`nextHistoryId, this`waits, this`committed, this`lockOrder
      ensures old(committed) <= committed
      ensures Valid() && r in lockOrder && r in runs && LockOrdered(State(), lockOrder)
      ensures lockOrder == (if runs[r].run.parent.Some? then [runs[r].run.parent.value] else []) + [r] + Flatten(levels)
      ensures Terminal(runs[r].run.status) ==> levels == []
      ensures !Terminal(runs[r].run.status) ==>
                LevelsOf(State(), r, Closure(State(), r), levels) && Closure(State(), r) <= Held()
    {
      hide Respects, OkTree, OkRuns, LevelsOf, Closure, LockOrdered, Flatten;
      LockTarget(r);
      levels := [];
      ghost var tail := [r];
      ghost var db := State();
      ghost var first := Held();
      OneOrdered(db, r);
      NothingToFlatten();
      if !Terminal(runs[r].run.status) {
        levels := LockActiveDescendantRuns(r);
        RespectsKeys(db, State(), first);
        RespectsHeldRuns(db, State(), first, r);
        tail := [r] + Flatten(levels);
      }
      var parent := runs[r].run.parent;
      if parent.Some? {
        ParentAbove(State(), r);
        ParentFirst(State(), parent.value, tail);
        assert lockOrder == [parent.value] + tail;
      } else {
        assert lockOrder == tail;
      }
    }

    /** Takes the traces' locks one by one, in the order given. */
    method LockTraces(names: seq<string>) returns (taken: seq<string>)
      requires Valid()
      modifies this`runs, this`links, this`instances, this`nextHistoryId, this`waits, this`committed
      ensures old(committed) <= committed
      ensures Valid() && Respects(old(State()), State(), Held()) && taken == names
    {
      hide Respects, Inv, RunSteps;
      RespectsReflexive(State(), Held());
      taken := [];
      while |taken| < |names|
        invariant |taken| <= |names| && taken == names[..|taken|]
        invariant Valid() && Respects(old(State()), State(), Held()) && old(committed) <= committed
      {
        ghost var before := State();
        Wait();
        RespectsTransitive(old(State()), before, State(), Held());
        taken := taken + [names[|taken|]];
      }
    }

    /** Terminates a run and its active subtree, as of the moment it holds all their locks: those of the
        runs in the order of depth and id, then those of the traces in byte order. */
    method TerminateRun(r: nat) returns (res: Result<RunStatus, ErrorCode>, locks: seq<nat>, traces: seq<string>)
      requires Valid() && lockOrder == []
      modifies this
      ensures Did(Step.TerminateRun(r))
      ensures res.Err? <==> r !in Before().runs
      ensures res.Ok? ==> r in runs && res.value == runs[r].run.status && Terminal(res.value)
      ensures LockOrdered(Before(), locks) && K.StrictlyAscending(traces)
      ensures res.Err? ==> locks == [] && traces == []
      ensures res.Ok? ==>
                forall x :: x in locks <==>
                  Before().runs[r].run.parent == Some(x)
                  || (if Terminal(Before().runs[r].run.status) then x == r else x in Closure(Before(), r))
      ensures res.Ok? && !Terminal(Before().runs[r].run.status) ==>
                forall name :: name in traces <==> NamesTrace(Before(), r, traceName, name)
    {
      hide Respects, OkTree, OkRuns, LevelsOf, Closure, Partial, LockOrdered, RunSteps, Terminate, TerminateOne, NamesTrace, TraceNames,
           Flatten;
      locks, traces := [], [];
      if r !in runs {
        OneOrdered(State(), r);
        Commit(Step.TerminateRun(r));
        return Err(NotFound), locks, traces;
      }
      var levels := LockSubtree(r);
      locks := lockOrder;
      NothingToFlatten();
      TerminatedTarget(State(), r);
      if Terminal(runs[r].run.status) {
        Commit(Step.TerminateRun(r));
        return Ok(runs[r].run.status), locks, traces;
      }
      ghost var db := State();
      traces := LockTraces(TraceNames(runs[r].run, r, levels, traceName));
      ClosureStable(db, State(), Held(), r, levels);
      RespectsHeldRuns(db, State(), Held(), r);
      LockOrderStable(db, State(), Held(), lockOrder);
      ghost var seen := State();
      TracesOfSubtree(seen, r, levels, traceName);
      SubtreeListed(seen, r, levels);
      ghost var s := Closure(seen, r);
      ClosureClosed(seen, r);
      ClosureRuns(seen, r);
      TerminateLevels(r, s, levels);
      AllLevelsDone(seen, r, s, levels);
      PartialEnd(seen, r);
      TerminateLockedRun(r, true);
      TerminatedTarget(seen, r);
      Commit(Step.TerminateRun(r));
      return Ok(runs[r].run.status), locks, traces;
    }

    // ---- signal, cancel, suspend, resume ----

    lemma {:induction false} FreshItem(inbox: map<nat, InboxItem>)
      ensures exists item: nat :: item !in inbox
    {
      FreshId(inbox.Keys);
    }

    /** Queues a signal for a live run, and wakes it if it waits. */
    method SignalRun(r: nat) returns (res: Result<bool, ErrorCode>, ghost item: nat)
      requires Valid() && lockOrder == []
      modifies this
      ensures Did(OnRun(r, SignalOp(item)))
      ensures res == if r !in Before().runs then Err(NotFound)
                     else if Terminal(Before().runs[r].run.status) then Err(RunTerminal)
                     else Ok(Before().runs[r].run.status.Waiting?)
      ensures res.Ok? ==> item !in Before().runs[r].inbox
    {
      hide Respects, OkTree, OkRuns, RunSteps, Live;
      item := 0;
      if r !in runs {
        Commit(OnRun(r, SignalOp(item)));
        return Err(NotFound), item;
      }
      LockRun(r);
      FreshItem(runs[r].inbox);
      var i: nat :| i !in runs[r].inbox;
      item := i;
      ghost var seen := State();
      if Terminal(runs[r].run.status) {
        assert ApplyStep(seen, OnRun(r, SignalOp(item))).runs == runs;
        Commit(OnRun(r, SignalOp(item)));
        return Err(RunTerminal), item;
      }
      runs := runs[r := runs[r].(inbox := runs[r].inbox[i := InboxItem(SignalItem, Pending)])];
      var woken := WakeRunIfWaiting(r);
      SyncProjectedTraceSummary(r);
      assert ApplyStep(seen, OnRun(r, SignalOp(item))).runs == runs;
      Commit(OnRun(r, SignalOp(item)));
      return Ok(woken), item;
    }

    /** Queues a cancel request, once, for a live run, and wakes it if it waits. */
    method CancelRun(r: nat) returns (res: Result<bool, ErrorCode>, ghost item: nat)
      requires Valid() && lockOrder == []
      modifies this
      ensures Did(OnRun(r, CancelOp(item)))
      ensures res == if r !in Before().runs then Err(NotFound)
                     else if Terminal(Before().runs[r].run.status) then Err(RunTerminal)
                     else Ok(Before().runs[r].run.status.Waiting?)
      ensures res.Ok? ==> item !in Before().runs[r].inbox
    {
      hide Respects, OkTree, OkRuns, RunSteps, Live;
      item := 0;
      if r !in runs {
        Commit(OnRun(r, CancelOp(item)));
        return Err(NotFound), item;
      }
      LockRun(r);
      FreshItem(runs[r].inbox);
      var i: nat :| i !in runs[r].inbox;
      item := i;
      ghost var seen := State();
      if Terminal(runs[r].run.status) {
        assert ApplyStep(seen, OnRun(r, CancelOp(item))).runs == runs;
        Commit(OnRun(r, CancelOp(item)));
        return Err(RunTerminal), item;
      }
      // A second cancel item would repeat the dedupe key: the insert is rolled back.
      EnqueueCancelItem(r, i);
      hide EnqueueCancel;
      CancelNumbers(seen.runs[r], i);
      var woken := WakeRunIfWaiting(r);
      SyncProjectedTraceSummary(r);
      assert ApplyStep(seen, OnRun(r, CancelOp(item))).runs == runs;
      Commit(OnRun(r, CancelOp(item)));
      return Ok(woken), item;
    }

    method EnqueueCancelItem(r: nat, item: nat)
      requires r in runs
      modifies this`runs
      ensures runs == old(runs)[r := EnqueueCancel(old(runs[r]), item)]
    {
      if !HasCancelItem(runs[r]) {
        runs := runs[r := runs[r].(inbox := runs[r].inbox[item := InboxItem(CancelItem, Pending)])];
      } else {
        assert runs[r := EnqueueCancel(runs[r], item)] == runs;
      }
    }

    lemma {:induction false} CancelNumbers(v: RunView, item: nat)
      ensures EnqueueCancel(v, item).history == v.history && EnqueueCancel(v, item).run == v.run
    {
    }

    /** Suspends a queued or waiting run. */
    method SuspendRun(r: nat) returns (res: Result<RunStatus, ErrorCode>)
      requires Valid() && lockOrder == []
      modifies this
      ensures Did(OnRun(r, SuspendOp))
      ensures res == if r !in Before().runs then Err(NotFound)
                     else match Before().runs[r].run.status
                          case Queued => Ok(Suspended)
                          case Waiting => Ok(Suspended)
                          case Suspended => Ok(Suspended)
                          case Running => Err(RunNotSuspendable)
                          case Quarantined => Err(RunNotSuspendable)
                          case _ => Err(RunTerminal)
    {
      hide Respects, OkTree, OkRuns, RunSteps, Live;
      if r !in runs {
        Commit(OnRun(r, SuspendOp));
        return Err(NotFound);
      }
      LockRun(r);
      ghost var seen := State();
      var status := runs[r].run.status;
      if status.Suspended? {
        res := Ok(status);
      } else if status.Quarantined? || status.Running? {
        res := Err(RunNotSuspendable);
      } else if Terminal(status) {
        res := Err(RunTerminal);
      } else {
        runs := runs[r := runs[r].(run := runs[r].run.(status := RunStatus.Suspended, claimedBy := None))];
        AppendEventOf(r, WorkflowSuspended);
        SyncProjectedTraceSummary(r);
        res := Ok(RunStatus.Suspended);
      }
      assert ApplyStep(seen, OnRun(r, SuspendOp)).runs == runs;
      Commit(OnRun(r, SuspendOp));
    }

    /** Queues a suspended or quarantined run again; any other live run stays as it is. */
    method ResumeRun(r: nat) returns (res: Result<RunStatus, ErrorCode>)
      requires Valid() && lockOrder == []
      modifies this
      ensures Did(OnRun(r, ResumeOp))
      ensures res == if r !in Before().runs then Err(NotFound)
                     else if Terminal(Before().runs[r].run.status) then Err(RunTerminal)
                     else if Before().runs[r].run.status.Suspended? || Before().runs[r].run.status.Quarantined? then Ok(Queued)
                     else Ok(Before().runs[r].run.status)
    {
      hide Respects, OkTree, OkRuns, RunSteps, Live;
      if r !in runs {
        Commit(OnRun(r, ResumeOp));
        return Err(NotFound);
      }
      LockRun(r);
      ghost var seen := State();
      var status := runs[r].run.status;
      if Terminal(status) {
        res := Err(RunTerminal);
      } else if !status.Suspended? && !status.Quarantined? {
        res := Ok(status);
      } else {
        runs := runs[r := runs[r].(run := runs[r].run.(status := Queued, waitingFor := NoWait, claimedBy := None))];
        AppendEventOf(r, WorkflowResumed);
        SyncProjectedTraceSummary(r);
        res := Ok(Queued);
      }
      assert ApplyStep(seen, OnRun(r, ResumeOp)).runs == runs;
      Commit(OnRun(r, ResumeOp));
    }

    // ---- remote tasks ----

    /** Ends a remote task with its output, for the worker that holds it. */
    method CompleteRemoteActivityTask(r: nat, task: nat, worker: string, now: int, grace: int) returns (res: Result<bool, ErrorCode>)
      requires Valid() && lockOrder == []
      modifies this
      ensures Did(OnRun(r, CompleteOp(task, worker, now, grace)))
      ensures res == if r !in Before().runs || task !in Before().runs[r].tasks then Err(NotFound)
                     else if !OwnedByWorker(Before().runs[r].tasks[task], worker, now, grace) then Err(TaskConflict)
                     else Ok(Before().runs[r].run.status.Waiting?)
      ensures res.Ok? ==>
                && r in runs && task in runs[r].tasks && runs[r].tasks[task].status.TaskCompleted?
                && OpenTasks(runs[r]) == OpenTasks(Before().runs[r]) - {task}
                && |OpenTasks(runs[r])| + 1 == |OpenTasks(Before().runs[r])|
                && runs[r].history == Before().runs[r].history && runs[r].trace.summary == Live(runs[r])
                && CompleteTask(runs[r], task, worker, now, grace) == Err(TaskConflict)
    {
      hide Respects, OkTree, OkRuns, RunSteps, Live;
      if r !in runs {
        Commit(OnRun(r, CompleteOp(task, worker, now, grace)));
        return Err(NotFound);
      }
      LockRun(r);
      ghost var seen := State();
      if task !in runs[r].tasks {
        res := Err(NotFound);
      } else if !OwnedByWorker(runs[r].tasks[task], worker, now, grace) {
        res := Err(TaskConflict);
      } else {
        E.CompleteEffect(runs[r], task, worker, now, grace);
        var woken := EndTask(r, task, TaskCompleted);
        res := Ok(woken);
      }
      assert ApplyStep(seen, OnRun(r, CompleteOp(task, worker, now, grace))).runs == runs;
      Commit(OnRun(r, CompleteOp(task, worker, now, grace)));
    }

    /** Ends a task, wakes its run if it waits and projects it. */
    method EndTask(r: nat, task: nat, status: TaskStatus) returns (woken: bool)
      requires r in runs && task in runs[r].tasks
      modifies this`runs
      ensures var v := old(runs[r]);
              runs == old(runs)[r := Sync(Wake(v.(tasks := v.tasks[task := ReleaseTask(v.tasks[task], status)])))]
      ensures woken == old(runs[r].run.status.Waiting?)
    {
      var t := runs[r].tasks[task].(status := status, claimedBy := None, leaseExpiresAt := None);
      runs := runs[r := runs[r].(tasks := runs[r].tasks[task := t])];
      woken := WakeRunIfWaiting(r);
      SyncProjectedTraceSummary(r);
    }

    /** Reschedules a failed remote task while attempts are left, and otherwise fails it. */
    method FailRemoteActivityTask(r: nat, task: nat, worker: string, nonRetryable: bool, now: int, grace: int, delay: int)
      returns (res: Result<TaskStatus, ErrorCode>)
      requires Valid() && lockOrder == []
      modifies this
      ensures Did(OnRun(r, FailOp(task, worker, nonRetryable, now, grace, delay)))
      ensures res == if r !in Before().runs || task !in Before().runs[r].tasks then Err(NotFound)
                     else if !OwnedByWorker(Before().runs[r].tasks[task], worker, now, grace) then Err(TaskConflict)
                     else if Retries(Before().runs[r].tasks[task], nonRetryable) then Ok(TaskQueued) else Ok(TaskFailed)
      ensures res.Ok? ==> r in runs && task in runs[r].tasks && runs[r].tasks[task].status == res.value
      ensures res == Ok(TaskQueued) ==>
                && OpenTasks(runs[r]) == OpenTasks(Before().runs[r]) && runs[r].run == Before().runs[r].run
                && |runs[r].history| == |Before().runs[r].history| + 1
                && runs[r].history[|runs[r].history| - 1].kind == ActivityRetryScheduled(task)
      ensures res == Ok(TaskFailed) ==>
                && OpenTasks(runs[r]) == OpenTasks(Before().runs[r]) - {task}
                && runs[r].history == Before().runs[r].history && runs[r].trace.summary == Live(runs[r])
    {
      hide Respects, OkTree, OkRuns, RunSteps, Live, OpenTasks, Stale, NextSequence;
      if r !in runs {
        Commit(OnRun(r, FailOp(task, worker, nonRetryable, now, grace, delay)));
        return Err(NotFound);
      }
      LockRun(r);
      ghost var seen := State();
      if task !in runs[r].tasks {
        res := Err(NotFound);
      } else if !OwnedByWorker(runs[r].tasks[task], worker, now, grace) {
        res := Err(TaskConflict);
      } else if !nonRetryable && runs[r].tasks[task].attemptCount < runs[r].tasks[task].maxAttempts {
        E.FailEffect(runs[r], task, worker, nonRetryable, now, grace, delay, nextHistoryId);
        var t := runs[r].tasks[task].(status := TaskQueued, claimedBy := None, leaseExpiresAt := None, availableAt := now + delay);
        runs := runs[r := runs[r].(tasks := runs[r].tasks[task := t])];
        AppendEventOf(r, ActivityRetryScheduled(task));
        res := Ok(TaskQueued);
      } else {
        E.FailEffect(runs[r], task, worker, nonRetryable, now, grace, delay, nextHistoryId);
        var _ := EndTask(r, task, TaskFailed);
        res := Ok(TaskFailed);
      }
      assert ApplyStep(seen, OnRun(r, FailOp(task, worker, nonRetryable, now, grace, delay))).runs == runs;
      Commit(OnRun(r, FailOp(task, worker, nonRetryable, now, grace, delay)));
    }

    // ---- projection maintenance ----

    /** Purges a terminal run's projection, and with full its journal too. */
    method PurgeRun(r: nat, full: bool) returns (res: Result<(ProjectionState, bool), ErrorCode>)
      requires Valid() && lockOrder == []
      modifies this
      ensures Did(OnRun(r, if full then PurgeFullOp else PurgeProjectionOp))
      ensures res == if r !in Before().runs then Err(NotFound)
                     else if !Terminal(Before().runs[r].run.status) then Err(RunNotTerminal)
                     else if Before().runs[r].trace.state.JournalExpired? then Ok((JournalExpired, false))
                     else if full then Ok((JournalExpired, true))
                     else Ok((SummaryOnly, !Before().runs[r].trace.state.SummaryOnly?))
    {
      hide Respects, OkTree, OkRuns, RunSteps;
      ghost var op := if full then PurgeFullOp else PurgeProjectionOp;
      if r !in runs {
        Commit(OnRun(r, op));
        return Err(NotFound);
      }
      LockRun(r);
      ghost var seen := State();
      var state := runs[r].trace.state;
      if !Terminal(runs[r].run.status) {
        res := Err(RunNotTerminal);
      } else {
        var shell := Summary(runs[r].run.status, runs[r].run.waitingFor, 0, 0);
        runs := runs[r := runs[r].(trace := runs[r].trace.(summary := shell))];
        if state.JournalExpired? || (!full && state.SummaryOnly?) {
          res := Ok((state, false));
        } else if full {
          runs := runs[r := runs[r].(history := [], journalDeleted := true)];
          runs := runs[r := runs[r].(trace := runs[r].trace.(state := JournalExpired))];
          res := Ok((JournalExpired, true));
        } else {
          runs := runs[r := runs[r].(trace := runs[r].trace.(state := SummaryOnly))];
          res := Ok((SummaryOnly, true));
        }
      }
      assert ApplyStep(seen, OnRun(r, op)).runs == runs;
      Commit(OnRun(r, op));
    }

    /** Reopens a summary-only projection that the journal is ahead of. */
    method RepairRun(r: nat) returns (res: Result<(ProjectionState, RepairReason), ErrorCode>)
      requires Valid() && lockOrder == []
      modifies this
      ensures Did(OnRun(r, RepairOp)) && old(runs.Keys) <= runs.Keys
      ensures r !in Before().runs ==> res == Err(NotFound)
      ensures r in old(runs) ==> r in Before().runs
      ensures r in Before().runs ==>
                && res == Ok((runs[r].trace.state, Repair(Before().runs[r]).1))
                && (res.value.1 == RepairRequested <==> Before().runs[r].trace.state.SummaryOnly? && Stale(Before().runs[r]))
    {
      hide Respects, OkTree, OkRuns, RunSteps;
      if r !in runs {
        Commit(OnRun(r, RepairOp));
        return Err(NotFound);
      }
      ghost var held := Held();
      LockRun(r);
      RespectsKeys(old(State()), State(), held);
      ghost var seen := State();
      var reason;
      match runs[r].trace.state {
        case JournalExpired => reason := HistoryExpired;
        case SummaryOnly =>
          if runs[r].trace.lastProjectedHistoryId >= LatestId(runs[r].history) {
            reason := NoEventsToProject;
          } else {
            runs := runs[r := runs[r].(trace := runs[r].trace.(state := ProjectionState.CatchingUp))];
            reason := RepairRequested;
          }
        case CatchingUp => reason := AlreadyCatchingUp;
        case UpToDate => reason := AlreadyUpToDate;
      }
      assert ApplyStep(seen, OnRun(r, RepairOp)).runs == runs;
      Commit(OnRun(r, RepairOp));
      return Ok((runs[r].trace.state, reason));
    }

    /** Repairs the listed runs one by one. No listed run is missing when its turn comes. */
    method BackfillProjections(candidates: seq<nat>, dryRun: bool) returns (res: Result<Backfill, ErrorCode>)
      requires Valid() && lockOrder == []
      modifies this
      ensures Valid() && lockOrder == [] && begun == old(begun) && old(committed) <= committed
      ensures dryRun ==> committed == old(committed) && State() == old(State())
      ensures (forall c :: c in candidates ==> c in old(runs)) ==> res.Ok?
      ensures res.Ok? ==> Tallied(res.value, candidates, |candidates|, dryRun)
    {
      hide Inv, RunSteps, Repair, Stale, Tallied, AddResult;
      var b := Backfill(|candidates|, 0, 0, []);
      TalliedStart(candidates, dryRun);
      var n: nat := 0;
      while n < |candidates|
        invariant n <= |candidates| && Tallied(b, candidates, n, dryRun)
        invariant Valid() && lockOrder == [] && begun == old(begun) && old(committed) <= committed
        invariant old(runs.Keys) <= runs.Keys && (dryRun ==> committed == old(committed) && State() == old(State()))
      {
        var action := WouldRepair;
        if !dryRun {
          assert candidates[n] in candidates;
          var repaired := RepairRun(candidates[n]);
          if repaired.Err? {
            return Err(repaired.error);
          }
          action := if repaired.value.1 == RepairRequested then RepairWasRequested else SkippedRun;
        }
        TalliedNext(b, candidates, n, dryRun, action);
        b := AddResult(b, candidates[n], action);
        n := n + 1;
      }
      return Ok(b);
    }

    lemma {:induction false} TalliedStart(candidates: seq<nat>, dryRun: bool)
      ensures Tallied(Backfill(|candidates|, 0, 0, []), candidates, 0, dryRun)
    {
    }
  }
}
