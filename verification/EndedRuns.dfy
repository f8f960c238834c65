/** What may still happen to a run after its end: exactly when nothing, and how the rest comes about. */
module EndedRuns {
  import opened Basics
  import opened RunState
  import opened RunInvariants
  import opened RunLifecycle
  import opened RunEffects
  import opened EngineDb
  import opened EngineInvariant
  import opened EngineTheorems

  // ---- ends that leave tasks open ----

  ghost predicate AllTidy(db: Db)
  {
    forall x :: x in db.runs ==> Tidy(db.runs[x])
  }

  /** If the step completes or fails a run, the run has no open task. */
  predicate CleanEnd(db: Db, s: Step)
  {
    s.EndRunOf? && Enabled(db, s) && !ClosesTasks(s.status) ==> OpenTasks(db.runs[s.r]) == {}
  }

  ghost predicate CleanEnds(db: Db, steps: seq<Step>)
  {
    forall i: nat :: i < |steps| ==> CleanEnd(RunSteps(db, steps[..i]), steps[i])
  }

  ghost predicate TidyThroughout(db: Db, steps: seq<Step>)
  {
    forall i: nat :: i <= |steps| ==> AllTidy(RunSteps(db, steps[..i]))
  }

  lemma {:induction false} WokenTidy(db: Db, runs: map<nat, RunView>, x: nat, y: nat, next: nat)
    requires x in db.runs && y in runs && OkView(runs[y], next) && Tidy(runs[y])
    ensures y in WakeParent(db, runs, x) && Tidy(WakeParent(db, runs, x)[y])
  {
    hide WakeParent, OpenTasks;
    WakeParentEffect(db, runs, x, y);
  }

  lemma {:induction false} TerminatedTidy(v: RunView, next: nat)
    requires OkView(v, next) && !Terminal(v.run.status)
    ensures Tidy(TerminateRows(v, next))
  {
    TerminateKeeps(v, next);
  }

  lemma {:induction false} TerminateKeepsTidy(db: Db, r: nat, y: nat)
    requires Inv(db) && AllTidy(db) && r in db.runs && y in db.runs
    ensures y in Terminate(db, r).runs && Tidy(Terminate(db, r).runs[y])
  {
    hide OkView, Tidy, TerminateRows, WakeParent, OkTree;
    if !Terminal(db.runs[r].run.status) {
      var s := Closure(db, r);
      if y in s {
        var id := db.nextHistoryId + |EarlierIn(db, s, y)|;
        ClosureLive(db, r, y);
        ViewLater(db.runs[y], db.nextHistoryId, id);
        TerminatedTidy(db.runs[y], id);
      }
      TerminatedRunKeeps(db, s, y);
      WokenTidy(db, TerminatedRuns(db, s), r, y, db.nextHistoryId + |s|);
    }
  }

  lemma {:induction false} EndingKeepsTidy(db: Db, s: Step, r: nat, y: nat)
    requires Inv(db) && AllTidy(db) && Enabled(db, s) && CleanEnd(db, s) && y in db.runs
    requires (s.EndRunOf? && s.r == r) || (s.ContinueAsNew? && s.r == r)
    ensures y in Effect(db, s).runs && Tidy(Effect(db, s).runs[y])
  {
    hide OkView, Tidy, EndRun, WakeParent, OkTree;
    var id := db.nextHistoryId;
    var status := if s.EndRunOf? then s.status else RunStatus.ContinuedAsNew;
    var ended := db.runs[r := EndRun(db.runs[r], status, s.consumed, id)];
    EndKeeps(db.runs[r], status, s.consumed, id);
    EndKeepsTidy(db.runs[r], status, s.consumed, id);
    ViewLater(db.runs[y], id, id + 1);
    WokenTidy(db, ended, r, y, id + 1);
  }

  lemma {:induction false} StepKeepsTidy(db: Db, s: Step, y: nat)
    requires Inv(db) && AllTidy(db) && CleanEnd(db, s) && y in ApplyStep(db, s).runs
    ensures Tidy(ApplyStep(db, s).runs[y])
  {
    if Enabled(db, s) && y in db.runs {
      hide OkView, Tidy, WakeParent, EndRun;
      match s
      case OnRun(r, op) => ApplyKeepsTidy(db.runs[r], op, db.nextHistoryId);
      case TerminateRun(r) => TerminateKeepsTidy(db, r, y);
      case EndRunOf(r, _, _) => EndingKeepsTidy(db, s, r, y);
      case ContinueAsNew(r, _, _) => EndingKeepsTidy(db, s, r, y);
      case _ =>
    } else if Enabled(db, s) {
      NewRunsTidy(db, s, y);
    }
  }

  lemma {:induction false} NewRunsTidy(db: Db, s: Step, y: nat)
    requires Enabled(db, s) && y !in db.runs && y in Effect(db, s).runs
    ensures Tidy(Effect(db, s).runs[y])
  {
    hide WakeParent, EndRun;
    match s
    case TerminateRun(r) =>
      if !Terminal(db.runs[r].run.status) { WakeParentEffect(db, TerminatedRuns(db, Closure(db, r)), r, r); }
    case EndRunOf(r, status, consumed) =>
      WakeParentEffect(db, db.runs[r := EndRun(db.runs[r], status, consumed, db.nextHistoryId)], r, r);
    case ContinueAsNew(r, consumed, c) =>
      WakeParentEffect(db, db.runs[r := EndRun(db.runs[r], RunStatus.ContinuedAsNew, consumed, db.nextHistoryId)], r, r);
    case _ =>
  }

  lemma {:induction false} UncleanEndUntidy(db: Db, s: Step)
    requires Inv(db) && AllTidy(db) && !CleanEnd(db, s)
    ensures s.EndRunOf? && s.r in ApplyStep(db, s).runs && !Tidy(ApplyStep(db, s).runs[s.r])
  {
    hide WakeParent, EndRun;
    var ended := EndRun(db.runs[s.r], s.status, s.consumed, db.nextHistoryId);
    EndKeepsTidy(db.runs[s.r], s.status, s.consumed, db.nextHistoryId);
    EndRunIdentity(db.runs[s.r], s.status, s.consumed, db.nextHistoryId);
    EndedNotWoken(db, db.runs[s.r := ended], s.r, s.r);
  }

  lemma {:induction false} StepTidyIff(db: Db, s: Step)
    requires Inv(db) && AllTidy(db)
    ensures AllTidy(ApplyStep(db, s)) <==> CleanEnd(db, s)
  {
    hide Inv, Tidy, CleanEnd;
    if CleanEnd(db, s) {
      forall y | y in ApplyStep(db, s).runs ensures Tidy(ApplyStep(db, s).runs[y]) {
        StepKeepsTidy(db, s, y);
      }
    } else {
      UncleanEndUntidy(db, s);
    }
  }

  lemma {:induction false} NextPrefix(db: Db, steps: seq<Step>, i: nat)
    requires i < |steps|
    ensures RunSteps(db, steps[..i + 1]) == ApplyStep(RunSteps(db, steps[..i]), steps[i])
  {
    assert steps[..i + 1][..i] == steps[..i];
  }

  lemma {:induction false} TidyUpTo(db: Db, steps: seq<Step>, i: nat)
    requires Inv(db) && AllTidy(db) && CleanEnds(db, steps) && i <= |steps|
    ensures AllTidy(RunSteps(db, steps[..i]))
  {
    if i > 0 {
      TidyUpTo(db, steps, i - 1);
      InvAlways(db, steps[..i - 1]);
      NextPrefix(db, steps, i - 1);
      StepTidyIff(RunSteps(db, steps[..i - 1]), steps[i - 1]);
    }
  }

  /** In all states of a schedule no ended run has an open task and a deleted journal stays deleted,
      exactly when each run that completes or fails has no open task at that moment. */
  lemma {:induction false} TidyIffCleanEnds(db: Db, steps: seq<Step>)
    requires Inv(db) && AllTidy(db)
    ensures TidyThroughout(db, steps) <==> CleanEnds(db, steps)
  {
    hide Inv, AllTidy, CleanEnd;
    if CleanEnds(db, steps) {
      forall i: nat | i <= |steps| ensures AllTidy(RunSteps(db, steps[..i])) {
        TidyUpTo(db, steps, i);
      }
    }
    if TidyThroughout(db, steps) {
      forall i: nat | i < |steps| ensures CleanEnd(RunSteps(db, steps[..i]), steps[i]) {
        InvAlways(db, steps[..i]);
        NextPrefix(db, steps, i);
        assert AllTidy(RunSteps(db, steps[..i])) && AllTidy(RunSteps(db, steps[..i + 1]));
        StepTidyIff(RunSteps(db, steps[..i]), steps[i]);
      }
    }
  }

  // ---- when an ended run's history is final ----

  ghost predicate SettledAfter(db: Db, steps: seq<Step>, y: nat)
    requires y in db.runs
  {
    y in RunSteps(db, steps).runs && Settled(db.runs[y], RunSteps(db, steps).runs[y])
  }

  lemma {:induction false} StepSettles(db: Db, s: Step, y: nat)
    requires Inv(db) && y in db.runs && Terminal(db.runs[y].run.status) && NoneMayRetry(db.runs[y])
    ensures var later := ApplyStep(db, s).runs;
            && y in later && Settled(db.runs[y], later[y]) && NoneMayRetry(later[y]) && later[y].run == db.runs[y].run
            && (db.runs[y].journalDeleted ==> later[y].journalDeleted)
  {
    hide OkView, Settled, NoneMayRetry, OkTree, Apply;
    SettledReflexive(db.runs[y]);
    StepAdvances(db, s, y);
    if s.OnRun? && s.r == y {
      if Enabled(db, s) { ApplySettles(db.runs[y], s.op, db.nextHistoryId); }
    } else {
      EndedLeftAlone(db, s, y);
    }
  }

  lemma {:induction false} SettledReflexive(v: RunView)
    ensures Settled(v, v)
  {
  }

  lemma {:induction false} SettlesAlways(db: Db, steps: seq<Step>, y: nat)
    requires Inv(db) && y in db.runs && Terminal(db.runs[y].run.status) && NoneMayRetry(db.runs[y])
    ensures SettledAfter(db, steps, y)
    ensures var w := RunSteps(db, steps).runs[y];
            NoneMayRetry(w) && w.run == db.runs[y].run && (db.runs[y].journalDeleted ==> w.journalDeleted)
  {
    hide OkView, Settled, NoneMayRetry, OkTree;
    SettledReflexive(db.runs[y]);
    if steps != [] {
      var before := steps[..|steps| - 1];
      SettlesAlways(db, before, y);
      InvAlways(db, before);
      InvAlways(db, steps);
      StepSettles(RunSteps(db, before), steps[|steps| - 1], y);
      ExpiredIsEmpty(RunSteps(db, steps).runs[y], RunSteps(db, steps).nextHistoryId);
      SettledTransitive(db.runs[y], RunSteps(db, before).runs[y], RunSteps(db, steps).runs[y]);
    }
  }

  lemma {:induction false} ExpiredIsEmpty(v: RunView, next: nat)
    requires OkView(v, next)
    ensures v.trace.state.JournalExpired? ==> v.history == []
  {
  }

  function OnRuns(y: nat, ops: seq<RunOp>): seq<Step>
  {
    if ops == [] then [] else OnRuns(y, ops[..|ops| - 1]) + [OnRun(y, ops[|ops| - 1])]
  }

  lemma {:induction false} AfterOnRun(db: Db, y: nat, op: RunOp)
    requires y in db.runs && Allowed(db.runs[y], op)
    ensures var later := ApplyStep(db, OnRun(y, op));
            && y in later.runs && later.runs[y] == Apply(db.runs[y], op, db.nextHistoryId)
            && (op.ClaimTaskOp? ==> later.nextHistoryId == db.nextHistoryId)
  {
  }

  /** The claimant's calls are open to it in any state, and append the event. */
  lemma {:induction false} ReopenedBy(db: Db, y: nat, task: nat)
    requires Inv(db) && y in db.runs && task in db.runs[y].tasks && MayRetry(db.runs[y].tasks[task])
    ensures var v := db.runs[y]; var later := RunSteps(db, OnRuns(y, RetryCalls(task, v.tasks[task])));
            && y in later.runs && later.runs[y].trace.state.CatchingUp? && later.runs[y].run == v.run
            && later.runs[y].history == v.history + [Event(db.nextHistoryId, |v.history| + 1, ActivityRetryScheduled(task))]
  {
    var v := db.runs[y];
    var t := v.tasks[task];
    var ops := RetryCalls(task, t);
    var steps := OnRuns(y, ops);
    RetryReopens(v, task, db.nextHistoryId);
    assert OnRuns(y, []) == [] && RunSteps(db, []) == db;
    hide OkRuns, OkTree, ApplyAll;
    if t.status.TaskQueued? {
      var claimed := RunSteps(db, [OnRun(y, ops[0])]);
      assert ops == [ops[0], ops[1]] && ops[..1] == [ops[0]] && steps == [OnRun(y, ops[0]), OnRun(y, ops[1])];
      AfterOnRun(db, y, ops[0]);
      assert steps[..1] == [OnRun(y, ops[0])];
      AfterOnRun(claimed, y, ops[1]);
      TwoCalls(v, ops[0], ops[1], db.nextHistoryId);
    } else {
      assert ops == [ops[0]] && ops[..0] == [] && steps == [OnRun(y, ops[0])];
      AfterOnRun(db, y, ops[0]);
      OneCall(v, ops[0], db.nextHistoryId);
    }
  }

  lemma {:induction false} OneCall(v: RunView, op: RunOp, id: nat)
    ensures ApplyAll(v, [op], id) == Apply(v, op, id)
  {
    assert ApplyAll(Apply(v, op, id), [], id) == Apply(v, op, id);
  }

  lemma {:induction false} TwoCalls(v: RunView, op: RunOp, next: RunOp, id: nat)
    ensures ApplyAll(v, [op, next], id) == Apply(Apply(v, op, id), next, id)
  {
    assert [op, next][1..] == [next];
    OneCall(Apply(v, op, id), next, id);
  }

  /** An ended run's history and purge are final, whatever comes, exactly when none of the tasks it left
      open may be retried. */
  lemma {:induction false} FinalIff(db: Db, y: nat)
    requires Inv(db) && y in db.runs && Terminal(db.runs[y].run.status)
    ensures (forall steps: seq<Step> :: SettledAfter(db, steps, y)) <==> NoneMayRetry(db.runs[y])
  {
    var v := db.runs[y];
    hide Inv;
    if NoneMayRetry(v) {
      forall steps: seq<Step> ensures SettledAfter(db, steps, y) {
        SettlesAlways(db, steps, y);
      }
    } else {
      var task :| task in v.tasks && MayRetry(v.tasks[task]);
      ReopenedBy(db, y, task);
      assert !SettledAfter(db, OnRuns(y, RetryCalls(task, v.tasks[task])), y);
    }
  }

  /** So where ends are clean, nothing of an ended run comes back. */
  lemma {:induction false} CleanEndsFinal(steps: seq<Step>, more: seq<Step>, y: nat)
    requires CleanEnds(EmptyDb, steps)
    requires y in RunSteps(EmptyDb, steps).runs && Terminal(RunSteps(EmptyDb, steps).runs[y].run.status)
    ensures SettledAfter(RunSteps(EmptyDb, steps), more, y)
  {
    Reachable(steps);
    assert AllTidy(EmptyDb);
    TidyUpTo(EmptyDb, steps, |steps|);
    assert steps[..|steps|] == steps;
    var v := RunSteps(EmptyDb, steps).runs[y];
    forall t | t in v.tasks ensures !MayRetry(v.tasks[t]) {
      assert OpenTask(v.tasks[t]) ==> t in OpenTasks(v);
    }
    SettlesAlways(RunSteps(EmptyDb, steps), more, y);
  }

  // ---- retention ----

  /** In every state, retention deletes an unprojected journal of a cancelled run alone. */
  lemma {:induction false} RetentionWaits(steps: seq<Step>, y: nat)
    requires y in RunSteps(EmptyDb, steps).runs
    requires Reapable(RunSteps(EmptyDb, steps).runs[y]) && !RunSteps(EmptyDb, steps).runs[y].run.status.Cancelled?
    ensures !Stale(RunSteps(EmptyDb, steps).runs[y])
  {
    Reachable(steps);
  }

  // ---- schedules that show it ----

  /** One root run, run 1. */
  function One(v: RunView, instance: InstanceStatus, next: nat): Db
  {
    Db(map[1 := v], map[], map[1 := instance], next)
  }

  lemma {:induction false} OneStep(v: RunView, op: RunOp, id: nat)
    requires Allowed(v, op)
    ensures ApplyStep(One(v, ActiveInstance, id), OnRun(1, op))
            == One(Apply(v, op, id), ActiveInstance, NextId(v, Apply(v, op, id), id))
    ensures ApplyStep(One(v, EndedInstance(v.run.status), id), OnRun(1, op))
            == One(Apply(v, op, id), EndedInstance(v.run.status), NextId(v, Apply(v, op, id), id))
  {
  }

  lemma {:induction false} OneEnds(v: RunView, status: RunStatus, id: nat)
    requires v.run.status.Running? && v.run.parent.None? && v.run.instance == 1
    requires status.Failed? || status.Cancelled?
    ensures ApplyStep(One(v, ActiveInstance, id), EndRunOf(1, status, {}))
            == One(EndRun(v, status, {}, id), EndedInstance(status), id + 1)
  {
    var db := One(v, ActiveInstance, id);
    assert InstancesOf(db, {1}) == {1};
    assert CloseLinks(db.links, {1}, status) == map[];
    hide EndRun, InstancesOf;
    assert EndInstances(db, {1}, status) == map[1 := EndedInstance(status)];
  }

  const RootRun: Run := Run(Queued, NoWait, None, 1, None, "", 0)

  lemma {:induction false} OneStarts()
    ensures ApplyStep(EmptyDb, StartRun(1, 1)) == One(NewRun(RootRun, 1), ActiveInstance, 2)
  {
  }

  /** A run is cancelled by its own activation while its trace is up to date, and retention deletes it. */
  const OutrunSteps: seq<Step> :=
    [StartRun(1, 1), OnRun(1, ClaimRunOp("engine")), EndRunOf(1, RunStatus.Cancelled, {}), OnRun(1, ReapOp)]

  /** Its end is gone before anything projected it, and its trace goes on saying that it runs. */
  lemma {:induction false} OutrunReachable()
    ensures var ended := RunSteps(EmptyDb, OutrunSteps[..3]).runs; var reaped := RunSteps(EmptyDb, OutrunSteps).runs;
            && 1 in ended && ended[1].run.status.Cancelled? && Reapable(ended[1]) && Stale(ended[1])
            && 1 in reaped && reaped[1].history == [] && reaped[1].trace.state.JournalExpired?
            && reaped[1].run.status.Cancelled? && ReadSummary(reaped[1]).status.Running?
  {
    var s := OutrunSteps;
    var started := NewRun(RootRun, 1);
    var running := Running;
    var ended := EndRun(running, RunStatus.Cancelled, {}, 2);
    FirstStages();
    OutrunView();
    hide ClaimRun, EndRun, LatestId, Reap, Reapable, ReadSummary, Stale;
    assert RunSteps(EmptyDb, s[..0]) == EmptyDb;
    NextPrefix(EmptyDb, s, 0);
    OneStarts();
    NextPrefix(EmptyDb, s, 1);
    OneStep(started, ClaimRunOp("engine"), 2);
    NextPrefix(EmptyDb, s, 2);
    OneEnds(running, RunStatus.Cancelled, 2);
    NextPrefix(EmptyDb, s, 3);
    OneStep(ended, ReapOp, 3);
    assert s[..4] == s;
  }

  lemma {:induction false} OutrunView()
    ensures var ended := EndRun(Running, RunStatus.Cancelled, {}, 2);
            && ended.run == RootRun.(status := RunStatus.Cancelled) && Reapable(ended) && Stale(ended) && |ended.history| == 2
            && Reap(ended).history == [] && Reap(ended).trace == Running.trace.(state := JournalExpired)
            && Reap(ended).run == ended.run && ReadSummary(Reap(ended)).status.Running?
  {
    var ended := EndRun(Running, RunStatus.Cancelled, {}, 2);
    assert ended.history == [Event(1, 1, WorkflowStarted), Event(2, 2, WorkflowEnded(RunStatus.Cancelled))];
    assert ended.history[..1] == [Event(1, 1, WorkflowStarted)];
  }

  const LateTask: Task := Task(TaskQueued, true, None, None, 0, 0, 0, 2)

  /** A run waits on a remote task that a worker has claimed, a signal wakes it, and it fails. */
  const FailingSteps: seq<Step> :=
    [StartRun(1, 1), OnRun(1, ClaimRunOp("engine")), OnRun(1, ParkOp(OnOther, {}, Some((1, LateTask)), None)),
     OnRun(1, ClaimTaskOp(1, true, "worker", 0, 10)), OnRun(1, SignalOp(1)), OnRun(1, ClaimRunOp("engine")),
     EndRunOf(1, Failed, {})]

  const LateFail: RunOp := FailOp(1, "worker", false, 5, 0, 1)

  const Running: RunView :=
    RunView(RootRun.(status := RunStatus.Running, claimedBy := Some("engine")), [Event(1, 1, WorkflowStarted)],
            Trace(Summary(RunStatus.Running, NoWait, 0, 0), UpToDate, 1, 1), map[], map[], false)

  const Parked: RunView :=
    Running.(run := RootRun.(status := Waiting, waitingFor := OnOther), tasks := map[1 := LateTask],
             trace := Running.trace.(summary := Summary(Waiting, OnOther, 1, 0)))

  const Held: RunView :=
    Parked.(tasks := map[1 := LateTask.(status := TaskClaimed, claimedBy := Some("worker"), leaseExpiresAt := Some(10),
                                        leaseDuration := 10, attemptCount := 1)])

  const Woken: RunView :=
    Held.(run := RootRun, inbox := map[1 := InboxItem(SignalItem, Pending)],
          trace := Held.trace.(summary := Summary(Queued, NoWait, 1, 1)))

  const Again: RunView :=
    Woken.(run := Running.run, trace := Held.trace.(summary := Summary(RunStatus.Running, NoWait, 1, 1)))

  const FailedRun: RunView :=
    Again.(run := RootRun.(status := Failed),
           history := [Event(1, 1, WorkflowStarted), Event(2, 2, WorkflowEnded(Failed))],
           trace := Trace(Summary(RunStatus.Running, NoWait, 1, 1), CatchingUp, 2, 1))

  lemma {:induction false} FirstStages()
    ensures ClaimRun(NewRun(RootRun, 1), "engine") == Running
    ensures ParkRun(Running, OnOther, {}, Some((1, LateTask)), None) == Parked
  {
    var p := Parked.(trace := Running.trace);
    assert OpenTasks(p) == {1} && OpenInbox(p) == {};
    assert Consume(Running, {}) == Running;
  }

  lemma {:induction false} LastStages()
    ensures ClaimTask(Parked, 1, true, "worker", 0, 10) == Ok(Held)
    ensures Signal(Held, 1) == Ok(Woken)
    ensures ClaimRun(Woken, "engine") == Again
    ensures EndRun(Again, Failed, {}, 2) == FailedRun
  {
    assert Parked.tasks[1 := Held.tasks[1]] == Held.tasks;
    var w := Woken.(trace := Held.trace);
    assert OpenTasks(w) == {1} && OpenInbox(w) == {1};
    assert Consume(Again, {}) == Again;
  }

  lemma {:induction false} ParkedReachable()
    ensures RunSteps(EmptyDb, FailingSteps[..3]) == One(Parked, ActiveInstance, 2)
  {
    var s := FailingSteps;
    FirstStages();
    hide ClaimRun, ParkRun;
    assert RunSteps(EmptyDb, s[..0]) == EmptyDb;
    NextPrefix(EmptyDb, s, 0);
    OneStarts();
    NextPrefix(EmptyDb, s, 1);
    OneStep(NewRun(RootRun, 1), ClaimRunOp("engine"), 2);
    NextPrefix(EmptyDb, s, 2);
    OneStep(Running, ParkOp(OnOther, {}, Some((1, LateTask)), None), 2);
  }

  lemma {:induction false} AgainReachable()
    ensures RunSteps(EmptyDb, FailingSteps[..6]) == One(Again, ActiveInstance, 2)
  {
    var s := FailingSteps;
    ParkedReachable();
    LastStages();
    hide ClaimTask, Signal, ClaimRun, EndRun, RunSteps, ApplyStep;
    NextPrefix(EmptyDb, s, 3);
    OneStep(Parked, ClaimTaskOp(1, true, "worker", 0, 10), 2);
    NextPrefix(EmptyDb, s, 4);
    OneStep(Held, SignalOp(1), 2);
    NextPrefix(EmptyDb, s, 5);
    OneStep(Woken, ClaimRunOp("engine"), 2);
  }

  lemma {:induction false} FailsReachable()
    ensures RunSteps(EmptyDb, FailingSteps) == One(FailedRun, EndedInstance(Failed), 3)
  {
    var s := FailingSteps;
    AgainReachable();
    LastStages();
    hide EndRun, RunSteps, ApplyStep;
    NextPrefix(EmptyDb, s, 6);
    OneEnds(Again, Failed, 2);
    assert s[..7] == s;
  }

  lemma {:induction false} LateViews()
    ensures OpenTasks(FailedRun) == {1} && MayRetry(FailedRun.tasks[1])
    ensures Apply(FailedRun, LateFail, 3).history == FailedRun.history + [Event(3, 3, ActivityRetryScheduled(1))]
    ensures var p := Apply(FailedRun, PurgeFullOp, 3);
            && p.history == [] && p.trace.state.JournalExpired?
            && Apply(p, LateFail, 3).history == [Event(3, 1, ActivityRetryScheduled(1))]
            && Apply(p, LateFail, 3).trace.state.CatchingUp?
  {
  }

  /** The worker then reports its failed attempt: the retry is written after the end, and the trace of a
      run whose journal was deleted meanwhile comes back to catch up with that one event. */
  lemma {:induction false} LateRetryReachable()
    ensures var failed := RunSteps(EmptyDb, FailingSteps).runs;
            1 in failed && failed[1].run.status.Failed? && OpenTasks(failed[1]) == {1} && !NoneMayRetry(failed[1])
    ensures var late := RunSteps(EmptyDb, FailingSteps + [OnRun(1, LateFail)]).runs;
            1 in late && late[1].history == [Event(1, 1, WorkflowStarted), Event(2, 2, WorkflowEnded(Failed)),
                                             Event(3, 3, ActivityRetryScheduled(1))]
    ensures var purged := RunSteps(EmptyDb, FailingSteps + [OnRun(1, PurgeFullOp)]).runs;
            1 in purged && purged[1].history == [] && purged[1].trace.state.JournalExpired?
    ensures var back := RunSteps(EmptyDb, FailingSteps + [OnRun(1, PurgeFullOp), OnRun(1, LateFail)]).runs;
            1 in back && back[1].history == [Event(3, 1, ActivityRetryScheduled(1))] && back[1].trace.state.CatchingUp?
  {
    FailsReachable();
    LateViews();
    hide Apply, RunSteps, ApplyStep, MayRetry, OpenTasks;
    AfterFail(LateFail);
    OneStep(FailedRun, LateFail, 3);
    AfterFail(PurgeFullOp);
    OneStep(FailedRun, PurgeFullOp, 3);
    var purged := Apply(FailedRun, PurgeFullOp, 3);
    var t := FailingSteps + [OnRun(1, PurgeFullOp), OnRun(1, LateFail)];
    NextPrefix(EmptyDb, t, 8);
    assert t[..8] == FailingSteps + [OnRun(1, PurgeFullOp)] && t[..9] == t;
    EndedStep(purged, LateFail);
  }

  lemma {:induction false} AfterFail(op: RunOp)
    ensures RunSteps(EmptyDb, FailingSteps + [OnRun(1, op)]) == ApplyStep(RunSteps(EmptyDb, FailingSteps), OnRun(1, op))
  {
    var t := FailingSteps + [OnRun(1, op)];
    NextPrefix(EmptyDb, t, 7);
    assert t[..7] == FailingSteps && t[..8] == t;
  }

  lemma {:induction false} EndedStep(v: RunView, op: RunOp)
    requires Allowed(v, op)
    ensures ApplyStep(One(v, EndedInstance(Failed), 3), OnRun(1, op))
            == One(Apply(v, op, 3), EndedInstance(Failed), NextId(v, Apply(v, op, 3), 3))
  {
  }
}
