/** What holds in every state of the engine's tables, whatever the schedule. */
module EngineTheorems {
  import opened Basics
  import opened RunState
  import opened RunInvariants
  import opened RunLifecycle
  import opened EngineDb
  import opened EngineInvariant

  lemma {:induction false} Reachable(steps: seq<Step>)
    ensures Inv(RunSteps(EmptyDb, steps))
  {
    InvAlways(EmptyDb, steps);
  }

  // ---- readers ----

  /** A reader of a trace whose journal has not expired sees the live run: the projected columns
      equal it, or the reader is sent to it. */
  lemma {:induction false} ReadersSeeLiveRun(steps: seq<Step>, r: nat)
    requires r in RunSteps(EmptyDb, steps).runs
    requires !RunSteps(EmptyDb, steps).runs[r].trace.state.JournalExpired?
    ensures ReadSummary(RunSteps(EmptyDb, steps).runs[r]) == Live(RunSteps(EmptyDb, steps).runs[r])
  {
    Reachable(steps);
  }

  /** A trace reported as up to date caches the live run and has nothing left to project. */
  lemma {:induction false} ReportedUpToDate(steps: seq<Step>, r: nat)
    requires r in RunSteps(EmptyDb, steps).runs
    requires EffectiveProjectionState(RunSteps(EmptyDb, steps).runs[r]).UpToDate?
    ensures var v := RunSteps(EmptyDb, steps).runs[r];
            v.trace.summary == Live(v) && NextUnprojected(v.history, v.trace.lastProjectedHistoryId).None?
  {
    Reachable(steps);
    var v := RunSteps(EmptyDb, steps).runs[r];
    NothingUnprojected(v.history, v.trace.lastProjectedHistoryId);
  }

  lemma {:induction false} LatestIsMost(h: seq<Event>, last: nat)
    ensures LatestId(h) > last <==> exists i: nat :: i < |h| && h[i].id > last
  {
    if h != [] {
      var front := h[..|h| - 1];
      LatestIsMost(front, last);
      assert forall i: nat :: i < |front| ==> h[i] == front[i];
    }
  }

  predicate HasUnprojected(v: RunView)
  {
    exists i: nat :: i < |v.history| && v.history[i].id > v.trace.lastProjectedHistoryId
  }

  /** A reader is sent to the live run of a trace that catches up, was purged, shows a continued run, or has
      not expired and lacks an event; only an up-to-date one that lacks an event is reported otherwise than it says. */
  lemma {:induction false} ReadsLiveWhen(v: RunView)
    ensures ReadsLive(v) <==> || v.trace.state.CatchingUp? || v.trace.state.SummaryOnly? || v.trace.summary.status.ContinuedAsNew?
                              || (v.trace.state.UpToDate? && HasUnprojected(v))
    ensures EffectiveProjectionState(v) == if v.trace.state.UpToDate? && HasUnprojected(v) then CatchingUp else v.trace.state
  {
    LatestIsMost(v.history, v.trace.lastProjectedHistoryId);
  }

  lemma {:induction false} NothingUnprojected(h: seq<Event>, last: nat)
    ensures NextUnprojected(h, last).None? <==> LatestId(h) <= last
    decreases |h|
  {
    if h != [] {
      NothingUnprojected(h[1..], last);
      LatestOfRest(h);
    }
  }

  lemma {:induction false} LatestOfRest(h: seq<Event>)
    requires h != []
    ensures LatestId(h) == if LatestId(h[1..]) > h[0].id then LatestId(h[1..]) else h[0].id
  {
    if |h| > 1 {
      LatestOfRest(h[..|h| - 1]);
      assert h[1..][..|h| - 2] == h[..|h| - 1][1..];
    }
  }

  // ---- lifecycle ----

  /** In every state: events are numbered from 1, nothing follows a termination, no open task belongs to
      a run that was cancelled, terminated or continued as new, and a purged trace belongs to an ended
      run, an expired one to one without history. */
  lemma {:induction false} LifecycleAlways(steps: seq<Step>, r: nat)
    requires r in RunSteps(EmptyDb, steps).runs
    ensures var v := RunSteps(EmptyDb, steps).runs[r];
            && (forall i: nat :: i < |v.history| ==> v.history[i].sequenceNo == i + 1)
            && (forall i: nat :: i < |v.history| && v.history[i].kind.WorkflowTerminated? ==>
                  i == |v.history| - 1 && v.run.status.Terminated?)
            && (forall t :: t in v.tasks && OpenTask(v.tasks[t]) ==> !ClosesTasks(v.run.status))
            && (v.trace.state.SummaryOnly? || v.trace.state.JournalExpired? || v.journalDeleted ==> Terminal(v.run.status))
            && (v.trace.state.JournalExpired? ==> v.journalDeleted && v.history == [])
  {
    Reachable(steps);
  }

  lemma {:induction false} WakeOnChildAdvances(v: RunView, key: string, next: nat)
    requires OkView(v, next)
    ensures Advances(v, WakeOnChild(v, key))
  {
  }

  lemma {:induction false} EndRunAdvances(v: RunView, status: RunStatus, consumed: set<nat>, id: nat)
    requires OkView(v, id) && v.run.status.Running?
    ensures Advances(v, EndRun(v, status, consumed, id))
  {
  }

  lemma {:induction false} TerminateRowsAdvances(v: RunView, id: nat, next: nat)
    requires OkView(v, next) && !Terminal(v.run.status)
    ensures Advances(v, TerminateRows(v, id))
  {
  }

  lemma {:induction false} WakeParentAdvances(db: Db, runs: map<nat, RunView>, x: nat, y: nat, v: RunView, next: nat)
    requires x in db.runs && y in runs && OkView(runs[y], next) && Advances(v, runs[y])
    ensures y in WakeParent(db, runs, x) && Advances(v, WakeParent(db, runs, x)[y])
  {
    hide OkView, Advances, WakeOnChild, WakeParent;
    WakeParentEffect(db, runs, x, y);
    WakeOnChildAdvances(runs[y], db.runs[x].run.childKey, next);
    AdvancesTransitive(v, runs[y], WakeOnChild(runs[y], db.runs[x].run.childKey));
  }

  lemma {:induction false} EndingAdvances(db: Db, s: Step, r: nat, y: nat)
    requires Inv(db) && Enabled(db, s) && y in db.runs
    requires (s.EndRunOf? && s.r == r) || (s.ContinueAsNew? && s.r == r)
    ensures y in Effect(db, s).runs && Advances(db.runs[y], Effect(db, s).runs[y])
  {
    hide OkView, Advances, EndRun, WakeParent, OkTree;
    var id := db.nextHistoryId;
    var status := if s.EndRunOf? then s.status else RunStatus.ContinuedAsNew;
    var ended := db.runs[r := EndRun(db.runs[r], status, s.consumed, id)];
    EndRunAdvances(db.runs[r], status, s.consumed, id);
    EndKeeps(db.runs[r], status, s.consumed, id);
    ViewLater(db.runs[y], id, id + 1);
    AdvancesReflexive(db.runs[y], id);
    WakeParentAdvances(db, ended, r, y, db.runs[y], id + 1);
  }

  lemma {:induction false} TerminatingAdvances(db: Db, r: nat, y: nat)
    requires Inv(db) && r in db.runs && y in db.runs
    ensures y in Terminate(db, r).runs && Advances(db.runs[y], Terminate(db, r).runs[y])
  {
    hide OkView, Advances, TerminateRows, WakeParent, OkTree;
    AdvancesReflexive(db.runs[y], db.nextHistoryId);
    if !Terminal(db.runs[r].run.status) {
      var s := Closure(db, r);
      if y in s {
        ClosureLive(db, r, y);
        TerminateRowsAdvances(db.runs[y], db.nextHistoryId + |EarlierIn(db, s, y)|, db.nextHistoryId);
      }
      TerminatedRunKeeps(db, s, y);
      WakeParentAdvances(db, TerminatedRuns(db, s), r, y, db.runs[y], db.nextHistoryId + |s|);
    }
  }

  lemma {:induction false} StepAdvances(db: Db, s: Step, y: nat)
    requires Inv(db) && y in db.runs
    ensures y in ApplyStep(db, s).runs && Advances(db.runs[y], ApplyStep(db, s).runs[y])
  {
    hide OkView, Advances, OkTree;
    AdvancesReflexive(db.runs[y], db.nextHistoryId);
    if Enabled(db, s) {
      match s
      case OnRun(r, op) => ApplyAdvances(db.runs[r], op, db.nextHistoryId);
      case TerminateRun(r) => TerminatingAdvances(db, r, y);
      case EndRunOf(r, _, _) => EndingAdvances(db, s, r, y);
      case ContinueAsNew(r, _, _) => EndingAdvances(db, s, r, y);
      case _ =>
    }
  }

  /** Over any schedule a terminal run's row never changes, a history only grows until it is deleted, an
      ended run's only by the retries of the tasks it left open, and a finished task keeps its outcome. */
  lemma {:induction false} RunsAdvance(db: Db, steps: seq<Step>, y: nat)
    requires Inv(db) && y in db.runs
    ensures y in RunSteps(db, steps).runs && Advances(db.runs[y], RunSteps(db, steps).runs[y])
  {
    hide OkView, Advances, OkTree;
    if steps == [] {
      AdvancesReflexive(db.runs[y], db.nextHistoryId);
    } else {
      var before := RunSteps(db, steps[..|steps| - 1]);
      InvAlways(db, steps[..|steps| - 1]);
      RunsAdvance(db, steps[..|steps| - 1], y);
      StepAdvances(before, steps[|steps| - 1], y);
      AdvancesTransitive(db.runs[y], before.runs[y], RunSteps(db, steps).runs[y]);
    }
  }

  // ---- suspension ----

  lemma {:induction false} WakeParentSuspended(db: Db, runs: map<nat, RunView>, x: nat, y: nat)
    requires x in db.runs && y in runs && runs[y].run.status.Suspended?
    ensures y in WakeParent(db, runs, x) && WakeParent(db, runs, x)[y] == runs[y]
  {
  }

  /** A suspended run leaves that status only when it is resumed, or terminated with its subtree. */
  lemma {:induction false} SuspendedUntil(db: Db, s: Step, y: nat)
    requires Inv(db) && y in db.runs && db.runs[y].run.status.Suspended?
    ensures y in ApplyStep(db, s).runs
    ensures !ApplyStep(db, s).runs[y].run.status.Suspended? ==>
              s == OnRun(y, ResumeOp) || (s.TerminateRun? && s.r in db.runs && y in Closure(db, s.r))
  {
    hide Inv, Apply, EndRun, WakeParent;
    if Enabled(db, s) {
      match s
      case OnRun(r, op) => SuspendedLeavesByResume(db.runs[y], op, db.nextHistoryId);
      case TerminateRun(r) =>
        var ended := TerminatedRuns(db, Closure(db, r));
        WakeParentEffect(db, ended, r, y);
        if y !in Closure(db, r) { WakeParentSuspended(db, ended, r, y); }
      case EndRunOf(r, status, consumed) =>
        WakeParentSuspended(db, db.runs[r := EndRun(db.runs[r], status, consumed, db.nextHistoryId)], r, y);
      case ContinueAsNew(r, consumed, c) =>
        WakeParentSuspended(db, db.runs[r := EndRun(db.runs[r], RunStatus.ContinuedAsNew, consumed, db.nextHistoryId)], r, y);
      case _ =>
    }
  }

  // ---- purged traces ----

  lemma {:induction false} EndedNotWoken(db: Db, runs: map<nat, RunView>, x: nat, y: nat)
    requires x in db.runs && y in runs && Terminal(runs[y].run.status)
    ensures y in WakeParent(db, runs, x) && WakeParent(db, runs, x)[y] == runs[y]
  {
  }

  /** An ended run's rows change by no step but its own maintenance and the calls on its own tasks. */
  lemma {:induction false} EndedLeftAlone(db: Db, s: Step, y: nat)
    requires Inv(db) && y in db.runs && Terminal(db.runs[y].run.status) && !(s.OnRun? && s.r == y)
    ensures y in ApplyStep(db, s).runs && ApplyStep(db, s).runs[y] == db.runs[y]
  {
    hide EndRun, WakeParent, OkRuns, Apply;
    if Enabled(db, s) {
      match s
      case TerminateRun(r) =>
        if !Terminal(db.runs[r].run.status) {
          if y in Closure(db, r) { ClosureLive(db, r, y); }
          EndedNotWoken(db, TerminatedRuns(db, Closure(db, r)), r, y);
        }
      case EndRunOf(r, status, consumed) =>
        EndedNotWoken(db, db.runs[r := EndRun(db.runs[r], status, consumed, db.nextHistoryId)], r, y);
      case ContinueAsNew(r, consumed, c) =>
        EndedNotWoken(db, db.runs[r := EndRun(db.runs[r], RunStatus.ContinuedAsNew, consumed, db.nextHistoryId)], r, y);
      case _ =>
    }
  }

  /** A purged trace changes state only through its own maintenance, or the retry of a task its run left
      open: an expired journal through that retry alone, and a summary-only trace also by a repair with
      something to project, a full purge, or retention. */
  lemma {:induction false} PurgedTraceSteps(db: Db, s: Step, y: nat)
    requires Inv(db) && y in db.runs
    requires db.runs[y].trace.state.SummaryOnly? || db.runs[y].trace.state.JournalExpired?
    ensures var v := db.runs[y]; var later := ApplyStep(db, s);
            && y in later.runs
            && var retried := s.OnRun? && s.r == y && Allowed(v, s.op) && Reschedules(v, s.op);
            && (v.trace.state.JournalExpired? ==>
                  if retried then later.runs[y].trace.state.CatchingUp? && |later.runs[y].history| == 1
                  else later.runs[y].trace.state.JournalExpired? && later.runs[y].history == [])
            && (v.trace.state.SummaryOnly? ==>
                  later.runs[y].trace.state ==
                  if retried || (s == OnRun(y, RepairOp) && Stale(v)) then ProjectionState.CatchingUp
                  else if s == OnRun(y, PurgeFullOp) || (s == OnRun(y, ReapOp) && Reapable(v)) then JournalExpired
                  else SummaryOnly)
  {
    var v := db.runs[y];
    assert OkView(v, db.nextHistoryId) && OkPurge(v);
    hide Inv, OkView, Apply;
    if s.OnRun? && s.r == y {
      if Enabled(db, s) {
        if v.trace.state.SummaryOnly? {
          SummaryOnlyLeaves(v, s.op, db.nextHistoryId);
        } else {
          JournalExpiredStays(v, s.op, db.nextHistoryId);
        }
      }
    } else {
      EndedLeftAlone(db, s, y);
    }
  }

  // ---- remote tasks ----

  /** A claimed task changes only by its claimant, by a claim after its lease ran out, with the end of its
      run that cancels it, or when retention deletes the rows of its ended run. */
  lemma {:induction false} ClaimedTaskSteps(db: Db, s: Step, y: nat, task: nat)
    requires Inv(db) && y in db.runs && task in db.runs[y].tasks && db.runs[y].tasks[task].status.TaskClaimed?
    ensures var t := db.runs[y].tasks[task]; var later := ApplyStep(db, s);
            && y in later.runs && (task !in later.runs[y].tasks ==> s == OnRun(y, ReapOp) && Reapable(db.runs[y]))
            && (task in later.runs[y].tasks && later.runs[y].tasks[task] != t ==>
                  || (s.OnRun? && s.r == y && (ByClaimant(s.op, task, t) || TakesOver(s.op, task, t)))
                  || (ClosesTasks(later.runs[y].run.status) && later.runs[y].tasks[task].status.TaskCancelled?))
  {
    var v := db.runs[y];
    StepAdvances(db, s, y);
    if s.OnRun? && s.r == y {
      if Enabled(db, s) && (task !in ApplyStep(db, s).runs[y].tasks || ApplyStep(db, s).runs[y].tasks[task] != v.tasks[task]) {
        OnlyClaimantChanges(v, s.op, db.nextHistoryId, task);
      }
    } else {
      OtherStepsOnTasks(db, s, y);
    }
  }

  /** Other steps leave a run's tasks alone, or end the run and cancel the open ones. */
  lemma {:induction false} OtherStepsOnTasks(db: Db, s: Step, y: nat)
    requires y in db.runs && !(s.OnRun? && s.r == y)
    ensures y in ApplyStep(db, s).runs
    ensures var v := db.runs[y]; var w := ApplyStep(db, s).runs[y];
            w.tasks == v.tasks || (ClosesTasks(w.run.status) && w.tasks == CancelTasks(v).tasks)
  {
    hide Apply, CancelTasks, DiscardInbox, Consume, AppendEvent, OpenTasks, OpenInbox;
    if Enabled(db, s) {
      match s
      case TerminateRun(r) =>
        if !Terminal(db.runs[r].run.status) {
          TasksOfWoken(db, TerminatedRuns(db, Closure(db, r)), r, y);
          TasksOfTerminated(db, Closure(db, r), y);
        }
      case EndRunOf(r, status, consumed) =>
        TasksOfEnded(db.runs[r], status, consumed, db.nextHistoryId);
        TasksOfWoken(db, db.runs[r := EndRun(db.runs[r], status, consumed, db.nextHistoryId)], r, y);
      case ContinueAsNew(r, consumed, c) =>
        TasksOfEnded(db.runs[r], RunStatus.ContinuedAsNew, consumed, db.nextHistoryId);
        TasksOfWoken(db, db.runs[r := EndRun(db.runs[r], RunStatus.ContinuedAsNew, consumed, db.nextHistoryId)], r, y);
      case _ =>
    }
  }

  lemma {:induction false} TasksOfWoken(db: Db, runs: map<nat, RunView>, x: nat, y: nat)
    requires x in db.runs && y in runs
    ensures y in WakeParent(db, runs, x) && WakeParent(db, runs, x)[y].tasks == runs[y].tasks
    ensures ClosesTasks(WakeParent(db, runs, x)[y].run.status) == ClosesTasks(runs[y].run.status)
  {
  }

  lemma {:induction false} TasksOfTerminated(db: Db, s: set<nat>, y: nat)
    requires y in db.runs
    ensures y in s ==> ClosesTasks(TerminatedRuns(db, s)[y].run.status)
                       && TerminatedRuns(db, s)[y].tasks == CancelTasks(db.runs[y]).tasks
    ensures y !in s ==> TerminatedRuns(db, s)[y] == db.runs[y]
  {
  }

  lemma {:induction false} TasksOfEnded(v: RunView, status: RunStatus, consumed: set<nat>, id: nat)
    ensures var w := EndRun(v, status, consumed, id);
            w.run.status == status && w.tasks == if ClosesTasks(status) then CancelTasks(v).tasks else v.tasks
  {
  }

  /** In every state a task has fewer retry events than it may have attempts. */
  lemma {:induction false} RetriesAlwaysBounded(steps: seq<Step>, r: nat, task: nat)
    requires r in RunSteps(EmptyDb, steps).runs && task in RunSteps(EmptyDb, steps).runs[r].tasks
    requires RunSteps(EmptyDb, steps).runs[r].tasks[task].maxAttempts > 0
    ensures RetryEvents(RunSteps(EmptyDb, steps).runs[r].history, task) < RunSteps(EmptyDb, steps).runs[r].tasks[task].maxAttempts
  {
    Reachable(steps);
    RetriesBounded(RunSteps(EmptyDb, steps).runs[r], RunSteps(EmptyDb, steps).nextHistoryId, task);
  }
}
