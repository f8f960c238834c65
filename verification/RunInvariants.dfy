/** What every step on a run's rows keeps. */
module RunInvariants {
  import opened Basics
  import opened RunState

  // ---- the steps of a single run ----

  datatype RunOp =
    | SignalOp(item: nat)
    | CancelOp(item: nat)
    | EnqueueCancelOp(item: nat)
    | SuspendOp
    | ResumeOp
    | ClaimTaskOp(task: nat, remote: bool, worker: string, now: int, lease: int)
    | HeartbeatOp(task: nat, remote: bool, worker: string, now: int)
    | LocalTaskOp(task: nat, worker: string, outcome: LocalOutcome)
    | CompleteOp(task: nat, worker: string, now: int, grace: int)
    | FailOp(task: nat, worker: string, nonRetryable: bool, now: int, grace: int, delay: int)
    | PurgeProjectionOp
    | PurgeFullOp
    | RepairOp
    | ReapOp
    | ProjectOp
    | ClaimRunOp(worker: string)
    | ReleaseRunOp
    | ActivationEventOp(marks: bool)
    | ParkOp(wait: Wait, consumed: set<nat>, newTask: Option<(nat, Task)>, timer: Option<nat>)
    | QuarantineOp(wait: Wait, consumed: set<nat>)
    | WakeTimerOp

  /** A refused operation rolls back. */
  function Committed(v: RunView, o: Outcome): RunView
  {
    if o.Ok? then o.value else v
  }

  function Apply(v: RunView, op: RunOp, id: nat): RunView
  {
    match op
    case SignalOp(item) => Committed(v, Signal(v, item))
    case CancelOp(item) => Committed(v, RequestCancel(v, item))
    case EnqueueCancelOp(item) => EnqueueCancel(v, item)
    case SuspendOp => Committed(v, Suspend(v, id))
    case ResumeOp => Committed(v, Resume(v, id))
    case ClaimTaskOp(task, remote, worker, now, lease) => Committed(v, ClaimTask(v, task, remote, worker, now, lease))
    case HeartbeatOp(task, remote, worker, now) => Committed(v, HeartbeatTask(v, task, remote, worker, now))
    case LocalTaskOp(task, worker, outcome) => Committed(v, SettleLocalTask(v, task, worker, outcome, id))
    case CompleteOp(task, worker, now, grace) => Committed(v, CompleteTask(v, task, worker, now, grace))
    case FailOp(task, worker, nonRetryable, now, grace, delay) =>
      Committed(v, FailTask(v, task, worker, nonRetryable, now, grace, delay, id))
    case PurgeProjectionOp => Committed(v, PurgeProjection(v))
    case PurgeFullOp => Committed(v, PurgeFull(v))
    case RepairOp => Repair(v).0
    case ReapOp => Reap(v)
    case ProjectOp => Project(v)
    case ClaimRunOp(worker) => ClaimRun(v, worker)
    case ReleaseRunOp => ReleaseRun(v)
    case ActivationEventOp(marks) => ActivationEvent(v, id, marks)
    case ParkOp(wait, consumed, newTask, timer) => ParkRun(v, wait, consumed, newTask, timer)
    case QuarantineOp(wait, consumed) => QuarantineRun(v, wait, consumed)
    case WakeTimerOp => WakeTimer(v)
  }

  predicate TaskOp(op: RunOp)
  {
    op.FailOp? || op.CompleteOp? || op.ClaimTaskOp? || op.HeartbeatOp? || op.LocalTaskOp?
  }

  /** New rows get new ids, a new task starts queued and unattempted, and the engine's own worker
      ends a task for good or retries it while attempts are left. */
  predicate Allowed(v: RunView, op: RunOp)
  {
    match op
    case SignalOp(item) => item !in v.inbox
    case CancelOp(item) => item !in v.inbox
    case EnqueueCancelOp(item) => item !in v.inbox
    case ParkOp(_, _, newTask, timer) =>
      && (timer.Some? ==> timer.value !in v.inbox)
      && (newTask.Some? ==> newTask.value.0 !in v.tasks && NewTask(newTask.value.1))
    case LocalTaskOp(task, _, outcome) =>
      && (outcome.LocalEnd? ==> outcome.status.TaskCompleted? || outcome.status.TaskFailed?)
      && (outcome.LocalRetry? && task in v.tasks ==> v.tasks[task].attemptCount < v.tasks[task].maxAttempts)
    case _ => true
  }

  predicate NewTask(t: Task)
  {
    t.status.TaskQueued? && t.claimedBy.None? && t.leaseExpiresAt.None? && t.attemptCount == 0
  }

  /** The run keeps its place in the tree. */
  ghost predicate SameIdentity(v: RunView, w: RunView)
  {
    && w.run.parent == v.run.parent && w.run.depth == v.run.depth && w.run.instance == v.run.instance
    && w.run.childKey == v.run.childKey
  }

  // ---- the invariant ----

  function RetryEvents(h: seq<Event>, task: nat): (n: nat)
  {
    if h == [] then 0
    else RetryEvents(h[..|h| - 1], task) + (if h[|h| - 1].kind == ActivityRetryScheduled(task) then 1 else 0)
  }

  /** Events are numbered 1..n, under increasing ids below next. */
  ghost predicate Numbered(h: seq<Event>, next: nat)
  {
    && (forall i: nat :: i < |h| ==> h[i].sequenceNo == i + 1 && 0 < h[i].id < next)
    && (forall i: nat, j: nat :: i < j < |h| ==> h[i].id < h[j].id)
  }

  /** A termination event is the last one, and says what the run's status says. */
  ghost predicate TerminatedLast(v: RunView)
  {
    forall i: nat :: i < |v.history| && v.history[i].kind.WorkflowTerminated? ==>
      i == |v.history| - 1 && v.run.status.Terminated?
  }

  predicate OkTask(v: RunView, id: nat, t: Task)
  {
    var n := RetryEvents(v.history, id);
    && (t.status.TaskClaimed? <==> t.claimedBy.Some?)
    && (t.status.TaskClaimed? <==> t.leaseExpiresAt.Some?)
    && (if t.status.TaskClaimed? then n < t.attemptCount else n <= t.attemptCount)
    && (n == 0 || n < t.maxAttempts)
  }

  ghost predicate OkTasks(v: RunView)
  {
    && (forall t :: t in v.tasks ==> OkTask(v, t, v.tasks[t]))
    && (forall t: nat :: t !in v.tasks ==> RetryEvents(v.history, t) == 0)
    && (ClosesTasks(v.run.status) ==> forall t :: t in v.tasks ==> !OpenTask(v.tasks[t]))
  }

  /** A purged trace belongs to a terminal run, and an expired one has no journal. */
  ghost predicate OkPurge(v: RunView)
  {
    && (v.trace.state.SummaryOnly? || v.journalDeleted ==> Terminal(v.run.status))
    && (v.trace.state.JournalExpired? ==> v.journalDeleted && v.history == [])
  }

  /** The column for the newest event covers an ended run's history, unless the run was cancelled. */
  ghost predicate Marked(v: RunView)
  {
    Terminal(v.run.status) && !v.run.status.Cancelled? ==> v.trace.latestHistoryId >= LatestId(v.history)
  }

  /** An up-to-date trace whose checkpoint is not behind holds the live summary. */
  ghost predicate Coherent(v: RunView)
  {
    v.trace.state.UpToDate? && !Stale(v) ==> v.trace.summary == Live(v)
  }

  ghost predicate OkRun(v: RunView)
  {
    && (v.run.status.Running? <==> v.run.claimedBy.Some?)
    && (v.run.status.Queued? || v.run.status.Running? || Terminal(v.run.status) ==> v.run.waitingFor.NoWait?)
  }

  ghost predicate OkRows(v: RunView, next: nat)
  {
    && Numbered(v.history, next)
    && v.trace.lastProjectedHistoryId < next
    && TerminatedLast(v) && OkRun(v) && OkTasks(v) && OkPurge(v) && Marked(v)
  }

  ghost predicate OkView(v: RunView, next: nat)
  {
    OkRows(v, next) && Coherent(v)
  }

  // ---- appending ----

  lemma {:induction false} LatestIsLast(h: seq<Event>, next: nat)
    requires Numbered(h, next) && h != []
    ensures LatestId(h) == h[|h| - 1].id
  {
    if |h| > 1 {
      var p := h[..|h| - 1];
      assert Numbered(p, next);
      LatestIsLast(p, next);
    }
  }

  lemma {:induction false} AppendedNumbers(h: seq<Event>, e: Event, id: nat)
    requires Numbered(h, id) && e.id == id && e.sequenceNo == |h| + 1 && id > 0
    ensures Numbered(h + [e], id + 1) && LatestId(h + [e]) == id
  {
    assert (h + [e])[|h|] == e;
    LatestIsLast(h + [e], id + 1);
  }

  lemma {:induction false} AppendedRetryEvents(h: seq<Event>, e: Event)
    ensures forall t: nat :: RetryEvents(h + [e], t) == RetryEvents(h, t) + (if e.kind == ActivityRetryScheduled(t) then 1 else 0)
  {
    assert (h + [e])[..|h|] == h;
  }

  lemma {:induction false} AppendedHistory(v: RunView, id: nat, kind: EventKind)
    requires Numbered(v.history, id) && v.trace.lastProjectedHistoryId < id
    ensures var w := AppendEvent(v, id, kind);
            && w.history == v.history + [Event(id, |v.history| + 1, kind)]
            && Numbered(w.history, id + 1) && w.trace.state.CatchingUp? && LatestId(w.history) == id && Stale(w)
            && w.history[..|w.history| - 1] == v.history
    ensures forall t: nat :: RetryEvents(AppendEvent(v, id, kind).history, t)
                       == RetryEvents(v.history, t) + (if kind == ActivityRetryScheduled(t) then 1 else 0)
  {
    var e := Event(id, |v.history| + 1, kind);
    assert NextSequence(v.history) == |v.history| + 1;
    hide Numbered, LatestId, RetryEvents;
    AppendedNumbers(v.history, e, id);
    AppendedRetryEvents(v.history, e);
    assert (v.history + [e])[..|v.history|] == v.history;
  }

  /** An append of anything but a retry or a termination keeps the rows of a live run in order. */
  lemma {:induction false} AppendKeeps(v: RunView, id: nat, kind: EventKind)
    requires OkRows(v, id) && !Terminal(v.run.status)
    requires !kind.WorkflowTerminated? && !kind.ActivityRetryScheduled?
    ensures OkView(AppendEvent(v, id, kind), id + 1)
  {
    AppendedHistory(v, id, kind);
    var w := AppendEvent(v, id, kind);
    assert forall t: nat :: RetryEvents(w.history, t) == RetryEvents(v.history, t);
    assert forall i: nat :: i < |v.history| ==> w.history[i] == v.history[i];
  }

  lemma {:induction false} SyncKeeps(v: RunView, next: nat)
    requires OkRows(v, next)
    ensures OkView(Sync(v), next)
  {
    assert Live(Sync(v)) == Live(v) by {
      assert OpenTasks(Sync(v)) == OpenTasks(v);
      assert OpenInbox(Sync(v)) == OpenInbox(v);
    }
  }

  lemma {:induction false} WakeKeeps(v: RunView, next: nat)
    requires OkRows(v, next)
    ensures OkRows(Wake(v), next)
  {
  }

  lemma {:induction false} SignalKeeps(v: RunView, item: nat, next: nat)
    requires OkView(v, next)
    ensures OkView(Committed(v, Signal(v, item)), next)
    ensures OkView(Committed(v, RequestCancel(v, item)), next)
  {
    if !Terminal(v.run.status) {
      var a := v.(inbox := v.inbox[item := InboxItem(SignalItem, Pending)]);
      assert OkRows(a, next);
      WakeKeeps(a, next);
      SyncKeeps(Wake(a), next);
      var b := EnqueueCancel(v, item);
      assert OkRows(b, next);
      WakeKeeps(b, next);
      SyncKeeps(Wake(b), next);
    }
  }

  /** A cancel item is not counted, so the live summary stays as it was. */
  lemma {:induction false} EnqueueCancelKeeps(v: RunView, item: nat, next: nat)
    requires OkView(v, next) && item !in v.inbox
    ensures OkView(EnqueueCancel(v, item), next)
  {
    var w := EnqueueCancel(v, item);
    assert OkRows(w, next);
    assert OpenInbox(w) == OpenInbox(v) && OpenTasks(w) == OpenTasks(v);
  }

  /** A locked run changes its row, appends an event and projects itself. */
  lemma {:induction false} AppendSyncKeeps(v: RunView, run: Run, kind: EventKind, next: nat)
    requires OkView(v, next) && !Terminal(v.run.status) && OkRun(v.(run := run)) && !Terminal(run.status)
    requires !kind.WorkflowTerminated? && !kind.ActivityRetryScheduled?
    ensures OkView(Sync(AppendEvent(v.(run := run), next, kind)), next + 1)
  {
    var a := v.(run := run);
    assert OkRows(a, next) by {
      assert forall t :: t in v.tasks ==> OkTask(v, t, v.tasks[t]);
    }
    AppendKeeps(a, next, kind);
    SyncKeeps(AppendEvent(a, next, kind), next + 1);
  }

  lemma {:induction false} SuspendKeeps(v: RunView, next: nat)
    requires OkView(v, next)
    ensures var w := Committed(v, Suspend(v, next)); OkView(w, NextId(v, w, next))
  {
    if v.run.status.Queued? || v.run.status.Waiting? {
      AppendSyncKeeps(v, v.run.(status := RunStatus.Suspended, claimedBy := None), WorkflowSuspended, next);
    }
  }

  lemma {:induction false} ResumeKeeps(v: RunView, next: nat)
    requires OkView(v, next)
    ensures var w := Committed(v, Resume(v, next)); OkView(w, NextId(v, w, next))
  {
    if v.run.status.Suspended? || v.run.status.Quarantined? {
      AppendSyncKeeps(v, Requeued(v.run), WorkflowResumed, next);
    }
  }

  // ---- remote tasks ----

  /** Replacing one task's row by one that is in order keeps the rows in order. */
  lemma {:induction false} TaskKeeps(v: RunView, id: nat, t: Task, next: nat)
    requires OkRows(v, next)
    requires OkTask(v, id, t) && (ClosesTasks(v.run.status) ==> !OpenTask(t))
    ensures OkRows(v.(tasks := v.tasks[id := t]), next)
  {
    var w := v.(tasks := v.tasks[id := t]);
    assert forall u: nat :: u !in w.tasks ==> u !in v.tasks;
    forall u: nat | u in w.tasks ensures OkTask(w, u, w.tasks[u]) {
      assert u != id ==> OkTask(v, u, v.tasks[u]);
    }
  }

  /** Swapping one open task for another leaves the live summary as it was. */
  lemma {:induction false} OpenTaskSwapped(v: RunView, id: nat, t: Task)
    requires id in v.tasks && OpenTask(v.tasks[id]) && OpenTask(t)
    ensures Live(v.(tasks := v.tasks[id := t])) == Live(v)
  {
    var w := v.(tasks := v.tasks[id := t]);
    assert OpenTasks(w) == OpenTasks(v);
    assert OpenInbox(w) == OpenInbox(v);
  }

  lemma {:induction false} ClaimKeeps(v: RunView, task: nat, remote: bool, worker: string, now: int, lease: int, next: nat)
    requires OkView(v, next)
    ensures OkView(Committed(v, ClaimTask(v, task, remote, worker, now, lease)), next)
    ensures OkView(Committed(v, HeartbeatTask(v, task, remote, worker, now)), next)
  {
    if task in v.tasks {
      assert OkTask(v, task, v.tasks[task]);
      if ClaimTask(v, task, remote, worker, now, lease).Ok? {
        var t := ClaimTask(v, task, remote, worker, now, lease).value.tasks[task];
        TaskKeeps(v, task, t, next);
        OpenTaskSwapped(v, task, t);
      }
      if HeartbeatTask(v, task, remote, worker, now).Ok? {
        var t := HeartbeatTask(v, task, remote, worker, now).value.tasks[task];
        TaskKeeps(v, task, t, next);
        OpenTaskSwapped(v, task, t);
      }
    }
  }

  lemma {:induction false} CompleteKeeps(v: RunView, task: nat, status: TaskStatus, next: nat)
    requires OkView(v, next) && task in v.tasks && v.tasks[task].status.TaskClaimed?
    requires status.TaskCompleted? || status.TaskFailed?
    ensures OkView(Sync(Wake(v.(tasks := v.tasks[task := ReleaseTask(v.tasks[task], status)]))), next)
  {
    var t := ReleaseTask(v.tasks[task], status);
    assert OkTask(v, task, v.tasks[task]);
    TaskKeeps(v, task, t, next);
    var w := v.(tasks := v.tasks[task := t]);
    WakeKeeps(w, next);
    SyncKeeps(Wake(w), next);
  }

  function Rescheduled(v: RunView, task: nat, availableAt: int, id: nat): RunView
    requires task in v.tasks
  {
    var t := ReleaseTask(v.tasks[task], TaskQueued).(availableAt := availableAt);
    AppendEvent(v.(tasks := v.tasks[task := t]), id, ActivityRetryScheduled(task))
  }

  lemma {:induction false} RetryTasks(v: RunView, task: nat, availableAt: int, next: nat)
    requires OkView(v, next) && task in v.tasks && v.tasks[task].status.TaskClaimed?
    requires v.tasks[task].attemptCount < v.tasks[task].maxAttempts
    ensures OkTasks(Rescheduled(v, task, availableAt, next))
  {
    var w := Rescheduled(v, task, availableAt, next);
    AppendedHistory(v.(tasks := w.tasks), next, ActivityRetryScheduled(task));
    forall k | k in w.tasks ensures OkTask(w, k, w.tasks[k]) {
      assert OkTask(v, k, v.tasks[k]);
    }
  }

  lemma {:induction false} RetryHistory(v: RunView, task: nat, availableAt: int, next: nat)
    requires Numbered(v.history, next) && v.trace.lastProjectedHistoryId < next && task in v.tasks
    requires TerminatedLast(v) && !v.run.status.Terminated?
    ensures var w := Rescheduled(v, task, availableAt, next);
            && Numbered(w.history, next + 1) && TerminatedLast(w) && |w.history| == |v.history| + 1
            && w.trace.state.CatchingUp? && Stale(w) && LatestId(w.history) == next && w.trace.latestHistoryId >= next
  {
    var w := Rescheduled(v, task, availableAt, next);
    AppendedHistory(v.(tasks := w.tasks), next, ActivityRetryScheduled(task));
    assert forall i: nat :: i < |v.history| ==> w.history[i] == v.history[i];
  }

  lemma {:induction false} RetryKeeps(v: RunView, task: nat, availableAt: int, next: nat)
    requires OkView(v, next) && task in v.tasks && v.tasks[task].status.TaskClaimed?
    requires v.tasks[task].attemptCount < v.tasks[task].maxAttempts
    ensures OkView(Rescheduled(v, task, availableAt, next), next + 1)
  {
    assert OpenTask(v.tasks[task]) && !v.run.status.Terminated?;
    RetryTasks(v, task, availableAt, next);
    hide OkTasks, OkTask, RetryEvents, LatestId, Live, Numbered, TerminatedLast;
    RetryHistory(v, task, availableAt, next);
  }

  lemma {:induction false} CompleteCallKeeps(v: RunView, task: nat, worker: string, now: int, grace: int, next: nat)
    requires OkView(v, next)
    ensures OkView(Committed(v, CompleteTask(v, task, worker, now, grace)), next)
  {
    hide OkView;
    if task in v.tasks && OwnedByWorker(v.tasks[task], worker, now, grace) {
      CompleteKeeps(v, task, TaskCompleted, next);
    }
  }

  lemma {:induction false} FailCallKeeps(v: RunView, task: nat, worker: string, nonRetryable: bool, now: int, grace: int,
                                         delay: int, next: nat)
    requires OkView(v, next)
    ensures var w := Committed(v, FailTask(v, task, worker, nonRetryable, now, grace, delay, next));
            OkView(w, NextId(v, w, next))
  {
    hide OkView;
    if task in v.tasks && OwnedByWorker(v.tasks[task], worker, now, grace) {
      if Retries(v.tasks[task], nonRetryable) {
        RetryKeeps(v, task, now + delay, next);
      } else {
        CompleteKeeps(v, task, TaskFailed, next);
      }
    }
  }

  lemma {:induction false} ReleaseKeeps(v: RunView, task: nat, next: nat)
    requires OkView(v, next) && task in v.tasks && v.tasks[task].status.TaskClaimed?
    ensures OkView(v.(tasks := v.tasks[task := ReleaseTask(v.tasks[task], TaskQueued)]), next)
  {
    var t := ReleaseTask(v.tasks[task], TaskQueued);
    assert OkTask(v, task, v.tasks[task]);
    TaskKeeps(v, task, t, next);
    OpenTaskSwapped(v, task, t);
  }

  lemma {:induction false} SettleKeeps(v: RunView, task: nat, worker: string, outcome: LocalOutcome, next: nat)
    requires OkView(v, next) && Allowed(v, LocalTaskOp(task, worker, outcome))
    ensures var w := Committed(v, SettleLocalTask(v, task, worker, outcome, next)); OkView(w, NextId(v, w, next))
  {
    hide OkView;
    if task in v.tasks && HeldBy(v.tasks[task], worker) {
      match outcome
      case LocalEnd(status) => CompleteKeeps(v, task, status, next);
      case LocalRetry(availableAt) => RetryKeeps(v, task, availableAt, next);
      case LocalRelease => ReleaseKeeps(v, task, next);
    }
  }

  // ---- projection ----

  lemma {:induction false} PurgeKeeps(v: RunView, next: nat)
    requires OkView(v, next)
    ensures OkView(Committed(v, PurgeProjection(v)), next)
    ensures OkView(Repair(v).0, next)
  {
    hide Numbered, RetryEvents, LatestId, Live;
    assert forall t :: t in v.tasks ==> OkTask(v, t, v.tasks[t]);
  }

  lemma {:induction false} DeleteKeeps(v: RunView, next: nat)
    requires OkView(v, next)
    ensures OkView(Committed(v, PurgeFull(v)), next)
    ensures OkView(Reap(v), next)
  {
    assert forall t: nat :: RetryEvents([], t) == 0;
    assert forall t :: t in v.tasks ==> OkTask(v, t, v.tasks[t]);
  }

  lemma {:induction false} NextUnprojectedBelow(h: seq<Event>, last: nat, next: nat)
    requires forall i: nat :: i < |h| ==> h[i].id < next
    ensures NextUnprojected(h, last).Some? ==> last < NextUnprojected(h, last).value < next
  {
    if h != [] && h[0].id <= last {
      assert forall i: nat :: i < |h| - 1 ==> h[1..][i] == h[i + 1];
      NextUnprojectedBelow(h[1..], last, next);
    }
  }

  lemma {:induction false} ProjectKeeps(v: RunView, next: nat)
    requires OkView(v, next)
    ensures OkView(Project(v), next)
  {
    NextUnprojectedBelow(v.history, v.trace.lastProjectedHistoryId, next);
    if !v.trace.state.SummaryOnly? && !v.trace.state.JournalExpired? && Stale(v)
       && NextUnprojected(v.history, v.trace.lastProjectedHistoryId).Some? {
      var p := Project(v);
      var w := p.(trace := p.trace.(summary := v.trace.summary));
      assert OkRows(w, next);
      SyncKeeps(w, next);
      assert Sync(w) == p by {
        assert OpenTasks(w) == OpenTasks(v);
        assert OpenInbox(w) == OpenInbox(v);
      }
    }
  }

  // ---- workers and activations ----

  lemma {:induction false} LiveOf(v: RunView, run: Run, trace: Trace)
    ensures Live(v.(run := run, trace := trace)) == Live(v).(status := run.status, waitingFor := run.waitingFor)
  {
    var w := v.(run := run, trace := trace);
    assert OpenTasks(w) == OpenTasks(v);
    assert OpenInbox(w) == OpenInbox(v);
  }

  lemma {:induction false} ClaimRunKeeps(v: RunView, worker: string, next: nat)
    requires OkView(v, next)
    ensures OkView(ClaimRun(v, worker), next)
    ensures OkView(ReleaseRun(v), next)
  {
    var c := ClaimRun(v, worker);
    LiveOf(v, c.run, c.trace);
    var r := ReleaseRun(v);
    LiveOf(v, r.run, r.trace);
  }

  lemma {:induction false} ParkKeeps(v: RunView, wait: Wait, consumed: set<nat>, newTask: Option<(nat, Task)>,
                                     timer: Option<nat>, next: nat)
    requires OkView(v, next) && Allowed(v, ParkOp(wait, consumed, newTask, timer))
    ensures OkView(ParkRun(v, wait, consumed, newTask, timer), next)
  {
    if v.run.status.Running? {
      var w := Consume(v, consumed);
      assert OkRows(w, next);
      if newTask.Some? { TaskKeeps(w, newTask.value.0, newTask.value.1, next); }
      var w' := if newTask.Some? then w.(tasks := w.tasks[newTask.value.0 := newTask.value.1]) else w;
      assert OkRows(w', next);
      var w'' := if timer.Some? then w'.(inbox := w'.inbox[timer.value := InboxItem(TimerItem, Pending)]) else w';
      var p := w''.(run := w''.run.(status := Waiting, waitingFor := wait, claimedBy := None));
      assert OkRows(p, next);
      SyncKeeps(p, next);
    }
  }

  lemma {:induction false} WakesKeep(v: RunView, key: string, next: nat)
    requires OkView(v, next)
    ensures OkView(WakeTimer(v), next)
    ensures OkView(WakeOnChild(v, key), next)
  {
    WakeKeeps(v, next);
    SyncKeeps(Wake(v), next);
  }

  lemma {:induction false} QuarantineKeeps(v: RunView, wait: Wait, consumed: set<nat>, next: nat)
    requires OkView(v, next)
    ensures OkView(QuarantineRun(v, wait, consumed), next)
  {
    if v.run.status.Running? {
      var w := Consume(v, consumed);
      InboxKeeps(v, w.inbox, next);
      var p := w.(run := w.run.(status := RunStatus.Quarantined, waitingFor := wait, claimedBy := None));
      assert OkRows(p, next);
      SyncKeeps(p, next);
    }
  }

  lemma {:induction false} LiveView(v: RunView, next: nat)
    requires OkView(v, next) && !Terminal(v.run.status)
    ensures Numbered(v.history, next) && v.trace.lastProjectedHistoryId < next
    ensures v.trace.state.UpToDate? || v.trace.state.CatchingUp?
    ensures OkRows(v, next)
  {
  }

  lemma {:induction false} EventIsLatest(v: RunView, id: nat)
    requires Numbered(v.history, id) && v.trace.lastProjectedHistoryId < id
    ensures var w := AppendEvent(v, id, OtherEvent);
            LatestId(w.history) == id && w.trace.state.CatchingUp? && |w.history| == |v.history| + 1
  {
    AppendedHistory(v, id, OtherEvent);
  }

  lemma {:induction false} EventKeeps(v: RunView, marks: bool, next: nat)
    requires OkView(v, next)
    ensures var w := ActivationEvent(v, next, marks); OkView(w, NextId(v, w, next))
  {
    if v.run.status.Running? {
      LiveView(v, next);
      hide OkView, OkRows, Numbered, AppendEvent;
      AppendKeeps(v, next, OtherEvent);
      EventIsLatest(v, next);
      TraceKeeps(AppendEvent(v, next, OtherEvent), v.trace, next + 1);
    }
  }

  /** While its checkpoint is behind, a trace may be left as it was. */
  lemma {:induction false} TraceKeeps(v: RunView, trace: Trace, next: nat)
    requires OkView(v, next) && LatestId(v.history) > trace.lastProjectedHistoryId && !Terminal(v.run.status)
    requires trace.lastProjectedHistoryId < next
    requires trace.state.UpToDate? || trace.state.CatchingUp?
    requires v.trace.state.UpToDate? || v.trace.state.CatchingUp?
    ensures OkView(v.(trace := trace), next)
  {
    assert forall t :: t in v.tasks ==> OkTask(v, t, v.tasks[t]);
  }

  // ---- a run's end ----

  /** The row of a run that ends, with its end recorded, before its inbox is looked at. */
  function Ended(v: RunView, id: nat, kind: EventKind, status: RunStatus, trace: Trace): RunView
  {
    var e := AppendEvent(v, id, kind);
    var w := e.(trace := trace, run := e.run.(status := status, waitingFor := NoWait, claimedBy := None));
    if ClosesTasks(status) then CancelTasks(w) else w
  }

  lemma {:induction false} EndedTasks(v: RunView, id: nat, kind: EventKind, status: RunStatus, trace: Trace)
    requires OkView(v, id) && !Terminal(v.run.status) && !kind.ActivityRetryScheduled?
    ensures OkTasks(Ended(v, id, kind, status, trace))
    ensures ClosesTasks(status) ==> OpenTasks(Ended(v, id, kind, status, trace)) == {}
  {
    AppendedHistory(v, id, kind);
    var w := Ended(v, id, kind, status, trace);
    forall k | k in w.tasks ensures OkTask(w, k, w.tasks[k]) && (ClosesTasks(status) ==> !OpenTask(w.tasks[k])) {
      assert OkTask(v, k, v.tasks[k]);
    }
  }

  /** Once nothing is claimed, a run with its end recorded may be terminal, and a cancelled one however
      its trace's columns stand. */
  lemma {:induction false} EndRows(v: RunView, id: nat, kind: EventKind, status: RunStatus, trace: Trace)
    requires OkView(v, id) && !Terminal(v.run.status) && Terminal(status)
    requires !kind.ActivityRetryScheduled? && (kind.WorkflowTerminated? <==> status.Terminated?)
    requires trace.lastProjectedHistoryId == v.trace.lastProjectedHistoryId
    requires trace.state.UpToDate? || trace.state.CatchingUp?
    requires status.Cancelled? || trace.latestHistoryId >= id
    ensures var w := Ended(v, id, kind, status, trace);
            OkView(w, id + 1) && (ClosesTasks(status) ==> OpenTasks(w) == {}) && Stale(w)
  {
    AppendedHistory(v, id, kind);
    EndedTasks(v, id, kind, status, trace);
    var w := Ended(v, id, kind, status, trace);
    assert forall i: nat :: i < |v.history| ==> w.history[i] == v.history[i];
    hide OkTasks, OkTask, RetryEvents;
  }

  lemma {:induction false} InboxKeeps(v: RunView, inbox: map<nat, InboxItem>, next: nat)
    requires OkRows(v, next)
    ensures OkRows(v.(inbox := inbox), next)
  {
    assert forall t :: t in v.tasks ==> OkTask(v, t, v.tasks[t]);
  }

  lemma {:induction false} TerminateKeeps(v: RunView, next: nat)
    requires OkView(v, next) && !Terminal(v.run.status)
    ensures OkView(TerminateRows(v, next), next + 1)
    ensures OpenTasks(TerminateRows(v, next)) == {}
    ensures forall i :: i in TerminateRows(v, next).inbox ==> !OpenItem(TerminateRows(v, next).inbox[i])
  {
    var trace := AppendEvent(v, next, WorkflowTerminated).trace;
    AppendedHistory(v, next, WorkflowTerminated);
    EndRows(v, next, WorkflowTerminated, Terminated, trace);
    var w := Ended(v, next, WorkflowTerminated, Terminated, trace);
    InboxKeeps(w, DiscardInbox(w).inbox, next + 1);
    assert TerminateRows(v, next) == DiscardInbox(w);
    assert OpenTasks(DiscardInbox(w)) == OpenTasks(w);
  }

  predicate OwnEnd(status: RunStatus)
  {
    status.Completed? || status.Failed? || status.Cancelled? || status.ContinuedAsNew?
  }

  lemma {:induction false} EndKeeps(v: RunView, status: RunStatus, consumed: set<nat>, next: nat)
    requires OkView(v, next) && v.run.status.Running? && OwnEnd(status)
    ensures OkView(EndRun(v, status, consumed, next), next + 1)
  {
    var c := Consume(v, consumed);
    InboxKeeps(v, c.inbox, next);
    AppendedHistory(v, next, WorkflowEnded(status));
    var trace := if status.Cancelled? then v.trace else AppendEvent(v, next, WorkflowEnded(status)).trace;
    EndRows(v, next, WorkflowEnded(status), status, trace);
    var w := Ended(v, next, WorkflowEnded(status), status, trace);
    var done := EndRun(v, status, consumed, next);
    InboxKeeps(w, done.inbox, next + 1);
    assert done == w.(inbox := done.inbox);
  }

  lemma {:induction false} NewRunKeeps(run: Run, id: nat)
    requires id > 0
    ensures OkView(NewRun(run, id), id + 1)
  {
    var v := NewRun(run, id);
    assert forall t: nat :: RetryEvents(v.history, t) == 0 by {
      assert v.history[..0] == [];
    }
    assert OpenTasks(v) == {} && OpenInbox(v) == {};
  }

  /** The next unused history id once the step is done. */
  function NextId(v: RunView, w: RunView, id: nat): nat
  {
    if |w.history| > |v.history| then id + 1 else id
  }

  /** Every step of a run keeps its invariant. */
  lemma {:induction false} ApplyKeeps(v: RunView, op: RunOp, id: nat)
    requires OkView(v, id) && Allowed(v, op)
    ensures OkView(Apply(v, op, id), NextId(v, Apply(v, op, id), id))
  {
    hide OkView;
    match op
    case SignalOp(item) => SignalKeeps(v, item, id);
    case CancelOp(item) => SignalKeeps(v, item, id);
    case EnqueueCancelOp(item) => EnqueueCancelKeeps(v, item, id);
    case SuspendOp => SuspendKeeps(v, id);
    case ResumeOp => ResumeKeeps(v, id);
    case ClaimTaskOp(task, remote, worker, now, lease) => ClaimKeeps(v, task, remote, worker, now, lease, id);
    case HeartbeatOp(task, remote, worker, now) => ClaimKeeps(v, task, remote, worker, now, 0, id);
    case LocalTaskOp(task, worker, outcome) => SettleKeeps(v, task, worker, outcome, id);
    case CompleteOp(task, worker, now, grace) => CompleteCallKeeps(v, task, worker, now, grace, id);
    case FailOp(task, worker, nonRetryable, now, grace, delay) =>
      FailCallKeeps(v, task, worker, nonRetryable, now, grace, delay, id);
    case PurgeProjectionOp => PurgeKeeps(v, id);
    case PurgeFullOp => DeleteKeeps(v, id);
    case RepairOp => PurgeKeeps(v, id);
    case ReapOp => DeleteKeeps(v, id);
    case ProjectOp => ProjectKeeps(v, id);
    case ClaimRunOp(worker) => ClaimRunKeeps(v, worker, id);
    case ReleaseRunOp => ClaimRunKeeps(v, "", id);
    case ActivationEventOp(marks) => EventKeeps(v, marks, id);
    case ParkOp(wait, consumed, newTask, timer) => ParkKeeps(v, wait, consumed, newTask, timer, id);
    case QuarantineOp(wait, consumed) => QuarantineKeeps(v, wait, consumed, id);
    case WakeTimerOp => WakesKeep(v, "", id);
  }
}
