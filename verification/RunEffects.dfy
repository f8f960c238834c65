/** What the operations on a run amount to, and where a projector left to itself ends. */
module RunEffects {
  import opened Basics
  import opened RunState
  import opened RunInvariants

  /** Waking and projecting a run touch neither its tasks, its inbox nor its history. */
  lemma {:induction false} WokenAndSynced(v: RunView)
    ensures var w := Sync(Wake(v));
            && OpenTasks(w) == OpenTasks(v) && OpenInbox(w) == OpenInbox(v) && w.tasks == v.tasks && w.inbox == v.inbox
            && w.history == v.history && w.run.status == (if v.run.status.Waiting? then Queued else v.run.status)
            && w.trace.summary == Live(w)
  {
    var w := Sync(Wake(v));
    assert OpenTasks(w) == OpenTasks(v) && OpenInbox(w) == OpenInbox(v);
  }

  lemma {:induction false} SignalItemOpens(v: RunView, item: nat)
    requires item !in v.inbox
    ensures var a := v.(inbox := v.inbox[item := InboxItem(SignalItem, Pending)]);
            OpenInbox(a) == OpenInbox(v) + {item} && |OpenInbox(a)| == |OpenInbox(v)| + 1 && OpenTasks(a) == OpenTasks(v)
  {
    var a := v.(inbox := v.inbox[item := InboxItem(SignalItem, Pending)]);
    assert OpenInbox(a) == OpenInbox(v) + {item};
    assert item !in OpenInbox(v);
  }

  /** A signal to a live run is one more pending inbox item, wakes the run if it waits, appends no
      history, and leaves the trace with the live summary. */
  lemma {:induction false} SignalEffect(v: RunView, item: nat)
    requires !Terminal(v.run.status) && item !in v.inbox
    ensures Signal(v, item).Ok?
    ensures var w := Signal(v, item).value;
            && OpenInbox(w) == OpenInbox(v) + {item} && |OpenInbox(w)| == |OpenInbox(v)| + 1 && OpenTasks(w) == OpenTasks(v)
            && (forall i :: i in v.inbox ==> i in w.inbox && w.inbox[i] == v.inbox[i])
            && w.run.status == (if v.run.status.Waiting? then Queued else v.run.status)
            && w.history == v.history && w.trace.summary == Live(w)
  {
    SignalItemOpens(v, item);
    WokenAndSynced(v.(inbox := v.inbox[item := InboxItem(SignalItem, Pending)]));
    hide OpenInbox, OpenTasks, Sync, Wake, Live;
  }

  /** A cancel request leaves the pending counts alone, and a second one adds nothing. */
  lemma {:induction false} CancelEffect(v: RunView, item: nat, again: nat)
    requires !Terminal(v.run.status) && item !in v.inbox
    ensures RequestCancel(v, item).Ok?
    ensures var w := RequestCancel(v, item).value;
            && OpenInbox(w) == OpenInbox(v) && OpenTasks(w) == OpenTasks(v) && HasCancelItem(w)
            && w.run.status == (if v.run.status.Waiting? then Queued else v.run.status)
            && w.history == v.history && w.trace.summary == Live(w)
            && RequestCancel(w, again) == Ok(w)
  {
    var w := RequestCancel(v, item).value;
    if !HasCancelItem(v) { assert w.inbox[item].kind.CancelItem?; }
    assert OpenInbox(w) == OpenInbox(v);
    assert OpenTasks(w) == OpenTasks(v);
  }

  /** A queued or waiting run is suspended: its claim goes, the event is recorded and its trace shows it.
      Suspending again changes nothing, and any other run is refused. */
  lemma {:induction false} SuspendEffect(v: RunView, id: nat)
    requires OkView(v, id)
    ensures var o := Suspend(v, id);
            match v.run.status
            case Suspended => o == Ok(v)
            case Running => o == Err(RunNotSuspendable)
            case Quarantined => o == Err(RunNotSuspendable)
            case Queued => o.Ok? && Suspended(v, o.value, id)
            case Waiting => o.Ok? && Suspended(v, o.value, id)
            case _ => o == Err(RunTerminal)
  {
    if v.run.status.Queued? || v.run.status.Waiting? { SuspendedRows(v, id); }
    hide OkView, OkRows, Suspended;
  }

  /** The rows with one more event, and nothing pending touched. */
  predicate Recorded(v: RunView, w: RunView, id: nat, kind: EventKind)
  {
    && w.history == v.history + [Event(id, |v.history| + 1, kind)]
    && w.tasks == v.tasks && w.inbox == v.inbox && w.journalDeleted == v.journalDeleted
    && w.trace.lastProjectedHistoryId == v.trace.lastProjectedHistoryId && w.trace.latestHistoryId >= id
    && w.trace.state.CatchingUp?
    && w.trace.summary == Summary(w.run.status, w.run.waitingFor, |OpenTasks(v)|, |OpenInbox(v)|)
  }

  predicate Suspended(v: RunView, w: RunView, id: nat)
  {
    w.run == v.run.(status := RunStatus.Suspended, claimedBy := None) && Recorded(v, w, id, WorkflowSuspended)
  }

  predicate Resumed(v: RunView, w: RunView, id: nat)
  {
    w.run == v.run.(status := Queued, waitingFor := NoWait, claimedBy := None) && Recorded(v, w, id, WorkflowResumed)
  }

  lemma {:induction false} RecordedRows(v: RunView, run: Run, id: nat, kind: EventKind)
    requires Numbered(v.history, id) && v.trace.lastProjectedHistoryId < id
    ensures var w := Sync(AppendEvent(v.(run := run), id, kind)); w.run == run && Recorded(v, w, id, kind)
  {
    var a := AppendEvent(v.(run := run), id, kind);
    assert NextSequence(v.history) == |v.history| + 1;
    assert OpenTasks(a) == OpenTasks(v) && OpenInbox(a) == OpenInbox(v);
    hide Numbered;
  }

  lemma {:induction false} SuspendedRows(v: RunView, id: nat)
    requires OkView(v, id) && (v.run.status.Queued? || v.run.status.Waiting?)
    ensures Suspend(v, id).Ok? && Suspended(v, Suspend(v, id).value, id)
  {
    RecordedRows(v, v.run.(status := RunStatus.Suspended, claimedBy := None), id, WorkflowSuspended);
    hide OkView, Recorded, Sync, AppendEvent;
  }

  /** A suspended or quarantined run is queued again without a wait, and the event is recorded. Any other
      live run stays as it is. */
  lemma {:induction false} ResumeEffect(v: RunView, id: nat)
    requires OkView(v, id)
    ensures var o := Resume(v, id);
            match v.run.status
            case Suspended => o.Ok? && Resumed(v, o.value, id)
            case Quarantined => o.Ok? && Resumed(v, o.value, id)
            case Queued => o == Ok(v)
            case Running => o == Ok(v)
            case Waiting => o == Ok(v)
            case _ => o == Err(RunTerminal)
  {
    RecordedRows(v, v.run.(status := Queued, waitingFor := NoWait, claimedBy := None), id, WorkflowResumed);
    hide OkView, Recorded, Sync, AppendEvent;
  }

  /** A purge leaves the terminal status with nothing pending on the trace. A projection purge keeps the
      journal and marks the trace summary-only, unless it is purged already; a full one deletes the journal
      and marks it expired. Nothing else changes, and a live run is refused. */
  lemma {:induction false} PurgeEffect(v: RunView, next: nat)
    requires OkView(v, next)
    ensures !Terminal(v.run.status) ==> PurgeProjection(v) == Err(RunNotTerminal) && PurgeFull(v) == Err(RunNotTerminal)
    ensures Terminal(v.run.status) ==>
              var shell := Summary(v.run.status, NoWait, 0, 0); var purged := v.trace.state.SummaryOnly? || v.trace.state.JournalExpired?;
              && PurgeProjection(v) == Ok(v.(trace := v.trace.(summary := shell, state := if purged then v.trace.state else SummaryOnly)))
              && PurgeFull(v) == Ok(v.(trace := v.trace.(summary := shell, state := JournalExpired), history := [], journalDeleted := true))
  {
    assert OkRun(v) && OkPurge(v);
    hide OkView;
  }

  /** A task is claimed by the worker it is meant for, if it is queued and due or its lease ran out, and
      that is one more attempt; the rest of the run stays as it is. */
  lemma {:induction false} ClaimEffect(v: RunView, task: nat, remote: bool, worker: string, now: int, lease: int)
    requires task in v.tasks
    ensures var t := v.tasks[task]; var o := ClaimTask(v, task, remote, worker, now, lease);
            var due := (t.status.TaskQueued? && t.availableAt <= now)
                       || (t.status.TaskClaimed? && t.leaseExpiresAt.Some? && t.leaseExpiresAt.value < now);
            if t.remote == remote && due
            then && o.Ok? && HeldBy(o.value.tasks[task], worker) && o.value.tasks[task].leaseExpiresAt == Some(now + lease)
                 && o.value.tasks[task].attemptCount == t.attemptCount + 1 && o.value.tasks[task].maxAttempts == t.maxAttempts
                 && o.value == v.(tasks := o.value.tasks) && o.value.tasks.Keys == v.tasks.Keys
                 && forall k :: k in v.tasks && k != task ==> o.value.tasks[k] == v.tasks[k]
            else o == Err(TaskConflict)
  {
  }

  /** A heartbeat stretches the lease of the claimant that still holds it, and nothing else. */
  lemma {:induction false} HeartbeatEffect(v: RunView, task: nat, remote: bool, worker: string, now: int)
    requires task in v.tasks
    ensures var t := v.tasks[task]; var o := HeartbeatTask(v, task, remote, worker, now);
            if t.remote == remote && HeldBy(t, worker) && t.leaseDuration > 0 && t.leaseExpiresAt.Some? && t.leaseExpiresAt.value > now
            then o.Ok? && o.value.tasks.Keys == v.tasks.Keys && o.value == v.(tasks := o.value.tasks)
                 && o.value.tasks[task] == t.(leaseExpiresAt := Some(now + t.leaseDuration))
                 && forall k :: k in v.tasks && k != task ==> o.value.tasks[k] == v.tasks[k]
            else o == Err(TaskConflict)
  {
  }

  /** An activation's end: the status, the recorded event, tasks and inbox kept or closed, and the trace
      marked unless the run is cancelled. */
  lemma {:induction false} EndEffect(v: RunView, status: RunStatus, consumed: set<nat>, id: nat)
    requires OkView(v, id) && v.run.status.Running? && OwnEnd(status)
    ensures var w := EndRun(v, status, consumed, id);
            && w.run == v.run.(status := status, waitingFor := NoWait, claimedBy := None)
            && w.history == v.history + [Event(id, |v.history| + 1, WorkflowEnded(status))]
            && w.tasks.Keys == v.tasks.Keys && w.inbox.Keys == v.inbox.Keys && w.journalDeleted == v.journalDeleted
            && (forall t :: t in v.tasks ==>
                  w.tasks[t] == if OpenTask(v.tasks[t]) && (status.Cancelled? || status.ContinuedAsNew?)
                                then v.tasks[t].(status := TaskCancelled, claimedBy := None, leaseExpiresAt := None) else v.tasks[t])
            && (forall i :: i in v.inbox ==>
                  w.inbox[i] == if i in consumed && v.inbox[i].status.Pending? then v.inbox[i].(status := Processed)
                                else if OpenItem(v.inbox[i]) && (status.Cancelled? || status.ContinuedAsNew?)
                                then v.inbox[i].(status := Discarded) else v.inbox[i])
            && (if status.Cancelled? then w.trace == v.trace
                else w.trace.latestHistoryId >= id && w.trace.state.CatchingUp? && w.trace.summary == v.trace.summary)
  {
    assert NextSequence(v.history) == |v.history| + 1;
    assert v.trace.lastProjectedHistoryId < id;
    hide OkView;
  }

  /** A due timer queues the run if it still waits, and its trace shows it either way. */
  lemma {:induction false} TimerEffect(v: RunView)
    ensures var w := WakeTimer(v);
            && w.run == (if v.run.status.Waiting? then v.run.(status := Queued, waitingFor := NoWait, claimedBy := None) else v.run)
            && w.history == v.history && w.tasks == v.tasks && w.inbox == v.inbox && w.trace.summary == Live(w)
  {
    WokenAndSynced(v);
  }

  /** The engine's own worker ends its task as it says, with a waiting run queued and the trace showing it;
      or retries it with an event; or gives it back. Another's task it cannot touch. */
  lemma {:induction false} SettleEffect(v: RunView, task: nat, worker: string, outcome: LocalOutcome, id: nat)
    requires task in v.tasks
    ensures var t := v.tasks[task]; var o := SettleLocalTask(v, task, worker, outcome, id);
            if t.remote || !t.status.TaskClaimed? || t.claimedBy != Some(worker) then o == Err(TaskConflict)
            else
              && o.Ok? && var w := o.value;
                 && w.inbox == v.inbox
                 && w.tasks == v.tasks[task := w.tasks[task]] && w.tasks[task].claimedBy.None? && w.tasks[task].leaseExpiresAt.None?
                 && w.tasks[task].attemptCount == t.attemptCount
                 && match outcome
                    case LocalEnd(status) =>
                      && w.tasks[task].status == status && w.history == v.history && w.trace.summary == Live(w)
                      && w.run == (if v.run.status.Waiting? then v.run.(status := Queued, waitingFor := NoWait, claimedBy := None) else v.run)
                    case LocalRetry(availableAt) =>
                      && w.tasks[task].status.TaskQueued? && w.tasks[task].availableAt == availableAt && w.run == v.run
                      && w.history == v.history + [Event(id, NextSequence(v.history), ActivityRetryScheduled(task))]
                    case LocalRelease => w == v.(tasks := w.tasks) && w.tasks[task].status.TaskQueued?
  {
    var t := v.tasks[task];
    if outcome.LocalEnd? { WokenAndSynced(v.(tasks := v.tasks[task := ReleaseTask(t, outcome.status)])); }
    hide OpenTasks, OpenInbox;
  }

  /** Retention deletes history, tasks and inbox of a run that ended otherwise than by continuing, once the
      column it looks at is projected, and marks the trace expired. It leaves any other run alone. */
  lemma {:induction false} ReapEffect(v: RunView)
    ensures var s := v.run.status;
            var ended := s.Completed? || s.Failed? || s.Cancelled? || s.Terminated?;
            if ended && !v.trace.state.JournalExpired? && v.trace.lastProjectedHistoryId >= v.trace.latestHistoryId
            then Reap(v) == RunView(v.run, [], v.trace.(state := JournalExpired), map[], map[], true)
            else Reap(v) == v
  {
  }

  /** The run's inbox with these items consumed. */
  predicate Consumed(v: RunView, inbox: map<nat, InboxItem>, items: set<nat>)
  {
    forall i :: i in v.inbox ==>
      i in inbox && inbox[i] == if i in items && v.inbox[i].status.Pending? then v.inbox[i].(status := Processed) else v.inbox[i]
  }

  lemma {:induction false} ConsumedRows(v: RunView, items: set<nat>)
    ensures var w := Consume(v, items); w == v.(inbox := w.inbox) && w.inbox.Keys == v.inbox.Keys && Consumed(v, w.inbox, items)
  {
  }

  lemma {:induction false} ConsumedMore(v: RunView, inbox: map<nat, InboxItem>, items: set<nat>, i: nat, item: InboxItem)
    requires Consumed(v, inbox, items) && i !in v.inbox
    ensures Consumed(v, inbox[i := item], items)
  {
  }

  /** An activation that waits: its items are consumed, its task and timer added, its claim gone, and its
      trace shows the wait with what is pending now. */
  lemma {:induction false} ParkEffect(v: RunView, wait: Wait, consumed: set<nat>, task: Option<(nat, Task)>, timer: Option<nat>)
    requires v.run.status.Running? && (timer.Some? ==> timer.value !in v.inbox)
    ensures var w := ParkRun(v, wait, consumed, task, timer);
            && w.run == v.run.(status := Waiting, waitingFor := wait, claimedBy := None)
            && w.history == v.history && w.tasks == (if task.Some? then v.tasks[task.value.0 := task.value.1] else v.tasks)
            && w.inbox.Keys == v.inbox.Keys + (if timer.Some? then {timer.value} else {}) && Consumed(v, w.inbox, consumed)
            && (timer.Some? ==> w.inbox[timer.value] == InboxItem(TimerItem, Pending))
            && w.trace == v.trace.(summary := Summary(Waiting, wait, |OpenTasks(w)|, |OpenInbox(w)|))
  {
    ConsumedRows(v, consumed);
    var a := Consume(v, consumed);
    if timer.Some? { ConsumedMore(v, a.inbox, consumed, timer.value, InboxItem(TimerItem, Pending)); }
    hide OpenTasks, OpenInbox, Sync, Consume, Consumed;
    var b := if task.Some? then a.(tasks := a.tasks[task.value.0 := task.value.1]) else a;
    var c := if timer.Some? then b.(inbox := b.inbox[timer.value := InboxItem(TimerItem, Pending)]) else b;
    SyncCounts(c.(run := c.run.(status := Waiting, waitingFor := wait, claimedBy := None)));
  }

  lemma {:induction false} SyncCounts(v: RunView)
    ensures Sync(v) == v.(trace := v.trace.(summary :=
              Summary(v.run.status, v.run.waitingFor, |OpenTasks(Sync(v))|, |OpenInbox(Sync(v))|)))
  {
    assert OpenTasks(Sync(v)) == OpenTasks(v) && OpenInbox(Sync(v)) == OpenInbox(v);
  }

  /** An activation that cannot go on: likewise, but without new work, and the run is quarantined. */
  lemma {:induction false} QuarantineEffect(v: RunView, wait: Wait, consumed: set<nat>)
    requires v.run.status.Running?
    ensures var w := QuarantineRun(v, wait, consumed);
            && w.run == v.run.(status := RunStatus.Quarantined, waitingFor := wait, claimedBy := None)
            && w.history == v.history && w.tasks == v.tasks && w.inbox.Keys == v.inbox.Keys && Consumed(v, w.inbox, consumed)
            && w.trace == v.trace.(summary := Summary(RunStatus.Quarantined, wait, |OpenTasks(w)|, |OpenInbox(w)|))
  {
    ConsumedRows(v, consumed);
    var a := Consume(v, consumed);
    SyncCounts(a.(run := a.run.(status := RunStatus.Quarantined, waitingFor := wait, claimedBy := None)));
    hide OpenTasks, OpenInbox, Sync, Consume, Consumed;
  }

  /** A worker takes a queued run, or one whose worker is gone, and may give it back; its trace's status
      follows, and nothing else changes. */
  lemma {:induction false} ClaimRunEffect(v: RunView, worker: string)
    ensures var claims := v.run.status.Queued? || v.run.status.Running?;
            ClaimRun(v, worker) ==
            if claims then v.(run := v.run.(status := RunStatus.Running, claimedBy := Some(worker)),
                              trace := v.trace.(summary := v.trace.summary.(status := RunStatus.Running))) else v
    ensures ReleaseRun(v) ==
            if v.run.status.Running? then v.(run := v.run.(status := Queued, claimedBy := None),
                                             trace := v.trace.(summary := v.trace.summary.(status := Queued))) else v
  {
  }

  /** A report on a task is taken from its remote claimant, until its lease and the grace after it are over. */
  lemma {:induction false} ReportTaken(v: RunView, task: nat, worker: string, now: int, grace: int, nonRetryable: bool, delay: int, id: nat)
    ensures var taken := && task in v.tasks && v.tasks[task].remote && v.tasks[task].status.TaskClaimed?
                         && v.tasks[task].claimedBy == Some(worker)
                         && v.tasks[task].leaseExpiresAt.Some? && now < v.tasks[task].leaseExpiresAt.value + grace;
            var refused := Err(if task in v.tasks then TaskConflict else NotFound);
            && (if taken then CompleteTask(v, task, worker, now, grace).Ok? else CompleteTask(v, task, worker, now, grace) == refused)
            && (if taken then FailTask(v, task, worker, nonRetryable, now, grace, delay, id).Ok?
                else FailTask(v, task, worker, nonRetryable, now, grace, delay, id) == refused)
  {
  }

  /** A completed task is one open task less, and its run looks again if it waited. */
  lemma {:induction false} CompleteEffect(v: RunView, task: nat, worker: string, now: int, grace: int)
    requires task in v.tasks && OwnedByWorker(v.tasks[task], worker, now, grace)
    ensures CompleteTask(v, task, worker, now, grace).Ok?
    ensures var w := CompleteTask(v, task, worker, now, grace).value;
            && OpenTasks(w) == OpenTasks(v) - {task} && |OpenTasks(w)| + 1 == |OpenTasks(v)|
            && w.tasks[task].status.TaskCompleted? && w.tasks[task].claimedBy.None?
            && w.tasks.Keys == v.tasks.Keys && (forall t :: t in v.tasks && t != task ==> w.tasks[t] == v.tasks[t])
            && w.run.status == (if v.run.status.Waiting? then Queued else v.run.status)
            && w.history == v.history && w.trace.summary == Live(w)
            && CompleteTask(w, task, worker, now, grace) == Err(TaskConflict)
  {
    var w := CompleteTask(v, task, worker, now, grace).value;
    assert OpenTasks(w) == OpenTasks(v) - {task};
    assert OpenInbox(w) == OpenInbox(v);
    assert task in OpenTasks(v);
  }

  /** A failed attempt leaves the task open and says so in the history while attempts are left, and
      otherwise ends it as a completion does, but failed. */
  lemma {:induction false} FailEffect(v: RunView, task: nat, worker: string, nonRetryable: bool, now: int, grace: int, delay: int, id: nat)
    requires task in v.tasks && OwnedByWorker(v.tasks[task], worker, now, grace)
    ensures FailTask(v, task, worker, nonRetryable, now, grace, delay, id).Ok?
    ensures var w := FailTask(v, task, worker, nonRetryable, now, grace, delay, id).value;
            var t := v.tasks[task];
            if !nonRetryable && t.attemptCount < t.maxAttempts
            then && OpenTasks(w) == OpenTasks(v) && w.tasks[task].status.TaskQueued? && w.tasks[task].availableAt == now + delay
                 && w.tasks[task].attemptCount == t.attemptCount && w.run == v.run
                 && |w.history| == |v.history| + 1 && w.history[|v.history|].kind == ActivityRetryScheduled(task)
            else && OpenTasks(w) == OpenTasks(v) - {task} && w.tasks[task].status.TaskFailed?
                 && w.run.status == (if v.run.status.Waiting? then Queued else v.run.status)
                 && w.history == v.history && w.trace.summary == Live(w)
  {
    var w := FailTask(v, task, worker, nonRetryable, now, grace, delay, id).value;
    if !Retries(v.tasks[task], nonRetryable) {
      assert OpenTasks(w) == OpenTasks(v) - {task};
      assert OpenInbox(w) == OpenInbox(v);
    } else {
      assert OpenTasks(w) == OpenTasks(v);
    }
  }

  lemma {:induction false} EndedColumns(v: RunView, status: RunStatus, consumed: set<nat>, id: nat)
    ensures var w := EndRun(v, status, consumed, id); var e := AppendEvent(v, id, WorkflowEnded(status));
            && w.run.status == status && w.history == e.history && w.trace == (if status.Cancelled? then v.trace else e.trace)
            && w.trace.lastProjectedHistoryId == v.trace.lastProjectedHistoryId
  {
  }

  lemma {:induction false} EndedTrace(v: RunView, status: RunStatus, consumed: set<nat>, id: nat)
    requires OkView(v, id) && v.run.status.Running? && OwnEnd(status)
    ensures var w := EndRun(v, status, consumed, id);
            && w.run.status == status && LatestId(w.history) == id && Stale(w)
            && w.trace == (if status.Cancelled? then v.trace else AppendEvent(v, id, WorkflowEnded(status)).trace)
            && !w.trace.state.JournalExpired?
  {
    EndedColumns(v, status, consumed, id);
    AppendedHistory(v, id, WorkflowEnded(status));
    hide EndRun, AppendEvent, Numbered, RetryEvents, LatestId, OkTasks, TerminatedLast, Live;
  }

  /** Retention may delete a journal whose end is not projected yet exactly when the run's own activation
      ended it as cancelled, which does not move the column that retention looks at, and the trace had
      caught up before. The trace then keeps what it said before the end. */
  lemma {:induction false} RetentionOutrunsProjector(v: RunView, status: RunStatus, consumed: set<nat>, id: nat)
    requires OkView(v, id) && v.run.status.Running? && OwnEnd(status)
    ensures var w := EndRun(v, status, consumed, id);
            && (Reapable(w) && Stale(w) <==> status.Cancelled? && v.trace.lastProjectedHistoryId >= v.trace.latestHistoryId)
            && (Reapable(w) ==> Reap(w).trace == v.trace.(state := JournalExpired) && Reap(w).history == [])
  {
    EndedTrace(v, status, consumed, id);
  }

  // ---- the projector catches up ----

  /** The events that the checkpoint has not reached. */
  function Unprojected(h: seq<Event>, last: nat): seq<Event>
  {
    if h == [] then []
    else Unprojected(h[..|h| - 1], last) + (if h[|h| - 1].id > last then [h[|h| - 1]] else [])
  }

  predicate ReachedAt(h: seq<Event>, i: nat, a: nat, b: nat)
  {
    i < |h| && a < h[i].id <= b
  }

  lemma {:induction false} FewerUnprojected(h: seq<Event>, a: nat, b: nat)
    requires a <= b
    ensures |Unprojected(h, b)| <= |Unprojected(h, a)|
    ensures (exists i: nat :: ReachedAt(h, i, a, b)) ==> |Unprojected(h, b)| < |Unprojected(h, a)|
  {
    if h != [] {
      var front := h[..|h| - 1];
      FewerUnprojected(front, a, b);
      if i: nat :| ReachedAt(h, i, a, b) {
        if i < |h| - 1 { assert ReachedAt(front, i, a, b); }
      }
    }
  }

  predicate HasId(h: seq<Event>, i: nat, id: nat)
  {
    i < |h| && h[i].id == id
  }

  lemma {:induction false} NextIsThere(h: seq<Event>, last: nat)
    ensures NextUnprojected(h, last).Some? ==> exists i: nat :: HasId(h, i, NextUnprojected(h, last).value)
    ensures NextUnprojected(h, last).None? ==> forall i: nat :: i < |h| ==> h[i].id <= last
    decreases |h|
  {
    if h != [] && h[0].id <= last {
      NextIsThere(h[1..], last);
      assert forall i: nat :: i < |h| - 1 ==> h[1..][i] == h[i + 1];
      if NextUnprojected(h[1..], last).Some? {
        var i: nat :| HasId(h[1..], i, NextUnprojected(h[1..], last).value);
        assert HasId(h, i + 1, NextUnprojected(h, last).value);
      }
    } else if h != [] {
      assert HasId(h, 0, h[0].id);
    }
  }

  lemma {:induction false} NextIsFirst(h: seq<Event>, last: nat)
    ensures NextUnprojected(h, last).Some? ==>
              exists i: nat :: HasId(h, i, NextUnprojected(h, last).value) && last < h[i].id && forall j: nat :: j < i ==> h[j].id <= last
    decreases |h|
  {
    if h != [] && h[0].id > last {
      assert HasId(h, 0, h[0].id);
    } else if h != [] {
      NextIsFirst(h[1..], last);
      if NextUnprojected(h[1..], last).Some? {
        var i: nat :| HasId(h[1..], i, NextUnprojected(h, last).value) && last < h[1..][i].id
                      && forall j: nat :: j < i ==> h[1..][j].id <= last;
        assert forall j: nat :: 0 < j <= i ==> h[j] == h[1..][j - 1];
        assert HasId(h, i + 1, NextUnprojected(h, last).value) && h[i + 1] == h[1..][i];
      }
    }
  }

  /** A projection follows the first event above the checkpoint, and no further, and caches the live run. */
  lemma {:induction false} ProjectFollows(v: RunView, next: nat)
    requires OkView(v, next) && Stale(v) && (v.trace.state.UpToDate? || v.trace.state.CatchingUp?)
    ensures var w := Project(v); var last := v.trace.lastProjectedHistoryId;
            && w == v.(trace := w.trace) && w.trace.summary == Live(v)
            && exists i: nat :: i < |v.history| && w.trace.lastProjectedHistoryId == v.history[i].id && last < v.history[i].id
                                && forall j: nat :: j < i ==> v.history[j].id <= last
  {
    var last := v.trace.lastProjectedHistoryId;
    NextIsThere(v.history, last);
    LatestIsLast(v.history, next);
    NextIsFirst(v.history, last);
    var i: nat :| HasId(v.history, i, NextUnprojected(v.history, last).value) && last < v.history[i].id
                  && forall j: nat :: j < i ==> v.history[j].id <= last;
    assert OpenTasks(Project(v)) == OpenTasks(v) && OpenInbox(Project(v)) == OpenInbox(v);
  }

  /** Each projection of an unpurged trace that is behind takes it nearer to the journal's end. */
  lemma {:induction false} ProjectProgress(v: RunView, next: nat)
    requires OkView(v, next) && Stale(v) && (v.trace.state.UpToDate? || v.trace.state.CatchingUp?)
    ensures var w := Project(v);
            && w.history == v.history && w.run == v.run
            && |Unprojected(w.history, w.trace.lastProjectedHistoryId)| < |Unprojected(v.history, v.trace.lastProjectedHistoryId)|
            && (w.trace.state.UpToDate? || w.trace.state.CatchingUp?) && (w.trace.state.UpToDate? <==> !Stale(w))
  {
    var last := v.trace.lastProjectedHistoryId;
    NextIsThere(v.history, last);
    LatestIsLast(v.history, next);
    var w := Project(v);
    NextUnprojectedBelow(v.history, last, next);
    var i: nat :| HasId(v.history, i, w.trace.lastProjectedHistoryId);
    assert ReachedAt(v.history, i, last, w.trace.lastProjectedHistoryId);
    FewerUnprojected(v.history, last, w.trace.lastProjectedHistoryId);
  }

  /** So a projector left to itself comes to its end: the trace is up to date and caches the live run. */
  lemma {:induction false} ProjectorCatchesUp(v: RunView, next: nat) returns (w: RunView, steps: nat)
    requires OkView(v, next) && (v.trace.state.UpToDate? || v.trace.state.CatchingUp?) && Stale(v)
    ensures OkView(w, next) && w.history == v.history && w.run == v.run
    ensures 0 < steps <= |Unprojected(v.history, v.trace.lastProjectedHistoryId)| && w == Projected(v, steps)
    ensures w.trace.state.UpToDate? && !Stale(w) && w.trace.summary == Live(w) && Project(w) == w
    decreases |Unprojected(v.history, v.trace.lastProjectedHistoryId)|
  {
    ProjectProgress(v, next);
    ProjectKeeps(v, next);
    w := Project(v);
    steps := 1;
    if Stale(w) {
      var rest;
      w, rest := ProjectorCatchesUp(w, next);
      ProjectedFirst(v, rest);
      steps := rest + 1;
    }
  }

  function Projected(v: RunView, steps: nat): RunView
  {
    if steps == 0 then v else Project(Projected(v, steps - 1))
  }

  lemma {:induction false} ProjectedFirst(v: RunView, steps: nat)
    ensures Projected(v, steps + 1) == Projected(Project(v), steps)
  {
    if steps > 0 { ProjectedFirst(v, steps - 1); }
  }
}
