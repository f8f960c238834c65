/** How a run's rows may change: what is absorbing, what only grows, and who may change what. */
module RunLifecycle {
  import opened Basics
  import opened RunState
  import opened RunInvariants

  /** A task's outcome is final: its row stays as it is until retention deletes it. */
  ghost predicate TasksAdvance(v: RunView, w: RunView)
  {
    && (forall t :: t in v.tasks && !OpenTask(v.tasks[t]) ==>
          if t in w.tasks then w.tasks[t] == v.tasks[t] else w.journalDeleted)
    && (Terminal(v.run.status) ==> w.tasks.Keys <= v.tasks.Keys)
  }

  /** An event that a run may get after its end: the retry of a task it left open. */
  predicate Late(v: RunView, e: Event)
  {
    e.kind.ActivityRetryScheduled? && e.kind.task in OpenTasks(v)
  }

  /** The history only grows until the journal is deleted, which only a terminal run's can be. What a
      terminal run still gets are late events. */
  ghost predicate HistoryAdvances(v: RunView, w: RunView)
  {
    if w.journalDeleted
    then && Terminal(w.run.status)
         && (Terminal(v.run.status) ==> forall i: nat :: i < |w.history| ==> w.history[i] in v.history || Late(v, w.history[i]))
    else && !v.journalDeleted && v.history <= w.history
         && (Terminal(v.run.status) ==> forall i: nat :: |v.history| <= i < |w.history| ==> Late(v, w.history[i]))
  }

  /** What any later rows of a run have in common with earlier ones. */
  ghost predicate Advances(v: RunView, w: RunView)
  {
    && (Terminal(v.run.status) ==> w.run == v.run) && SameIdentity(v, w)
    && HistoryAdvances(v, w) && TasksAdvance(v, w)
  }

  lemma {:induction false} NoNewOpenTask(v: RunView, w: RunView)
    requires TasksAdvance(v, w) && Terminal(v.run.status)
    ensures OpenTasks(w) <= OpenTasks(v)
  {
  }

  lemma {:induction false} AdvancesTransitive(u: RunView, v: RunView, w: RunView)
    requires Advances(u, v) && Advances(v, w)
    ensures Advances(u, w)
  {
    if Terminal(u.run.status) { NoNewOpenTask(u, v); }
    hide OpenTasks, OpenTask;
    if w.journalDeleted && Terminal(u.run.status) {
      forall i: nat | i < |w.history| ensures w.history[i] in u.history || Late(u, w.history[i]) {
        if w.history[i] in v.history {
          var j :| 0 <= j < |v.history| && v.history[j] == w.history[i];
          if !v.journalDeleted && j < |u.history| { assert u.history[j] == v.history[j]; }
        }
      }
    }
  }

  lemma {:induction false} AdvancesReflexive(v: RunView, next: nat)
    requires OkView(v, next)
    ensures Advances(v, v)
  {
  }

  /** An open task's row is in order, and its run is not one whose end cancels tasks. */
  lemma {:induction false} OpenTaskRuns(v: RunView, id: nat, task: nat)
    requires OkView(v, id) && task in v.tasks && OpenTask(v.tasks[task])
    ensures !ClosesTasks(v.run.status) && OkTask(v, task, v.tasks[task])
    ensures v.journalDeleted ==> Terminal(v.run.status)
  {
  }

  lemma {:induction false} RetryAdvances(v: RunView, tasks: map<nat, Task>, id: nat, task: nat)
    requires v.journalDeleted ==> Terminal(v.run.status)
    requires TasksAdvance(v, v.(tasks := tasks)) && task in OpenTasks(v)
    ensures Advances(v, AppendEvent(v.(tasks := tasks), id, ActivityRetryScheduled(task)))
  {
    var w := AppendEvent(v.(tasks := tasks), id, ActivityRetryScheduled(task));
    assert forall i: nat :: i < |v.history| ==> w.history[i] == v.history[i] && v.history[i] in v.history;
  }

  lemma {:induction false} TaskStepAdvances(v: RunView, op: RunOp, id: nat)
    requires OkView(v, id) && TaskOp(op)
    ensures Advances(v, Apply(v, op, id))
  {
    AdvancesReflexive(v, id);
    if op.task in v.tasks && OpenTask(v.tasks[op.task]) {
      OpenTaskRuns(v, id, op.task);
      hide OkView;
      if Reschedules(v, op) {
        RetryAdvances(v, Apply(v, op, id).tasks, id, op.task);
      }
    }
  }

  lemma {:induction false} DeletionAdvances(v: RunView, id: nat)
    requires OkView(v, id)
    ensures Advances(v, Reap(v)) && Advances(v, Committed(v, PurgeFull(v)))
  {
    assert OkPurge(v);
    hide OkView;
  }

  lemma {:induction false} ActivationAdvances(v: RunView, op: RunOp, id: nat)
    requires OkView(v, id) && Allowed(v, op)
    requires op.ParkOp? || op.QuarantineOp? || op.ActivationEventOp? || op.ClaimRunOp? || op.ReleaseRunOp? || op.WakeTimerOp?
    ensures Advances(v, Apply(v, op, id))
  {
    assert OkPurge(v);
    hide OkView;
  }

  lemma {:induction false} RunStepAdvances(v: RunView, op: RunOp, id: nat)
    requires OkView(v, id) && Allowed(v, op)
    requires !TaskOp(op)
    ensures Advances(v, Apply(v, op, id))
  {
    if op.ReapOp? || op.PurgeFullOp? {
      DeletionAdvances(v, id);
    } else if op.ParkOp? || op.QuarantineOp? || op.ActivationEventOp? || op.ClaimRunOp? || op.ReleaseRunOp? || op.WakeTimerOp? {
      ActivationAdvances(v, op, id);
    } else {
      ControlAdvances(v, op, id);
    }
  }

  lemma {:induction false} ControlAdvances(v: RunView, op: RunOp, id: nat)
    requires OkView(v, id)
    requires op.SignalOp? || op.CancelOp? || op.EnqueueCancelOp? || op.SuspendOp? || op.ResumeOp?
             || op.PurgeProjectionOp? || op.RepairOp? || op.ProjectOp?
    ensures Advances(v, Apply(v, op, id))
  {
    assert OkPurge(v);
    hide OkView, Advances;
    if op.SuspendOp? || op.ResumeOp? {
      SuspensionAdvances(v, op, id);
    } else {
      if op.SignalOp? || op.CancelOp? || op.EnqueueCancelOp? { InboxOpRows(v, op, id); } else { TraceOpRows(v, op, id); }
      hide Apply;
      SameRowsAdvance(v, Apply(v, op, id));
    }
  }

  lemma {:induction false} InboxOpRows(v: RunView, op: RunOp, id: nat)
    requires op.SignalOp? || op.CancelOp? || op.EnqueueCancelOp?
    ensures var w := Apply(v, op, id);
            && w.tasks == v.tasks && w.history == v.history && w.journalDeleted == v.journalDeleted && SameIdentity(v, w)
            && (Terminal(v.run.status) ==> w.run == v.run)
  {
  }

  lemma {:induction false} TraceOpRows(v: RunView, op: RunOp, id: nat)
    requires op.PurgeProjectionOp? || op.RepairOp? || op.ProjectOp?
    ensures var w := Apply(v, op, id);
            && w.tasks == v.tasks && w.history == v.history && w.journalDeleted == v.journalDeleted && w.run == v.run
            && w.inbox == v.inbox
            && (v.trace.state.JournalExpired? ==> w.trace.state.JournalExpired?)
  {
  }

  lemma {:induction false} SuspensionAdvances(v: RunView, op: RunOp, id: nat)
    requires OkPurge(v) && (op.SuspendOp? || op.ResumeOp?)
    ensures Advances(v, Apply(v, op, id))
  {
    assert Apply(v, op, id).tasks == v.tasks;
  }

  lemma {:induction false} SameRowsAdvance(v: RunView, w: RunView)
    requires OkPurge(v) && w.tasks == v.tasks && w.history == v.history && w.journalDeleted == v.journalDeleted
    requires SameIdentity(v, w) && (Terminal(v.run.status) ==> w.run == v.run) && (Terminal(v.run.status) ==> Terminal(w.run.status))
    ensures Advances(v, w)
  {
  }

  /** Every step of a run advances its rows. */
  lemma {:induction false} ApplyAdvances(v: RunView, op: RunOp, id: nat)
    requires OkView(v, id) && Allowed(v, op)
    ensures Advances(v, Apply(v, op, id))
  {
    if TaskOp(op) {
      TaskStepAdvances(v, op, id);
    } else {
      RunStepAdvances(v, op, id);
    }
  }

  /** A suspended run leaves that status only by a resume (or a termination, see TerminateRows). */
  lemma {:induction false} SuspendedLeavesByResume(v: RunView, op: RunOp, id: nat)
    requires v.run.status.Suspended?
    ensures Apply(v, op, id).run.status != v.run.status <==> op.ResumeOp?
    ensures op.ResumeOp? ==> Apply(v, op, id).run.status.Queued?
  {
  }

  // ---- purged traces ----

  /** The step is a claimant's that reschedules the task, and says so in the history. */
  predicate Reschedules(v: RunView, op: RunOp)
  {
    match op
    case FailOp(task, worker, nonRetryable, now, grace, _) =>
      task in v.tasks && OwnedByWorker(v.tasks[task], worker, now, grace) && Retries(v.tasks[task], nonRetryable)
    case LocalTaskOp(task, worker, outcome) =>
      task in v.tasks && !v.tasks[task].remote && HeldBy(v.tasks[task], worker) && outcome.LocalRetry?
    case _ => false
  }

  /** A summary-only trace is reopened by a repair that has unprojected history and by the retry of a
      task its run left open, and only a full purge or retention expires it. */
  lemma {:induction false} SummaryOnlyLeaves(v: RunView, op: RunOp, id: nat)
    requires OkView(v, id) && Allowed(v, op) && v.trace.state.SummaryOnly?
    ensures Apply(v, op, id).trace.state ==
            if (op.RepairOp? && Stale(v)) || Reschedules(v, op) then ProjectionState.CatchingUp
            else if op.PurgeFullOp? || (op.ReapOp? && Reapable(v)) then JournalExpired
            else SummaryOnly
  {
  }

  /** An expired journal stays expired and empty, but for the retry of a task its run left open, which
      begins a new history and sets the trace to catch up. */
  lemma {:induction false} JournalExpiredStays(v: RunView, op: RunOp, id: nat)
    requires OkView(v, id) && Allowed(v, op) && v.trace.state.JournalExpired?
    ensures if Reschedules(v, op)
            then Apply(v, op, id).trace.state.CatchingUp?
                 && Apply(v, op, id).history == [Event(id, 1, ActivityRetryScheduled(op.task))]
            else Apply(v, op, id).trace.state.JournalExpired? && Apply(v, op, id).history == []
  {
  }

  // ---- what an ended run may still get ----

  /** The task can be rescheduled by its claimant, at once or after one more claim. */
  predicate MayRetry(t: Task)
  {
    || (t.status.TaskClaimed? && t.attemptCount < t.maxAttempts)
    || (t.status.TaskQueued? && t.attemptCount + 1 < t.maxAttempts)
  }

  ghost predicate NoneMayRetry(v: RunView)
  {
    forall t :: t in v.tasks ==> !MayRetry(v.tasks[t])
  }

  /** The history is as it was or deleted for good, and a trace that was purged with nothing left to
      project stays purged. */
  ghost predicate Settled(v: RunView, w: RunView)
  {
    && (w.history == v.history || (w.history == [] && w.journalDeleted))
    && (v.trace.state.JournalExpired? ==> w.trace.state.JournalExpired?)
    && (v.trace.state.SummaryOnly? && !Stale(v) ==> !Stale(w) && (w.trace.state.SummaryOnly? || w.trace.state.JournalExpired?))
  }

  lemma {:induction false} SettledTransitive(u: RunView, v: RunView, w: RunView)
    requires Settled(u, v) && Settled(v, w) && (v.journalDeleted ==> w.journalDeleted)
    requires w.trace.state.JournalExpired? ==> w.history == []
    ensures Settled(u, w)
  {
  }

  lemma {:induction false} TaskStepSettles(v: RunView, op: RunOp, id: nat)
    requires OkView(v, id) && Allowed(v, op) && TaskOp(op) && Terminal(v.run.status) && NoneMayRetry(v)
    ensures Settled(v, Apply(v, op, id)) && NoneMayRetry(Apply(v, op, id))
    ensures v.journalDeleted ==> Apply(v, op, id).journalDeleted
  {
    if op.task in v.tasks { assert !MayRetry(v.tasks[op.task]); }
    hide OkView;
  }

  /** While no task of an ended run can be rescheduled, every step settles it and leaves it so. */
  lemma {:induction false} ApplySettles(v: RunView, op: RunOp, id: nat)
    requires OkView(v, id) && Allowed(v, op) && Terminal(v.run.status) && NoneMayRetry(v)
    ensures Settled(v, Apply(v, op, id)) && NoneMayRetry(Apply(v, op, id))
    ensures v.journalDeleted ==> Apply(v, op, id).journalDeleted
  {
    if TaskOp(op) {
      TaskStepSettles(v, op, id);
    } else {
      assert OkPurge(v);
      hide OkView;
    }
  }

  /** The calls with which a claimant reschedules a task that may be retried. */
  function RetryCalls(task: nat, t: Task): (ops: seq<RunOp>)
  {
    var claim := if t.status.TaskQueued? then [ClaimTaskOp(task, t.remote, "w", t.availableAt, 1)] else [];
    var worker := if t.status.TaskQueued? || t.claimedBy.None? then "w" else t.claimedBy.value;
    var lease := if t.status.TaskQueued? || t.leaseExpiresAt.None? then t.availableAt + 1 else t.leaseExpiresAt.value;
    claim + [if t.remote then FailOp(task, worker, false, lease - 1, 0, 0) else LocalTaskOp(task, worker, LocalRetry(lease))]
  }

  function ApplyAll(v: RunView, ops: seq<RunOp>, id: nat): RunView
    decreases |ops|
  {
    if ops == [] then v else ApplyAll(Apply(v, ops[0], id), ops[1..], id)
  }

  /** Those calls append a retry event, whatever has become of the run and its journal. */
  lemma {:induction false} RetryReopens(v: RunView, task: nat, id: nat)
    requires OkView(v, id) && task in v.tasks && MayRetry(v.tasks[task])
    ensures var w := ApplyAll(v, RetryCalls(task, v.tasks[task]), id);
            && w.history == v.history + [Event(id, |v.history| + 1, ActivityRetryScheduled(task))]
            && w.trace.state.CatchingUp? && w.run == v.run && w.journalDeleted == v.journalDeleted
  {
    var t := v.tasks[task];
    var ops := RetryCalls(task, t);
    assert OkTask(v, task, t);
    var u := if t.status.TaskQueued? then Apply(v, ops[0], id) else v;
    var call := ops[|ops| - 1];
    CallReopens(u, call, id);
    assert ApplyAll(Apply(u, call, id), [], id) == Apply(u, call, id);
    assert ApplyAll(u, [call], id) == Apply(u, call, id);
    if t.status.TaskQueued? { assert ops[1..] == [call]; } else { assert ops == [call]; }
  }

  lemma {:induction false} CallReopens(v: RunView, op: RunOp, id: nat)
    requires Numbered(v.history, id) && v.trace.lastProjectedHistoryId < id && Reschedules(v, op)
    ensures var w := Apply(v, op, id);
            && w.history == v.history + [Event(id, |v.history| + 1, ActivityRetryScheduled(op.task))]
            && w.trace.state.CatchingUp? && w.run == v.run && w.journalDeleted == v.journalDeleted
  {
  }

  // ---- tidy runs ----

  /** No open task is left behind by an end, and a deleted journal stays deleted. */
  ghost predicate Tidy(v: RunView)
  {
    && (Terminal(v.run.status) ==> OpenTasks(v) == {})
    && (v.journalDeleted ==> v.trace.state.JournalExpired? && v.history == [])
  }

  lemma {:induction false} TaskStepKeepsTidy(v: RunView, op: RunOp, id: nat)
    requires OkView(v, id) && TaskOp(op) && Tidy(v)
    ensures Tidy(Apply(v, op, id))
  {
    var w := Apply(v, op, id);
    if Terminal(v.run.status) {
      assert forall t :: t in OpenTasks(v) <==> t in v.tasks && OpenTask(v.tasks[t]);
      assert w == v;
    } else {
      assert !v.journalDeleted;
    }
  }

  lemma {:induction false} ApplyKeepsTidy(v: RunView, op: RunOp, id: nat)
    requires OkView(v, id) && Allowed(v, op) && Tidy(v)
    ensures Tidy(Apply(v, op, id))
  {
    if TaskOp(op) {
      TaskStepKeepsTidy(v, op, id);
    } else if op.PurgeProjectionOp? || op.RepairOp? || op.ProjectOp? {
      TraceOpRows(v, op, id);
      hide Apply;
      assert OpenTasks(Apply(v, op, id)) == OpenTasks(v);
    } else {
      assert OkPurge(v);
      hide OkView;
    }
  }

  /** An end keeps a run tidy exactly when it cancels the open tasks or there are none. */
  lemma {:induction false} EndKeepsTidy(v: RunView, status: RunStatus, consumed: set<nat>, id: nat)
    requires OkView(v, id) && Tidy(v) && v.run.status.Running? && OwnEnd(status)
    ensures Tidy(EndRun(v, status, consumed, id)) <==> ClosesTasks(status) || OpenTasks(v) == {}
  {
  }

  // ---- remote tasks ----

  /** The step is one that the task's current claimant makes: a remote one while its lease, or the
      grace after it, still runs. */
  predicate ByClaimant(op: RunOp, id: nat, t: Task)
  {
    match op
    case HeartbeatOp(task, _, worker, now) =>
      task == id && HeldBy(t, worker) && t.leaseExpiresAt.Some? && t.leaseExpiresAt.value > now
    case CompleteOp(task, worker, now, grace) => task == id && OwnedByWorker(t, worker, now, grace)
    case FailOp(task, worker, _, now, grace, _) => task == id && OwnedByWorker(t, worker, now, grace)
    case LocalTaskOp(task, worker, _) => task == id && !t.remote && HeldBy(t, worker)
    case _ => false
  }

  predicate TakesOver(op: RunOp, id: nat, t: Task)
  {
    op.ClaimTaskOp? && op.task == id && t.leaseExpiresAt.Some? && t.leaseExpiresAt.value < op.now
  }

  lemma {:induction false} OthersLeaveTask(v: RunView, op: RunOp, id: nat, task: nat)
    requires OkView(v, id) && Allowed(v, op) && !TaskOp(op) && task in v.tasks && v.tasks[task].status.TaskClaimed?
    requires op.ReapOp? ==> !Reapable(v)
    ensures task in Apply(v, op, id).tasks && Apply(v, op, id).tasks[task] == v.tasks[task]
  {
    OpenTaskRuns(v, id, task);
    hide OkView;
  }

  /** A claimed task changes only by its claimant's own call, by a claim after its lease ran out, or when
      retention deletes the rows of its ended run. */
  lemma {:induction false} OnlyClaimantChanges(v: RunView, op: RunOp, id: nat, task: nat)
    requires OkView(v, id) && Allowed(v, op) && task in v.tasks && v.tasks[task].status.TaskClaimed?
    requires var w := Apply(v, op, id); task !in w.tasks || w.tasks[task] != v.tasks[task]
    ensures ByClaimant(op, task, v.tasks[task]) || TakesOver(op, task, v.tasks[task]) || (op.ReapOp? && Reapable(v))
    ensures task in Apply(v, op, id).tasks <==> !op.ReapOp?
  {
    if TaskOp(op) {
      TaskOpChanges(v, op, id, task);
    } else if !op.ReapOp? {
      OthersLeaveTask(v, op, id, task);
    }
  }

  lemma {:induction false} TaskOpChanges(v: RunView, op: RunOp, id: nat, task: nat)
    requires TaskOp(op) && task in v.tasks && v.tasks[task].status.TaskClaimed?
    ensures task in Apply(v, op, id).tasks
    ensures Apply(v, op, id).tasks[task] != v.tasks[task] ==>
              ByClaimant(op, task, v.tasks[task]) || TakesOver(op, task, v.tasks[task])
  {
  }

  predicate Requeues(v: RunView, w: RunView, task: nat)
  {
    task in v.tasks && task in w.tasks && v.tasks[task].status.TaskClaimed? && w.tasks[task].status.TaskQueued?
  }

  lemma {:induction false} AppendedRetries(v: RunView, id: nat, kind: EventKind, task: nat)
    ensures RetryEvents(AppendEvent(v, id, kind).history, task)
            == RetryEvents(v.history, task) + (if kind == ActivityRetryScheduled(task) then 1 else 0)
  {
    var h := AppendEvent(v, id, kind).history;
    assert h[..|h| - 1] == v.history;
  }

  /** The engine's worker gives a task back unattempted when it stops: no retry. */
  predicate GivesBack(op: RunOp)
  {
    op.LocalTaskOp? && op.outcome.LocalRelease?
  }

  lemma {:induction false} FailWritesRetry(v: RunView, op: RunOp, id: nat, task: nat)
    requires op.FailOp?
    ensures var w := Apply(v, op, id);
            RetryEvents(w.history, task) == RetryEvents(v.history, task) + (if Requeues(v, w, task) then 1 else 0)
  {
    AppendedRetries(v.(tasks := Apply(v, op, id).tasks), id, ActivityRetryScheduled(op.task), task);
  }

  lemma {:induction false} LocalWritesRetry(v: RunView, op: RunOp, id: nat, task: nat)
    requires op.LocalTaskOp? && !GivesBack(op) && Allowed(v, op)
    ensures var w := Apply(v, op, id);
            RetryEvents(w.history, task) == RetryEvents(v.history, task) + (if Requeues(v, w, task) then 1 else 0)
  {
    AppendedRetries(v.(tasks := Apply(v, op, id).tasks), id, ActivityRetryScheduled(op.task), task);
  }

  lemma {:induction false} TaskOpWritesRetry(v: RunView, op: RunOp, id: nat, task: nat)
    requires TaskOp(op) && !GivesBack(op) && Allowed(v, op)
    ensures var w := Apply(v, op, id);
            RetryEvents(w.history, task) == RetryEvents(v.history, task) + (if Requeues(v, w, task) then 1 else 0)
  {
    if op.FailOp? {
      FailWritesRetry(v, op, id, task);
    } else if op.LocalTaskOp? {
      LocalWritesRetry(v, op, id, task);
    } else {
      hide RetryEvents, AppendEvent;
    }
  }

  lemma {:induction false} OthersRequeue(v: RunView, op: RunOp, id: nat, task: nat)
    requires OkView(v, id) && Allowed(v, op) && !TaskOp(op)
    ensures !Requeues(v, Apply(v, op, id), task)
  {
    if task in v.tasks && v.tasks[task].status.TaskClaimed? && (op.ReapOp? ==> !Reapable(v)) {
      OthersLeaveTask(v, op, id, task);
    }
  }

  /** The step deletes the run's journal. */
  predicate Deletes(v: RunView, op: RunOp)
  {
    || (op.PurgeFullOp? && Terminal(v.run.status) && !v.trace.state.JournalExpired?)
    || (op.ReapOp? && Reapable(v))
  }

  lemma {:induction false} OthersWriteNoRetry(v: RunView, op: RunOp, id: nat, task: nat)
    requires (!TaskOp(op) || GivesBack(op)) && !Deletes(v, op)
    ensures RetryEvents(Apply(v, op, id).history, task) == RetryEvents(v.history, task)
  {
    match op
    case SuspendOp =>
      AppendedRetries(v.(run := v.run.(status := RunStatus.Suspended, claimedBy := None)), id, WorkflowSuspended, task);
    case ResumeOp => AppendedRetries(v.(run := Requeued(v.run)), id, WorkflowResumed, task);
    case ActivationEventOp(_) => AppendedRetries(v, id, OtherEvent, task);
    case _ =>
  }

  /** Each reschedule of a task writes one retry event for it, and nothing else does; a task that is
      given back is queued without one. */
  lemma {:induction false} OneRetryEventEach(v: RunView, op: RunOp, id: nat, task: nat)
    requires OkView(v, id) && Allowed(v, op) && !Deletes(v, op)
    ensures var w := Apply(v, op, id);
            RetryEvents(w.history, task)
            == RetryEvents(v.history, task) + (if Requeues(v, w, task) && !GivesBack(op) then 1 else 0)
    ensures GivesBack(op) && task in v.tasks && v.tasks[task].remote ==> !Requeues(v, Apply(v, op, id), task)
  {
    if TaskOp(op) && !GivesBack(op) {
      TaskOpWritesRetry(v, op, id, task);
    } else {
      if !TaskOp(op) { OthersRequeue(v, op, id, task); }
      OthersWriteNoRetry(v, op, id, task);
    }
  }

  /** A task is rescheduled fewer times than it may be attempted. */
  lemma {:induction false} RetriesBounded(v: RunView, next: nat, task: nat)
    requires OkView(v, next) && task in v.tasks && v.tasks[task].maxAttempts > 0
    ensures RetryEvents(v.history, task) < v.tasks[task].maxAttempts
  {
    assert OkTask(v, task, v.tasks[task]);
  }
}
