/** The rows that belong to one engine run, and what each control operation, worker and
    environment step does to them. Row ids and times are plain numbers. */
module RunState {
  import opened Basics

  datatype RunStatus =
    | Queued | Running | Waiting | Suspended | Quarantined
    | Completed | Failed | Cancelled | Terminated | ContinuedAsNew

  predicate Terminal(s: RunStatus)
  {
    s.Completed? || s.Failed? || s.Cancelled? || s.Terminated? || s.ContinuedAsNew?
  }

  /** The ends that cancel a run's open tasks. A completion or a failure leaves them as they are. */
  predicate ClosesTasks(s: RunStatus)
  {
    s.Cancelled? || s.Terminated? || s.ContinuedAsNew?
  }

  datatype Wait = NoWait | OnChild(childKey: string) | OnOther

  datatype Run = Run(status: RunStatus, waitingFor: Wait, claimedBy: Option<string>,
                     instance: nat, parent: Option<nat>, childKey: string, depth: nat)

  datatype EventKind =
    | WorkflowStarted | WorkflowSuspended | WorkflowResumed | WorkflowTerminated
    | WorkflowEnded(status: RunStatus) | ActivityRetryScheduled(task: nat) | OtherEvent

  datatype Event = Event(id: nat, sequenceNo: nat, kind: EventKind)

  datatype TaskStatus = TaskQueued | TaskClaimed | TaskCompleted | TaskFailed | TaskCancelled

  datatype Task = Task(status: TaskStatus, remote: bool, claimedBy: Option<string>, leaseExpiresAt: Option<int>,
                       leaseDuration: int, availableAt: int, attemptCount: nat, maxAttempts: nat)

  datatype InboxKind = SignalItem | TimerItem | CancelItem

  datatype InboxStatus = Pending | InboxClaimed | Processed | Discarded

  datatype InboxItem = InboxItem(kind: InboxKind, status: InboxStatus)

  datatype ProjectionState = UpToDate | CatchingUp | SummaryOnly | JournalExpired

  datatype Summary = Summary(status: RunStatus, waitingFor: Wait, pendingTasks: nat, pendingInbox: nat)

  datatype Trace = Trace(summary: Summary, state: ProjectionState, latestHistoryId: nat, lastProjectedHistoryId: nat)

  /** All rows of one run. journalDeleted remembers that its history was deleted. */
  datatype RunView = RunView(run: Run, history: seq<Event>, trace: Trace, tasks: map<nat, Task>,
                             inbox: map<nat, InboxItem>, journalDeleted: bool)

  // ---- queries ----

  predicate OpenTask(t: Task)
  {
    t.status.TaskQueued? || t.status.TaskClaimed?
  }

  function OpenTasks(v: RunView): set<nat>
  {
    set t | t in v.tasks && OpenTask(v.tasks[t])
  }

  predicate OpenItem(i: InboxItem)
  {
    i.status.Pending? || i.status.InboxClaimed?
  }

  /** Open inbox items as operators see them: cancel items are not counted. */
  function OpenInbox(v: RunView): set<nat>
  {
    set i | i in v.inbox && OpenItem(v.inbox[i]) && !v.inbox[i].kind.CancelItem?
  }

  function Live(v: RunView): Summary
  {
    Summary(v.run.status, v.run.waitingFor, |OpenTasks(v)|, |OpenInbox(v)|)
  }

  function LatestId(h: seq<Event>): nat
  {
    if h == [] then 0
    else
      var m := LatestId(h[..|h| - 1]);
      if m > h[|h| - 1].id then m else h[|h| - 1].id
  }

  /** The checkpoint is behind the journal. */
  predicate Stale(v: RunView)
  {
    LatestId(v.history) > v.trace.lastProjectedHistoryId
  }

  /** Whether a reader of the trace is sent to the live run. */
  predicate ReadsLive(v: RunView)
  {
    || v.trace.summary.status.ContinuedAsNew?
    || v.trace.state.CatchingUp? || v.trace.state.SummaryOnly?
    || (!v.trace.state.JournalExpired? && Stale(v))
  }

  function ReadSummary(v: RunView): Summary
  {
    if ReadsLive(v) then Live(v) else v.trace.summary
  }

  /** The state reported for a trace: up to date only while the checkpoint is not behind. */
  function EffectiveProjectionState(v: RunView): ProjectionState
  {
    if Stale(v) && v.trace.state.UpToDate? then CatchingUp else v.trace.state
  }

  // ---- shared writes ----

  function NextSequence(h: seq<Event>): nat
  {
    if h == [] then 1 else h[|h| - 1].sequenceNo + 1
  }

  /** Appends one event under the run lock and advances the trace's freshness columns. */
  function AppendEvent(v: RunView, id: nat, kind: EventKind): RunView
  {
    v.(history := v.history + [Event(id, NextSequence(v.history), kind)],
       trace := v.trace.(latestHistoryId := if v.trace.latestHistoryId > id then v.trace.latestHistoryId else id,
                         state := if v.trace.lastProjectedHistoryId >= id then UpToDate else CatchingUp))
  }

  function Sync(v: RunView): RunView
  {
    v.(trace := v.trace.(summary := Live(v)))
  }

  function Requeued(r: Run): Run
  {
    r.(status := Queued, waitingFor := NoWait, claimedBy := None)
  }

  /** Wakes the run if it waits. */
  function Wake(v: RunView): RunView
  {
    if v.run.status.Waiting? then v.(run := Requeued(v.run)) else v
  }

  function CancelTasks(v: RunView): RunView
  {
    v.(tasks := map t | t in v.tasks ::
         if OpenTask(v.tasks[t])
         then v.tasks[t].(status := TaskCancelled, claimedBy := None, leaseExpiresAt := None)
         else v.tasks[t])
  }

  function DiscardInbox(v: RunView): RunView
  {
    v.(inbox := map i | i in v.inbox :: if OpenItem(v.inbox[i]) then v.inbox[i].(status := Discarded) else v.inbox[i])
  }

  // ---- control operations ----

  datatype ErrorCode =
    | RunTerminal | RunNotSuspendable | RunNotTerminal | TaskConflict | NotFound

  type Outcome = Result<RunView, ErrorCode>

  function Signal(v: RunView, item: nat): Outcome
  {
    if Terminal(v.run.status) then Err(RunTerminal)
    else Ok(Sync(Wake(v.(inbox := v.inbox[item := InboxItem(SignalItem, Pending)]))))
  }

  /** The cancel item's dedupe key names the run, so a run holds at most one. */
  function HasCancelItem(v: RunView): bool
  {
    exists i :: i in v.inbox && v.inbox[i].kind.CancelItem?
  }

  function RequestCancel(v: RunView, item: nat): Outcome
  {
    if Terminal(v.run.status) then Err(RunTerminal)
    else
      Ok(Sync(Wake(EnqueueCancel(v, item))))
  }

  /** A cancelled parent's activation passes the request on: no wake and no projection. */
  function EnqueueCancel(v: RunView, item: nat): RunView
  {
    if HasCancelItem(v) then v else v.(inbox := v.inbox[item := InboxItem(CancelItem, Pending)])
  }

  function Suspend(v: RunView, id: nat): Outcome
  {
    match v.run.status
    case Suspended => Ok(v)
    case Quarantined => Err(RunNotSuspendable)
    case Running => Err(RunNotSuspendable)
    case _ =>
      if Terminal(v.run.status) then Err(RunTerminal)
      else Ok(Sync(AppendEvent(v.(run := v.run.(status := RunStatus.Suspended, claimedBy := None)), id, WorkflowSuspended)))
  }

  function Resume(v: RunView, id: nat): Outcome
  {
    if Terminal(v.run.status) then Err(RunTerminal)
    else if !v.run.status.Suspended? && !v.run.status.Quarantined? then Ok(v)
    else Ok(Sync(AppendEvent(v.(run := Requeued(v.run)), id, WorkflowResumed)))
  }

  /** What terminating a locked, live run does to its own rows. */
  function TerminateRows(v: RunView, id: nat): RunView
  {
    var w := AppendEvent(v, id, WorkflowTerminated);
    DiscardInbox(CancelTasks(w.(run := w.run.(status := Terminated, waitingFor := NoWait, claimedBy := None))))
  }

  // ---- tasks ----

  predicate HeldBy(t: Task, worker: string)
  {
    t.status.TaskClaimed? && t.claimedBy == Some(worker)
  }

  /** The remote claimant's lease, stretched by the completion grace, is still running. */
  predicate OwnedByWorker(t: Task, worker: string, now: int, grace: int)
  {
    t.remote && HeldBy(t, worker) && t.leaseExpiresAt.Some? && t.leaseExpiresAt.value + grace > now
  }

  function ReleaseTask(t: Task, status: TaskStatus): Task
  {
    t.(status := status, claimedBy := None, leaseExpiresAt := None)
  }

  /** Remote workers claim remote tasks, the engine's own worker the others. */
  function ClaimTask(v: RunView, task: nat, remote: bool, worker: string, now: int, lease: int): Outcome
  {
    if task !in v.tasks then Err(NotFound)
    else
      var t := v.tasks[task];
      if t.remote == remote && ((t.status.TaskQueued? && t.availableAt <= now)
                                || (t.status.TaskClaimed? && t.leaseExpiresAt.Some? && t.leaseExpiresAt.value < now))
      then Ok(v.(tasks := v.tasks[task := t.(status := TaskClaimed, claimedBy := Some(worker),
                                             leaseExpiresAt := Some(now + lease), leaseDuration := lease,
                                             attemptCount := t.attemptCount + 1)]))
      else Err(TaskConflict)
  }

  function HeartbeatTask(v: RunView, task: nat, remote: bool, worker: string, now: int): Outcome
  {
    if task !in v.tasks then Err(NotFound)
    else
      var t := v.tasks[task];
      if t.remote == remote && HeldBy(t, worker) && t.leaseDuration > 0 && t.leaseExpiresAt.Some? && t.leaseExpiresAt.value > now
      then Ok(v.(tasks := v.tasks[task := t.(leaseExpiresAt := Some(now + t.leaseDuration))]))
      else Err(TaskConflict)
  }

  function CompleteTask(v: RunView, task: nat, worker: string, now: int, grace: int): Outcome
  {
    if task !in v.tasks then Err(NotFound)
    else if !OwnedByWorker(v.tasks[task], worker, now, grace) then Err(TaskConflict)
    else Ok(Sync(Wake(v.(tasks := v.tasks[task := ReleaseTask(v.tasks[task], TaskCompleted)]))))
  }

  predicate Retries(t: Task, nonRetryable: bool)
  {
    !nonRetryable && t.attemptCount < t.maxAttempts
  }

  /** A failed attempt is rescheduled with one retry event, or ends the task. */
  function FailTask(v: RunView, task: nat, worker: string, nonRetryable: bool, now: int, grace: int, delay: int, id: nat): Outcome
  {
    if task !in v.tasks then Err(NotFound)
    else
      var t := v.tasks[task];
      if !OwnedByWorker(t, worker, now, grace) then Err(TaskConflict)
      else if Retries(t, nonRetryable) then
        Ok(AppendEvent(v.(tasks := v.tasks[task := ReleaseTask(t, TaskQueued).(availableAt := now + delay)]), id,
                       ActivityRetryScheduled(task)))
      else Ok(Sync(Wake(v.(tasks := v.tasks[task := ReleaseTask(t, TaskFailed)]))))
  }

  /** What the engine's own worker does with a task it holds. */
  datatype LocalOutcome = LocalEnd(status: TaskStatus) | LocalRetry(availableAt: int) | LocalRelease

  function SettleLocalTask(v: RunView, task: nat, worker: string, outcome: LocalOutcome, id: nat): Outcome
  {
    if task !in v.tasks then Err(NotFound)
    else
      var t := v.tasks[task];
      if t.remote || !HeldBy(t, worker) then Err(TaskConflict)
      else
        match outcome
        case LocalEnd(status) => Ok(Sync(Wake(v.(tasks := v.tasks[task := ReleaseTask(t, status)]))))
        case LocalRetry(availableAt) =>
          Ok(AppendEvent(v.(tasks := v.tasks[task := ReleaseTask(t, TaskQueued).(availableAt := availableAt)]), id,
                         ActivityRetryScheduled(task)))
        case LocalRelease => Ok(v.(tasks := v.tasks[task := ReleaseTask(t, TaskQueued)]))
  }

  // ---- projection maintenance ----

  /** The terminal shell written before a purge: terminal status and no pending work. */
  function TerminalShell(v: RunView): RunView
  {
    v.(trace := v.trace.(summary := Summary(v.run.status, v.run.waitingFor, 0, 0)))
  }

  function PurgeProjection(v: RunView): Outcome
  {
    if !Terminal(v.run.status) then Err(RunNotTerminal)
    else if v.trace.state.SummaryOnly? || v.trace.state.JournalExpired? then Ok(TerminalShell(v))
    else Ok(TerminalShell(v).(trace := TerminalShell(v).trace.(state := SummaryOnly)))
  }

  function PurgeFull(v: RunView): Outcome
  {
    if !Terminal(v.run.status) then Err(RunNotTerminal)
    else if v.trace.state.JournalExpired? then Ok(TerminalShell(v))
    else Ok(TerminalShell(v).(trace := TerminalShell(v).trace.(state := JournalExpired), history := [], journalDeleted := true))
  }

  datatype RepairReason = AlreadyUpToDate | HistoryExpired | NoEventsToProject | RepairRequested | AlreadyCatchingUp

  function Repair(v: RunView): (RunView, RepairReason)
  {
    match v.trace.state
    case JournalExpired => (v, HistoryExpired)
    case SummaryOnly =>
      if !Stale(v) then (v, NoEventsToProject)
      else (v.(trace := v.trace.(state := ProjectionState.CatchingUp)), RepairRequested)
    case CatchingUp => (v, AlreadyCatchingUp)
    case UpToDate => (v, AlreadyUpToDate)
  }

  predicate Reapable(v: RunView)
  {
    && Terminal(v.run.status) && !v.run.status.ContinuedAsNew? && !v.trace.state.JournalExpired?
    && v.trace.lastProjectedHistoryId >= v.trace.latestHistoryId
  }

  /** Retention deletes a fully projected terminal run's journal, tasks and inbox. */
  function Reap(v: RunView): RunView
  {
    if Reapable(v)
    then v.(history := [], tasks := map[], inbox := map[], journalDeleted := true,
            trace := v.trace.(state := JournalExpired))
    else v
  }

  /** The first journal id above the checkpoint. */
  function NextUnprojected(h: seq<Event>, last: nat): Option<nat>
  {
    if h == [] then None
    else if h[0].id > last then Some(h[0].id)
    else NextUnprojected(h[1..], last)
  }

  /** The projector follows one event: it moves the checkpoint, recomputes the state and
      refreshes the summary. Purged traces are left alone. */
  function Project(v: RunView): RunView
  {
    if v.trace.state.SummaryOnly? || v.trace.state.JournalExpired? || !Stale(v) then v
    else
      var next := NextUnprojected(v.history, v.trace.lastProjectedHistoryId);
      if next.None? then v
      else
        var latest := LatestId(v.history);
        Sync(v.(trace := v.trace.(latestHistoryId := if v.trace.latestHistoryId > latest then v.trace.latestHistoryId else latest,
                                  lastProjectedHistoryId := next.value,
                                  state := if latest <= next.value then UpToDate else CatchingUp)))
  }

  // ---- environment: workers and activations ----

  /** A worker claims a queued run, or takes over one whose lease ran out; the claim
      mirrors the status onto the trace. */
  function ClaimRun(v: RunView, worker: string): RunView
  {
    if v.run.status.Queued? || v.run.status.Running?
    then v.(run := v.run.(status := Running, claimedBy := Some(worker)),
            trace := v.trace.(summary := v.trace.summary.(status := Running)))
    else v
  }

  function ReleaseRun(v: RunView): RunView
  {
    if v.run.status.Running?
    then v.(run := v.run.(status := Queued, claimedBy := None),
            trace := v.trace.(summary := v.trace.summary.(status := Queued)))
    else v
  }

  function Consume(v: RunView, items: set<nat>): RunView
  {
    v.(inbox := map i | i in v.inbox ::
         if i in items && v.inbox[i].status.Pending? then v.inbox[i].(status := Processed) else v.inbox[i])
  }

  /** An activation appends one event of its own. It marks the trace as catching up, except when it
      is about to end the run as cancelled. */
  function ActivationEvent(v: RunView, id: nat, marks: bool): RunView
  {
    if !v.run.status.Running? then v
    else
      var w := AppendEvent(v, id, OtherEvent);
      if marks then w else w.(trace := v.trace)
  }

  /** An activation ends waiting: it consumes inbox items, may schedule a task or a timer, and
      projects the new status. */
  function ParkRun(v: RunView, wait: Wait, consumed: set<nat>, task: Option<(nat, Task)>, timer: Option<nat>): RunView
  {
    if !v.run.status.Running? then v
    else
      var w := Consume(v, consumed);
      var w' := if task.Some? then w.(tasks := w.tasks[task.value.0 := task.value.1]) else w;
      var w'' := if timer.Some? then w'.(inbox := w'.inbox[timer.value := InboxItem(TimerItem, Pending)]) else w';
      Sync(w''.(run := w''.run.(status := Waiting, waitingFor := wait, claimedBy := None)))
  }

  function QuarantineRun(v: RunView, wait: Wait, consumed: set<nat>): RunView
  {
    if !v.run.status.Running? then v
    else
      var w := Consume(v, consumed);
      Sync(w.(run := w.run.(status := RunStatus.Quarantined, waitingFor := wait, claimedBy := None)))
  }

  /** An activation ends the run. A cancelled run's activation does not touch the trace; every other
      end marks it as catching up. A cancelled or continued run keeps nothing open, a completed or
      failed one keeps its tasks and inbox as they are. */
  function EndRun(v: RunView, status: RunStatus, consumed: set<nat>, id: nat): RunView
  {
    var w := Consume(v, consumed);
    var e := AppendEvent(w, id, WorkflowEnded(status));
    var e' := if status.Cancelled? then e.(trace := v.trace) else e;
    var ended := e'.(run := e'.run.(status := status, waitingFor := NoWait, claimedBy := None));
    if ClosesTasks(status) then DiscardInbox(CancelTasks(ended)) else ended
  }

  /** A due timer wakes the run if it still waits, and projects it either way. */
  function WakeTimer(v: RunView): RunView
  {
    Sync(Wake(v))
  }

  /** A child's end wakes a parent that waits on that child, and projects it. */
  function WakeOnChild(v: RunView, key: string): RunView
  {
    if v.run.status.Waiting? && v.run.waitingFor == OnChild(key) then Sync(Wake(v)) else v
  }

  /** The rows of a run just created. */
  function NewRun(run: Run, id: nat): RunView
  {
    RunView(run.(status := Queued, waitingFor := NoWait, claimedBy := None), [Event(id, 1, WorkflowStarted)],
            Trace(Summary(Queued, NoWait, 0, 0), UpToDate, id, id), map[], map[], false)
  }
}
