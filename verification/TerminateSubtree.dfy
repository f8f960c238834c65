/** What terminating a run does: exactly the target and its active descendants end. */
module TerminateSubtree {
  import opened Basics
  import opened RunState
  import opened RunInvariants
  import opened EngineDb
  import opened EngineInvariant

  // ---- the active closure ----

  lemma {:induction false} ActiveChildLinked(db: Db, p: nat, x: nat)
    requires OkTree(db) && ActiveChild(db, p, x)
    ensures p in db.runs && x in db.runs && db.runs[x].run.parent == Some(p) && Depth(db, x) == Depth(db, p) + 1
    ensures !Terminal(db.runs[x].run.status)
  {
    var l :| l in db.links && Links(db.links[l], p, x);
    assert OkLink(db, db.links[l]);
    assert OkParent(db, x);
  }

  ghost predicate ClosedUnderChildren(db: Db, s: set<nat>)
  {
    forall p, x :: p in s && ActiveChild(db, p, x) ==> x in s
  }

  /** The closure holds the target and is closed under active children. */
  lemma {:induction false} ClosureClosed(db: Db, r: nat)
    requires OkTree(db) && r in db.runs
    ensures r in Closure(db, r) && ClosedUnderChildren(db, Closure(db, r))
  {
    forall p, x | p in Closure(db, r) && ActiveChild(db, p, x) ensures x in Closure(db, r) {
      ActiveChildLinked(db, p, x);
    }
  }

  /** And it is the least such set. */
  lemma {:induction false} ClosureLeast(db: Db, r: nat, s: set<nat>, x: nat)
    requires r in s && ClosedUnderChildren(db, s) && x in db.runs && Under(db, r, x)
    ensures x in s
    decreases Depth(db, x)
  {
    if x != r {
      var p := db.runs[x].run.parent.value;
      if p in db.runs { ClosureLeast(db, r, s, p); }
    }
  }

  lemma {:induction false} ClosureBelow(db: Db, r: nat, x: nat)
    requires OkTree(db) && r in db.runs && x in db.runs && Under(db, r, x)
    ensures Depth(db, r) <= Depth(db, x) && (x != r ==> Depth(db, r) < Depth(db, x))
    decreases Depth(db, x)
  {
    if x != r {
      assert OkParent(db, x);
      ClosureBelow(db, r, db.runs[x].run.parent.value);
    }
  }

  // ---- what a termination does ----

  /** A run of the subtree: one more event, under an id of this transaction, and nothing pending. */
  ghost predicate TerminatedRow(v: RunView, w: RunView, lo: nat, hi: nat)
  {
    && w.run == v.run.(status := RunStatus.Terminated, waitingFor := NoWait, claimedBy := None)
    && |w.history| == |v.history| + 1 && w.history[..|v.history|] == v.history
    && (var e := w.history[|v.history|];
        e.kind.WorkflowTerminated? && e.sequenceNo == |v.history| + 1 && lo <= e.id < hi)
    && w.tasks.Keys == v.tasks.Keys && w.inbox.Keys == v.inbox.Keys
    && (forall t :: t in v.tasks ==>
          if v.tasks[t].status.TaskQueued? || v.tasks[t].status.TaskClaimed?
          then w.tasks[t] == v.tasks[t].(status := TaskCancelled, claimedBy := None, leaseExpiresAt := None)
          else w.tasks[t] == v.tasks[t])
    && (forall i :: i in v.inbox ==>
          if v.inbox[i].status.Pending? || v.inbox[i].status.InboxClaimed? then w.inbox[i] == v.inbox[i].(status := Discarded) else w.inbox[i] == v.inbox[i])
    && OpenTasks(w) == {} && (forall i :: i in w.inbox ==> !OpenItem(w.inbox[i]))
    && w.trace == v.trace.(latestHistoryId := w.trace.latestHistoryId, state := ProjectionState.CatchingUp)
    && w.trace.latestHistoryId >= w.history[|v.history|].id
  }

  /** Its instance and its relationship end with it. */
  ghost predicate Terminated(db: Db, db': Db, x: nat)
    requires x in db.runs && x in db'.runs
  {
    && TerminatedRow(db.runs[x], db'.runs[x], db.nextHistoryId, db'.nextHistoryId)
    && db.runs[x].run.instance in db'.instances
    && db'.instances[db.runs[x].run.instance] == EndedInstance(RunStatus.Terminated)
    && (forall l :: l in db'.links && db'.links[l].current == x ==> db'.links[l].status == LinkEnded(RunStatus.Terminated))
  }

  /** x waits on its child r, which is still the relationship's current run, and has not given the wait up. */
  ghost predicate WaitsOn(db: Db, r: nat, x: nat)
    requires r in db.runs && x in db.runs
  {
    && db.runs[r].run.parent == Some(x)
    && db.runs[x].run.status.Waiting? && db.runs[x].run.waitingFor == OnChild(db.runs[r].run.childKey)
    && exists l :: l in db.links && db.links[l].status.LinkActive? && db.links[l].current == r && !db.links[l].waitFailed
  }

  /** Queued to look again, with the new status and the pending counts on its trace, and nothing else changed. */
  predicate Queues(v: RunView, w: RunView)
  {
    w == v.(run := v.run.(status := Queued, waitingFor := NoWait, claimedBy := None),
            trace := v.trace.(summary := Summary(Queued, NoWait, |OpenTasks(v)|, |OpenInbox(v)|)))
  }

  /** Any other run: queued if it waits on r, and otherwise unchanged. */
  ghost predicate LeftAlone(db: Db, db': Db, r: nat, x: nat)
    requires r in db.runs && x in db.runs && x in db'.runs
  {
    if WaitsOn(db, r, x) then Queues(db.runs[x], db'.runs[x]) else db'.runs[x] == db.runs[x]
  }

  lemma {:induction false} WokenQueues(v: RunView)
    requires v.run.status.Waiting?
    ensures Queues(v, Sync(Wake(v)))
  {
    assert OpenTasks(Wake(v)) == OpenTasks(v) && OpenInbox(Wake(v)) == OpenInbox(v);
  }

  /** Waking r's parent queues it exactly if it waits on r. */
  lemma {:induction false} WakeParentExact(db: Db, runs: map<nat, RunView>, r: nat, x: nat)
    requires r in db.runs && x in db.runs && x in runs && runs[x] == db.runs[x]
    ensures x in WakeParent(db, runs, r)
    ensures var w := WakeParent(db, runs, r)[x];
            if WaitsOn(db, r, x) then Queues(db.runs[x], w) else w == db.runs[x]
  {
    if db.runs[x].run.status.Waiting? { WokenQueues(db.runs[x]); }
    hide Queues, Sync, Wake;
  }

  lemma {:induction false} TerminateRowsEffect(v: RunView, id: nat, lo: nat, hi: nat)
    requires OkView(v, id) && !Terminal(v.run.status) && lo <= id < hi
    ensures TerminatedRow(v, TerminateRows(v, id), lo, hi)
  {
    TerminateKeeps(v, id);
    assert NextSequence(v.history) == |v.history| + 1;
  }

  lemma {:induction false} ParentOutside(db: Db, r: nat, x: nat)
    requires OkTree(db) && r in db.runs && x in Closure(db, r)
    ensures db.runs[r].run.parent != Some(x)
  {
    ClosureBelow(db, r, x);
    assert OkParent(db, r);
  }

  lemma {:induction false} TerminatedRowOf(db: Db, r: nat, x: nat)
    requires Inv(db) && r in db.runs && !Terminal(db.runs[r].run.status) && x in Closure(db, r)
    ensures x in Terminate(db, r).runs
    ensures TerminatedRow(db.runs[x], Terminate(db, r).runs[x], db.nextHistoryId, Terminate(db, r).nextHistoryId)
  {
    hide TerminateRows, OkView, TerminatedRow, OkTree, EarlierIn, Under;
    var s := Closure(db, r);
    var id := db.nextHistoryId + |EarlierIn(db, s, x)|;
    EarlierFewer(db, s, x);
    ClosureLive(db, r, x);
    ViewLater(db.runs[x], db.nextHistoryId, id);
    TerminateRowsEffect(db.runs[x], id, db.nextHistoryId, db.nextHistoryId + |s|);
    ParentOutside(db, r, x);
    WakeParentEffect(db, TerminatedRuns(db, s), r, x);
    hide WakeParent;
  }

  lemma {:induction false} TerminatedTables(db: Db, r: nat, x: nat)
    requires Inv(db) && r in db.runs && !Terminal(db.runs[r].run.status) && x in Closure(db, r)
    ensures var db' := Terminate(db, r); var i := db.runs[x].run.instance;
            && i in db'.instances && db'.instances[i] == EndedInstance(RunStatus.Terminated)
            && (forall l :: l in db'.links && db'.links[l].current == x ==> db'.links[l].status == LinkEnded(RunStatus.Terminated))
  {
    ClosureLive(db, r, x);
    LiveRunTables(db, x);
    hide Inv, OkTree, OkRuns, OkLink, OkParent, WakeParent, TerminatedRuns, Closure;
    InstanceEnded(db, Closure(db, r), x);
    LinksEnded(db.links, Closure(db, r), x);
    hide EndInstances, CloseLinks;
  }

  lemma {:induction false} InstanceEnded(db: Db, s: set<nat>, x: nat)
    requires x in s && x in db.runs && db.runs[x].run.instance in db.instances
    ensures var m := EndInstances(db, s, RunStatus.Terminated);
            db.runs[x].run.instance in m && m[db.runs[x].run.instance] == EndedInstance(RunStatus.Terminated)
  {
    assert db.runs[x].run.instance in InstancesOf(db, s);
  }

  lemma {:induction false} LinksEnded(links: map<nat, Link>, s: set<nat>, x: nat)
    requires x in s && forall l :: l in links && links[l].current == x ==> links[l].status.LinkActive?
    ensures var m := CloseLinks(links, s, RunStatus.Terminated);
            forall l :: l in m && m[l].current == x ==> m[l].status == LinkEnded(RunStatus.Terminated)
  {
  }

  lemma {:induction false} LiveRunTables(db: Db, x: nat)
    requires OkTree(db) && x in db.runs && !Terminal(db.runs[x].run.status)
    ensures db.runs[x].run.instance in db.instances
    ensures forall l :: l in db.links && db.links[l].current == x ==> db.links[l].status.LinkActive?
  {
    assert OkParent(db, x);
    assert forall l :: l in db.links && db.links[l].current == x ==> OkLink(db, db.links[l]);
  }

  lemma {:induction false} TerminatedOne(db: Db, r: nat, x: nat)
    requires Inv(db) && r in db.runs && !Terminal(db.runs[r].run.status) && x in Closure(db, r)
    ensures x in Terminate(db, r).runs && Terminated(db, Terminate(db, r), x)
  {
    TerminatedRowOf(db, r, x);
    TerminatedTables(db, r, x);
    hide Inv, Terminate, Closure, TerminatedRow;
  }

  lemma {:induction false} LeftAloneOne(db: Db, r: nat, x: nat)
    requires Inv(db) && r in db.runs && x in db.runs && (x !in Closure(db, r) || Terminal(db.runs[r].run.status))
    ensures x in Terminate(db, r).runs && LeftAlone(db, Terminate(db, r), r, x)
  {
    if Terminal(db.runs[r].run.status) {
      EndedNotAwaited(db, r, x);
    } else {
      WakeParentExact(db, TerminatedRuns(db, Closure(db, r)), r, x);
    }
    hide Inv, WaitsOn, Queues, WakeParent;
  }

  /** The relationship to an ended run is over, so nobody waits on it. */
  lemma {:induction false} EndedNotAwaited(db: Db, r: nat, x: nat)
    requires Inv(db) && r in db.runs && x in db.runs && Terminal(db.runs[r].run.status)
    ensures !WaitsOn(db, r, x)
  {
    assert forall l :: l in db.links && db.links[l].current == r ==> OkLink(db, db.links[l]);
  }

  /** A run's own end does the same to every other run. */
  lemma {:induction false} EndLeavesAlone(db: Db, r: nat, status: RunStatus, consumed: set<nat>, x: nat)
    requires Inv(db) && Enabled(db, EndRunOf(r, status, consumed)) && x in db.runs && x != r
    ensures x in ApplyStep(db, EndRunOf(r, status, consumed)).runs
    ensures LeftAlone(db, ApplyStep(db, EndRunOf(r, status, consumed)), r, x)
  {
    hide Inv, EndRun, WakeParent, WaitsOn, Queues;
    WakeParentExact(db, db.runs[r := EndRun(db.runs[r], status, consumed, db.nextHistoryId)], r, x);
  }

  /** A run that continues as new wakes its parent only when the parent has followed it too far. */
  lemma {:induction false} ContinueLeavesAlone(db: Db, r: nat, consumed: set<nat>, c: nat, x: nat)
    requires Inv(db) && Enabled(db, ContinueAsNew(r, consumed, c)) && x in db.runs && x != r
    ensures var later := ApplyStep(db, ContinueAsNew(r, consumed, c)).runs;
            && x in later
            && var tooFar := exists l :: l in db.links && db.links[l].status.LinkActive? && db.links[l].current == r
                                         && db.links[l].continuations + 1 >= MaxContinuationFollowDepth;
               if WaitsOn(db, r, x) && tooFar then Queues(db.runs[x], later[x]) else later[x] == db.runs[x]
  {
    hide Inv, EndRun, WakeParent, WaitsOn, Queues, NewRun;
    WakeParentExact(db, db.runs[r := EndRun(db.runs[r], RunStatus.ContinuedAsNew, consumed, db.nextHistoryId)], r, x);
  }

  /** Of the relationships and instances, a run's own end closes its own. */
  lemma {:induction false} EndClosesOwn(db: Db, r: nat, status: RunStatus, consumed: set<nat>)
    requires Inv(db) && Enabled(db, EndRunOf(r, status, consumed))
    ensures var db' := ApplyStep(db, EndRunOf(r, status, consumed)); var own := db.runs[r].run.instance;
            && db'.links.Keys == db.links.Keys && db'.instances.Keys == db.instances.Keys && own in db.instances
            && (forall l :: l in db.links ==>
                  db'.links[l] == if db.links[l].current == r then db.links[l].(status := LinkEnded(status)) else db.links[l])
            && (forall i :: i in db.instances ==> db'.instances[i] == if i == own then EndedInstance(status) else db.instances[i])
  {
    LiveRunTables(db, r);
    LinksOfOne(db.links, r, status);
    InstanceOfOne(db, r, status);
    hide Inv, OkTree, OkRuns, EndRun, WakeParent, CloseLinks, EndInstances;
  }

  lemma {:induction false} LinksOfOne(links: map<nat, Link>, r: nat, status: RunStatus)
    requires forall l :: l in links && links[l].current == r ==> links[l].status.LinkActive?
    ensures var m := CloseLinks(links, {r}, status);
            && m.Keys == links.Keys
            && forall l :: l in links ==> m[l] == if links[l].current == r then links[l].(status := LinkEnded(status)) else links[l]
  {
  }

  lemma {:induction false} InstanceOfOne(db: Db, r: nat, status: RunStatus)
    requires r in db.runs
    ensures var m := EndInstances(db, {r}, status);
            && m.Keys == db.instances.Keys
            && forall i :: i in db.instances ==> m[i] == if i == db.runs[r].run.instance then EndedInstance(status) else db.instances[i]
  {
    assert InstancesOf(db, {r}) == {db.runs[r].run.instance};
  }

  lemma {:induction false} FollowedLinks(links: map<nat, Link>, r: nat, c: nat)
    requires forall l :: l in links && links[l].current == r ==> links[l].status.LinkActive?
    ensures var m := map l | l in links :: Continued(links[l], r, c);
            forall l :: l in links ==>
              m[l] == if links[l].current == r then links[l].(current := c, continuations := links[l].continuations + 1) else links[l]
  {
  }

  lemma {:induction false} NewRunRows(run: Run, id: nat)
    ensures var v := NewRun(run, id);
            && v.run == run.(status := Queued, waitingFor := NoWait, claimedBy := None)
            && v.history == [Event(id, 1, WorkflowStarted)] && v.tasks == map[] && v.inbox == map[]
  {
  }

  lemma {:induction false} EndedNotRequeued(db: Db, ended: map<nat, RunView>, r: nat)
    requires r in db.runs && r in ended && Terminal(ended[r].run.status)
    ensures r in WakeParent(db, ended, r) && WakeParent(db, ended, r)[r] == ended[r]
  {
  }

  /** Continuing as new ends the run, and puts a new one in its place: with its parent, depth, key and
      instance, queued, with one event. */
  lemma {:induction false} ContinueReplacesRun(db: Db, r: nat, consumed: set<nat>, c: nat)
    requires Inv(db) && Enabled(db, ContinueAsNew(r, consumed, c))
    ensures var runs := ApplyStep(db, ContinueAsNew(r, consumed, c)).runs;
            && r in runs && runs[r].run.status.ContinuedAsNew?
            && c in runs && runs[c].run == db.runs[r].run.(status := Queued, waitingFor := NoWait, claimedBy := None)
            && runs[c].history == [Event(db.nextHistoryId + 1, 1, WorkflowStarted)]
            && runs[c].tasks == map[] && runs[c].inbox == map[]
  {
    EndRunIdentity(db.runs[r], RunStatus.ContinuedAsNew, consumed, db.nextHistoryId);
    NewRunRows(db.runs[r].run, db.nextHistoryId + 1);
    hide Inv, EndRun, FollowedTooFar, WakeParent, NewRun, Continued;
    var ended := db.runs[r := EndRun(db.runs[r], RunStatus.ContinuedAsNew, consumed, db.nextHistoryId)];
    EndedNotRequeued(db, ended, r);
  }

  /** The relationships to it follow it, one continuation further. */
  lemma {:induction false} ContinueMovesLinks(db: Db, r: nat, consumed: set<nat>, c: nat)
    requires Inv(db) && Enabled(db, ContinueAsNew(r, consumed, c))
    ensures var links := ApplyStep(db, ContinueAsNew(r, consumed, c)).links;
            && links.Keys == db.links.Keys
            && forall l :: l in db.links ==>
                 links[l] == if db.links[l].current == r
                             then db.links[l].(current := c, continuations := db.links[l].continuations + 1) else db.links[l]
  {
    LiveRunTables(db, r);
    FollowedLinks(db.links, r, c);
    hide Inv, EndRun, FollowedTooFar, WakeParent, NewRun, Continued;
  }

  /** A child starts one deeper than its parent, queued, with one event and a relationship of its own. */
  lemma {:induction false} ChildStarts(db: Db, p: nat, link: nat, key: string, c: nat, inst: nat)
    requires Enabled(db, StartChild(p, link, key, c, inst))
    ensures var db' := ApplyStep(db, StartChild(p, link, key, c, inst));
            && c in db'.runs
            && db'.runs[c].run == Run(Queued, NoWait, None, inst, Some(p), key, db.runs[p].run.depth + 1)
            && db'.runs[c].history == [Event(db.nextHistoryId, 1, WorkflowStarted)] && db'.runs[c].tasks == map[] && db'.runs[c].inbox == map[]
            && db'.links == db.links[link := Link(p, key, c, LinkActive, false, 0)]
            && db'.instances == db.instances[inst := ActiveInstance] && (forall x :: x in db.runs ==> x in db'.runs && db'.runs[x] == db.runs[x])
  {
    NewRunRows(Run(Queued, NoWait, None, inst, Some(p), key, db.runs[p].run.depth + 1), db.nextHistoryId);
    hide NewRun;
  }

  /** A parent that has given up a wait is not woken by that child's end any more. */
  lemma {:induction false} WaitGivenUp(db: Db, link: nat, x: nat)
    requires Inv(db) && Enabled(db, FailChildWait(link)) && x in db.runs && db.links[link].current in db.runs
    ensures var db' := ApplyStep(db, FailChildWait(link));
            && db'.runs == db.runs && !WaitsOn(db', db.links[link].current, x)
            && db'.links == db.links[link := db.links[link].(waitFailed := true)]
  {
    hide OkRuns;
  }

  /** Terminating a live run ends exactly its active closure and leaves every other run alone, as
      it leaves their relationships and instances; terminating an ended run changes nothing. */
  lemma {:induction false} TerminateExact(db: Db, r: nat)
    requires Inv(db) && r in db.runs
    ensures Terminal(db.runs[r].run.status) ==> Terminate(db, r) == db
    ensures !Terminal(db.runs[r].run.status) ==>
              var db' := Terminate(db, r); var s := Closure(db, r);
              && db'.runs.Keys == db.runs.Keys && db'.links.Keys == db.links.Keys
              && (forall x :: x in s ==> Terminated(db, db', x))
              && (forall x :: x in db.runs && x !in s ==> LeftAlone(db, db', r, x))
              && (forall l :: l in db.links && db.links[l].current !in s ==> db'.links[l] == db.links[l])
              && (forall i :: i in db.instances && i !in InstancesOf(db, s) ==> db'.instances[i] == db.instances[i])
  {
    if !Terminal(db.runs[r].run.status) {
      var db' := Terminate(db, r);
      var s := Closure(db, r);
      TerminateKeys(db, r);
      OtherTables(db, r);
      hide Inv, Terminated, LeftAlone, Closure, Terminate, InstancesOf;
      forall x | x in s ensures x in db'.runs && Terminated(db, db', x) { TerminatedOne(db, r, x); }
      forall x | x in db.runs && x !in s ensures LeftAlone(db, db', r, x) { LeftAloneOne(db, r, x); }
    }
  }

  lemma {:induction false} OtherTables(db: Db, r: nat)
    requires r in db.runs && !Terminal(db.runs[r].run.status)
    ensures var db' := Terminate(db, r); var s := Closure(db, r);
            && db'.links.Keys == db.links.Keys
            && (forall l :: l in db.links && db.links[l].current !in s ==> db'.links[l] == db.links[l])
            && (forall i :: i in db.instances && i !in InstancesOf(db, s) ==> i in db'.instances && db'.instances[i] == db.instances[i])
  {
    hide Closure, WakeParent, TerminatedRuns, InstancesOf;
  }

  lemma {:induction false} TerminateKeys(db: Db, r: nat)
    requires r in db.runs
    ensures Terminate(db, r).runs.Keys == db.runs.Keys && Closure(db, r) <= db.runs.Keys
  {
    WakeParentEffect(db, TerminatedRuns(db, Closure(db, r)), r, r);
  }

  /** No two of the terminated events share a history id. */
  lemma {:induction false} TerminatedIdsDiffer(db: Db, s: set<nat>, x: nat, y: nat)
    requires x in s && y in s && x != y
    ensures |EarlierIn(db, s, x)| != |EarlierIn(db, s, y)|
  {
    var a, b := if Before(db, x, y) then x else y, if Before(db, x, y) then y else x;
    assert Before(db, a, b);
    FewerWithout(EarlierIn(db, s, a), EarlierIn(db, s, b), a);
  }

  lemma {:induction false} ClosureRuns(db: Db, r: nat)
    ensures Closure(db, r) <= db.runs.Keys
  {
  }

  /** The target itself ends, whichever status ends it. */
  lemma {:induction false} TerminatedTarget(db: Db, r: nat)
    requires Inv(db) && r in db.runs
    ensures r in Terminate(db, r).runs && Terminal(Terminate(db, r).runs[r].run.status)
    ensures Terminal(db.runs[r].run.status) ==> Terminate(db, r) == db
  {
    if !Terminal(db.runs[r].run.status) {
      ClosureClosed(db, r);
      TerminatedRowOf(db, r, r);
    }
  }
}
