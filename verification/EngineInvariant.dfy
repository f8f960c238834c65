/** Every transaction keeps the tables' invariant. */
module EngineInvariant {
  import opened Basics
  import opened RunState
  import opened RunInvariants
  import opened EngineDb

  lemma {:induction false} ViewLater(v: RunView, a: nat, b: nat)
    requires OkView(v, a) && a <= b
    ensures OkView(v, b)
  {
  }

  lemma {:induction false} TaskStaysInTree(v: RunView, op: RunOp, id: nat)
    requires TaskOp(op) || op.SignalOp? || op.CancelOp? || op.EnqueueCancelOp?
    ensures SameIdentity(v, Apply(v, op, id))
    ensures Terminal(Apply(v, op, id).run.status) == Terminal(v.run.status)
  {
  }

  /** No step of a single run ends it or moves it in the tree. */
  lemma {:induction false} ApplyStaysInTree(v: RunView, op: RunOp, id: nat)
    ensures SameIdentity(v, Apply(v, op, id))
    ensures Terminal(Apply(v, op, id).run.status) == Terminal(v.run.status)
  {
    if TaskOp(op) || op.SignalOp? || op.CancelOp? || op.EnqueueCancelOp? {
      TaskStaysInTree(v, op, id);
    }
    hide ClaimTask, HeartbeatTask, CompleteTask, FailTask, SettleLocalTask, Signal, RequestCancel, EnqueueCancel;
  }

  /** db' ends exactly the runs of s, together with their relationships. */
  ghost predicate Closes(db: Db, db': Db, s: set<nat>, status: RunStatus)
  {
    && db'.runs.Keys == db.runs.Keys && db.instances.Keys <= db'.instances.Keys
    && (forall x :: x in db.runs ==> SameIdentity(db.runs[x], db'.runs[x]))
    && (forall x :: x in db.runs ==>
          (Terminal(db'.runs[x].run.status) <==> Terminal(db.runs[x].run.status) || x in s))
    && db'.links == CloseLinks(db.links, s, status)
  }

  lemma {:induction false} ClosingKeepsRun(db: Db, db': Db, s: set<nat>, status: RunStatus, x: nat)
    requires OkTree(db) && Closes(db, db', s, status) && x in db.runs
    ensures OkParent(db', x) && Linked(db', x)
  {
    assert OkParent(db, x) && Linked(db, x);
    assert SameIdentity(db.runs[x], db'.runs[x]);
    if db'.runs[x].run.parent.Some? {
      var p := db'.runs[x].run.parent.value;
      assert SameIdentity(db.runs[p], db'.runs[p]);
      if !Terminal(db'.runs[x].run.status) {
        var l :| l in db.links && Links(db.links[l], p, x);
        assert Links(db'.links[l], p, x);
      }
    }
  }

  lemma {:induction false} ClosingKeepsLink(db: Db, db': Db, s: set<nat>, status: RunStatus, l: nat)
    requires OkTree(db) && Closes(db, db', s, status) && l in db.links
    ensures OkLink(db', db'.links[l])
  {
    assert OkLink(db, db.links[l]);
    assert SameIdentity(db.runs[db.links[l].current], db'.runs[db.links[l].current]);
  }

  lemma {:induction false} ClosingKeepsTree(db: Db, db': Db, s: set<nat>, status: RunStatus)
    requires OkTree(db) && Closes(db, db', s, status)
    ensures OkTree(db')
  {
    hide OkLink, OkParent, Linked;
    forall x | x in db'.runs ensures OkParent(db', x) && Linked(db', x) {
      ClosingKeepsRun(db, db', s, status, x);
    }
    forall l | l in db'.links ensures OkLink(db', db'.links[l]) {
      ClosingKeepsLink(db, db', s, status, l);
    }
  }

  lemma {:induction false} WakeParentEffect(db: Db, runs: map<nat, RunView>, x: nat, y: nat)
    requires x in db.runs && y in runs
    ensures WakeParent(db, runs, x).Keys == runs.Keys
    ensures var w := WakeParent(db, runs, x)[y]; w == runs[y] || w == WakeOnChild(runs[y], db.runs[x].run.childKey)
    ensures db.runs[x].run.parent != Some(y) ==> WakeParent(db, runs, x)[y] == runs[y]
    ensures SameIdentity(runs[y], WakeParent(db, runs, x)[y])
    ensures Terminal(WakeParent(db, runs, x)[y].run.status) == Terminal(runs[y].run.status)
  {
  }

  lemma {:induction false} WakeParentKeeps(db: Db, runs: map<nat, RunView>, x: nat, next: nat)
    requires x in db.runs && forall y :: y in runs ==> OkView(runs[y], next)
    ensures forall y :: y in WakeParent(db, runs, x) ==> OkView(WakeParent(db, runs, x)[y], next)
  {
    hide OkView;
    forall y | y in WakeParent(db, runs, x) ensures OkView(WakeParent(db, runs, x)[y], next) {
      WakeParentEffect(db, runs, x, y);
      WakesKeep(runs[y], db.runs[x].run.childKey, next);
    }
  }

  // ---- steps on one run ----

  lemma {:induction false} OnRunKeepsRuns(db: Db, r: nat, op: RunOp)
    requires Inv(db) && Enabled(db, OnRun(r, op))
    ensures OkRuns(Effect(db, OnRun(r, op)))
  {
    hide OkView, OkTree, Apply;
    var db' := Effect(db, OnRun(r, op));
    ApplyKeeps(db.runs[r], op, db.nextHistoryId);
    forall x | x in db'.runs ensures OkView(db'.runs[x], db'.nextHistoryId) {
      if x != r { ViewLater(db.runs[x], db.nextHistoryId, db'.nextHistoryId); }
    }
  }

  lemma {:induction false} OnRunKeeps(db: Db, r: nat, op: RunOp)
    requires Inv(db) && Enabled(db, OnRun(r, op))
    ensures Inv(Effect(db, OnRun(r, op)))
  {
    hide OkTree, OkRuns, Apply;
    var db' := Effect(db, OnRun(r, op));
    OnRunKeepsRuns(db, r, op);
    ApplyStaysInTree(db.runs[r], op, db.nextHistoryId);
    assert CloseLinks(db.links, {}, Terminated) == db.links;
    ClosingKeepsTree(db, db', {}, Terminated);
  }

  lemma {:induction false} FailChildWaitRun(db: Db, link: nat, x: nat)
    requires OkTree(db) && Enabled(db, FailChildWait(link)) && x in db.runs
    ensures OkParent(Effect(db, FailChildWait(link)), x) && Linked(Effect(db, FailChildWait(link)), x)
  {
    var db' := Effect(db, FailChildWait(link));
    assert OkParent(db, x) && Linked(db, x);
    if db.runs[x].run.parent.Some? && !Terminal(db.runs[x].run.status) {
      var l :| l in db.links && Links(db.links[l], db.runs[x].run.parent.value, x);
      assert Links(db'.links[l], db.runs[x].run.parent.value, x);
    }
  }

  lemma {:induction false} FailChildWaitLink(db: Db, link: nat, l: nat)
    requires OkTree(db) && Enabled(db, FailChildWait(link)) && l in db.links
    ensures var db' := Effect(db, FailChildWait(link));
            OkLink(db', db'.links[l]) && db'.links[l].current == db.links[l].current
  {
    assert OkLink(db, db.links[l]);
  }

  lemma {:induction false} FailChildWaitKeeps(db: Db, link: nat)
    requires Inv(db) && Enabled(db, FailChildWait(link))
    ensures Inv(Effect(db, FailChildWait(link)))
  {
    hide OkView, OkLink, OkParent, Linked;
    var db' := Effect(db, FailChildWait(link));
    forall l | l in db'.links ensures OkLink(db', db'.links[l]) && db'.links[l].current == db.links[l].current {
      FailChildWaitLink(db, link, l);
    }
    forall x | x in db'.runs ensures OkParent(db', x) && Linked(db', x) {
      FailChildWaitRun(db, link, x);
    }
  }

  // ---- new runs ----

  /** db' adds run x, and the relationship link that makes it a child. */
  ghost predicate Adds(db: Db, db': Db, x: nat, link: Option<nat>)
  {
    && x !in db.runs && x in db'.runs && db'.runs == db.runs[x := db'.runs[x]]
    && db.instances.Keys <= db'.instances.Keys
    && var run := db'.runs[x].run;
       && !Terminal(run.status)
       && (if run.parent.None? then db'.links == db.links
           else link.Some? && link.value !in db.links && run.parent.value in db.runs
                && db'.links == db.links[link.value := Link(run.parent.value, run.childKey, x, LinkActive, false, 0)])
  }

  lemma {:induction false} AddedRunLinked(db: Db, db': Db, x: nat, link: Option<nat>, y: nat)
    requires OkTree(db) && Adds(db, db', x, link) && y in db'.runs
    ensures Linked(db', y)
    ensures y != x ==> OkParent(db', y)
  {
    if y != x {
      assert OkParent(db, y) && Linked(db, y);
      if db.runs[y].run.parent.Some? && !Terminal(db.runs[y].run.status) {
        var l :| l in db.links && Links(db.links[l], db.runs[y].run.parent.value, y);
        assert Links(db'.links[l], db.runs[y].run.parent.value, y);
      }
    } else if db'.runs[x].run.parent.Some? {
      assert Links(db'.links[link.value], db'.runs[x].run.parent.value, x);
    }
  }

  lemma {:induction false} AddedRunLinks(db: Db, db': Db, x: nat, link: Option<nat>, l: nat)
    requires OkTree(db) && Adds(db, db', x, link) && l in db'.links
    ensures OkLink(db', db'.links[l])
    ensures l in db.links ==> db'.links[l] == db.links[l] && db.links[l].current != x
    ensures l !in db.links ==> db'.links[l].current == x && link == Some(l)
  {
    if l in db.links { assert OkLink(db, db.links[l]); }
  }

  lemma {:induction false} NewRunKeepsTree(db: Db, db': Db, x: nat, link: Option<nat>)
    requires OkTree(db) && Adds(db, db', x, link) && OkParent(db', x)
    ensures OkTree(db')
  {
    forall y | y in db'.runs ensures OkParent(db', y) && Linked(db', y) {
      AddedRunLinked(db, db', x, link, y);
    }
    forall l | l in db'.links
      ensures OkLink(db', db'.links[l])
      ensures l in db.links ==> db'.links[l] == db.links[l] && db.links[l].current != x
      ensures l !in db.links ==> db'.links[l].current == x && link == Some(l)
    {
      AddedRunLinks(db, db', x, link, l);
    }
    hide OkParent, OkLink, Linked, Adds;
  }

  lemma {:induction false} StartKeeps(db: Db, s: Step)
    requires Inv(db) && Enabled(db, s) && (s.StartRun? || s.StartChild?)
    ensures Inv(Effect(db, s))
  {
    hide OkView;
    var db' := Effect(db, s);
    var x := if s.StartRun? then s.r else s.c;
    var id := db.nextHistoryId;
    var v := db'.runs[x];
    NewRunKeeps(v.run, id);
    assert v == NewRun(v.run, id);
    forall y | y in db'.runs ensures OkView(db'.runs[y], db'.nextHistoryId) {
      if y != x { ViewLater(db.runs[y], id, id + 1); }
    }
    if s.StartChild? { assert OkParent(db, s.p); }
    NewRunKeepsTree(db, db', x, if s.StartChild? then Some(s.link) else None);
  }

  // ---- ends ----

  lemma {:induction false} EndKeepsInv(db: Db, r: nat, status: RunStatus, consumed: set<nat>)
    requires Inv(db) && Enabled(db, EndRunOf(r, status, consumed))
    ensures Inv(Effect(db, EndRunOf(r, status, consumed)))
  {
    hide OkView, OkTree, EndRun;
    var db' := Effect(db, EndRunOf(r, status, consumed));
    var id := db.nextHistoryId;
    EndKeeps(db.runs[r], status, consumed, id);
    EndRunIdentity(db.runs[r], status, consumed, id);
    var ended := db.runs[r := EndRun(db.runs[r], status, consumed, id)];
    forall x | x in ended ensures OkView(ended[x], id + 1) {
      if x != r { ViewLater(db.runs[x], id, id + 1); }
    }
    WakeParentKeeps(db, ended, r, id + 1);
    forall x | x in db.runs
      ensures SameIdentity(db.runs[x], db'.runs[x])
      ensures Terminal(db'.runs[x].run.status) <==> Terminal(db.runs[x].run.status) || x == r
    {
      WakeParentEffect(db, ended, r, x);
    }
    hide WakeParent;
    ClosingKeepsTree(db, db', {r}, status);
  }

  lemma {:induction false} EndRunIdentity(v: RunView, status: RunStatus, consumed: set<nat>, id: nat)
    ensures SameIdentity(v, EndRun(v, status, consumed, id)) && EndRun(v, status, consumed, id).run.status == status
  {
  }

  // ---- continuing as new ----

  /** db' ends run r and puts run c in its place in the tree. */
  ghost predicate Replaces(db: Db, db': Db, r: nat, c: nat)
  {
    && r in db.runs && !Terminal(db.runs[r].run.status) && c !in db.runs
    && db'.runs.Keys == db.runs.Keys + {c} && db.instances.Keys <= db'.instances.Keys
    && (forall x :: x in db.runs ==> SameIdentity(db.runs[x], db'.runs[x]))
    && (forall x :: x in db.runs ==> (Terminal(db'.runs[x].run.status) <==> Terminal(db.runs[x].run.status) || x == r))
    && SameIdentity(db.runs[r], db'.runs[c]) && !Terminal(db'.runs[c].run.status)
    && db'.links.Keys == db.links.Keys
    && (forall l :: l in db.links ==> db'.links[l] == Continued(db.links[l], r, c))
  }

  lemma {:induction false} ReplacingKeepsRun(db: Db, db': Db, r: nat, c: nat, x: nat)
    requires OkTree(db) && Replaces(db, db', r, c) && x in db'.runs
    ensures OkParent(db', x) && Linked(db', x)
  {
    var y := if x == c then r else x;
    assert OkParent(db, y) && Linked(db, y);
    assert SameIdentity(db.runs[y], db'.runs[x]);
    if db'.runs[x].run.parent.Some? {
      var p := db'.runs[x].run.parent.value;
      assert SameIdentity(db.runs[p], db'.runs[p]);
      if !Terminal(db'.runs[x].run.status) {
        var l :| l in db.links && Links(db.links[l], p, y);
        assert Links(db'.links[l], p, x);
      }
    }
  }

  lemma {:induction false} ReplacingKeepsLink(db: Db, db': Db, r: nat, c: nat, l: nat)
    requires OkTree(db) && Replaces(db, db', r, c) && l in db.links
    ensures OkLink(db', db'.links[l])
    ensures if db.links[l].current == r then db'.links[l].current == c else db'.links[l].current == db.links[l].current
    ensures db.links[l].current in db.runs
  {
    assert OkLink(db, db.links[l]);
    assert SameIdentity(db.runs[db.links[l].current], db'.runs[db.links[l].current]);
  }

  lemma {:induction false} ReplacingKeepsTree(db: Db, db': Db, r: nat, c: nat)
    requires OkTree(db) && Replaces(db, db', r, c)
    ensures OkTree(db')
  {
    forall x | x in db'.runs ensures OkParent(db', x) && Linked(db', x) {
      ReplacingKeepsRun(db, db', r, c, x);
    }
    forall l | l in db'.links
      ensures OkLink(db', db'.links[l]) && db.links[l].current != c
      ensures if db.links[l].current == r then db'.links[l].current == c else db'.links[l].current == db.links[l].current
    {
      ReplacingKeepsLink(db, db', r, c, l);
    }
    hide OkLink, OkParent, Linked;
  }

  lemma {:induction false} ContinueKeepsRuns(db: Db, r: nat, consumed: set<nat>, c: nat)
    requires Inv(db) && Enabled(db, ContinueAsNew(r, consumed, c))
    ensures OkRuns(Effect(db, ContinueAsNew(r, consumed, c)))
  {
    hide OkView, OkTree, EndRun, NewRun;
    var id := db.nextHistoryId;
    EndKeeps(db.runs[r], RunStatus.ContinuedAsNew, consumed, id);
    var ended := db.runs[r := EndRun(db.runs[r], RunStatus.ContinuedAsNew, consumed, id)];
    forall x | x in ended ensures OkView(ended[x], id + 2) {
      if x == r { ViewLater(ended[r], id + 1, id + 2); } else { ViewLater(db.runs[x], id, id + 2); }
    }
    WakeParentKeeps(db, ended, r, id + 2);
    NewRunKeeps(db.runs[r].run, id + 1);
    hide WakeParent;
  }

  lemma {:induction false} NewRunIdentity(v: RunView, id: nat)
    ensures SameIdentity(v, NewRun(v.run, id)) && !Terminal(NewRun(v.run, id).run.status)
  {
  }

  lemma {:induction false} ContinueReplaces(db: Db, r: nat, consumed: set<nat>, c: nat)
    requires Enabled(db, ContinueAsNew(r, consumed, c))
    ensures Replaces(db, Effect(db, ContinueAsNew(r, consumed, c)), r, c)
  {
    hide EndRun, NewRun, WakeParent, Continued, FollowedTooFar, SameIdentity;
    var db' := Effect(db, ContinueAsNew(r, consumed, c));
    var ended := db.runs[r := EndRun(db.runs[r], RunStatus.ContinuedAsNew, consumed, db.nextHistoryId)];
    EndRunIdentity(db.runs[r], RunStatus.ContinuedAsNew, consumed, db.nextHistoryId);
    NewRunIdentity(db.runs[r], db.nextHistoryId + 1);
    forall x | x in db.runs
      ensures WakeParent(db, ended, r).Keys == ended.Keys
      ensures SameIdentity(db.runs[x], db'.runs[x])
      ensures Terminal(db'.runs[x].run.status) <==> Terminal(db.runs[x].run.status) || x == r
    {
      WakeParentEffect(db, ended, r, x);
      SameIdentityLaws(db.runs[x], ended[x], db'.runs[x]);
    }
  }

  lemma {:induction false} SameIdentityLaws(u: RunView, v: RunView, w: RunView)
    ensures SameIdentity(u, u)
    ensures SameIdentity(u, v) && SameIdentity(v, w) ==> SameIdentity(u, w)
  {
  }

  lemma {:induction false} ContinueKeepsInv(db: Db, r: nat, consumed: set<nat>, c: nat)
    requires Inv(db) && Enabled(db, ContinueAsNew(r, consumed, c))
    ensures Inv(Effect(db, ContinueAsNew(r, consumed, c)))
  {
    hide OkRuns, OkTree, EndRun, WakeParent, NewRun, Replaces;
    ContinueKeepsRuns(db, r, consumed, c);
    ContinueReplaces(db, r, consumed, c);
    ReplacingKeepsTree(db, Effect(db, ContinueAsNew(r, consumed, c)), r, c);
  }

  // ---- termination ----

  /** The active subtree of a live run is live. */
  lemma {:induction false} ClosureLive(db: Db, r: nat, x: nat)
    requires OkTree(db) && r in db.runs && !Terminal(db.runs[r].run.status) && x in Closure(db, r)
    ensures !Terminal(db.runs[x].run.status)
  {
    if x != r {
      var l :| l in db.links && Links(db.links[l], db.runs[x].run.parent.value, x);
      assert OkLink(db, db.links[l]);
    }
  }

  lemma {:induction false} EarlierFewer(db: Db, s: set<nat>, x: nat)
    requires x in s
    ensures |EarlierIn(db, s, x)| < |s|
  {
    FewerWithout(EarlierIn(db, s, x), s, x);
  }

  lemma {:induction false} FewerWithout(a: set<nat>, b: set<nat>, x: nat)
    requires a <= b && x in b && x !in a
    ensures |a| < |b|
  {
    assert b == a + (b - a);
    assert |b| == |a| + |b - a|;
    assert x in b - a;
  }

  lemma {:induction false} TerminatedRunKeeps(db: Db, s: set<nat>, x: nat)
    requires OkRuns(db) && x in db.runs && (x in s ==> !Terminal(db.runs[x].run.status))
    ensures OkView(TerminatedRuns(db, s)[x], db.nextHistoryId + |s|)
    ensures SameIdentity(db.runs[x], TerminatedRuns(db, s)[x])
    ensures Terminal(TerminatedRuns(db, s)[x].run.status) <==> Terminal(db.runs[x].run.status) || x in s
  {
    hide OkView;
    var next := db.nextHistoryId;
    if x in s {
      var k := |EarlierIn(db, s, x)|;
      EarlierFewer(db, s, x);
      ViewLater(db.runs[x], next, next + k);
      TerminateKeeps(db.runs[x], next + k);
      ViewLater(TerminateRows(db.runs[x], next + k), next + k + 1, next + |s|);
    } else {
      ViewLater(db.runs[x], next, next + |s|);
    }
  }

  lemma {:induction false} TerminateKeepsRuns(db: Db, r: nat)
    requires Inv(db) && r in db.runs && !Terminal(db.runs[r].run.status)
    ensures OkRuns(Terminate(db, r))
  {
    hide OkView, OkTree, TerminateRows;
    var s := Closure(db, r);
    var next := db.nextHistoryId + |s|;
    var ended := TerminatedRuns(db, s);
    forall x | x in db.runs ensures OkView(ended[x], next) {
      if x in s { ClosureLive(db, r, x); }
      TerminatedRunKeeps(db, s, x);
    }
    hide TerminatedRuns, Closure;
    WakeParentKeeps(db, ended, r, next);
    hide WakeParent;
  }

  lemma {:induction false} TerminateCloses(db: Db, r: nat)
    requires Inv(db) && r in db.runs && !Terminal(db.runs[r].run.status)
    ensures Closes(db, Terminate(db, r), Closure(db, r), Terminated)
  {
    hide OkView, OkTree, TerminateRows;
    var s := Closure(db, r);
    var db' := Terminate(db, r);
    forall x | x in db.runs
      ensures x in db'.runs && SameIdentity(db.runs[x], db'.runs[x])
      ensures Terminal(db'.runs[x].run.status) <==> Terminal(db.runs[x].run.status) || x in s
    {
      if x in s { ClosureLive(db, r, x); }
      TerminatedRunKeeps(db, s, x);
      WakeParentEffect(db, TerminatedRuns(db, s), r, x);
      SameIdentityLaws(db.runs[x], TerminatedRuns(db, s)[x], db'.runs[x]);
    }
    WakeParentEffect(db, TerminatedRuns(db, s), r, r);
    hide WakeParent, TerminatedRuns, Closure, SameIdentity;
  }

  lemma {:induction false} TerminateKeepsInv(db: Db, r: nat)
    requires Inv(db) && r in db.runs
    ensures Inv(Terminate(db, r))
  {
    hide OkRuns, OkTree, Closes, Closure, TerminatedRuns, WakeParent;
    if !Terminal(db.runs[r].run.status) {
      TerminateKeepsRuns(db, r);
      TerminateCloses(db, r);
      ClosingKeepsTree(db, Terminate(db, r), Closure(db, r), Terminated);
    }
  }

  // ---- all steps ----

  lemma {:induction false} StepKeepsInv(db: Db, s: Step)
    requires Inv(db)
    ensures Inv(ApplyStep(db, s))
  {
    if Enabled(db, s) {
      hide Inv;
      match s
      case StartRun(_, _) => StartKeeps(db, s);
      case StartChild(_, _, _, _, _) => StartKeeps(db, s);
      case OnRun(r, op) => OnRunKeeps(db, r, op);
      case TerminateRun(r) => TerminateKeepsInv(db, r);
      case EndRunOf(r, status, consumed) => EndKeepsInv(db, r, status, consumed);
      case ContinueAsNew(r, consumed, c) => ContinueKeepsInv(db, r, consumed, c);
      case FailChildWait(link) => FailChildWaitKeeps(db, link);
    }
  }

  /** Whatever the schedule, the tables stay in order. */
  lemma {:induction false} InvAlways(db: Db, steps: seq<Step>)
    requires Inv(db)
    ensures Inv(RunSteps(db, steps))
  {
    if steps != [] {
      InvAlways(db, steps[..|steps| - 1]);
      StepKeepsInv(RunSteps(db, steps[..|steps| - 1]), steps[|steps| - 1]);
    }
  }
}
