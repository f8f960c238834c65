/** Ingest batches and terminations take their row locks in one global order, so some unfinished
    transaction can always go on. */
module LockOrder {
  import opened Basics

  /** A batch key, a session or trace by external id, or a run by child depth and run id. */
  datatype Lock = BatchKey(key: string) | Session(id: string) | Run(depth: nat, run: nat) | Trace(id: string)

  function Rank(l: Lock): nat
  {
    match l
    case BatchKey(_) => 0
    case Session(_) => 1
    case Run(_, _) => 2
    case Trace(_) => 3
  }

  predicate Leq(a: Lock, b: Lock)
  {
    if Rank(a) != Rank(b) then Rank(a) < Rank(b)
    else
      match a
      case BatchKey(k) => StrLeq(k, b.key)
      case Session(s) => StrLeq(s, b.id)
      case Run(d, r) => d < b.depth || (d == b.depth && r <= b.run)
      case Trace(t) => StrLeq(t, b.id)
  }

  lemma {:induction false} LeqTotalOrder(a: Lock, b: Lock, c: Lock)
    ensures Leq(a, a) && (Leq(a, b) || Leq(b, a))
    ensures Leq(a, b) && Leq(b, a) ==> a == b
    ensures Leq(a, b) && Leq(b, c) ==> Leq(a, c)
  {
    if Rank(a) == Rank(b) && !a.Run? {
      var x := if a.BatchKey? then a.key else a.id;
      var y := if b.BatchKey? then b.key else b.id;
      StrLessTotal(x, y);
      if Rank(b) == Rank(c) {
        var z := if c.BatchKey? then c.key else c.id;
        if StrLess(x, y) && StrLess(y, z) { StrLessTrans(x, y, z); }
        if StrLess(x, y) && StrLess(y, x) { StrLessTrans(x, y, x); }
      }
      StrLessIrreflexive(x);
      if StrLess(x, y) && StrLess(y, x) { StrLessTrans(x, y, x); }
    }
  }

  predicate Sorted(s: seq<Lock>)
  {
    forall i: nat, j: nat :: i < j < |s| ==> Leq(s[i], s[j])
  }

  // ---- transactions ----

  /** An ingest batch knows its locks from its request. A termination learns of each level of runs
      once it holds the level above, and of its traces once it holds all its runs. */
  datatype Stage = Ingesting | LockingRuns(depth: nat) | LockingTraces | Finished

  datatype Tx = Tx(stage: Stage, held: set<Lock>, todo: seq<Lock>)

  type System = seq<Tx>

  function Runs(depth: nat, ids: seq<nat>): seq<Lock>
  {
    seq(|ids|, i requires 0 <= i < |ids| => Run(depth, ids[i]))
  }

  function Sessions(ids: seq<string>): seq<Lock>
  {
    seq(|ids|, i requires 0 <= i < |ids| => Session(ids[i]))
  }

  function Traces(ids: seq<string>): seq<Lock>
  {
    seq(|ids|, i requires 0 <= i < |ids| => Trace(ids[i]))
  }

  predicate AscendingIds(ids: seq<nat>)
  {
    forall i: nat, j: nat :: i < j < |ids| ==> ids[i] < ids[j]
  }

  predicate AscendingNames(ids: seq<string>)
  {
    forall i: nat, j: nat :: i < j < |ids| ==> StrLeq(ids[i], ids[j])
  }

  /** No other transaction holds the lock. */
  predicate Available(sys: System, i: nat, l: Lock)
  {
    forall j: nat :: j < |sys| && j != i ==> l !in sys[j].held
  }

  datatype Step =
    | BeginIngest(key: string, sessions: seq<string>, traces: seq<string>)
    | BeginTerminate(parent: Option<nat>, target: nat, depth: nat)
    | Acquire(i: nat)
    | NextLevel(i: nat, level: seq<nat>)
    | ToTraces(i: nat, traces: seq<string>)
    | Finish(i: nat)

  predicate Enabled(sys: System, s: Step)
  {
    match s
    case BeginIngest(_, sessions, traces) => AscendingNames(sessions) && AscendingNames(traces)
    case BeginTerminate(parent, _, depth) => parent.Some? <==> depth > 0
    case Acquire(i) => i < |sys| && sys[i].todo != [] && Available(sys, i, sys[i].todo[0])
    case NextLevel(i, level) => i < |sys| && sys[i].stage.LockingRuns? && sys[i].todo == [] && AscendingIds(level)
    case ToTraces(i, traces) => i < |sys| && sys[i].stage.LockingRuns? && sys[i].todo == [] && AscendingNames(traces)
    case Finish(i) => i < |sys| && sys[i].todo == [] && !sys[i].stage.Finished?
  }

  function Effect(sys: System, s: Step): System
    requires Enabled(sys, s)
  {
    match s
    case BeginIngest(key, sessions, traces) =>
      sys + [Tx(Ingesting, {}, [BatchKey(key)] + Sessions(sessions) + Traces(traces))]
    case BeginTerminate(parent, target, depth) =>
      sys + [Tx(LockingRuns(depth), {}, (if parent.Some? then [Run(depth - 1, parent.value)] else []) + [Run(depth, target)])]
    case Acquire(i) => sys[i := sys[i].(held := sys[i].held + {sys[i].todo[0]}, todo := sys[i].todo[1..])]
    case NextLevel(i, level) =>
      sys[i := sys[i].(stage := LockingRuns(sys[i].stage.depth + 1), todo := Runs(sys[i].stage.depth + 1, level))]
    case ToTraces(i, traces) => sys[i := sys[i].(stage := LockingTraces, todo := Traces(traces))]
    case Finish(i) => sys[i := Tx(Finished, {}, [])]
  }

  function ApplyStep(sys: System, s: Step): System
  {
    if Enabled(sys, s) then Effect(sys, s) else sys
  }

  function RunFrom(sys: System, steps: seq<Step>): System
  {
    if steps == [] then sys else ApplyStep(RunFrom(sys, steps[..|steps| - 1]), steps[|steps| - 1])
  }

  function RunSteps(steps: seq<Step>): System
  {
    RunFrom([], steps)
  }

  predicate Unfinished(t: Tx)
  {
    !t.stage.Finished?
  }

  /** A transaction is blocked when the next lock it needs is held by another one. */
  predicate Blocked(sys: System, i: nat)
    requires i < |sys|
  {
    sys[i].todo != [] && !Available(sys, i, sys[i].todo[0])
  }

  // ---- the invariant ----

  ghost predicate OkTx(t: Tx)
  {
    && Sorted(t.todo)
    && (forall h, i: nat :: h in t.held && i < |t.todo| ==> Leq(h, t.todo[i]))
    && (t.stage.Finished? ==> t.held == {} && t.todo == [])
    && (t.stage.LockingRuns? ==>
          && (forall h :: h in t.held ==> h.Run? && h.depth <= t.stage.depth)
          && (forall i: nat :: i < |t.todo| ==> t.todo[i].Run? && t.todo[i].depth <= t.stage.depth))
  }

  /** Every transaction is in order, and no lock is held twice. */
  ghost predicate Inv(sys: System)
  {
    && (forall i: nat :: i < |sys| ==> OkTx(sys[i]))
    && (forall i: nat, j: nat, l :: i < j < |sys| && l in sys[i].held ==> l !in sys[j].held)
  }

  lemma {:induction false} IngestPlanSorted(key: string, sessions: seq<string>, traces: seq<string>)
    requires AscendingNames(sessions) && AscendingNames(traces)
    ensures Sorted([BatchKey(key)] + Sessions(sessions) + Traces(traces))
  {
    var s, t := Sessions(sessions), Traces(traces);
    assert forall i: nat, j: nat :: i < j < |s| ==> Leq(s[i], s[j]);
    assert forall i: nat, j: nat :: i < j < |t| ==> Leq(t[i], t[j]);
  }

  lemma {:induction false} AcquireOk(t: Tx)
    requires OkTx(t) && t.todo != []
    ensures OkTx(t.(held := t.held + {t.todo[0]}, todo := t.todo[1..]))
  {
  }

  lemma {:induction false} StepKeepsInv(sys: System, s: Step)
    requires Inv(sys) && Enabled(sys, s)
    ensures Inv(Effect(sys, s))
  {
    var sys' := Effect(sys, s);
    match s
    case BeginIngest(key, sessions, traces) =>
      IngestPlanSorted(key, sessions, traces);
      assert OkTx(sys'[|sys|]);
    case BeginTerminate(_, _, _) => assert OkTx(sys'[|sys|]);
    case Acquire(i) => AcquireOk(sys[i]);
    case NextLevel(i, level) => assert OkTx(sys'[i]);
    case ToTraces(i, traces) => assert OkTx(sys'[i]);
    case Finish(i) => assert OkTx(sys'[i]);
  }

  lemma {:induction false} InvAlways(sys: System, steps: seq<Step>)
    requires Inv(sys)
    ensures Inv(RunFrom(sys, steps))
  {
    if steps != [] {
      InvAlways(sys, steps[..|steps| - 1]);
      var mid, s := RunFrom(sys, steps[..|steps| - 1]), steps[|steps| - 1];
      if Enabled(mid, s) { StepKeepsInv(mid, s); }
    }
  }

  // ---- deadlock freedom ----

  function BlockedOnes(sys: System): set<nat>
  {
    set i: nat | i < |sys| && Blocked(sys, i)
  }

  /** Among some blocked transactions, one waits for a greatest lock. */
  lemma {:induction false} GreatestWait(sys: System, s: set<nat>) returns (m: nat)
    requires s != {} && forall i :: i in s ==> i < |sys| && sys[i].todo != []
    ensures m in s && forall i :: i in s ==> Leq(sys[i].todo[0], sys[m].todo[0])
  {
    var x :| x in s;
    m := x;
    LeqTotalOrder(sys[x].todo[0], sys[x].todo[0], sys[x].todo[0]);
    if z :| z in s && z != x {
      assert z in s - {x};
      var k := GreatestWait(sys, s - {x});
      LeqTotalOrder(sys[x].todo[0], sys[k].todo[0], sys[k].todo[0]);
      m := if Leq(sys[x].todo[0], sys[k].todo[0]) then k else x;
      forall i | i in s ensures Leq(sys[i].todo[0], sys[m].todo[0]) {
        if i != x { LeqTotalOrder(sys[i].todo[0], sys[k].todo[0], sys[m].todo[0]); }
      }
    }
  }

  lemma {:induction false} HolderGoesOn(sys: System, m: nat, j: nat)
    requires Inv(sys) && m < |sys| && sys[m].todo != [] && j < |sys| && sys[m].todo[0] in sys[j].held
    requires forall i :: i in BlockedOnes(sys) ==> Leq(sys[i].todo[0], sys[m].todo[0])
    ensures Unfinished(sys[j]) && !Blocked(sys, j)
  {
    if Blocked(sys, j) {
      var l, w := sys[m].todo[0], sys[j].todo[0];
      assert j in BlockedOnes(sys);
      LeqTotalOrder(l, w, l);
      assert Available(sys, j, w);
    }
  }

  lemma {:induction false} SomeoneGoesOn(sys: System, i: nat) returns (k: nat)
    requires Inv(sys) && i < |sys| && Unfinished(sys[i])
    ensures k < |sys| && Unfinished(sys[k]) && !Blocked(sys, k)
  {
    if Blocked(sys, i) {
      assert i in BlockedOnes(sys);
      var m := GreatestWait(sys, BlockedOnes(sys));
      var j: nat :| j < |sys| && j != m && sys[m].todo[0] in sys[j].held;
      HolderGoesOn(sys, m, j);
      k := j;
    } else {
      k := i;
    }
  }

  /** Whatever mix of batches and terminations has run so far, some unfinished transaction is not
      blocked: it can take its next lock, or has all it needs. */
  lemma {:induction false} NeverDeadlocked(steps: seq<Step>, i: nat)
    requires i < |RunSteps(steps)| && Unfinished(RunSteps(steps)[i])
    ensures exists k: nat :: k < |RunSteps(steps)| && Unfinished(RunSteps(steps)[k]) && !Blocked(RunSteps(steps), k)
  {
    assert Inv([]);
    hide Inv, Blocked;
    InvAlways([], steps);
    var k := SomeoneGoesOn(RunSteps(steps), i);
  }

  /** And a transaction that is not blocked has a step of its own. */
  lemma {:induction false} UnblockedHasStep(sys: System, i: nat)
    requires i < |sys| && Unfinished(sys[i]) && !Blocked(sys, i)
    ensures Enabled(sys, Acquire(i)) || Enabled(sys, Finish(i))
  {
  }

  // ---- every transaction can finish ----

  function TxWork(t: Tx): nat
  {
    |t.todo| + (if Unfinished(t) then 1 else 0)
  }

  function Work(sys: System): nat
  {
    if sys == [] then 0 else Work(sys[..|sys| - 1]) + TxWork(sys[|sys| - 1])
  }

  lemma {:induction false} WorkUpdate(sys: System, i: nat, t: Tx)
    requires i < |sys|
    ensures Work(sys[i := t]) == Work(sys) - TxWork(sys[i]) + TxWork(t)
  {
    var front := sys[..|sys| - 1];
    if i < |sys| - 1 {
      WorkUpdate(front, i, t);
      assert sys[i := t][..|sys| - 1] == front[i := t];
    } else {
      assert sys[i := t][..|sys| - 1] == front;
    }
  }

  lemma {:induction false} RunFromFirst(sys: System, s: Step, steps: seq<Step>)
    ensures RunFrom(sys, [s] + steps) == RunFrom(ApplyStep(sys, s), steps)
  {
    var all := [s] + steps;
    if steps == [] {
      assert all[..|all| - 1] == [];
    } else {
      assert all[..|all| - 1] == [s] + steps[..|steps| - 1];
      RunFromFirst(sys, s, steps[..|steps| - 1]);
    }
  }

  /** From any reachable state the transactions in progress can all be run to their end, without
      starting new ones. */
  lemma {:induction false} AllCanFinish(sys: System) returns (steps: seq<Step>)
    requires Inv(sys)
    ensures |RunFrom(sys, steps)| == |sys|
    ensures forall i: nat :: i < |sys| ==> !Unfinished(RunFrom(sys, steps)[i])
    decreases Work(sys)
  {
    steps := [];
    if i: nat :| i < |sys| && Unfinished(sys[i]) {
      var k := SomeoneGoesOn(sys, i);
      UnblockedHasStep(sys, k);
      var s := if sys[k].todo != [] then Acquire(k) else Finish(k);
      assert Enabled(sys, s);
      StepKeepsInv(sys, s);
      WorkUpdate(sys, k, Effect(sys, s)[k]);
      assert Effect(sys, s) == sys[k := Effect(sys, s)[k]];
      var rest := AllCanFinish(Effect(sys, s));
      RunFromFirst(sys, s, rest);
      steps := [s] + rest;
    }
  }
}
