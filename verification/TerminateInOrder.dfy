/** Terminating a locked subtree run by run, deepest first, adds up to one termination. */
module TerminateInOrder {
  import opened Basics
  import opened RunState
  import opened RunInvariants
  import opened EngineDb
  import opened EngineInvariant
  import opened TerminateSubtree
  import opened DescendantLocks

  /** What terminating one locked run writes. */
  function TerminateOne(db: Db, x: nat, wakeParent: bool): Db
    requires x in db.runs
  {
    var runs := db.runs[x := TerminateRows(db.runs[x], db.nextHistoryId)];
    Db(if wakeParent then WakeParent(db, runs, x) else runs, CloseLinks(db.links, {x}, RunStatus.Terminated),
       EndInstances(db, {x}, RunStatus.Terminated), db.nextHistoryId + 1)
  }

  /** The tables once the runs of done, out of s, are terminated. */
  function Partial(db: Db, s: set<nat>, done: set<nat>): Db
  {
    Db(map x | x in db.runs ::
         if x in done then TerminateRows(db.runs[x], db.nextHistoryId + |EarlierIn(db, s, x)|) else db.runs[x],
       CloseLinks(db.links, done, RunStatus.Terminated), EndInstances(db, done, RunStatus.Terminated),
       db.nextHistoryId + |done|)
  }

  lemma {:induction false} PartialStart(db: Db, s: set<nat>)
    ensures Partial(db, s, {}) == db
  {
    assert Partial(db, s, {}).links == db.links;
    assert Partial(db, s, {}).instances == db.instances;
  }

  lemma {:induction false} PartialTables(db: Db, s: set<nat>, done: set<nat>, x: nat)
    requires x in db.runs && x in s && x !in done
    ensures var p := Partial(db, s, done); var q := Partial(db, s, done + {x});
            && CloseLinks(p.links, {x}, RunStatus.Terminated) == q.links
            && EndInstances(p, {x}, RunStatus.Terminated) == q.instances
            && p.nextHistoryId + 1 == q.nextHistoryId
  {
    var p := Partial(db, s, done);
    assert InstancesOf(p, {x}) == {db.runs[x].run.instance};
    assert InstancesOf(db, done + {x}) == InstancesOf(db, done) + {db.runs[x].run.instance};
    assert |done + {x}| == |done| + 1;
  }

  /** The next run in order takes the next history id. */
  lemma {:induction false} PartialStep(db: Db, s: set<nat>, done: set<nat>, x: nat)
    requires x in db.runs && x in s && x !in done && EarlierIn(db, s, x) == done
    ensures x in Partial(db, s, done).runs
    ensures TerminateOne(Partial(db, s, done), x, false) == Partial(db, s, done + {x})
  {
    PartialTables(db, s, done, x);
    var a, b := TerminateOne(Partial(db, s, done), x, false).runs, Partial(db, s, done + {x}).runs;
    hide TerminateRows, CloseLinks, EndInstances;
    assert a == b;
  }

  lemma {:induction false} PartialWaits(db: Db, s: set<nat>, done: set<nat>, x: nat)
    requires x !in done
    ensures WaitsFor(Partial(db, s, done), x) <==> WaitsFor(db, x)
  {
    var p := Partial(db, s, done);
    if WaitsFor(db, x) {
      var l :| l in db.links && db.links[l].status.LinkActive? && db.links[l].current == x && !db.links[l].waitFailed;
      assert p.links[l] == db.links[l];
    }
  }

  lemma {:induction false} PartialRuns(db: Db, s: set<nat>, x: nat)
    requires x in db.runs && x in s && EarlierIn(db, s, x) == s - {x}
    ensures var p := Partial(db, s, s - {x});
            x in p.runs && p.runs[x] == db.runs[x]
            && p.runs[x := TerminateRows(p.runs[x], p.nextHistoryId)] == TerminatedRuns(db, s)
  {
  }

  /** The target comes last, and wakes its parent. */
  lemma {:induction false} PartialEnd(db: Db, r: nat)
    requires OkTree(db) && r in db.runs && !Terminal(db.runs[r].run.status)
    requires EarlierIn(db, Closure(db, r), r) == Closure(db, r) - {r}
    ensures r in Partial(db, Closure(db, r), Closure(db, r) - {r}).runs
    ensures TerminateOne(Partial(db, Closure(db, r), Closure(db, r) - {r}), r, true) == Terminate(db, r)
  {
    var s := Closure(db, r);
    ClosureClosed(db, r);
    PartialTables(db, s, s - {r}, r);
    assert s - {r} + {r} == s;
    PartialRuns(db, s, r);
    PartialWaits(db, s, s - {r}, r);
    hide TerminateRows, Closure, OkTree, TerminatedRuns, WaitsFor, CloseLinks, EndInstances;
  }

  // ---- the order of the levels ----

  function Deeper(db: Db, s: set<nat>, depth: nat): set<nat>
  {
    set y | y in s && Depth(db, y) > depth
  }

  /** Everything below level i, and the first j runs of level i. */
  function DoneAt(db: Db, t: nat, s: set<nat>, levels: seq<seq<nat>>, i: nat, j: nat): set<nat>
    requires i < |levels| && j <= |levels[i]|
  {
    Deeper(db, s, Depth(db, t) + 1 + i) + Elements(levels[i][..j])
  }

  lemma {:induction false} DoneIsEarlier(db: Db, t: nat, s: set<nat>, levels: seq<seq<nat>>, i: nat, j: nat)
    requires LevelsOf(db, t, s, levels) && i < |levels| && j < |levels[i]|
    ensures var x := levels[i][j];
            && x in s && x !in DoneAt(db, t, s, levels, i, j) && EarlierIn(db, s, x) == DoneAt(db, t, s, levels, i, j)
            && DoneAt(db, t, s, levels, i, j + 1) == DoneAt(db, t, s, levels, i, j) + {x}
  {
    var level := levels[i];
    var x := level[j];
    assert x in level;
    forall y | y in EarlierIn(db, s, x) ensures y in DoneAt(db, t, s, levels, i, j) {
      if Depth(db, y) == Depth(db, x) {
        assert y in level;
        var k: nat :| k < |level| && level[k] == y;
        assert level[..j][k] == y;
      }
    }
    forall y | y in level[..j] ensures y in EarlierIn(db, s, x) && y != x {
      assert y in level;
    }
    assert level[..j + 1] == level[..j] + [x];
  }

  lemma {:induction false} DoneStart(db: Db, t: nat, s: set<nat>, levels: seq<seq<nat>>, i: nat)
    requires i < |levels|
    ensures DoneAt(db, t, s, levels, i, 0) == Deeper(db, s, Depth(db, t) + i + 1)
  {
  }

  lemma {:induction false} LevelDone(db: Db, t: nat, s: set<nat>, levels: seq<seq<nat>>, i: nat)
    requires LevelsOf(db, t, s, levels) && i < |levels|
    ensures DoneAt(db, t, s, levels, i, |levels[i]|) == Deeper(db, s, Depth(db, t) + i)
  {
    assert levels[i][..|levels[i]|] == levels[i];
  }

  lemma {:induction false} AllLevelsDone(db: Db, t: nat, s: set<nat>, levels: seq<seq<nat>>)
    requires t in s && LevelsOf(db, t, s, levels)
    ensures Deeper(db, s, Depth(db, t)) == s - {t}
    ensures EarlierIn(db, s, t) == s - {t}
    ensures Deeper(db, s, Depth(db, t) + |levels|) == {}
  {
  }
}
