/** Why locking a run's active descendants level by level, while other transactions go on, ends up
    with exactly the active subtree of the state at return. */
module DescendantLocks {
  import K = KeyedUpserts
  import opened Basics
  import opened RunState
  import opened RunInvariants
  import opened EngineDb
  import opened EngineInvariant
  import opened TerminateSubtree
  import opened Interference

  // ---- listing children ----

  predicate Ascending(s: seq<nat>)
  {
    forall i: nat, j: nat :: i < j < |s| ==> s[i] < s[j]
  }

  predicate IsMin(s: set<nat>, m: nat)
  {
    m in s && forall y :: y in s ==> m <= y
  }

  lemma {:induction false} MinExists(s: set<nat>)
    requires s != {}
    ensures exists m: nat :: IsMin(s, m)
  {
    var x :| x in s;
    if z :| z in s && z != x {
      assert z in s - {x};
      MinExists(s - {x});
      var m: nat :| IsMin(s - {x}, m);
      MinWith(s, x, m);
    } else {
      assert IsMin(s, x);
    }
  }

  lemma {:induction false} MinWith(s: set<nat>, x: nat, m: nat)
    requires x in s && IsMin(s - {x}, m)
    ensures IsMin(s, if x < m then x else m)
  {
    forall y | y in s ensures (if x < m then x else m) <= y {
      if y != x { assert y in s - {x}; }
    }
  }

  ghost predicate AllBelow(s: set<nat>, m: nat)
  {
    forall x :: x in s ==> x < m
  }

  lemma {:induction false} FreshId(s: set<nat>)
    ensures exists m: nat :: AllBelow(s, m)
    ensures exists m: nat :: m !in s
  {
    if x :| x in s {
      FreshId(s - {x});
      var m: nat :| AllBelow(s - {x}, m);
      var k := if x < m then m else x + 1;
      forall y | y in s ensures y < k {
        if y != x { assert y in s - {x}; }
      }
      assert AllBelow(s, k) && k !in s;
    } else {
      assert AllBelow(s, 0) && 0 !in s;
    }
  }

  /** A set of run ids in order. */
  function InIdOrder(s: set<nat>): seq<nat>
  {
    if s == {} then []
    else
      MinExists(s);
      var m: nat :| IsMin(s, m);
      [m] + InIdOrder(s - {m})
  }

  lemma {:induction false} InIdOrderLists(s: set<nat>)
    ensures Ascending(InIdOrder(s))
    ensures forall y :: y in InIdOrder(s) <==> y in s
  {
    if s != {} {
      MinExists(s);
      var m: nat :| IsMin(s, m);
      var rest := InIdOrder(s - {m});
      InIdOrderLists(s - {m});
      assert forall i: nat :: i < |rest| ==> rest[i] in rest;
    }
  }

  function Children(db: Db, parents: set<nat>): set<nat>
  {
    set l | l in db.links && db.links[l].status.LinkActive? && db.links[l].parent in parents :: db.links[l].current
  }

  lemma {:induction false} ChildrenAre(db: Db, parents: set<nat>, y: nat)
    ensures y in Children(db, parents) <==> exists p :: p in parents && ActiveChild(db, p, y)
  {
    if y in Children(db, parents) {
      var l :| l in db.links && db.links[l].status.LinkActive? && db.links[l].parent in parents && db.links[l].current == y;
      assert Links(db.links[l], db.links[l].parent, y);
      assert ActiveChild(db, db.links[l].parent, y);
    }
  }

  // ---- growing the locked set ----

  /** s holds the target, comes from it by active children, and is closed under them but for the
      children of the runs in open. */
  ghost predicate Frontier(db: Db, t: nat, s: set<nat>, open: set<nat>)
  {
    && t in s && s <= db.runs.Keys && open <= s
    && (forall x, y :: x in s && x !in open && ActiveChild(db, x, y) ==> y in s)
    && (forall y :: y in s && y != t ==>
          && db.runs[y].run.parent.Some? && db.runs[y].run.parent.value in s
          && ActiveChild(db, db.runs[y].run.parent.value, y))
  }

  lemma {:induction false} ActiveChildStable(db: Db, db': Db, held: set<nat>, x: nat, y: nat)
    requires Respects(db, db', held) && x in held
    ensures ActiveChild(db, x, y) <==> ActiveChild(db', x, y)
  {
    if ActiveChild(db, x, y) {
      var l :| l in db.links && Links(db.links[l], x, y);
      assert Links(db'.links[l], x, y);
    }
    if ActiveChild(db', x, y) {
      var l :| l in db'.links && Links(db'.links[l], x, y);
      assert Links(db.links[l], x, y);
    }
  }

  lemma {:induction false} FrontierStable(db: Db, db': Db, held: set<nat>, t: nat, s: set<nat>, open: set<nat>)
    requires Respects(db, db', held) && s <= held && Frontier(db, t, s, open)
    ensures Frontier(db', t, s, open)
  {
    forall x, y | x in s && x !in open && ActiveChild(db', x, y) ensures y in s {
      ActiveChildStable(db, db', held, x, y);
    }
    forall y | y in s && y != t
      ensures db'.runs[y].run.parent.Some? && db'.runs[y].run.parent.value in s
              && ActiveChild(db', db'.runs[y].run.parent.value, y)
    {
      ActiveChildStable(db, db', held, db.runs[y].run.parent.value, y);
    }
  }

  lemma {:induction false} ChildrenStable(db: Db, db': Db, held: set<nat>, parents: set<nat>)
    requires Respects(db, db', held) && parents <= held
    ensures Children(db', parents) == Children(db, parents)
  {
    forall y ensures y in Children(db', parents) <==> y in Children(db, parents) {
      ChildrenAre(db, parents, y);
      ChildrenAre(db', parents, y);
      forall p | p in parents ensures ActiveChild(db, p, y) <==> ActiveChild(db', p, y) {
        ActiveChildStable(db, db', held, p, y);
      }
    }
  }

  lemma {:induction false} FrontierMoves(db: Db, t: nat, s: set<nat>, open: set<nat>)
    requires OkTree(db) && Frontier(db, t, s, open)
    ensures Frontier(db, t, s + Children(db, open), Children(db, open))
  {
    var ch := Children(db, open);
    forall y | y in ch
      ensures y in db.runs && db.runs[y].run.parent.Some? && db.runs[y].run.parent.value in s
      ensures ActiveChild(db, db.runs[y].run.parent.value, y)
    {
      ChildrenAre(db, open, y);
      var p :| p in open && ActiveChild(db, p, y);
      ActiveChildLinked(db, p, y);
    }
    forall x, y | x in s && ActiveChild(db, x, y) ensures y in s + ch {
      ChildrenAre(db, open, y);
    }
  }

  lemma {:induction false} FrontierUnder(db: Db, t: nat, s: set<nat>, open: set<nat>, x: nat)
    requires OkTree(db) && Frontier(db, t, s, open) && x in s
    ensures Under(db, t, x)
    decreases Depth(db, x)
  {
    if x != t {
      ActiveChildLinked(db, db.runs[x].run.parent.value, x);
      FrontierUnder(db, t, s, open, db.runs[x].run.parent.value);
    }
  }

  /** With nothing left open, the locked set is the active subtree. */
  lemma {:induction false} FrontierDone(db: Db, t: nat, s: set<nat>)
    requires OkTree(db) && Frontier(db, t, s, {})
    ensures s == Closure(db, t)
  {
    forall x | x in s ensures x in Closure(db, t) { FrontierUnder(db, t, s, {}, x); }
    forall x | x in Closure(db, t) ensures x in s { ClosureLeast(db, t, s, x); }
  }

  // ---- levels ----

  function Flatten(levels: seq<seq<nat>>): seq<nat>
  {
    if levels == [] then [] else Flatten(levels[..|levels| - 1]) + levels[|levels| - 1]
  }

  lemma {:induction false} NothingToFlatten()
    ensures Flatten([]) == []
  {
  }

  lemma {:induction false} FlattenGrows(levels: seq<seq<nat>>, level: seq<nat>)
    ensures Flatten(levels + [level]) == Flatten(levels) + level
  {
    assert (levels + [level])[..|levels|] == levels;
  }

  /** Each level lists, in id order, the runs of s at its depth. */
  ghost predicate LevelsOf(db: Db, t: nat, s: set<nat>, levels: seq<seq<nat>>)
  {
    && (forall i: nat :: i < |levels| ==> Ascending(levels[i]))
    && (forall i: nat, y :: i < |levels| ==> (y in levels[i] <==> y in s && Depth(db, y) == Depth(db, t) + 1 + i))
    && (forall y :: y in s ==> y == t || Depth(db, t) < Depth(db, y) <= Depth(db, t) + |levels|)
  }

  lemma {:induction false} LevelsStable(db: Db, db': Db, held: set<nat>, t: nat, s: set<nat>, levels: seq<seq<nat>>)
    requires Respects(db, db', held) && s <= db.runs.Keys && t in s && LevelsOf(db, t, s, levels)
    ensures LevelsOf(db', t, s, levels)
  {
    assert forall y :: y in s ==> Depth(db', y) == Depth(db, y);
  }

  /** The locks of the levels come in order of depth, then of run id. */
  ghost predicate LockOrdered(db: Db, order: seq<nat>)
  {
    forall i: nat, j: nat :: i < j < |order| ==>
      Depth(db, order[i]) < Depth(db, order[j]) || (Depth(db, order[i]) == Depth(db, order[j]) && order[i] < order[j])
  }

  lemma {:induction false} FlattenIn(levels: seq<seq<nat>>, y: nat)
    ensures y in Flatten(levels) <==> exists i: nat :: i < |levels| && y in levels[i]
  {
    if levels != [] {
      var front := levels[..|levels| - 1];
      FlattenIn(front, y);
      assert forall i: nat :: i < |front| ==> front[i] == levels[i];
    }
  }

  lemma {:induction false} FlattenOrdered(db: Db, t: nat, s: set<nat>, levels: seq<seq<nat>>)
    requires forall i: nat :: i < |levels| ==> Ascending(levels[i])
    requires forall i: nat, y :: i < |levels| && y in levels[i] ==> Depth(db, y) == Depth(db, t) + 1 + i
    ensures LockOrdered(db, Flatten(levels))
    ensures forall y :: y in Flatten(levels) ==> Depth(db, t) < Depth(db, y) <= Depth(db, t) + |levels|
  {
    if levels != [] {
      var front := levels[..|levels| - 1];
      FlattenOrdered(db, t, s, front);
      var f, last := Flatten(front), levels[|levels| - 1];
      assert forall i: nat :: i < |f| ==> f[i] in f;
      assert forall i: nat :: i < |last| ==> last[i] in last;
    }
  }

  // ---- the loop ----

  function Elements(s: seq<nat>): set<nat>
  {
    set x | x in s
  }

  /** Once some levels are locked: parents, the last level or the target itself, is still open. */
  ghost predicate LockedSoFar(db: Db, t: nat, s: set<nat>, parents: seq<nat>, levels: seq<seq<nat>>)
  {
    && Frontier(db, t, s, Elements(parents)) && LevelsOf(db, t, s, levels)
    && (forall p :: p in parents ==> Depth(db, p) == Depth(db, t) + |levels|)
  }

  lemma {:induction false} LockedStart(db: Db, t: nat)
    requires t in db.runs
    ensures LockedSoFar(db, t, {t}, [t], [])
  {
  }

  lemma {:induction false} LockedStable(db: Db, db': Db, held: set<nat>, t: nat, s: set<nat>, parents: seq<nat>, levels: seq<seq<nat>>)
    requires Respects(db, db', held) && s <= held && LockedSoFar(db, t, s, parents, levels)
    ensures LockedSoFar(db', t, s, parents, levels)
    ensures Children(db', Elements(parents)) == Children(db, Elements(parents))
  {
    FrontierStable(db, db', held, t, s, Elements(parents));
    ChildrenStable(db, db', held, Elements(parents));
    LevelsStable(db, db', held, t, s, levels);
    assert forall p :: p in parents ==> p in Elements(parents);
    assert forall y :: y in s ==> Depth(db', y) == Depth(db, y);
  }

  /** A listed child is a live run one level further down. */
  lemma {:induction false} ListedChild(db: Db, t: nat, s: set<nat>, parents: seq<nat>, levels: seq<seq<nat>>, y: nat)
    requires OkTree(db) && LockedSoFar(db, t, s, parents, levels) && y in Children(db, Elements(parents))
    ensures y in db.runs && !Terminal(db.runs[y].run.status) && Depth(db, y) == Depth(db, t) + 1 + |levels|
  {
    ChildrenAre(db, Elements(parents), y);
    var p :| p in parents && ActiveChild(db, p, y);
    ActiveChildLinked(db, p, y);
  }

  /** One more level keeps the levels in order. */
  lemma {:induction false} LevelsNext(db: Db, t: nat, s: set<nat>, levels: seq<seq<nat>>, level: seq<nat>)
    requires LevelsOf(db, t, s, levels) && Ascending(level) && t in s
    requires forall y :: y in level ==> Depth(db, y) == Depth(db, t) + 1 + |levels|
    ensures LevelsOf(db, t, s + Elements(level), levels + [level])
  {
    var levels' := levels + [level];
    forall i: nat, y | i < |levels'|
      ensures y in levels'[i] <==> y in s + Elements(level) && Depth(db, y) == Depth(db, t) + 1 + i
    {
      if i < |levels| { assert levels'[i] == levels[i]; }
    }
  }

  lemma {:induction false} LockedMoves(db: Db, t: nat, s: set<nat>, parents: seq<nat>, levels: seq<seq<nat>>, level: seq<nat>)
    requires OkTree(db) && LockedSoFar(db, t, s, parents, levels)
    requires level == InIdOrder(Children(db, Elements(parents)))
    ensures LockedSoFar(db, t, s + Elements(level), level, levels + [level])
  {
    hide Children, InIdOrder, OkTree, LevelsOf, Depth;
    InIdOrderLists(Children(db, Elements(parents)));
    assert Elements(level) == Children(db, Elements(parents));
    FrontierMoves(db, t, s, Elements(parents));
    forall y | y in level ensures Depth(db, y) == Depth(db, t) + 1 + |levels| {
      ListedChild(db, t, s, parents, levels, y);
    }
    FrontierHolds(db, t, s, Elements(parents));
    hide Frontier;
    LevelsNext(db, t, s, levels, level);
  }

  lemma {:induction false} FrontierHolds(db: Db, t: nat, s: set<nat>, open: set<nat>)
    requires Frontier(db, t, s, open)
    ensures t in s
  {
  }

  lemma {:induction false} LockedDepth(db: Db, t: nat, s: set<nat>, parents: seq<nat>, levels: seq<seq<nat>>)
    requires OkTree(db) && LockedSoFar(db, t, s, parents, levels) && parents != []
    ensures |levels| <= MaxChildDepth
  {
    assert parents[0] in Elements(parents);
    assert OkParent(db, parents[0]);
  }

  /** What holding the locks of all levels amounts to. */
  lemma {:induction false} LockedDone(db: Db, t: nat, s: set<nat>, levels: seq<seq<nat>>)
    requires OkTree(db) && LockedSoFar(db, t, s, [], levels)
    ensures s == Closure(db, t) && LevelsOf(db, t, s, levels) && LockOrdered(db, [t] + Flatten(levels))
  {
    FrontierDone(db, t, s);
    AllLevelsOrdered(db, t, s, levels);
  }

  lemma {:induction false} AllLevelsOrdered(db: Db, t: nat, s: set<nat>, levels: seq<seq<nat>>)
    requires LevelsOf(db, t, s, levels)
    ensures LockOrdered(db, [t] + Flatten(levels))
  {
    FlattenOrdered(db, t, s, levels);
    hide LevelsOf, Flatten;
    var f := Flatten(levels);
    assert forall i: nat :: i < |f| ==> f[i] in f;
  }

  /** Holding the active subtree keeps it as it is. */
  lemma {:induction false} ClosureStable(db: Db, db': Db, held: set<nat>, t: nat, levels: seq<seq<nat>>)
    requires OkTree(db) && OkTree(db') && t in db.runs && Respects(db, db', held) && Closure(db, t) <= held
    requires LevelsOf(db, t, Closure(db, t), levels)
    ensures Closure(db', t) == Closure(db, t) && LevelsOf(db', t, Closure(db', t), levels)
  {
    var s := Closure(db, t);
    ClosureClosed(db, t);
    assert Frontier(db, t, s, {}) by {
      forall y | y in s && y != t ensures db.runs[y].run.parent.value in s {
        ActiveChildLinked(db, db.runs[y].run.parent.value, y);
      }
    }
    FrontierStable(db, db', held, t, s, {});
    FrontierDone(db', t, s);
    LevelsStable(db, db', held, t, s, levels);
  }

  lemma {:induction false} LockOrderStable(db: Db, db': Db, held: set<nat>, order: seq<nat>)
    requires Respects(db, db', held) && (forall x :: x in order ==> x in db.runs) && LockOrdered(db, order)
    ensures LockOrdered(db', order)
  {
    forall i: nat | i < |order| ensures Depth(db', order[i]) == Depth(db, order[i]) {
      assert order[i] in order;
    }
  }

  lemma {:induction false} ParentAbove(db: Db, r: nat)
    requires OkTree(db) && r in db.runs && db.runs[r].run.parent.Some?
    ensures db.runs[r].run.parent.value in db.runs && Depth(db, db.runs[r].run.parent.value) < Depth(db, r)
  {
    assert OkParent(db, r);
  }

  lemma {:induction false} ParentFirst(db: Db, p: nat, rest: seq<nat>)
    requires LockOrdered(db, rest) && rest != [] && Depth(db, p) < Depth(db, rest[0])
    ensures LockOrdered(db, [p] + rest)
  {
  }

  lemma {:induction false} OneOrdered(db: Db, r: nat)
    ensures LockOrdered(db, [r]) && LockOrdered(db, [])
  {
  }

  // ---- the traces ----

  /** The traces of a run's subtree, and of the parent that may be woken, each once and in byte order. */
  function TraceNames(run: Run, r: nat, levels: seq<seq<nat>>, nameOf: nat -> string): seq<string>
  {
    var ids := [r] + (if run.parent.Some? then [run.parent.value] else []) + Flatten(levels);
    K.SortedNames(seq(|ids|, i requires 0 <= i < |ids| => nameOf(ids[i])))
  }

  /** The name is that of a trace that the termination writes. */
  ghost predicate NamesTrace(db: Db, r: nat, nameOf: nat -> string, name: string)
    requires r in db.runs
  {
    exists x :: (x in Closure(db, r) || db.runs[r].run.parent == Some(x)) && name == nameOf(x)
  }

  lemma {:induction false} NamesListed(ids: seq<nat>, nameOf: nat -> string, name: string)
    ensures name in seq(|ids|, i requires 0 <= i < |ids| => nameOf(ids[i])) <==> exists x :: x in ids && name == nameOf(x)
  {
    var names := seq(|ids|, i requires 0 <= i < |ids| => nameOf(ids[i]));
    if x :| x in ids && name == nameOf(x) {
      var i :| 0 <= i < |ids| && ids[i] == x;
      assert names[i] == nameOf(x);
    }
    if name in names {
      var i :| 0 <= i < |names| && names[i] == name;
      assert ids[i] in ids;
    }
  }

  lemma {:induction false} LevelsList(db: Db, t: nat, levels: seq<seq<nat>>, y: nat)
    requires t in db.runs && LevelsOf(db, t, Closure(db, t), levels)
    ensures y in Closure(db, t) <==> y == t || y in Flatten(levels)
  {
    FlattenIn(levels, y);
    if y in Closure(db, t) && y != t {
      var i: nat := Depth(db, y) - Depth(db, t) - 1;
      assert y in levels[i];
    }
  }

  lemma {:induction false} SubtreeListed(db: Db, t: nat, levels: seq<seq<nat>>)
    requires t in db.runs && LevelsOf(db, t, Closure(db, t), levels)
    ensures forall y :: y in Closure(db, t) <==> y in [t] + Flatten(levels)
  {
    forall y ensures y in Closure(db, t) <==> y in [t] + Flatten(levels) { LevelsList(db, t, levels, y); }
  }

  /** Those are the traces of the active subtree and of the parent, and no others. */
  lemma {:induction false} TracesOfSubtree(db: Db, r: nat, levels: seq<seq<nat>>, nameOf: nat -> string)
    requires r in db.runs && LevelsOf(db, r, Closure(db, r), levels)
    ensures K.StrictlyAscending(TraceNames(db.runs[r].run, r, levels, nameOf))
    ensures forall name :: name in TraceNames(db.runs[r].run, r, levels, nameOf) <==> NamesTrace(db, r, nameOf, name)
  {
    var parent := db.runs[r].run.parent;
    var ids := [r] + (if parent.Some? then [parent.value] else []) + Flatten(levels);
    K.SortedNamesSpec(seq(|ids|, i requires 0 <= i < |ids| => nameOf(ids[i])));
    forall x: nat ensures x in ids <==> x in Closure(db, r) || parent == Some(x) { LevelsList(db, r, levels, x); }
    hide LevelsOf, Closure, Flatten, K.StrictlyAscending, K.SortedNames;
    forall name ensures name in TraceNames(db.runs[r].run, r, levels, nameOf) <==> NamesTrace(db, r, nameOf, name) {
      NamesListed(ids, nameOf, name);
    }
  }
}
