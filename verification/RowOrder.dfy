/** The order of a session comparison's rows: a tree walked from the root, each row before the rows
    below it and siblings in their order. */
module RowOrder {
  import opened Basics
  import opened Forest
  import opened SpanRows

  // ---- paths in order ----

  predicate BranchesAt(p: seq<nat>, q: seq<nat>, k: nat)
  {
    k <= |p| && k < |q| && p[..k] == q[..k] && (k == |p| || p[k] < q[k])
  }

  /** p leads to a node above q's, or turns off to an earlier sibling. */
  ghost predicate Precedes(p: seq<nat>, q: seq<nat>)
  {
    exists k: nat :: BranchesAt(p, q, k)
  }

  lemma {:induction false} PrecedesBelow(p: seq<nat>, q: seq<nat>, r: seq<nat>)
    requires Precedes(p, q)
    ensures Precedes(p, q + r)
  {
    var k: nat :| BranchesAt(p, q, k);
    assert BranchesAt(p, q + r, k);
  }

  lemma {:induction false} PrefixPrecedes(q: seq<nat>, r: seq<nat>)
    requires r != []
    ensures Precedes(q, q + r)
  {
    assert BranchesAt(q, q + r, |q|);
  }

  lemma {:induction false} SiblingPrecedes(q: seq<nat>, p: seq<nat>, x: nat, y: nat)
    requires q <= p && |p| > |q| && p[|q|] == x && x < y
    ensures Precedes(p, q + [y])
  {
    assert BranchesAt(p, q + [y], |q|);
  }

  /** What comes between a node and its child lies below the node. */
  lemma {:induction false} Between(p: seq<nat>, q: seq<nat>, x: nat)
    requires Precedes(p, q) && Precedes(q, p + [x])
    ensures p <= q && |q| > |p|
  {
    var k: nat :| BranchesAt(p, q, k);
    var m: nat :| BranchesAt(q, p + [x], m);
    assert forall i: nat :: i < k ==> p[i] == p[..k][i] == q[i];
    assert forall i: nat :: i < m ==> q[i] == q[..m][i] == (p + [x])[i];
  }

  lemma {:induction false} SiblingsAscend(q: seq<nat>, x: nat, y: nat)
    requires Precedes(q + [x], q + [y])
    ensures x < y
  {
    var k: nat :| BranchesAt(q + [x], q + [y], k);
    assert (q + [x])[..|q|] == (q + [y])[..|q|];
  }

  // ---- rows in order ----

  /** A row's node: its baseline span, or its candidate span after all of the n baseline spans. */
  function NodeOf(n: nat, row: Row): nat
  {
    if row.baseline.Some? then row.baseline.value else if row.candidate.Some? then n + row.candidate.value else 0
  }

  /** The node has a row among the first k. */
  ghost predicate HasRow(n: nat, rows: seq<Row>, k: nat, x: nat)
  {
    exists m: nat :: m < k && m < |rows| && NodeOf(n, rows[m]) == x
  }

  ghost predicate PlacedAt(f: Parents, n: nat, rows: seq<Row>, k: nat)
    requires k < |rows|
  {
    && (exists p :: PathTo(f, p, NodeOf(n, rows[k])) && |p| == rows[k].depth + 1)
    && NodeOf(n, rows[k]) < |f|
    && (f[NodeOf(n, rows[k])].Some? ==> HasRow(n, rows, k, f[NodeOf(n, rows[k])].value))
  }

  ghost predicate PathsOrdered(f: Parents, x: nat, y: nat)
  {
    forall p, q :: PathTo(f, p, x) && PathTo(f, q, y) ==> Precedes(p, q)
  }

  /** Every row is at its depth, after its parent's row, and rows come in the order of their paths. */
  ghost predicate InTreeOrder(f: Parents, n: nat, rows: seq<Row>)
  {
    && (forall k: nat :: k < |rows| ==> PlacedAt(f, n, rows, k))
    && (forall k: nat, l: nat :: k < l < |rows| ==> PathsOrdered(f, NodeOf(n, rows[k]), NodeOf(n, rows[l])))
  }

  /** All rows come before a node with path q. */
  ghost predicate RowsBefore(f: Parents, n: nat, rows: seq<Row>, q: seq<nat>)
  {
    forall k: nat, p :: k < |rows| && PathTo(f, p, NodeOf(n, rows[k])) ==> Precedes(p, q)
  }

  /** The rows that out adds lie at or below q. */
  ghost predicate AddsUnder(f: Parents, n: nat, rows: seq<Row>, out: seq<Row>, q: seq<nat>)
  {
    && rows <= out
    && forall k: nat, p :: |rows| <= k < |out| && PathTo(f, p, NodeOf(n, out[k])) ==> q <= p
  }

  predicate InFirst(list: seq<nat>, k: nat, shift: nat, x: nat)
  {
    exists m: nat :: m < k && m < |list| && x == shift + list[m]
  }

  /** The rows that out adds lie at or below the first k children of q's node. */
  ghost predicate AddsKids(f: Parents, n: nat, rows: seq<Row>, out: seq<Row>, q: seq<nat>, list: seq<nat>, k: nat, shift: nat)
  {
    && rows <= out
    && forall l: nat, p :: |rows| <= l < |out| && PathTo(f, p, NodeOf(n, out[l])) ==>
         q <= p && |q| < |p| && InFirst(list, k, shift, p[|q|])
  }

  /** All rows come before each of these children of q's node. */
  ghost predicate BeforeKids(f: Parents, n: nat, rows: seq<Row>, q: seq<nat>, list: seq<nat>, shift: nat)
  {
    forall k: nat :: k < |list| ==> RowsBefore(f, n, rows, q + [shift + list[k]])
  }

  predicate Ascends(list: seq<nat>)
  {
    forall k, l :: 0 <= k < l < |list| ==> list[k] < list[l]
  }

  /** Where a list of children hangs: at the roots, or below a node that has its row. */
  ghost predicate Hangs(f: Parents, n: nat, rows: seq<Row>, parent: Option<nat>, q: seq<nat>)
  {
    if parent.None? then q == [] else PathTo(f, q, parent.value) && HasRow(n, rows, |rows|, parent.value)
  }

  // ---- growing the rows ----

  lemma {:induction false} ChildPath(f: Parents, n: nat, rows: seq<Row>, parent: Option<nat>, q: seq<nat>, d: nat)
    requires d < |f| && f[d] == parent && Hangs(f, n, rows, parent, q)
    ensures PathTo(f, q + [d], d)
    ensures parent.Some? ==> HasRow(n, rows, |rows|, parent.value)
  {
    if parent.Some? {
      ExtendPath(f, q, parent.value, d);
    } else {
      RootIsRooted(f, d);
      assert q + [d] == [d];
    }
  }

  lemma {:induction false} StillPlaced(f: Parents, n: nat, rows: seq<Row>, row: Row, k: nat)
    requires k < |rows| && PlacedAt(f, n, rows, k)
    ensures PlacedAt(f, n, rows + [row], k)
  {
    var out := rows + [row];
    assert out[k] == rows[k];
    var x := NodeOf(n, rows[k]);
    if f[x].Some? {
      var m: nat :| m < k && m < |rows| && NodeOf(n, rows[m]) == f[x].value;
      assert out[m] == rows[m];
    }
  }

  lemma {:induction false} NewPlaced(f: Parents, n: nat, rows: seq<Row>, row: Row, q: seq<nat>)
    requires PathTo(f, q, NodeOf(n, row)) && |q| == row.depth + 1
    requires NodeOf(n, row) < |f| && (f[NodeOf(n, row)].Some? ==> HasRow(n, rows, |rows|, f[NodeOf(n, row)].value))
    ensures PlacedAt(f, n, rows + [row], |rows|)
  {
    var out := rows + [row];
    var x := NodeOf(n, row);
    if f[x].Some? {
      var m: nat :| m < |rows| && NodeOf(n, rows[m]) == f[x].value;
      assert out[m] == rows[m];
    }
  }

  /** A node's own row goes before the rows of its children. */
  lemma {:induction false} StartBranch(f: Parents, n: nat, rows: seq<Row>, row: Row, q: seq<nat>)
    requires InTreeOrder(f, n, rows) && RowsBefore(f, n, rows, q)
    requires PathTo(f, q, NodeOf(n, row)) && |q| == row.depth + 1
    requires NodeOf(n, row) < |f| && (f[NodeOf(n, row)].Some? ==> HasRow(n, rows, |rows|, f[NodeOf(n, row)].value))
    ensures InTreeOrder(f, n, rows + [row]) && AddsUnder(f, n, rows, rows + [row], q)
    ensures forall x: nat :: RowsBefore(f, n, rows + [row], q + [x])
    ensures Hangs(f, n, rows + [row], Some(NodeOf(n, row)), q)
  {
    var out := rows + [row];
    assert out[|rows|] == row;
    forall k: nat | k < |out| ensures PlacedAt(f, n, out, k) {
      if k < |rows| { StillPlaced(f, n, rows, row, k); } else { NewPlaced(f, n, rows, row, q); }
    }
    hide PlacedAt;
    forall p | PathTo(f, p, NodeOf(n, row)) ensures p == q { PathUnique(f, p, q, NodeOf(n, row)); }
    hide PathTo, Precedes;
    forall k: nat, l: nat | k < l < |out| ensures PathsOrdered(f, NodeOf(n, out[k]), NodeOf(n, out[l])) {
      if l < |rows| { assert out[k] == rows[k] && out[l] == rows[l]; } else { assert out[k] == rows[k]; }
    }
    forall x: nat, k: nat, p | k < |out| && PathTo(f, p, NodeOf(n, out[k])) ensures Precedes(p, q + [x]) {
      if k < |rows| {
        assert out[k] == rows[k];
        PrecedesBelow(p, q, [x]);
      } else {
        PrefixPrecedes(q, [x]);
      }
    }
  }

  lemma {:induction false} KidsStart(f: Parents, n: nat, rows: seq<Row>, q: seq<nat>, list: seq<nat>, shift: nat)
    ensures AddsKids(f, n, rows, rows, q, list, 0, shift)
  {
  }

  lemma {:induction false} InFirstMore(list: seq<nat>, k: nat, shift: nat, x: nat)
    ensures InFirst(list, k, shift, x) ==> InFirst(list, k + 1, shift, x)
    ensures k < |list| ==> InFirst(list, k + 1, shift, shift + list[k])
  {
  }

  lemma {:induction false} KidsSkip(f: Parents, n: nat, rows: seq<Row>, out: seq<Row>, q: seq<nat>, list: seq<nat>, k: nat, shift: nat)
    requires AddsKids(f, n, rows, out, q, list, k, shift)
    ensures AddsKids(f, n, rows, out, q, list, k + 1, shift)
  {
    forall l: nat, p | |rows| <= l < |out| && PathTo(f, p, NodeOf(n, out[l]))
      ensures q <= p && |q| < |p| && InFirst(list, k + 1, shift, p[|q|])
    {
      InFirstMore(list, k, shift, p[|q|]);
    }
  }

  /** The next child comes after everything so far. */
  lemma {:induction false} KidsNext(f: Parents, n: nat, rows: seq<Row>, out: seq<Row>, q: seq<nat>, list: seq<nat>, k: nat, shift: nat)
    requires AddsKids(f, n, rows, out, q, list, k, shift) && BeforeKids(f, n, rows, q, list, shift)
    requires k < |list| && Ascends(list)
    ensures RowsBefore(f, n, out, q + [shift + list[k]])
  {
    hide PathTo, Precedes;
    var next := shift + list[k];
    assert RowsBefore(f, n, rows, q + [next]);
    forall l: nat, p | l < |out| && PathTo(f, p, NodeOf(n, out[l])) ensures Precedes(p, q + [next]) {
      if l < |rows| {
        assert out[l] == rows[l];
      } else {
        SiblingPrecedes(q, p, p[|q|], next);
      }
    }
  }

  lemma {:induction false} ChildOf(q: seq<nat>, x: nat, p: seq<nat>)
    requires q + [x] <= p
    ensures q <= p && |q| < |p| && p[|q|] == x
  {
    assert (q + [x])[|q|] == x;
  }

  lemma {:induction false} KidsDone(f: Parents, n: nat, rows: seq<Row>, before: seq<Row>, out: seq<Row>, q: seq<nat>,
                                    list: seq<nat>, k: nat, shift: nat)
    requires AddsKids(f, n, rows, before, q, list, k, shift) && k < |list|
    requires AddsUnder(f, n, before, out, q + [shift + list[k]])
    ensures AddsKids(f, n, rows, out, q, list, k + 1, shift)
  {
    hide PathTo, InFirst;
    forall l: nat, p | |rows| <= l < |out| && PathTo(f, p, NodeOf(n, out[l]))
      ensures q <= p && |q| < |p| && InFirst(list, k + 1, shift, p[|q|])
    {
      if l < |before| {
        assert out[l] == before[l];
        InFirstMore(list, k, shift, p[|q|]);
      } else {
        assert q + [shift + list[k]] <= p;
        ChildOf(q, shift + list[k], p);
        InFirstMore(list, k, shift, p[|q|]);
      }
    }
  }

  /** Candidate children come after a node's baseline children. */
  lemma {:induction false} PartnerNext(f: Parents, n: nat, started: seq<Row>, out: seq<Row>, q: seq<nat>, kids: seq<nat>, list: seq<nat>)
    requires AddsKids(f, n, started, out, q, kids, |kids|, 0) && (forall l :: 0 <= l < |kids| ==> kids[l] < n)
    requires forall x: nat :: RowsBefore(f, n, started, q + [x])
    ensures BeforeKids(f, n, out, q, list, n)
  {
    hide PathTo, Precedes;
    forall k: nat | k < |list| ensures RowsBefore(f, n, out, q + [n + list[k]]) {
      assert RowsBefore(f, n, started, q + [n + list[k]]);
      forall l: nat, p | l < |out| && PathTo(f, p, NodeOf(n, out[l])) ensures Precedes(p, q + [n + list[k]]) {
        if l < |started| {
          assert out[l] == started[l];
        } else {
          SiblingPrecedes(q, p, p[|q|], n + list[k]);
        }
      }
    }
  }

  lemma {:induction false} StartedBefore(f: Parents, n: nat, started: seq<Row>, q: seq<nat>, list: seq<nat>, shift: nat)
    requires forall x: nat :: RowsBefore(f, n, started, q + [x])
    ensures BeforeKids(f, n, started, q, list, shift)
  {
    hide RowsBefore;
  }

  /** A branch is its own row and the rows of its children. */
  lemma {:induction false} BranchDone(f: Parents, n: nat, rows: seq<Row>, started: seq<Row>, out: seq<Row>, q: seq<nat>,
                                      list: seq<nat>, shift: nat)
    requires AddsUnder(f, n, rows, started, q) && AddsKids(f, n, started, out, q, list, |list|, shift)
    ensures AddsUnder(f, n, rows, out, q)
  {
    hide PathTo;
    forall k: nat, p | |rows| <= k < |out| && PathTo(f, p, NodeOf(n, out[k])) ensures q <= p {
      if k < |started| { assert out[k] == started[k]; }
    }
  }

  lemma {:induction false} HangsLater(f: Parents, n: nat, rows: seq<Row>, out: seq<Row>, parent: Option<nat>, q: seq<nat>)
    requires Hangs(f, n, rows, parent, q) && rows <= out
    ensures Hangs(f, n, out, parent, q)
  {
    if parent.Some? {
      var m: nat :| m < |rows| && NodeOf(n, rows[m]) == parent.value;
      assert out[m] == rows[m];
    }
  }

  /** When the first k children are done, the next may come: it follows all rows, and its parent has its row. */
  lemma {:induction false} NextChild(f: Parents, n: nat, rows: seq<Row>, out: seq<Row>, parent: Option<nat>, q: seq<nat>,
                                     list: seq<nat>, k: nat, shift: nat, x: nat)
    requires AddsKids(f, n, rows, out, q, list, k, shift) && BeforeKids(f, n, rows, q, list, shift) && Ascends(list)
    requires Hangs(f, n, rows, parent, q) && k < |list| && x == shift + list[k] && x < |f| && f[x] == parent
    ensures RowsBefore(f, n, out, q + [x]) && PathTo(f, q + [x], x)
    ensures f[x].Some? ==> HasRow(n, out, |out|, f[x].value)
  {
    assert rows <= out;
    hide AddsKids, BeforeKids, Ascends, Hangs, RowsBefore, PathTo, HasRow;
    KidsNext(f, n, rows, out, q, list, k, shift);
    HangsLater(f, n, rows, out, parent, q);
    ChildPath(f, n, out, parent, q, x);
  }

  lemma {:induction false} NoRows(f: Parents, n: nat, list: seq<nat>)
    ensures InTreeOrder(f, n, []) && BeforeKids(f, n, [], [], list, 0) && Hangs(f, n, [], None, [])
    ensures forall x: nat :: RowsBefore(f, n, [], [x])
  {
  }

  /** Below no node, the candidate roots come after all baseline trees. */
  lemma {:induction false} RootsNext(f: Parents, n: nat, out: seq<Row>, kids: seq<nat>, list: seq<nat>)
    requires AddsKids(f, n, [], out, [], kids, |kids|, 0) && (forall l :: 0 <= l < |kids| ==> kids[l] < n)
    ensures BeforeKids(f, n, out, [], list, n)
  {
    var none: seq<Row>, root: seq<nat> := [], [];
    forall x: nat ensures RowsBefore(f, n, none, root + [x]) {}
    PartnerNext(f, n, none, out, root, kids, list);
  }

  // ---- what the order means ----

  /** A row that is not a root has its parent's row as the nearest earlier row that is less deep. */
  lemma {:induction false} ParentIsNearest(f: Parents, n: nat, rows: seq<Row>, k: nat) returns (m: nat)
    requires InTreeOrder(f, n, rows) && k < |rows|
    requires NodeOf(n, rows[k]) < |f| && f[NodeOf(n, rows[k])].Some?
    ensures m < k && NodeOf(n, rows[m]) == f[NodeOf(n, rows[k])].value && rows[m].depth + 1 == rows[k].depth
    ensures forall l: nat :: m < l < k ==> rows[l].depth >= rows[k].depth
  {
    assert PlacedAt(f, n, rows, k);
    var x := NodeOf(n, rows[k]);
    m :| m < k && m < |rows| && NodeOf(n, rows[m]) == f[x].value;
    assert PlacedAt(f, n, rows, m);
    var p :| PathTo(f, p, x) && |p| == rows[k].depth + 1;
    LastStep(f, p, x);
    var up := p[..|p| - 1];
    var q :| PathTo(f, q, f[x].value) && |q| == rows[m].depth + 1;
    PathUnique(f, up, q, f[x].value);
    assert p == up + [x];
    forall l: nat | m < l < k ensures rows[l].depth >= rows[k].depth {
      assert PlacedAt(f, n, rows, l);
      var r :| PathTo(f, r, NodeOf(n, rows[l])) && |r| == rows[l].depth + 1;
      assert PathsOrdered(f, NodeOf(n, rows[m]), NodeOf(n, rows[l])) && PathsOrdered(f, NodeOf(n, rows[l]), x);
      Between(up, r, x);
    }
  }

  /** Rows with one parent, or none, come in the order of their nodes. */
  lemma {:induction false} SiblingsInOrder(f: Parents, n: nat, rows: seq<Row>, k: nat, l: nat)
    requires InTreeOrder(f, n, rows) && k < l < |rows|
    requires var x, y := NodeOf(n, rows[k]), NodeOf(n, rows[l]); x < |f| && y < |f| && f[x] == f[y]
    ensures NodeOf(n, rows[k]) < NodeOf(n, rows[l])
  {
    var x, y := NodeOf(n, rows[k]), NodeOf(n, rows[l]);
    assert PlacedAt(f, n, rows, k) && PlacedAt(f, n, rows, l);
    var p :| PathTo(f, p, x);
    var q :| PathTo(f, q, y);
    assert PathsOrdered(f, x, y);
    LastStep(f, p, x);
    LastStep(f, q, y);
    hide PathTo, Precedes;
    if f[x].Some? {
      PathUnique(f, p[..|p| - 1], q[..|q| - 1], f[x].value);
      assert p == p[..|p| - 1] + [x] && q == p[..|p| - 1] + [y];
      SiblingsAscend(p[..|p| - 1], x, y);
    } else {
      assert p == [] + [x] && q == [] + [y];
      SiblingsAscend([], x, y);
    }
  }

  lemma {:induction false} RootDepth(f: Parents, n: nat, rows: seq<Row>, k: nat)
    requires InTreeOrder(f, n, rows) && k < |rows|
    ensures NodeOf(n, rows[k]) < |f| && (f[NodeOf(n, rows[k])].None? <==> rows[k].depth == 0)
  {
    assert PlacedAt(f, n, rows, k);
    var x := NodeOf(n, rows[k]);
    var p :| PathTo(f, p, x) && |p| == rows[k].depth + 1;
    LastStep(f, p, x);
  }
}
