/** Coverage of a session comparison's rows. The baseline spans form a forest bf. The candidate
    spans form a forest cf in which a matched span is cut off from its parent, because its row
    is emitted with its baseline partner; partner[j] is that baseline span. */
module SpanRows {
  import opened Basics
  import opened Forest

  datatype Row = Row(baseline: Option<nat>, candidate: Option<nat>, depth: nat)

  function BaselineHits(rows: seq<Row>, x: nat): nat
  {
    if rows == [] then 0
    else BaselineHits(rows[..|rows| - 1], x) + (if rows[|rows| - 1].baseline == Some(x) then 1 else 0)
  }

  function CandidateHits(rows: seq<Row>, y: nat): nat
  {
    if rows == [] then 0
    else CandidateHits(rows[..|rows| - 1], y) + (if rows[|rows| - 1].candidate == Some(y) then 1 else 0)
  }

  /** out extends rows by one row for each baseline span of bs and each candidate span of cs. */
  ghost predicate Adds(rows: seq<Row>, out: seq<Row>, bs: set<nat>, cs: set<nat>)
  {
    && (forall x: nat :: BaselineHits(out, x) == BaselineHits(rows, x) + (if x in bs then 1 else 0))
    && (forall y: nat :: CandidateHits(out, y) == CandidateHits(rows, y) + (if y in cs then 1 else 0))
  }

  lemma {:induction false} AddsRow(rows: seq<Row>, row: Row)
    ensures Adds(rows, rows + [row],
                 if row.baseline.Some? then {row.baseline.value} else {},
                 if row.candidate.Some? then {row.candidate.value} else {})
  {
    assert (rows + [row])[..|rows|] == rows;
  }

  lemma {:induction false} AddsTrans(a: seq<Row>, b: seq<Row>, c: seq<Row>, bs: set<nat>, cs: set<nat>, bs': set<nat>, cs': set<nat>)
    requires Adds(a, b, bs, cs) && Adds(b, c, bs', cs') && bs !! bs' && cs !! cs'
    ensures Adds(a, c, bs + bs', cs + cs')
  {
  }

  /** A list of exactly the children of s (or of the roots), each once. */
  ghost predicate Kids(f: Parents, list: seq<nat>, s: Option<nat>)
  {
    && (forall k :: 0 <= k < |list| ==> list[k] < |f| && f[list[k]] == s)
    && (forall d: nat :: d < |f| && f[d] == s ==> d in list)
    && (forall k, l :: 0 <= k < l < |list| ==> list[k] != list[l])
  }

  /** The subtrees of the first k spans of a list, without those that are matched. */
  ghost function Grown(f: Parents, matched: seq<bool>, list: seq<nat>, k: nat): (r: set<nat>)
    requires k <= |list| && |matched| == |f|
    requires forall l :: 0 <= l < |list| ==> list[l] < |f|
    ensures forall x :: x in r <==>
              x < |f| && exists l :: 0 <= l < k && !matched[list[l]] && x in Subtree(f, list[l])
  {
    if k == 0 then {}
    else Grown(f, matched, list, k - 1) + (if matched[list[k - 1]] then {} else Subtree(f, list[k - 1]))
  }

  ghost predicate Cut(full: Parents, matched: seq<bool>, f: Parents)
  {
    && |full| == |matched| == |f|
    && forall j :: 0 <= j < |f| ==> f[j] == if matched[j] then None else full[j]
  }

  /** Children that are not matched, in a forest cut at its matched nodes. */
  lemma {:induction false} GrownKids(full: Parents, matched: seq<bool>, f: Parents, list: seq<nat>, s: nat)
    requires Cut(full, matched, f) && Kids(full, list, Some(s)) && s < |f| && Rooted(f, s)
    ensures {s} !! Grown(f, matched, list, |list|)
    ensures Subtree(f, s) == {s} + Grown(f, matched, list, |list|)
  {
    forall x
      ensures x in Grown(f, matched, list, |list|) ==> x != s
    {
      if x in Grown(f, matched, list, |list|) {
        var l :| 0 <= l < |list| && !matched[list[l]] && x in Subtree(f, list[l]);
        NotBelowChild(f, s, list[l]);
      }
    }
    forall x: nat
      ensures x in Subtree(f, s) <==> x in {s} + Grown(f, matched, list, |list|)
    {
      SubtreeSplit(f, s, x);
      if d: nat :| d < |f| && f[d] == Some(s) && x in Subtree(f, d) {
        assert full[d] == Some(s) && !matched[d];
        var l :| 0 <= l < |list| && list[l] == d;
        assert x in Grown(f, matched, list, |list|);
      }
    }
  }

  lemma {:induction false} GrownDisjoint(full: Parents, matched: seq<bool>, f: Parents, list: seq<nat>, s: Option<nat>, k: nat)
    requires Cut(full, matched, f) && Kids(full, list, s) && k < |list| && !matched[list[k]]
    ensures Grown(f, matched, list, k) !! Subtree(f, list[k])
  {
    forall x | x in Grown(f, matched, list, k) && x in Subtree(f, list[k])
      ensures false
    {
      var l :| 0 <= l < k && !matched[list[l]] && x in Subtree(f, list[l]);
      SiblingsDisjoint(f, s, list[l], list[k]);
    }
  }

  /** Nodes whose root in the cut forest is no matched node. */
  ghost predicate IsLoose(f: Parents, matched: seq<bool>, y: nat)
    requires |matched| == |f|
  {
    exists q :: PathTo(f, q, y) && !matched[q[0]]
  }

  ghost function Loose(f: Parents, matched: seq<bool>): set<nat>
    requires |matched| == |f|
  {
    set y: nat | y < |f| && IsLoose(f, matched, y)
  }

  lemma {:induction false} GrownRoots(full: Parents, matched: seq<bool>, f: Parents, list: seq<nat>)
    requires Cut(full, matched, f) && Kids(full, list, None)
    ensures Grown(f, matched, list, |list|) == Loose(f, matched)
  {
    forall y: nat
      ensures y in Grown(f, matched, list, |list|) <==> y in Loose(f, matched)
    {
      if y in Loose(f, matched) {
        var q :| PathTo(f, q, y) && !matched[q[0]];
        assert full[q[0]] == None;
        var l :| 0 <= l < |list| && list[l] == q[0];
        assert q[0] in q;
        assert y in Subtree(f, list[l]);
      }
      if y in Grown(f, matched, list, |list|) {
        var l :| 0 <= l < |list| && !matched[list[l]] && y in Subtree(f, list[l]);
        var q :| PathTo(f, q, y) && list[l] in q;
        var i := Position(f, q, list[l]);
        assert y in Loose(f, matched);
      }
    }
  }

  lemma {:induction false} LooseAll(f: Parents, flags: seq<bool>)
    requires |flags| == |f| && forall i :: 0 <= i < |f| ==> !flags[i]
    ensures Loose(f, flags) == RootedNodes(f)
  {
    forall y: nat
      ensures y in Loose(f, flags) <==> y in RootedNodes(f)
    {
      if y in RootedNodes(f) {
        var q :| PathTo(f, q, y);
        assert !flags[q[0]];
        assert IsLoose(f, flags, y);
      }
    }
  }

  function MatchedFlags(partner: seq<Option<nat>>): (r: seq<bool>)
    ensures |r| == |partner| && forall j :: 0 <= j < |r| ==> r[j] == partner[j].Some?
  {
    seq(|partner|, j requires 0 <= j < |partner| => partner[j].Some?)
  }

  /** The candidate spans whose nearest matched ancestor or self is matched into m. */
  ghost predicate IsHomed(f: Parents, partner: seq<Option<nat>>, m: set<nat>, y: nat)
    requires |partner| == |f|
  {
    exists q :: PathTo(f, q, y) && partner[q[0]].Some? && partner[q[0]].value in m
  }

  ghost function Homed(f: Parents, partner: seq<Option<nat>>, m: set<nat>): set<nat>
    requires |partner| == |f|
  {
    set y: nat | y < |f| && IsHomed(f, partner, m, y)
  }

  lemma {:induction false} HomedUnion(f: Parents, partner: seq<Option<nat>>, m: set<nat>, n: set<nat>)
    requires |partner| == |f|
    ensures Homed(f, partner, m + n) == Homed(f, partner, m) + Homed(f, partner, n)
    ensures m !! n ==> Homed(f, partner, m) !! Homed(f, partner, n)
  {
    if m !! n {
      forall y | y in Homed(f, partner, m) && y in Homed(f, partner, n)
        ensures false
      {
        var p :| PathTo(f, p, y) && partner[p[0]].Some? && partner[p[0]].value in m;
        var q :| PathTo(f, q, y) && partner[q[0]].Some? && partner[q[0]].value in n;
        PathUnique(f, p, q, y);
      }
    }
  }

  lemma {:induction false} HomedNotLoose(f: Parents, partner: seq<Option<nat>>, m: set<nat>)
    requires |partner| == |f|
    ensures Homed(f, partner, m) !! Loose(f, MatchedFlags(partner))
  {
    forall y | y in Homed(f, partner, m) && y in Loose(f, MatchedFlags(partner))
      ensures false
    {
      var p :| PathTo(f, p, y) && partner[p[0]].Some? && partner[p[0]].value in m;
      var q :| PathTo(f, q, y) && !MatchedFlags(partner)[q[0]];
      PathUnique(f, p, q, y);
    }
  }

  /** What hangs under one baseline span: the subtree of its partner, or nothing. */
  lemma {:induction false} HomedSingle(f: Parents, partner: seq<Option<nat>>, i: nat, m: Option<nat>)
    requires |partner| == |f|
    requires forall j :: 0 <= j < |f| ==> (partner[j] == Some(i) <==> m == Some(j))
    requires m.Some? ==> m.value < |f| && f[m.value].None?
    ensures Homed(f, partner, {i}) == if m.Some? then Subtree(f, m.value) else {}
  {
    forall y: nat
      ensures y in Homed(f, partner, {i}) <==> m.Some? && y in Subtree(f, m.value)
    {
      if y in Homed(f, partner, {i}) {
        var q :| PathTo(f, q, y) && partner[q[0]].Some? && partner[q[0]].value in {i};
        assert q[0] in q;
      }
      if m.Some? && y in Subtree(f, m.value) {
        var q :| PathTo(f, q, y) && m.value in q;
        var k := Position(f, q, m.value);
        assert partner[q[0]] == Some(i);
      }
    }
  }
}
