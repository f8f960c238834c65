/** What the rows of a session comparison show as a whole. */
module SessionCoverage {
  import opened Basics
  import opened Forest
  import opened SpanMatching
  import opened SpanRows
  import opened RowOrder
  import opened SessionCompare

  function UnmatchedIn(cm: seq<Match>, cs: set<nat>): set<nat>
  {
    set y | y in cs && (y < |cm| ==> cm[y].matched.None?)
  }

  /** A row for each baseline span shown and one for each unmatched candidate span shown. */
  lemma {:induction false} RowsTotal(b: seq<Span>, c: seq<Span>, bm: seq<Match>, cm: seq<Match>,
                                     rows: seq<Row>, bs: set<nat>, cs: set<nat>)
    requires Consistent(b, c, bm, cm) && AllFit(b, c, bm, cm, rows) && Adds([], rows, bs, cs)
    ensures |rows| == |bs| + |UnmatchedIn(cm, cs)|
  {
    if rows == [] {
      assert forall x :: x in bs ==> BaselineHits(rows, x) == 1;
      assert forall y :: y in cs ==> CandidateHits(rows, y) == 1;
      assert bs == {} && cs == {} && UnmatchedIn(cm, cs) == {};
    } else {
      var n := |rows| - 1;
      var last := rows[n];
      assert Fits(b, c, bm, cm, last);
      var bs' := if last.baseline.Some? then bs - {last.baseline.value} else bs;
      var cs' := if last.candidate.Some? then cs - {last.candidate.value} else cs;
      LastRow(rows, bs, cs);
      assert AllFit(b, c, bm, cm, rows[..n]);
      RowsTotal(b, c, bm, cm, rows[..n], bs', cs');
      if last.baseline.Some? {
        assert UnmatchedIn(cm, cs') == UnmatchedIn(cm, cs);
      } else {
        assert UnmatchedIn(cm, cs') == UnmatchedIn(cm, cs) - {last.candidate.value};
      }
    }
  }

  lemma {:induction false} LastRow(rows: seq<Row>, bs: set<nat>, cs: set<nat>)
    requires rows != [] && Adds([], rows, bs, cs)
    ensures var last := rows[|rows| - 1];
            var bs' := if last.baseline.Some? then bs - {last.baseline.value} else bs;
            var cs' := if last.candidate.Some? then cs - {last.candidate.value} else cs;
            && (last.baseline.Some? ==> last.baseline.value in bs)
            && (last.candidate.Some? ==> last.candidate.value in cs)
            && Adds([], rows[..|rows| - 1], bs', cs')
  {
    var last := rows[|rows| - 1];
    if last.baseline.Some? {
      assert BaselineHits(rows, last.baseline.value) > 0;
    }
    if last.candidate.Some? {
      assert CandidateHits(rows, last.candidate.value) > 0;
    }
  }

  ghost predicate AllRooted(s: seq<Span>)
  {
    forall i: nat :: i < |s| ==> Rooted(ParentsOf(s), i)
  }

  /** Where a span's path meets its last matched span: its place in the cut forest. */
  lemma {:induction false} CutPath(c: seq<Span>, cm: seq<Match>, p: seq<nat>, y: nat) returns (q: seq<nat>)
    requires |cm| == |c| && PathTo(ParentsOf(c), p, y)
    ensures PathTo(CutOf(c, cm), q, y) && q[0] in p
  {
    var n := |p| - 1;
    if cm[y].matched.Some? || n == 0 {
      q := [y];
    } else {
      PrefixPath(ParentsOf(c), p, n - 1);
      q := CutPath(c, cm, p[..n], p[n - 1]);
      ghost var r := q + [y];
      assert r[0] == q[0];
      assert IsPath(CutOf(c, cm), r);
      q := r;
    }
  }

  /** The only path to a root is the root. */
  lemma {:induction false} RootPath(f: Parents, q: seq<nat>, j: nat)
    requires j < |f| && f[j].None? && PathTo(f, q, j)
    ensures q == [j]
  {
    LastStep(f, q, j);
    hide PathTo;
    assert |q| == 1;
  }

  lemma {:induction false} LooseRoot(f: Parents, flags: seq<bool>, j: nat)
    requires |flags| == |f| && j < |f| && f[j].None? && j in Loose(f, flags)
    ensures !flags[j]
  {
    var q :| PathTo(f, q, j) && !flags[q[0]];
    RootPath(f, q, j);
  }

  lemma {:induction false} HomedRoot(f: Parents, partner: seq<Option<nat>>, m: set<nat>, j: nat)
    requires |partner| == |f| && j < |f| && f[j].None? && j in Homed(f, partner, m)
    ensures partner[j].Some? && partner[j].value in m
  {
    var q :| PathTo(f, q, j) && partner[q[0]].Some? && partner[q[0]].value in m;
    RootPath(f, q, j);
  }

  /** A matched candidate span that is covered hangs under a rooted baseline span. */
  lemma {:induction false} CoveredPartner(b: seq<Span>, c: seq<Span>, bm: seq<Match>, cm: seq<Match>, j: nat)
    requires Consistent(b, c, bm, cm) && j < |c| && cm[j].matched.Some? && j in Covered(b, c, cm)
    ensures Rooted(ParentsOf(b), cm[j].matched.value)
  {
    assert |cm| == |c|;
    hide Consistent, Loose, Homed, Rooted;
    var f, partner := CutOf(c, cm), PartnersOf(cm);
    if j in Loose(f, MatchedFlags(partner)) {
      LooseRoot(f, MatchedFlags(partner), j);
    } else {
      HomedRoot(f, partner, RootedNodes(ParentsOf(b)), j);
    }
  }

  lemma {:induction false} UnrootedPartner(b: seq<Span>, c: seq<Span>, bm: seq<Match>, cm: seq<Match>, j: nat)
    requires Consistent(b, c, bm, cm) && j < |c| && cm[j].matched.Some? && !Rooted(ParentsOf(b), cm[j].matched.value)
    ensures j !in Covered(b, c, cm)
  {
    if j in Covered(b, c, cm) { CoveredPartner(b, c, bm, cm, j); }
  }

  lemma {:induction false} RootedCovered(b: seq<Span>, c: seq<Span>, bm: seq<Match>, cm: seq<Match>, y: nat)
    requires Consistent(b, c, bm, cm) && y < |c| && Rooted(ParentsOf(c), y)
    requires forall j: nat :: j < |c| && Rooted(ParentsOf(c), j) && cm[j].matched.Some? ==>
               Rooted(ParentsOf(b), cm[j].matched.value)
    ensures y in Covered(b, c, cm)
  {
    var f, partner := CutOf(c, cm), PartnersOf(cm);
    var p :| PathTo(ParentsOf(c), p, y);
    var q := CutPath(c, cm, p, y);
    var k :| 0 <= k < |p| && p[k] == q[0];
    PrefixPath(ParentsOf(c), p, k);
    hide IsPath;
    assert Rooted(ParentsOf(c), q[0]);
    if cm[q[0]].matched.Some? {
      assert IsHomed(f, partner, RootedNodes(ParentsOf(b)), y);
    } else {
      assert IsLoose(f, MatchedFlags(partner), y);
    }
  }

  /** Every rooted candidate span gets its row exactly when every rooted candidate span that
      is matched has a rooted partner. */
  lemma {:induction false} CoveredIff(b: seq<Span>, c: seq<Span>, bm: seq<Match>, cm: seq<Match>)
    requires Consistent(b, c, bm, cm)
    ensures (forall y: nat :: y < |c| && Rooted(ParentsOf(c), y) ==> y in Covered(b, c, cm))
            <==> (forall j: nat :: j < |c| && Rooted(ParentsOf(c), j) && cm[j].matched.Some? ==>
                    Rooted(ParentsOf(b), cm[j].matched.value))
  {
    hide Rooted, Covered;
    if forall y: nat :: y < |c| && Rooted(ParentsOf(c), y) ==> y in Covered(b, c, cm) {
      forall j: nat | j < |c| && Rooted(ParentsOf(c), j) && cm[j].matched.Some?
        ensures Rooted(ParentsOf(b), cm[j].matched.value)
      {
        CoveredPartner(b, c, bm, cm, j);
      }
    }
    if forall j: nat :: j < |c| && Rooted(ParentsOf(c), j) && cm[j].matched.Some? ==>
         Rooted(ParentsOf(b), cm[j].matched.value) {
      forall y: nat | y < |c| && Rooted(ParentsOf(c), y)
        ensures y in Covered(b, c, cm)
      {
        RootedCovered(b, c, bm, cm, y);
      }
    }
  }

  /** Every rooted candidate span that has its equal-id span in the baseline finds it rooted there. */
  ghost predicate StableRooted(b: seq<Span>, c: seq<Span>)
  {
    forall i: nat, j: nat :: (i, j) in Stable(b, c) && Rooted(ParentsOf(c), j) ==> Rooted(ParentsOf(b), i)
  }

  /** Heuristic pairs lead up to two roots or to an equal-id pair, so they keep roots together. */
  lemma {:induction false} RootedPartner(b: seq<Span>, c: seq<Span>, r: Pairs, p: seq<nat>, i: nat, j: nat)
    requires StableRooted(b, c) && Supported(b, c, r) && (i, j) in r && i < |b| && PathTo(ParentsOf(c), p, j)
    ensures Rooted(ParentsOf(b), i)
    decreases |p|
  {
    hide IsPath, IdMatched, Ordinal;
    if (i, j) in Stable(b, c) {
      assert Rooted(ParentsOf(c), j);
    } else {
      assert Enabled(b, c, r, (i, j).0, (i, j).1);
      LastStep(ParentsOf(c), p, j);
      if Parent(b, i).Some? {
        var k := Parent(b, i).value;
        RootedPartner(b, c, r, p[..|p| - 1], k, Parent(c, j).value);
        var q :| PathTo(ParentsOf(b), q, k);
        ExtendPath(ParentsOf(b), q, k, i);
      } else {
        RootIsRooted(ParentsOf(b), i);
      }
    }
  }

  lemma {:induction false} PartnersRooted(b: seq<Span>, c: seq<Span>, bm: seq<Match>, cm: seq<Match>)
    requires Consistent(b, c, bm, cm) && IsMatching(b, c, PairsOf(bm))
    ensures StableRooted(b, c) <==>
            forall j: nat :: j < |c| && Rooted(ParentsOf(c), j) && cm[j].matched.Some? ==> Rooted(ParentsOf(b), cm[j].matched.value)
  {
    MatchingSupported(b, c, PairsOf(bm));
    hide IsMatching, Rooted, Supported, Stable;
    if StableRooted(b, c) {
      forall j: nat | j < |c| && Rooted(ParentsOf(c), j) && cm[j].matched.Some?
        ensures Rooted(ParentsOf(b), cm[j].matched.value)
      {
        var p := PathOf(ParentsOf(c), j);
        RootedPartner(b, c, PairsOf(bm), p, cm[j].matched.value, j);
      }
    }
    if forall j: nat :: j < |c| && Rooted(ParentsOf(c), j) && cm[j].matched.Some? ==> Rooted(ParentsOf(b), cm[j].matched.value) {
      forall i: nat, j: nat | (i, j) in Stable(b, c) && Rooted(ParentsOf(c), j)
        ensures Rooted(ParentsOf(b), i)
      {
        assert (i, j) in PairsOf(bm);
      }
    }
  }

  lemma {:induction false} PathOf(f: Parents, x: nat) returns (p: seq<nat>)
    requires Rooted(f, x)
    ensures PathTo(f, p, x)
  {
    p :| PathTo(f, p, x);
  }

  /** So whether every rooted candidate span gets its row can be read off the two traces. */
  lemma {:induction false} CoveredByInput(b: seq<Span>, c: seq<Span>, bm: seq<Match>, cm: seq<Match>)
    requires Consistent(b, c, bm, cm) && IsMatching(b, c, PairsOf(bm))
    ensures (forall y: nat :: y < |c| && Rooted(ParentsOf(c), y) ==> y in Covered(b, c, cm)) <==> StableRooted(b, c)
  {
    hide IsMatching, Consistent, Covered, Rooted;
    PartnersRooted(b, c, bm, cm);
    CoveredIff(b, c, bm, cm);
  }

  // ---- rows as a tree ----

  /** parent is the row that row hangs below: that of a baseline span's parent, or the one that shows an
      unmatched candidate span's parent, matched or not. */
  ghost predicate IsParentRow(b: seq<Span>, c: seq<Span>, parent: Row, row: Row)
  {
    match row.baseline
    case Some(i) => i < |b| && Parent(b, i).Some? && parent.baseline == Parent(b, i)
    case None => row.candidate.Some? && row.candidate.value < |c| && Parent(c, row.candidate.value).Some?
                 && parent.candidate == Parent(c, row.candidate.value)
  }

  predicate IsRootRow(b: seq<Span>, c: seq<Span>, row: Row)
  {
    match row.baseline
    case Some(i) => i < |b| && Parent(b, i).None?
    case None => row.candidate.Some? && row.candidate.value < |c| && Parent(c, row.candidate.value).None?
  }

  /** Baseline spans come first, and spans of one trace in its order. */
  predicate Earlier(x: Row, y: Row)
  {
    if x.baseline.Some? then y.baseline.Some? ==> x.baseline.value < y.baseline.value
    else y.baseline.None? && x.candidate.Some? && y.candidate.Some? && x.candidate.value < y.candidate.value
  }

  /** The m-th row is the parent of the k-th, one less deep, and all rows between them are deeper. */
  ghost predicate HangsAt(b: seq<Span>, c: seq<Span>, rows: seq<Row>, m: nat, k: nat)
    requires m < k < |rows|
  {
    && IsParentRow(b, c, rows[m], rows[k]) && rows[m].depth + 1 == rows[k].depth
    && forall l: nat :: m < l < k ==> rows[l].depth > rows[m].depth
  }

  ghost predicate Siblings(b: seq<Span>, c: seq<Span>, rows: seq<Row>, x: Row, y: Row)
  {
    || (IsRootRow(b, c, x) && IsRootRow(b, c, y))
    || exists m: nat :: m < |rows| && IsParentRow(b, c, rows[m], x) && IsParentRow(b, c, rows[m], y)
  }

  ghost predicate RootOrHangs(b: seq<Span>, c: seq<Span>, rows: seq<Row>, k: nat)
    requires k < |rows|
  {
    if IsRootRow(b, c, rows[k]) then rows[k].depth == 0 else exists m: nat :: m < k && HangsAt(b, c, rows, m, k)
  }

  /** The rows are the walk of a tree: a root at depth 0, any other row below the nearest earlier row that
      is less deep, which is its parent's, and siblings in their order. */
  ghost predicate TreeOrder(b: seq<Span>, c: seq<Span>, rows: seq<Row>)
  {
    && (forall k: nat :: k < |rows| ==> RootOrHangs(b, c, rows, k))
    && (forall k: nat, l: nat :: k < l < |rows| && Siblings(b, c, rows, rows[k], rows[l]) ==> Earlier(rows[k], rows[l]))
  }

  /** What the row's node hangs below, read off the row. */
  lemma {:induction false} NodeParent(b: seq<Span>, c: seq<Span>, bm: seq<Match>, cm: seq<Match>, row: Row)
    requires Consistent(b, c, bm, cm) && Fits(b, c, bm, cm, row)
    ensures var f := RowForest(b, c, cm); var x := NodeOf(|b|, row);
            x < |f| && f[x] == if row.baseline.Some? then Parent(b, row.baseline.value) else RowNode(b, cm, Parent(c, row.candidate.value))
    ensures IsRootRow(b, c, row) <==> RowForest(b, c, cm)[NodeOf(|b|, row)].None?
  {
    TableSizes(b, c, bm, cm);
    RowShape(b, c, bm, cm, row);
    hide Consistent, Fits, RowForest;
    if row.baseline.Some? {
      BaselineNode(b, c, cm, row.baseline.value);
    } else {
      CandidateNode(b, c, cm, row.candidate.value);
    }
  }

  lemma {:induction false} RowShape(b: seq<Span>, c: seq<Span>, bm: seq<Match>, cm: seq<Match>, row: Row)
    requires Consistent(b, c, bm, cm) && Fits(b, c, bm, cm, row)
    ensures match row.baseline
            case Some(i) => i < |b| && row.candidate == bm[i].matched
            case None => row.candidate.Some? && row.candidate.value < |c| && cm[row.candidate.value].matched.None?
  {
  }

  lemma {:induction false} BothTables(b: seq<Span>, c: seq<Span>, bm: seq<Match>, cm: seq<Match>, i: nat, q: nat)
    requires Consistent(b, c, bm, cm) && i < |b| && q < |c|
    ensures bm[i].matched == Some(q) <==> cm[q].matched == Some(i)
  {
  }

  /** The row that shows candidate span q is the one whose node its children hang below. */
  lemma {:induction false} ShowsNode(b: seq<Span>, c: seq<Span>, bm: seq<Match>, cm: seq<Match>, parent: Row, q: nat)
    requires Consistent(b, c, bm, cm) && Fits(b, c, bm, cm, parent) && q < |c|
    ensures |cm| == |c| && (parent.candidate == Some(q) <==> RowNode(b, cm, Some(q)) == Some(NodeOf(|b|, parent)))
  {
    hide Consistent, Fits, PathTo, BaseDepth, CutOf;
    TableSizes(b, c, bm, cm);
    RowShape(b, c, bm, cm, parent);
    MatchedNode(b, c, bm, cm, q);
    if parent.baseline.Some? { BothTables(b, c, bm, cm, parent.baseline.value, q); }
  }

  lemma {:induction false} TableSizes(b: seq<Span>, c: seq<Span>, bm: seq<Match>, cm: seq<Match>)
    requires Consistent(b, c, bm, cm)
    ensures |bm| == |b| && |cm| == |c|
  {
  }

  lemma {:induction false} MatchedNode(b: seq<Span>, c: seq<Span>, bm: seq<Match>, cm: seq<Match>, q: nat)
    requires Consistent(b, c, bm, cm) && q < |c|
    ensures |cm| == |c| && (cm[q].matched.Some? ==> cm[q].matched.value < |b|)
  {
  }

  lemma {:induction false} ParentRows(b: seq<Span>, c: seq<Span>, bm: seq<Match>, cm: seq<Match>, parent: Row, row: Row)
    requires Consistent(b, c, bm, cm) && Fits(b, c, bm, cm, parent) && Fits(b, c, bm, cm, row)
    ensures |cm| == |c| && NodeOf(|b|, row) < |RowForest(b, c, cm)|
    ensures IsParentRow(b, c, parent, row) <==> RowForest(b, c, cm)[NodeOf(|b|, row)] == Some(NodeOf(|b|, parent))
  {
    TableSizes(b, c, bm, cm);
    hide Consistent, Fits;
    NodeParent(b, c, bm, cm, row);
    RowShape(b, c, bm, cm, row);
    RowShape(b, c, bm, cm, parent);
    if row.baseline.None? && Parent(c, row.candidate.value).Some? {
      ShowsNode(b, c, bm, cm, parent, Parent(c, row.candidate.value).value);
    }
  }

  lemma {:induction false} RowHangs(b: seq<Span>, c: seq<Span>, bm: seq<Match>, cm: seq<Match>, rows: seq<Row>, k: nat)
    requires Consistent(b, c, bm, cm) && AllFit(b, c, bm, cm, rows) && InTreeOrder(RowForest(b, c, cm), |b|, rows) && k < |rows|
    ensures RootOrHangs(b, c, rows, k)
  {
    var f := RowForest(b, c, cm);
    hide Consistent, Fits, InTreeOrder, IsParentRow, IsRootRow;
    assert Fits(b, c, bm, cm, rows[k]) by { assert rows[k] in rows; }
    NodeParent(b, c, bm, cm, rows[k]);
    RootDepth(f, |b|, rows, k);
    if !IsRootRow(b, c, rows[k]) {
      var m := ParentIsNearest(f, |b|, rows, k);
      assert Fits(b, c, bm, cm, rows[m]) by { assert rows[m] in rows; }
      ParentRows(b, c, bm, cm, rows[m], rows[k]);
      assert HangsAt(b, c, rows, m, k);
    }
  }

  lemma {:induction false} RowsEarlier(b: seq<Span>, c: seq<Span>, bm: seq<Match>, cm: seq<Match>, rows: seq<Row>, k: nat, l: nat)
    requires Consistent(b, c, bm, cm) && AllFit(b, c, bm, cm, rows) && InTreeOrder(RowForest(b, c, cm), |b|, rows)
    requires k < l < |rows| && Siblings(b, c, rows, rows[k], rows[l])
    ensures Earlier(rows[k], rows[l])
  {
    assert Fits(b, c, bm, cm, rows[k]) by { assert rows[k] in rows; }
    assert Fits(b, c, bm, cm, rows[l]) by { assert rows[l] in rows; }
    NodeParent(b, c, bm, cm, rows[k]);
    NodeParent(b, c, bm, cm, rows[l]);
    hide InTreeOrder, IsParentRow, IsRootRow, Consistent, PathTo, BaseDepth;
    if m: nat :| m < |rows| && IsParentRow(b, c, rows[m], rows[k]) && IsParentRow(b, c, rows[m], rows[l]) {
      assert Fits(b, c, bm, cm, rows[m]) by { assert rows[m] in rows; }
      ParentRows(b, c, bm, cm, rows[m], rows[k]);
      ParentRows(b, c, bm, cm, rows[m], rows[l]);
    }
    SiblingsInOrder(RowForest(b, c, cm), |b|, rows, k, l);
  }

  lemma {:induction false} RowsAreTree(b: seq<Span>, c: seq<Span>, bm: seq<Match>, cm: seq<Match>, rows: seq<Row>)
    requires Consistent(b, c, bm, cm) && AllFit(b, c, bm, cm, rows) && InTreeOrder(RowForest(b, c, cm), |b|, rows)
    ensures TreeOrder(b, c, rows)
  {
    hide Consistent, AllFit, InTreeOrder, RootOrHangs, Siblings, Earlier;
    forall k: nat | k < |rows| ensures RootOrHangs(b, c, rows, k) {
      RowHangs(b, c, bm, cm, rows, k);
    }
    forall k: nat, l: nat | k < l < |rows| && Siblings(b, c, rows, rows[k], rows[l]) ensures Earlier(rows[k], rows[l]) {
      RowsEarlier(b, c, bm, cm, rows, k, l);
    }
  }

  /** Each row shows the pair of its baseline span, or a candidate span that has none. */
  ghost predicate ShowsPairs(r: Pairs, rows: seq<Row>)
  {
    forall row :: row in rows ==>
      match row.baseline
      case Some(i) => (if row.candidate.Some? then (i, row.candidate.value) in r else forall j: nat :: (i, j) !in r)
      case None => row.candidate.Some? && forall i: nat :: (i, row.candidate.value) !in r
  }

  lemma {:induction false} RowsShowPairs(b: seq<Span>, c: seq<Span>, bm: seq<Match>, cm: seq<Match>, rows: seq<Row>)
    requires Consistent(b, c, bm, cm) && AllFit(b, c, bm, cm, rows)
    ensures ShowsPairs(PairsOf(bm), rows)
  {
    hide PathTo, BaseDepth;
    forall row | row in rows
      ensures match row.baseline
              case Some(i) => (if row.candidate.Some? then (i, row.candidate.value) in PairsOf(bm) else forall j: nat :: (i, j) !in PairsOf(bm))
              case None => row.candidate.Some? && forall i: nat :: (i, row.candidate.value) !in PairsOf(bm)
    {
      assert Fits(b, c, bm, cm, row);
    }
  }

  /** The comparison of two traces. Rooted baseline spans have one row each, no span has two, and all
      rooted candidate spans have one exactly if rooted equal-id spans meet rooted ones. The rows are the
      walk of a tree, and show the pairs of the matching. */
  method CompareSpans(b: seq<Span>, c: seq<Span>) returns (rows: seq<Row>, summary: Summary)
    requires ValidSpans(b) && ValidSpans(c)
    ensures forall x: nat :: x < |b| ==> BaselineHits(rows, x) == if Rooted(ParentsOf(b), x) then 1 else 0
    ensures forall y: nat :: y < |c| ==> CandidateHits(rows, y) <= 1
    ensures (forall y: nat :: y < |c| && Rooted(ParentsOf(c), y) ==> CandidateHits(rows, y) == 1) <==> StableRooted(b, c)
    ensures TreeOrder(b, c, rows)
    ensures exists r :: IsMatching(b, c, r)
    ensures forall r :: IsMatching(b, c, r) ==>
              ShowsPairs(r, rows) && summary.matchedSpans == |r| && (AllRooted(b) && AllRooted(c) ==> |rows| == |b| + |c| - |r|)
  {
    hide ValidSpans, IsMatching, StableRooted, Covered, Rooted, Consistent, TreeOrder, ShowsPairs, InTreeOrder, AllFit;
    var builder := new SessionComparisonBuilder(b, c);
    rows, summary := builder.Build();
    CoveredByInput(b, c, builder.bm, builder.cm);
    RowsAreTree(b, c, builder.bm, builder.cm, rows);
    RowsShowPairs(b, c, builder.bm, builder.cm, rows);
    if AllRooted(b) && AllRooted(c) { AcyclicComplete(b, c, builder.bm, builder.cm, rows); }
    forall r | IsMatching(b, c, r) ensures r == PairsOf(builder.bm) {
      MatchingUnique(b, c, r, PairsOf(builder.bm));
    }
  }

  lemma {:induction false} UnmatchedNext(cm: seq<Match>, n: nat)
    requires n + 1 == |cm|
    ensures UnmatchedIn(cm, Nodes(n + 1)) == UnmatchedIn(cm[..n], Nodes(n)) + (if cm[n].matched.None? then {n} else {})
    ensures n !in UnmatchedIn(cm[..n], Nodes(n))
  {
  }

  lemma {:induction false} UnmatchedSize(cm: seq<Match>)
    ensures |UnmatchedIn(cm, Nodes(|cm|))| + MatchedCount(cm) == |cm|
  {
    if cm == [] {
      assert UnmatchedIn(cm, Nodes(0)) == {};
    } else {
      hide UnmatchedIn, Nodes;
      UnmatchedSize(cm[..|cm| - 1]);
      UnmatchedNext(cm, |cm| - 1);
    }
  }

  /** With acyclic parents no span is missed: every span of both traces has exactly one row,
      and there are baseline + candidate - matched rows. */
  lemma {:induction false} AcyclicComplete(b: seq<Span>, c: seq<Span>, bm: seq<Match>, cm: seq<Match>, rows: seq<Row>)
    requires Consistent(b, c, bm, cm) && AllFit(b, c, bm, cm, rows)
    requires Adds([], rows, RootedNodes(ParentsOf(b)), Covered(b, c, cm))
    requires AllRooted(b) && AllRooted(c)
    ensures forall x: nat :: x < |b| ==> BaselineHits(rows, x) == 1
    ensures forall y: nat :: y < |c| ==> CandidateHits(rows, y) == 1
    ensures |rows| == |b| + |c| - |PairsOf(bm)|
  {
    CoveredIff(b, c, bm, cm);
    assert RootedNodes(ParentsOf(b)) == Nodes(|b|);
    assert Covered(b, c, cm) == Nodes(|c|);
    RowsTotal(b, c, bm, cm, rows, Nodes(|b|), Nodes(|c|));
    UnmatchedSize(cm);
    MatchedCounts(b, c, bm, cm);
  }

  /** A baseline of two spans that are each other's parent, and a candidate root with the id of one. */
  const CycleBaseline: seq<Span> := [Span("x", Some("y"), "n", "k"), Span("y", Some("x"), "n", "k")]
  const CycleCandidate: seq<Span> := [Span("x", None, "n", "k")]

  lemma {:induction false} CycleUnrooted()
    ensures ValidSpans(CycleBaseline) && ValidSpans(CycleCandidate)
    ensures !Rooted(ParentsOf(CycleBaseline), 0) && Rooted(ParentsOf(CycleCandidate), 0)
    ensures Stable(CycleBaseline, CycleCandidate) == {(0, 0)} && !StableRooted(CycleBaseline, CycleCandidate)
  {
    var b, c := CycleBaseline, CycleCandidate;
    assert "x" != "y" by { assert "x"[0] != "y"[0]; }
    assert Parent(b, 0) == Some(1) && Parent(b, 1) == Some(0);
    var f := ParentsOf(b);
    assert f[0].Some? && f[1].Some?;
    assert forall p, x :: !PathTo(f, p, x);
    RootIsRooted(ParentsOf(c), 0);
    assert Stable(b, c) == {(0, 0)};
    assert (0, 0) in Stable(b, c) && !Rooted(f, 0);
  }

  lemma {:induction false} CycleMatching()
    ensures IsMatching(CycleBaseline, CycleCandidate, {(0, 0)})
  {
    var b, c := CycleBaseline, CycleCandidate;
    CycleUnrooted();
    assert IdMatched(c, 0, b) by { assert b[0].id == c[0].id; }
    hide Stable, SameScope, Ordinal;
    assert Closed(b, c, {(0, 0)});
  }

  /** Coverage of rooted candidate spans does fail: a root matched by id to a baseline span on
      a parent cycle has no row in the tables that the matching makes. */
  lemma {:induction false} CycleHidesMatch()
    ensures var b, c := CycleBaseline, CycleCandidate;
            var bm := [MatchOf(b, c, 0, 0, 0), UNMATCHED];
            var cm := [MatchOf(b, c, 0, 0, 0)];
            && ValidSpans(b) && ValidSpans(c) && Consistent(b, c, bm, cm) && PairsOf(bm) == Stable(b, c)
            && IsMatching(b, c, PairsOf(bm)) && !StableRooted(b, c)
            && Rooted(ParentsOf(c), 0) && 0 !in Covered(b, c, cm)
  {
    var b, c := CycleBaseline, CycleCandidate;
    var bm := [MatchOf(b, c, 0, 0, 0), UNMATCHED];
    var cm := [MatchOf(b, c, 0, 0, 0)];
    CycleUnrooted();
    CycleMatching();
    assert PairsOf(bm) == {(0, 0)};
    hide Stable, IsMatching, Rooted, StableRooted, ValidSpans, Covered;
    UnrootedPartner(b, c, bm, cm, 0);
  }

  /** And so the comparison leaves it out. */
  method CompareCycle() returns (rows: seq<Row>)
    ensures CandidateHits(rows, 0) == 0
  {
    CycleUnrooted();
    hide ValidSpans, IsMatching, StableRooted, Rooted, ParentsOf, Stable, CandidateHits;
    var summary;
    rows, summary := CompareSpans(CycleBaseline, CycleCandidate);
  }
}
