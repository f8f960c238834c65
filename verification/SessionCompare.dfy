/** The builder that pairs the spans of two traces. A span record is named by its position
    in its trace, and the fields a comparison sets on the record are one Match per position. */
module SessionCompare {
  import opened Basics
  import opened SpanMatching
  import opened Forest
  import opened SpanRows
  import opened RowOrder

  datatype MatchSource = StableId | Heuristic

  datatype Match = Match(matched: Option<nat>, pairId: string, source: Option<MatchSource>)

  datatype HeuristicKey = HeuristicKey(scope: string, name: string, kind: string, ordinal: nat)

  const UNMATCHED := Match(None, "", None)

  predicate Indexed(s: seq<Span>, byId: map<string, nat>)
  {
    && (forall i :: 0 <= i < |s| ==> s[i].id in byId && byId[s[i].id] == i)
    && (forall id :: id in byId ==> byId[id] < |s| && s[byId[id]].id == id)
  }

  method IndexById(s: seq<Span>) returns (byId: map<string, nat>)
    requires UniqueIds(s)
    ensures Indexed(s, byId)
  {
    byId := map[];
    for i := 0 to |s|
      invariant forall k :: 0 <= k < i ==> s[k].id in byId && byId[s[k].id] == k
      invariant forall id :: id in byId ==> byId[id] < i && s[byId[id]].id == id
    {
      byId := byId[s[i].id := i];
    }
  }

  /** The scope in which a span may be matched heuristically: none while its parent is
      unmatched, which keeps descendants of unmatched branches out of the pass. */
  function HeuristicScope(s: seq<Span>, byId: map<string, nat>, m: seq<Match>, i: nat): Option<string>
    requires Indexed(s, byId) && |m| == |s| && i < |s|
  {
    if s[i].parent.None? || s[i].parent.value !in byId then Some(ROOT_SCOPE)
    else
      var parent := m[byId[s[i].parent.value]];
      if parent.pairId != "" then Some(parent.pairId) else None
  }

  function Scopes(s: seq<Span>, byId: map<string, nat>, m: seq<Match>): (r: seq<Option<string>>)
    requires Indexed(s, byId) && |m| == |s|
    ensures |r| == |s|
    ensures forall i :: 0 <= i < |s| ==> r[i] == HeuristicScope(s, byId, m, i)
  {
    seq(|s|, i requires 0 <= i < |s| => HeuristicScope(s, byId, m, i))
  }

  /** Scopes identify parents: eligible spans share a scope exactly when they are siblings. */
  predicate ScopesFaithful(s: seq<Span>, scopes: seq<Option<string>>)
    requires |scopes| == |s|
  {
    forall i, k :: 0 <= i < |s| && 0 <= k < |s| && scopes[i].Some? ==>
      (scopes[k] == scopes[i] <==> Parent(s, k) == Parent(s, i))
  }

  function KeyAt(s: seq<Span>, scopes: seq<Option<string>>, i: nat): HeuristicKey
    requires |scopes| == |s| && i < |s| && scopes[i].Some?
  {
    HeuristicKey(scopes[i].value, s[i].name, s[i].kind, Ordinal(s, i))
  }

  function CountAt(ordinals: map<string, nat>, scope: string): nat
  {
    if scope in ordinals then ordinals[scope] else 0
  }

  /** The ordinal counters after n spans. */
  predicate Counted(s: seq<Span>, scopes: seq<Option<string>>, ordinals: map<string, nat>, n: nat)
    requires |scopes| == |s| && n <= |s|
  {
    forall i :: 0 <= i < |s| && scopes[i].Some? ==>
      CountAt(ordinals, scopes[i].value) == SiblingsBefore(s, Parent(s, i), n)
  }

  /** The groups after n spans: a group of one for every span that is unmatched and has a
      scope, under its own key. */
  predicate Grouped(s: seq<Span>, scopes: seq<Option<string>>, m: seq<Match>,
                    groups: map<HeuristicKey, seq<nat>>, n: nat)
    requires |scopes| == |s| == |m| && n <= |s|
  {
    && (forall k :: k in groups ==>
          && |groups[k]| == 1 && groups[k][0] < n && scopes[groups[k][0]].Some?
          && m[groups[k][0]].matched.None? && KeyAt(s, scopes, groups[k][0]) == k)
    && (forall i :: 0 <= i < n && scopes[i].Some? && m[i].matched.None? ==>
          KeyAt(s, scopes, i) in groups && groups[KeyAt(s, scopes, i)] == [i])
  }

  lemma {:induction false} CountStep(s: seq<Span>, scopes: seq<Option<string>>, ordinals: map<string, nat>, n: nat)
    requires |scopes| == |s| && n < |s| && ScopesFaithful(s, scopes) && Counted(s, scopes, ordinals, n)
    ensures scopes[n].Some? ==>
              var ordinal := CountAt(ordinals, scopes[n].value);
              && HeuristicKey(scopes[n].value, s[n].name, s[n].kind, ordinal) == KeyAt(s, scopes, n)
              && Counted(s, scopes, ordinals[scopes[n].value := ordinal + 1], n + 1)
    ensures scopes[n].None? ==> Counted(s, scopes, ordinals, n + 1)
  {
    forall i | 0 <= i < |s| && scopes[i].Some?
      ensures scopes[n] == scopes[i] <==> Parent(s, n) == Parent(s, i)
    {
    }
  }

  lemma {:induction false} NewKey(s: seq<Span>, scopes: seq<Option<string>>, m: seq<Match>,
                  groups: map<HeuristicKey, seq<nat>>, n: nat)
    requires |scopes| == |s| == |m| && n < |s|
    requires ScopesFaithful(s, scopes) && Grouped(s, scopes, m, groups, n) && scopes[n].Some?
    ensures KeyAt(s, scopes, n) !in groups
  {
    var k := KeyAt(s, scopes, n);
    if k in groups {
      OrdinalInjective(s, groups[k][0], n);
    }
  }

  lemma {:induction false} GroupStep(s: seq<Span>, scopes: seq<Option<string>>, m: seq<Match>,
                  groups: map<HeuristicKey, seq<nat>>, n: nat)
    requires |scopes| == |s| == |m| && n < |s|
    requires ScopesFaithful(s, scopes) && Grouped(s, scopes, m, groups, n)
    ensures scopes[n].Some? && m[n].matched.None? ==>
              && KeyAt(s, scopes, n) !in groups
              && Grouped(s, scopes, m, AppendTo(groups, KeyAt(s, scopes, n), n), n + 1)
    ensures scopes[n].None? || m[n].matched.Some? ==> Grouped(s, scopes, m, groups, n + 1)
  {
    if scopes[n].Some? { NewKey(s, scopes, m, groups, n); }
    hide KeyAt, ScopesFaithful;
  }

  method GroupHeuristicCandidates(s: seq<Span>, byId: map<string, nat>, m: seq<Match>)
    returns (groups: map<HeuristicKey, seq<nat>>)
    requires Indexed(s, byId) && |m| == |s| && ScopesFaithful(s, Scopes(s, byId, m))
    ensures Grouped(s, Scopes(s, byId, m), m, groups, |s|)
  {
    groups := map[];
    var scopeOrdinals: map<string, nat> := map[];
    ghost var scopes := Scopes(s, byId, m);
    var n: nat := 0;
    while n < |s|
      invariant n <= |s|
      invariant Counted(s, scopes, scopeOrdinals, n)
      invariant Grouped(s, scopes, m, groups, n)
    {
      hide ScopesFaithful, Counted, Grouped, HeuristicScope, KeyAt, Indexed;
      var scope := HeuristicScope(s, byId, m, n);
      CountStep(s, scopes, scopeOrdinals, n);
      GroupStep(s, scopes, m, groups, n);
      if scope.Some? {
        var ordinal := CountAt(scopeOrdinals, scope.value);
        scopeOrdinals := scopeOrdinals[scope.value := ordinal + 1];
        if m[n].matched.None? {
          var key := HeuristicKey(scope.value, s[n].name, s[n].kind, ordinal);
          groups := AppendTo(groups, key, n);
        }
      }
      n := n + 1;
    }
  }

  /** Children in the child map: a span's, or the roots under the root key. */
  function ChildrenAt(children: map<string, seq<nat>>, key: string): seq<nat>
  {
    if key in children then children[key] else []
  }

  predicate OnlyKids(f: Parents, list: seq<nat>, p: Option<nat>, n: nat)
    requires n <= |f|
  {
    forall k :: 0 <= k < |list| ==> list[k] < n && f[list[k]] == p
  }

  predicate AllKids(f: Parents, list: seq<nat>, p: Option<nat>, n: nat)
    requires n <= |f|
  {
    forall d: nat :: d < n && f[d] == p ==> d in list
  }

  /** The first n spans whose parent is p, each once and in order. */
  predicate AscendingKids(f: Parents, list: seq<nat>, p: Option<nat>, n: nat)
    requires n <= |f|
  {
    OnlyKids(f, list, p, n) && AllKids(f, list, p, n) && Ascends(list)
  }

  predicate ChildMap(s: seq<Span>, children: map<string, seq<nat>>, n: nat)
    requires n <= |s|
  {
    && AscendingKids(ParentsOf(s), ChildrenAt(children, ROOT_SCOPE), None, n)
    && forall i :: 0 <= i < |s| ==> AscendingKids(ParentsOf(s), ChildrenAt(children, s[i].id), Some(i), n)
  }

  lemma {:induction false} OnlyKidsAppend(f: Parents, list: seq<nat>, p: Option<nat>, n: nat)
    requires n < |f| && OnlyKids(f, list, p, n)
    ensures var longer := if f[n] == p then list + [n] else list;
            OnlyKids(f, longer, p, n + 1) && (Ascends(list) ==> Ascends(longer))
  {
  }

  lemma {:induction false} AllKidsAppend(f: Parents, list: seq<nat>, p: Option<nat>, n: nat)
    requires n < |f| && AllKids(f, list, p, n)
    ensures AllKids(f, if f[n] == p then list + [n] else list, p, n + 1)
  {
    var longer := if f[n] == p then list + [n] else list;
    forall d: nat | d < n + 1 && f[d] == p ensures d in longer {
      if d == n { assert longer[|list|] == d; }
    }
  }

  lemma {:induction false} KidsAppend(f: Parents, list: seq<nat>, p: Option<nat>, n: nat)
    requires n < |f| && AscendingKids(f, list, p, n)
    ensures AscendingKids(f, if f[n] == p then list + [n] else list, p, n + 1)
  {
    hide OnlyKids, AllKids, Ascends;
    OnlyKidsAppend(f, list, p, n);
    AllKidsAppend(f, list, p, n);
  }

  function ParentKey(s: seq<Span>, byId: map<string, nat>, n: nat): string
    requires n < |s|
  {
    if s[n].parent.Some? && s[n].parent.value in byId then s[n].parent.value else ROOT_SCOPE
  }

  lemma {:induction false} ChildMapStep(s: seq<Span>, byId: map<string, nat>, children: map<string, seq<nat>>, n: nat)
    requires ValidSpans(s) && Indexed(s, byId) && n < |s| && ChildMap(s, children, n)
    ensures ChildMap(s, AppendTo(children, ParentKey(s, byId, n), n), n + 1)
  {
    hide AscendingKids;
    var f, key := ParentsOf(s), ParentKey(s, byId, n);
    assert key == if f[n].Some? then s[f[n].value].id else ROOT_SCOPE;
    var children' := AppendTo(children, key, n);
    KidsAppend(f, ChildrenAt(children, ROOT_SCOPE), None, n);
    forall i | 0 <= i < |s|
      ensures AscendingKids(f, ChildrenAt(children', s[i].id), Some(i), n + 1)
    {
      KidsAppend(f, ChildrenAt(children, s[i].id), Some(i), n);
      assert key == s[i].id <==> f[n] == Some(i);
    }
  }

  method GroupSessionCompareChildren(s: seq<Span>, byId: map<string, nat>) returns (children: map<string, seq<nat>>)
    requires ValidSpans(s) && Indexed(s, byId)
    ensures ChildMap(s, children, |s|)
  {
    children := map[];
    var n: nat := 0;
    while n < |s|
      invariant n <= |s| && ChildMap(s, children, n)
    {
      hide *;
      ChildMapStep(s, byId, children, n);
      children := AppendTo(children, ParentKey(s, byId, n), n);
      n := n + 1;
    }
  }

  function SourceOf(b: Span, c: Span): MatchSource
  {
    if b.id == c.id then StableId else Heuristic
  }

  /** The relation held by the match table of the baseline records. */
  function PairsOf(bm: seq<Match>): (r: Pairs)
    ensures forall i: nat, j: nat :: (i, j) in r <==> i < |bm| && bm[i].matched == Some(j)
  {
    set i: nat | i < |bm| && bm[i].matched.Some? :: (i, bm[i].matched.value)
  }

  /** What a record shows when it is matched to this partner, or to none. */
  function MatchOf(b: seq<Span>, c: seq<Span>, i: nat, j: nat, partner: nat): Match
    requires i < |b| && j < |c|
  {
    Match(Some(partner), PairId(b[i].id, c[j].id), Some(SourceOf(b[i], c[j])))
  }

  /** Both tables record one partial bijection, and pair ids and sources follow from it. */
  predicate Consistent(b: seq<Span>, c: seq<Span>, bm: seq<Match>, cm: seq<Match>)
  {
    && |bm| == |b| && |cm| == |c|
    && (forall i :: 0 <= i < |b| && bm[i].matched.None? ==> bm[i] == UNMATCHED)
    && (forall j :: 0 <= j < |c| && cm[j].matched.None? ==> cm[j] == UNMATCHED)
    && (forall i :: 0 <= i < |b| && bm[i].matched.Some? ==>
          var j := bm[i].matched.value;
          j < |c| && bm[i] == MatchOf(b, c, i, j, j) && cm[j] == MatchOf(b, c, i, j, i))
    && (forall j :: 0 <= j < |c| && cm[j].matched.Some? ==>
          var i := cm[j].matched.value;
          i < |b| && bm[i].matched == Some(j))
  }

  lemma {:induction false} ConsistentPairs(b: seq<Span>, c: seq<Span>, bm: seq<Match>, cm: seq<Match>)
    requires Consistent(b, c, bm, cm)
    ensures Functional(PairsOf(bm)) && InRange(b, c, PairsOf(bm))
  {
    forall p, q | p in PairsOf(bm) && q in PairsOf(bm) && p.1 == q.1
      ensures p == q
    {
      assert bm[p.0].matched == Some(p.1) && bm[q.0].matched == Some(q.1);
    }
  }

  lemma {:induction false} ConsistentStep(b: seq<Span>, c: seq<Span>, bm: seq<Match>, cm: seq<Match>, i: nat, j: nat)
    requires Consistent(b, c, bm, cm)
    requires i < |b| && j < |c| && bm[i].matched.None? && cm[j].matched.None?
    ensures Consistent(b, c, bm[i := MatchOf(b, c, i, j, j)], cm[j := MatchOf(b, c, i, j, i)])
    ensures PairsOf(bm[i := MatchOf(b, c, i, j, j)]) == PairsOf(bm) + {(i, j)}
  {
    var bm', cm' := bm[i := MatchOf(b, c, i, j, j)], cm[j := MatchOf(b, c, i, j, i)];
    assert forall k :: 0 <= k < |b| && bm[k].matched.Some? ==> cm[bm[k].matched.value].matched.Some?;
    forall p: (nat, nat)
      ensures p in PairsOf(bm') <==> p in PairsOf(bm) + {(i, j)}
    {
      assert p in PairsOf(bm') <==> p.0 < |bm'| && bm'[p.0].matched == Some(p.1);
      assert p in PairsOf(bm) <==> p.0 < |bm| && bm[p.0].matched == Some(p.1);
    }
  }

  // ---- scopes of consistent tables ----

  /** A baseline span and a candidate span have one scope exactly when both are roots or
      their parents are matched to each other. */
  lemma {:induction false} ScopeAcross(b: seq<Span>, c: seq<Span>, bId: map<string, nat>, cId: map<string, nat>,
                    bm: seq<Match>, cm: seq<Match>, i: nat, j: nat)
    requires ValidSpans(b) && ValidSpans(c) && Indexed(b, bId) && Indexed(c, cId)
    requires Consistent(b, c, bm, cm) && i < |b| && j < |c|
    ensures var x, y := HeuristicScope(b, bId, bm, i), HeuristicScope(c, cId, cm, j);
            x.Some? && x == y <==> SameScope(b, c, PairsOf(bm), i, j)
  {
    ScopeMeaning(b, bId, bm, i);
    ScopeMeaning(c, cId, cm, j);
    if Parent(b, i).Some? {
      var p := Parent(b, i).value;
      if bm[p].matched.Some? {
        var q := bm[p].matched.value;
        PairIdNotRoot(b[p].id, c[q].id);
        if Parent(c, j).Some? && cm[Parent(c, j).value].matched.Some? {
          var q' := Parent(c, j).value;
          var p' := cm[q'].matched.value;
          if PairId(b[p].id, c[q].id) == PairId(b[p'].id, c[q'].id) {
            PairIdInjective(b[p].id, c[q].id, b[p'].id, c[q'].id);
          }
        }
      }
    }
    if Parent(c, j).Some? && cm[Parent(c, j).value].matched.Some? {
      PairIdNotRoot(b[cm[Parent(c, j).value].matched.value].id, c[Parent(c, j).value].id);
    }
  }

  lemma {:induction false} ScopeMeaning(s: seq<Span>, byId: map<string, nat>, m: seq<Match>, i: nat)
    requires UniqueIds(s) && Indexed(s, byId) && |m| == |s| && i < |s|
    ensures HeuristicScope(s, byId, m, i) ==
              match Parent(s, i)
              case None => Some(ROOT_SCOPE)
              case Some(p) => if m[p].pairId != "" then Some(m[p].pairId) else None
  {
  }

  lemma {:induction false} ScopesAreFaithful(s: seq<Span>, byId: map<string, nat>, m: seq<Match>)
    requires UniqueIds(s) && Indexed(s, byId) && |m| == |s|
    requires forall p :: 0 <= p < |m| ==> m[p].pairId != ROOT_SCOPE
    requires forall p, q :: 0 <= p < |m| && 0 <= q < |m| && m[p].pairId == m[q].pairId != "" ==> p == q
    ensures ScopesFaithful(s, Scopes(s, byId, m))
  {
    forall i, k | 0 <= i < |s| && 0 <= k < |s| && HeuristicScope(s, byId, m, i).Some?
      ensures HeuristicScope(s, byId, m, k) == HeuristicScope(s, byId, m, i) <==> Parent(s, k) == Parent(s, i)
    {
      ScopeMeaning(s, byId, m, i);
      ScopeMeaning(s, byId, m, k);
    }
  }

  lemma {:induction false} PairIdsDistinct(b: seq<Span>, c: seq<Span>, bm: seq<Match>, cm: seq<Match>)
    requires ValidSpans(b) && ValidSpans(c) && Consistent(b, c, bm, cm)
    ensures forall p :: 0 <= p < |b| ==> bm[p].pairId != ROOT_SCOPE
    ensures forall p :: 0 <= p < |c| ==> cm[p].pairId != ROOT_SCOPE
    ensures forall p, q :: 0 <= p < |b| && 0 <= q < |b| && bm[p].pairId == bm[q].pairId != "" ==> p == q
    ensures forall p, q :: 0 <= p < |c| && 0 <= q < |c| && cm[p].pairId == cm[q].pairId != "" ==> p == q
  {
    forall x, y
      ensures PairId(x, y) != ROOT_SCOPE
    {
      PairIdNotRoot(x, y);
    }
    forall p, q | 0 <= p < |b| && 0 <= q < |b| && bm[p].pairId == bm[q].pairId != ""
      ensures p == q
    {
      PairIdInjective(b[p].id, c[bm[p].matched.value].id, b[q].id, c[bm[q].matched.value].id);
    }
    forall p, q | 0 <= p < |c| && 0 <= q < |c| && cm[p].pairId == cm[q].pairId != ""
      ensures p == q
    {
      PairIdInjective(b[cm[p].matched.value].id, c[p].id, b[cm[q].matched.value].id, c[q].id);
    }
  }

  // ---- one round of heuristic matching ----

  /** The state in which a round starts and ends: consistent tables that hold the equal-id
      pairs and otherwise only pairs the rule supports. */
  predicate RoundState(b: seq<Span>, c: seq<Span>, bm: seq<Match>, cm: seq<Match>)
  {
    && ValidSpans(b) && ValidSpans(c) && Consistent(b, c, bm, cm)
    && Stable(b, c) <= PairsOf(bm) && Supported(b, c, PairsOf(bm))
  }

  lemma {:induction false} CommonKeyEnabled(b: seq<Span>, c: seq<Span>, bId: map<string, nat>, cId: map<string, nat>,
                         bm: seq<Match>, cm: seq<Match>, i: nat, j: nat)
    requires RoundState(b, c, bm, cm) && Indexed(b, bId) && Indexed(c, cId)
    requires i < |b| && j < |c| && bm[i].matched.None? && cm[j].matched.None?
    requires HeuristicScope(b, bId, bm, i).Some? && HeuristicScope(c, cId, cm, j).Some?
    requires KeyAt(b, Scopes(b, bId, bm), i) == KeyAt(c, Scopes(c, cId, cm), j)
    ensures Enabled(b, c, PairsOf(bm), i, j)
  {
    ScopeAcross(b, c, bId, cId, bm, cm, i, j);
    forall k | 0 <= k < |c|
      ensures c[k].id != b[i].id
    {
      assert b[i].id == c[k].id ==> (i, k) in Stable(b, c);
    }
    forall k | 0 <= k < |b|
      ensures b[k].id != c[j].id
    {
      assert b[k].id == c[j].id ==> (k, j) in Stable(b, c);
    }
  }

  /** If no key occurs on both sides, the rule has nothing left to add. */
  lemma {:induction false} NoCommonKeyClosed(b: seq<Span>, c: seq<Span>, bId: map<string, nat>, cId: map<string, nat>,
                          bm: seq<Match>, cm: seq<Match>,
                          bg: map<HeuristicKey, seq<nat>>, cg: map<HeuristicKey, seq<nat>>)
    requires RoundState(b, c, bm, cm) && Indexed(b, bId) && Indexed(c, cId)
    requires Grouped(b, Scopes(b, bId, bm), bm, bg, |b|) && Grouped(c, Scopes(c, cId, cm), cm, cg, |c|)
    requires forall k :: k in bg ==> k !in cg
    ensures Closed(b, c, PairsOf(bm))
  {
    ConsistentPairs(b, c, bm, cm);
    forall i: nat, j: nat | Enabled(b, c, PairsOf(bm), i, j)
      ensures (i, j) in PairsOf(bm)
    {
      EnabledRespectsPairs(b, c, PairsOf(bm), i, j);
      if bm[i].matched.Some? {
        assert (i, bm[i].matched.value) in PairsOf(bm);
      } else if cm[j].matched.Some? {
        assert (cm[j].matched.value, j) in PairsOf(bm);
      } else {
        ScopeAcross(b, c, bId, cId, bm, cm, i, j);
        var key := KeyAt(b, Scopes(b, bId, bm), i);
        assert false;
      }
    }
  }

  lemma {:induction false} PairsBounded(m: seq<Match>)
    ensures |PairsOf(m)| <= |m|
  {
    PairsCounted(m);
    MatchedBounded(m);
  }

  lemma {:induction false} MatchedBounded(m: seq<Match>)
    ensures MatchedCount(m) <= |m|
  {
    if m != [] {
      MatchedBounded(m[..|m| - 1]);
    }
  }

  /** The tables of both traces at one moment, and the groups a round works on. */
  datatype Tables = Tables(bm: seq<Match>, cm: seq<Match>)

  datatype Groups = Groups(bg: map<HeuristicKey, seq<nat>>, cg: map<HeuristicKey, seq<nat>>)

  /** The groups of a round that started in t0. */
  ghost predicate GroupsOf(b: seq<Span>, c: seq<Span>, bId: map<string, nat>, cId: map<string, nat>, t0: Tables, g: Groups)
  {
    && RoundState(b, c, t0.bm, t0.cm) && Indexed(b, bId) && Indexed(c, cId)
    && Grouped(b, Scopes(b, bId, t0.bm), t0.bm, g.bg, |b|)
    && Grouped(c, Scopes(c, cId, t0.cm), t0.cm, g.cg, |c|)
  }

  /** What a round that started in t0 has done once only the remaining keys are left. */
  ghost predicate Visited(b: seq<Span>, c: seq<Span>, t0: Tables, t: Tables, g: Groups, remaining: set<HeuristicKey>, matched: nat)
  {
    && remaining <= g.bg.Keys
    && |t.bm| == |b| && |t.cm| == |c| && Consistent(b, c, t.bm, t.cm)
    && PairsOf(t0.bm) <= PairsOf(t.bm)
    && (forall p :: p in PairsOf(t.bm) && p !in PairsOf(t0.bm) ==> Enabled(b, c, PairsOf(t0.bm), p.0, p.1))
    && |PairsOf(t.bm)| == |PairsOf(t0.bm)| + matched
    && (forall k :: k in remaining ==>
          |g.bg[k]| == 1 && g.bg[k][0] < |b| && t.bm[g.bg[k][0]].matched.None?)
    && (forall k :: k in remaining && k in g.cg ==>
          |g.cg[k]| == 1 && g.cg[k][0] < |c| && t.cm[g.cg[k][0]].matched.None?)
    && (matched == 0 ==> t == t0 && forall k :: k in g.bg && k !in remaining ==> k !in g.cg)
  }

  lemma {:induction false} VisitStart(b: seq<Span>, c: seq<Span>, bId: map<string, nat>, cId: map<string, nat>, t0: Tables, g: Groups)
    requires GroupsOf(b, c, bId, cId, t0, g)
    ensures Visited(b, c, t0, t0, g, g.bg.Keys, 0)
  {
  }

  lemma {:induction false} VisitSkip(b: seq<Span>, c: seq<Span>, t0: Tables, t: Tables, g: Groups,
                  remaining: set<HeuristicKey>, matched: nat, key: HeuristicKey)
    requires Visited(b, c, t0, t, g, remaining, matched) && key in remaining && key !in g.cg
    ensures Visited(b, c, t0, t, g, remaining - {key}, matched)
  {
  }

  /** Distinct keys name distinct spans, so pairing one key leaves the others unmatched. */
  lemma {:induction false} GroupsDisjoint(b: seq<Span>, c: seq<Span>, bId: map<string, nat>, cId: map<string, nat>, t0: Tables, g: Groups,
                       key: HeuristicKey)
    requires GroupsOf(b, c, bId, cId, t0, g)
    ensures forall k :: k in g.bg && key in g.bg && k != key ==> g.bg[k][0] != g.bg[key][0]
    ensures forall k :: k in g.cg && key in g.cg && k != key ==> g.cg[k][0] != g.cg[key][0]
    ensures key in g.bg && key in g.cg ==>
              Enabled(b, c, PairsOf(t0.bm), g.bg[key][0], g.cg[key][0])
              && SourceOf(b[g.bg[key][0]], c[g.cg[key][0]]) == Heuristic
  {
    if key in g.bg && key in g.cg {
      CommonKeyEnabled(b, c, bId, cId, t0.bm, t0.cm, g.bg[key][0], g.cg[key][0]);
    }
  }

  lemma {:induction false} VisitPair(b: seq<Span>, c: seq<Span>, bId: map<string, nat>, cId: map<string, nat>,
                  t0: Tables, t: Tables, g: Groups, remaining: set<HeuristicKey>, matched: nat, key: HeuristicKey)
    requires GroupsOf(b, c, bId, cId, t0, g)
    requires Visited(b, c, t0, t, g, remaining, matched) && key in remaining && key in g.cg
    ensures var i, j := g.bg[key][0], g.cg[key][0];
            && SourceOf(b[i], c[j]) == Heuristic
            && Visited(b, c, t0, Tables(t.bm[i := MatchOf(b, c, i, j, j)], t.cm[j := MatchOf(b, c, i, j, i)]),
                       g, remaining - {key}, matched + 1)
  {
    hide GroupsOf, Grouped, RoundState, PairsOf, Consistent, MatchOf, Enabled, SourceOf;
    var i, j := g.bg[key][0], g.cg[key][0];
    GroupsDisjoint(b, c, bId, cId, t0, g, key);
    ConsistentStep(b, c, t.bm, t.cm, i, j);
    assert (i, j) !in PairsOf(t.bm);
    var t' := Tables(t.bm[i := MatchOf(b, c, i, j, j)], t.cm[j := MatchOf(b, c, i, j, i)]);
    forall k | k in remaining - {key}
      ensures t'.bm[g.bg[k][0]].matched.None?
    {
      assert g.bg[k][0] != i;
    }
    forall k | k in remaining - {key} && k in g.cg
      ensures t'.cm[g.cg[k][0]].matched.None?
    {
      assert g.cg[k][0] != j;
    }
  }

  lemma {:induction false} VisitEnd(b: seq<Span>, c: seq<Span>, bId: map<string, nat>, cId: map<string, nat>,
                 t0: Tables, t: Tables, g: Groups, matched: nat)
    requires GroupsOf(b, c, bId, cId, t0, g)
    requires Visited(b, c, t0, t, g, {}, matched)
    ensures RoundState(b, c, t.bm, t.cm)
    ensures matched == 0 ==> Closed(b, c, PairsOf(t.bm))
  {
    forall p | p in PairsOf(t.bm) && p !in Stable(b, c)
      ensures Enabled(b, c, PairsOf(t.bm), p.0, p.1)
    {
      EnabledMonotone(b, c, PairsOf(t0.bm), PairsOf(t.bm), p.0, p.1);
    }
    if matched == 0 {
      NoCommonKeyClosed(b, c, bId, cId, t.bm, t.cm, g.bg, g.cg);
    }
  }

  /** A round adds only pairs that every closed relation has. */
  lemma {:induction false} RoundBelow(b: seq<Span>, c: seq<Span>, before: Pairs, after: Pairs)
    requires forall s: Pairs :: Closed(b, c, s) ==> before <= s
    requires forall p :: p in after - before ==> Enabled(b, c, before, p.0, p.1)
    ensures forall s: Pairs :: Closed(b, c, s) ==> after <= s
  {
    forall s: Pairs, p | Closed(b, c, s) && p in after
      ensures p in s
    {
      if p !in before {
        EnabledMonotone(b, c, before, s, p.0, p.1);
      }
    }
  }

  // ---- what the rows show ----

  function PartnersOf(cm: seq<Match>): (r: seq<Option<nat>>)
    ensures |r| == |cm| && forall j :: 0 <= j < |r| ==> r[j] == cm[j].matched
  {
    seq(|cm|, j requires 0 <= j < |cm| => cm[j].matched)
  }

  /** The candidate forest, cut where a span's row is emitted with its baseline partner. */
  function CutOf(c: seq<Span>, cm: seq<Match>): (f: Parents)
    requires |cm| == |c|
    ensures |f| == |c| && forall j :: 0 <= j < |f| ==> f[j] == if cm[j].matched.Some? then None else Parent(c, j)
  {
    seq(|c|, j requires 0 <= j < |c| => if cm[j].matched.Some? then None else Parent(c, j))
  }

  /** The node that a candidate span's children hang below: its partner's row if it is matched. */
  function RowNode(b: seq<Span>, cm: seq<Match>, s: Option<nat>): Option<nat>
    requires s.Some? ==> s.value < |cm|
  {
    if s.None? then None
    else Some(if cm[s.value].matched.Some? then cm[s.value].matched.value else |b| + s.value)
  }

  /** The forest of the rows: the baseline spans as they hang, and the candidate spans below their
      parent's row. */
  function RowForest(b: seq<Span>, c: seq<Span>, cm: seq<Match>): (f: Parents)
    requires |cm| == |c|
    ensures |f| == |b| + |c|
  {
    ParentsOf(b) + seq(|c|, j requires 0 <= j < |c| => RowNode(b, cm, Parent(c, j)))
  }

  lemma {:induction false} BaselineNode(b: seq<Span>, c: seq<Span>, cm: seq<Match>, i: nat)
    requires |cm| == |c| && i < |b|
    ensures RowForest(b, c, cm)[i] == ParentsOf(b)[i]
  {
  }

  lemma {:induction false} CandidateNode(b: seq<Span>, c: seq<Span>, cm: seq<Match>, j: nat)
    requires |cm| == |c| && j < |c|
    ensures RowForest(b, c, cm)[|b| + j] == RowNode(b, cm, ParentsOf(c)[j])
  {
  }

  ghost predicate Ordered(b: seq<Span>, c: seq<Span>, cm: seq<Match>, rows: seq<Row>)
    requires |cm| == |c|
  {
    InTreeOrder(RowForest(b, c, cm), |b|, rows)
  }

  /** The rows so far come before those of the listed baseline children below path p. */
  ghost predicate BaselineDue(b: seq<Span>, c: seq<Span>, cm: seq<Match>, rows: seq<Row>, list: seq<nat>, s: Option<nat>, p: seq<nat>)
  {
    && |cm| == |c|
    && var f := RowForest(b, c, cm);
       InTreeOrder(f, |b|, rows) && Ascends(list) && Hangs(f, |b|, rows, s, p) && BeforeKids(f, |b|, rows, p, list, 0)
  }

  ghost predicate CandidateDue(b: seq<Span>, c: seq<Span>, cm: seq<Match>, rows: seq<Row>, list: seq<nat>, s: Option<nat>, p: seq<nat>)
  {
    && |cm| == |c| && (s.Some? ==> s.value < |c|)
    && var f := RowForest(b, c, cm);
       InTreeOrder(f, |b|, rows) && Ascends(list) && Hangs(f, |b|, rows, RowNode(b, cm, s), p) && BeforeKids(f, |b|, rows, p, list, |b|)
  }

  /** The rows so far come before the node with path p, and its parent has its row. */
  ghost predicate BranchDue(b: seq<Span>, c: seq<Span>, cm: seq<Match>, rows: seq<Row>, x: nat, p: seq<nat>)
  {
    && |cm| == |c| && x < |b| + |c|
    && var f := RowForest(b, c, cm);
       && InTreeOrder(f, |b|, rows) && RowsBefore(f, |b|, rows, p) && PathTo(f, p, x)
       && (f[x].Some? ==> HasRow(|b|, rows, |rows|, f[x].value))
  }

  /** The rows that out adds are in order, all of them below p and the first k listed children. */
  ghost predicate KidsOrdered(b: seq<Span>, c: seq<Span>, cm: seq<Match>, rows: seq<Row>, out: seq<Row>, list: seq<nat>, k: nat,
                              p: seq<nat>, shift: nat)
  {
    |cm| == |c| && Ordered(b, c, cm, out) && AddsKids(RowForest(b, c, cm), |b|, rows, out, p, list, k, shift)
  }

  ghost predicate BranchOrdered(b: seq<Span>, c: seq<Span>, cm: seq<Match>, rows: seq<Row>, out: seq<Row>, p: seq<nat>)
  {
    |cm| == |c| && Ordered(b, c, cm, out) && AddsUnder(RowForest(b, c, cm), |b|, rows, out, p)
  }

  lemma {:induction false} BaselineOrderStart(b: seq<Span>, c: seq<Span>, cm: seq<Match>, rows: seq<Row>, list: seq<nat>,
                                              s: Option<nat>, p: seq<nat>)
    requires BaselineDue(b, c, cm, rows, list, s, p)
    ensures KidsOrdered(b, c, cm, rows, rows, list, 0, p, 0)
  {
    KidsStart(RowForest(b, c, cm), |b|, rows, p, list, 0);
  }

  lemma {:induction false} KidAt(f: Parents, list: seq<nat>, s: Option<nat>, k: nat)
    requires Kids(f, list, s) && k < |list|
    ensures list[k] < |f| && f[list[k]] == s
  {
  }

  lemma {:induction false} BaselineOrderNext(b: seq<Span>, c: seq<Span>, cm: seq<Match>, rows: seq<Row>, out: seq<Row>, list: seq<nat>,
                                             k: nat, s: Option<nat>, p: seq<nat>)
    requires BaselineDue(b, c, cm, rows, list, s, p) && KidsOrdered(b, c, cm, rows, out, list, k, p, 0)
    requires Kids(ParentsOf(b), list, s) && k < |list|
    ensures list[k] < |b| && BranchDue(b, c, cm, out, list[k], p + [list[k]])
  {
    hide InTreeOrder, Ascends, Hangs, BeforeKids, AddsKids, PathTo, HasRow, Kids, RowForest, ParentsOf, RowsBefore;
    KidAt(ParentsOf(b), list, s, k);
    BaselineNode(b, c, cm, list[k]);
    NextChild(RowForest(b, c, cm), |b|, rows, out, s, p, list, k, 0, list[k]);
  }

  lemma {:induction false} AddsMore(f: Parents, n: nat, rows: seq<Row>, out: seq<Row>, p: seq<nat>, list: seq<nat>, k: nat, shift: nat)
    requires AddsKids(f, n, rows, out, p, list, k, shift)
    ensures rows <= out
  {
  }

  lemma {:induction false} OrderDone(b: seq<Span>, c: seq<Span>, cm: seq<Match>, rows: seq<Row>, before: seq<Row>, out: seq<Row>,
                                     list: seq<nat>, k: nat, p: seq<nat>, shift: nat, x: nat)
    requires |cm| == |c| && k < |list| && x == shift + list[k]
    requires KidsOrdered(b, c, cm, rows, before, list, k, p, shift) && BranchOrdered(b, c, cm, before, out, p + [x])
    ensures KidsOrdered(b, c, cm, rows, out, list, k + 1, p, shift)
  {
    KidsDone(RowForest(b, c, cm), |b|, rows, before, out, p, list, k, shift);
  }

  lemma {:induction false} OrderSkip(b: seq<Span>, c: seq<Span>, cm: seq<Match>, rows: seq<Row>, out: seq<Row>, list: seq<nat>, k: nat,
                                     p: seq<nat>, shift: nat)
    requires KidsOrdered(b, c, cm, rows, out, list, k, p, shift)
    ensures KidsOrdered(b, c, cm, rows, out, list, k + 1, p, shift)
  {
    KidsSkip(RowForest(b, c, cm), |b|, rows, out, p, list, k, shift);
  }

  lemma {:induction false} CandidateOrderStart(b: seq<Span>, c: seq<Span>, cm: seq<Match>, rows: seq<Row>, list: seq<nat>,
                                               s: Option<nat>, p: seq<nat>)
    requires CandidateDue(b, c, cm, rows, list, s, p)
    ensures KidsOrdered(b, c, cm, rows, rows, list, 0, p, |b|)
  {
    KidsStart(RowForest(b, c, cm), |b|, rows, p, list, |b|);
  }

  lemma {:induction false} CandidateOrderNext(b: seq<Span>, c: seq<Span>, cm: seq<Match>, rows: seq<Row>, out: seq<Row>, list: seq<nat>,
                                              k: nat, s: Option<nat>, p: seq<nat>)
    requires CandidateDue(b, c, cm, rows, list, s, p) && KidsOrdered(b, c, cm, rows, out, list, k, p, |b|)
    requires Kids(ParentsOf(c), list, s) && k < |list|
    ensures list[k] < |c| && BranchDue(b, c, cm, out, |b| + list[k], p + [|b| + list[k]])
  {
    hide InTreeOrder, Ascends, Hangs, BeforeKids, AddsKids, PathTo, HasRow, RowNode, Kids, RowsBefore, RowForest, ParentsOf;
    KidAt(ParentsOf(c), list, s, k);
    CandidateNode(b, c, cm, list[k]);
    NextChild(RowForest(b, c, cm), |b|, rows, out, RowNode(b, cm, s), p, list, k, |b|, |b| + list[k]);
  }

  /** A baseline span's row is added, and its children's rows are next. */
  lemma {:induction false} BaselineOrderRow(b: seq<Span>, c: seq<Span>, cm: seq<Match>, rows: seq<Row>, row: Row, kids: seq<nat>, p: seq<nat>)
    requires |cm| == |c| && row.baseline.Some? && row.baseline.value < |b| && |p| == row.depth + 1 && Ascends(kids)
    requires BranchDue(b, c, cm, rows, row.baseline.value, p)
    ensures BaselineDue(b, c, cm, rows + [row], kids, Some(row.baseline.value), p)
    ensures AddsUnder(RowForest(b, c, cm), |b|, rows, rows + [row], p)
    ensures forall x: nat :: RowsBefore(RowForest(b, c, cm), |b|, rows + [row], p + [x])
  {
    var f := RowForest(b, c, cm);
    hide InTreeOrder, Ascends, RowsBefore, PathTo, HasRow, AddsUnder;
    StartBranch(f, |b|, rows, row, p);
    StartedBefore(f, |b|, rows + [row], p, kids, 0);
  }

  lemma {:induction false} CandidateOrderRow(b: seq<Span>, c: seq<Span>, cm: seq<Match>, rows: seq<Row>, row: Row, kids: seq<nat>, p: seq<nat>)
    requires |cm| == |c| && row.baseline.None? && row.candidate.Some? && row.candidate.value < |c| && |p| == row.depth + 1 && Ascends(kids)
    requires cm[row.candidate.value].matched.None?
    requires BranchDue(b, c, cm, rows, |b| + row.candidate.value, p)
    ensures CandidateDue(b, c, cm, rows + [row], kids, Some(row.candidate.value), p)
    ensures AddsUnder(RowForest(b, c, cm), |b|, rows, rows + [row], p)
  {
    var f := RowForest(b, c, cm);
    hide InTreeOrder, Ascends, RowsBefore, PathTo, HasRow, AddsUnder;
    StartBranch(f, |b|, rows, row, p);
    StartedBefore(f, |b|, rows + [row], p, kids, |b|);
  }

  /** A baseline span's children are done, and its partner's are next. */
  lemma {:induction false} PartnerOrder(b: seq<Span>, c: seq<Span>, cm: seq<Match>, started: seq<Row>, out: seq<Row>, i: nat, m: nat,
                                        kids: seq<nat>, list: seq<nat>, p: seq<nat>)
    requires |cm| == |c| && m < |c| && cm[m].matched == Some(i) && Ascends(list) && (forall l :: 0 <= l < |kids| ==> kids[l] < |b|)
    requires BaselineDue(b, c, cm, started, kids, Some(i), p) && KidsOrdered(b, c, cm, started, out, kids, |kids|, p, 0)
    requires forall x: nat :: RowsBefore(RowForest(b, c, cm), |b|, started, p + [x])
    ensures CandidateDue(b, c, cm, out, list, Some(m), p)
  {
    var f := RowForest(b, c, cm);
    hide InTreeOrder, Ascends, RowsBefore, Hangs, AddsKids, BeforeKids;
    PartnerNext(f, |b|, started, out, p, kids, list);
    AddsMore(f, |b|, started, out, p, kids, |kids|, 0);
    HangsLater(f, |b|, started, out, Some(i), p);
  }

  lemma {:induction false} BranchOrderDone(b: seq<Span>, c: seq<Span>, cm: seq<Match>, rows: seq<Row>, started: seq<Row>, out: seq<Row>,
                                           list: seq<nat>, p: seq<nat>, shift: nat)
    requires |cm| == |c| && AddsUnder(RowForest(b, c, cm), |b|, rows, started, p)
    requires KidsOrdered(b, c, cm, started, out, list, |list|, p, shift)
    ensures BranchOrdered(b, c, cm, rows, out, p)
  {
    BranchDone(RowForest(b, c, cm), |b|, rows, started, out, p, list, shift);
  }

  lemma {:induction false} PartnerBranchDone(b: seq<Span>, c: seq<Span>, cm: seq<Match>, rows: seq<Row>, before: seq<Row>, out: seq<Row>,
                                             list: seq<nat>, p: seq<nat>)
    requires BranchOrdered(b, c, cm, rows, before, p) && KidsOrdered(b, c, cm, before, out, list, |list|, p, |b|)
    ensures BranchOrdered(b, c, cm, rows, out, p)
  {
    BranchDone(RowForest(b, c, cm), |b|, rows, before, out, p, list, |b|);
  }

  lemma {:induction false} RootsOrder(b: seq<Span>, c: seq<Span>, cm: seq<Match>, kids: seq<nat>)
    requires |cm| == |c| && Ascends(kids)
    ensures BaselineDue(b, c, cm, [], kids, None, [])
  {
    NoRows(RowForest(b, c, cm), |b|, kids);
  }

  lemma {:induction false} CandidateRootsOrder(b: seq<Span>, c: seq<Span>, cm: seq<Match>, out: seq<Row>, kids: seq<nat>, list: seq<nat>)
    requires |cm| == |c| && Ascends(list) && (forall l :: 0 <= l < |kids| ==> kids[l] < |b|)
    requires KidsOrdered(b, c, cm, [], out, kids, |kids|, [], 0)
    ensures CandidateDue(b, c, cm, out, list, None, [])
  {
    RootsNext(RowForest(b, c, cm), |b|, out, kids, list);
  }

  /** A row shows a baseline span with its partner, or an unmatched candidate span, at the
      depth the span has below a root, counting through a matched ancestor's baseline row. */
  ghost predicate Fits(b: seq<Span>, c: seq<Span>, bm: seq<Match>, cm: seq<Match>, row: Row)
    requires |bm| == |b| && |cm| == |c|
  {
    match row.baseline
    case Some(i) =>
      i < |b| && row.candidate == bm[i].matched && exists p :: PathTo(ParentsOf(b), p, i) && |p| == row.depth + 1
    case None =>
      && row.candidate.Some? && row.candidate.value < |c| && cm[row.candidate.value].matched.None?
      && exists q, base: nat :: PathTo(CutOf(c, cm), q, row.candidate.value) && BaseDepth(b, cm, q[0], base)
                           && row.depth + 1 == base + |q|
  }

  ghost predicate BaseDepth(b: seq<Span>, cm: seq<Match>, j: nat, base: nat)
    requires j < |cm|
  {
    if cm[j].matched.None? then base == 0
    else exists p :: PathTo(ParentsOf(b), p, cm[j].matched.value) && base + 1 == |p|
  }

  ghost predicate AllFit(b: seq<Span>, c: seq<Span>, bm: seq<Match>, cm: seq<Match>, rows: seq<Row>)
  {
    |bm| == |b| && |cm| == |c| && forall r :: r in rows ==> Fits(b, c, bm, cm, r)
  }

  /** emitted names exactly the unmatched candidate spans that have a row. */
  predicate Emitted(c: seq<Span>, cm: seq<Match>, rows: seq<Row>, emitted: set<string>)
  {
    |cm| == |c| && forall y :: 0 <= y < |c| && cm[y].matched.None? ==> (c[y].id in emitted <==> CandidateHits(rows, y) > 0)
  }

  ghost predicate Unseen(rows: seq<Row>, ys: set<nat>)
  {
    forall y :: y in ys ==> CandidateHits(rows, y) == 0
  }

  ghost predicate Anchored(b: seq<Span>, c: seq<Span>, cm: seq<Match>, s: Option<nat>, q: seq<nat>, base: nat)
  {
    && |cm| == |c|
    && if s.None? then q == [] && base == 0
       else s.value < |c| && PathTo(CutOf(c, cm), q, s.value) && BaseDepth(b, cm, q[0], base)
  }

  ghost function GrownC(c: seq<Span>, cm: seq<Match>, list: seq<nat>, k: nat): set<nat>
    requires |cm| == |c| && k <= |list|
    requires forall l :: 0 <= l < |list| ==> list[l] < |c|
  {
    Grown(CutOf(c, cm), MatchedFlags(PartnersOf(cm)), list, k)
  }

  ghost predicate ChildLoop(c: seq<Span>, cm: seq<Match>, rows: seq<Row>, out: seq<Row>, list: seq<nat>, k: nat)
    requires |cm| == |c| && k <= |list|
    requires forall l :: 0 <= l < |list| ==> list[l] < |c|
  {
    Adds(rows, out, {}, GrownC(c, cm, list, k))
  }

  lemma {:induction false} ChildStart(c: seq<Span>, cm: seq<Match>, rows: seq<Row>, list: seq<nat>, s: Option<nat>)
    requires |cm| == |c| && Kids(ParentsOf(c), list, s)
    ensures forall l :: 0 <= l < |list| ==> list[l] < |c|
    ensures ChildLoop(c, cm, rows, rows, list, 0)
  {
  }

  lemma {:induction false} AnchoredChild(b: seq<Span>, c: seq<Span>, cm: seq<Match>, d: nat, s: Option<nat>, q: seq<nat>, base: nat)
    requires |cm| == |c| && Anchored(b, c, cm, s, q, base)
    requires d < |c| && cm[d].matched.None? && Parent(c, d) == s
    ensures Anchored(b, c, cm, Some(d), q + [d], base) && |q| < |c|
    ensures Below(CutOf(c, cm), d, d)
  {
    var f := CutOf(c, cm);
    if s.Some? {
      ExtendPath(f, q, s.value, d);
      assert (q + [d])[0] == q[0];
    } else {
      assert q + [d] == [d];
      RootIsRooted(f, d);
    }
    assert d in q + [d];
  }

  /** Nothing below an unmatched child of a list has been emitted before its turn. */
  lemma {:induction false} ChildUnseen(c: seq<Span>, cm: seq<Match>, rows: seq<Row>, out: seq<Row>, list: seq<nat>, k: nat, s: Option<nat>)
    requires |cm| == |c| && Kids(ParentsOf(c), list, s) && k < |list| && cm[list[k]].matched.None?
    requires Unseen(rows, GrownC(c, cm, list, |list|)) && ChildLoop(c, cm, rows, out, list, k)
    ensures Unseen(out, Subtree(CutOf(c, cm), list[k]))
  {
    var f, flags := CutOf(c, cm), MatchedFlags(PartnersOf(cm));
    GrownDisjoint(ParentsOf(c), flags, f, list, s, k);
    hide Kids, IsPath, Below;
    forall y | y in Subtree(f, list[k])
      ensures CandidateHits(out, y) == 0
    {
      assert y in GrownC(c, cm, list, |list|);
    }
  }

  /** What holds before the next child of a list: a matched one adds nothing; an unmatched
      one has not been emitted, and nothing below it has. */
  lemma {:induction false} ChildNext(b: seq<Span>, c: seq<Span>, cm: seq<Match>, rows: seq<Row>, out: seq<Row>,
                  emitted: set<string>, list: seq<nat>, k: nat, s: Option<nat>, q: seq<nat>, base: nat)
    requires |cm| == |c| && Kids(ParentsOf(c), list, s) && k < |list| && Anchored(b, c, cm, s, q, base)
    requires Emitted(c, cm, out, emitted) && Unseen(rows, GrownC(c, cm, list, |list|))
    requires ChildLoop(c, cm, rows, out, list, k)
    ensures cm[list[k]].matched.Some? ==> ChildLoop(c, cm, rows, out, list, k + 1)
    ensures cm[list[k]].matched.None? ==>
              && c[list[k]].id !in emitted && Unseen(out, Subtree(CutOf(c, cm), list[k]))
              && Anchored(b, c, cm, Some(list[k]), q + [list[k]], base) && |q| < |c|
  {
    hide IsPath, Anchored;
    var d := list[k];
    if cm[d].matched.None? {
      ChildUnseen(c, cm, rows, out, list, k, s);
      AnchoredChild(b, c, cm, d, s, q, base);
      hide Kids;
      assert d in Subtree(CutOf(c, cm), d);
    }
  }

  lemma {:induction false} ChildDone(c: seq<Span>, cm: seq<Match>, rows: seq<Row>, before: seq<Row>, out: seq<Row>,
                  list: seq<nat>, k: nat, s: Option<nat>)
    requires |cm| == |c| && Kids(ParentsOf(c), list, s) && k < |list| && cm[list[k]].matched.None?
    requires ChildLoop(c, cm, rows, before, list, k) && Adds(before, out, {}, Subtree(CutOf(c, cm), list[k]))
    ensures ChildLoop(c, cm, rows, out, list, k + 1)
  {
    GrownDisjoint(ParentsOf(c), MatchedFlags(PartnersOf(cm)), CutOf(c, cm), list, s, k);
    AddsTrans(rows, before, out, {}, GrownC(c, cm, list, k), {}, Subtree(CutOf(c, cm), list[k]));
  }

  lemma {:induction false} KidsOfMap(s: seq<Span>, children: map<string, seq<nat>>)
    requires ChildMap(s, children, |s|)
    ensures Kids(ParentsOf(s), ChildrenAt(children, ROOT_SCOPE), None) && Ascends(ChildrenAt(children, ROOT_SCOPE))
    ensures forall i :: 0 <= i < |s| ==>
              Kids(ParentsOf(s), ChildrenAt(children, s[i].id), Some(i)) && Ascends(ChildrenAt(children, s[i].id))
  {
  }

  lemma {:induction false} FitsAppend(b: seq<Span>, c: seq<Span>, bm: seq<Match>, cm: seq<Match>, rows: seq<Row>, row: Row)
    requires |bm| == |b| && |cm| == |c| && AllFit(b, c, bm, cm, rows) && Fits(b, c, bm, cm, row)
    ensures AllFit(b, c, bm, cm, rows + [row])
  {
    hide Fits;
  }

  lemma {:induction false} EmittedAppend(c: seq<Span>, cm: seq<Match>, rows: seq<Row>, out: seq<Row>, emitted: set<string>, j: nat)
    requires |cm| == |c| && UniqueIds(c) && j < |c|
    requires Emitted(c, cm, rows, emitted) && Adds(rows, out, {}, {j})
    ensures Emitted(c, cm, out, emitted + {c[j].id})
  {
  }

  /** The row of an unmatched candidate span. */
  lemma {:induction false} CandidateRow(b: seq<Span>, c: seq<Span>, bm: seq<Match>, cm: seq<Match>, rows: seq<Row>, emitted: set<string>,
                     j: nat, depth: nat, q: seq<nat>, base: nat)
    requires |bm| == |b| && |cm| == |c| && ValidSpans(c) && j < |c| && cm[j].matched.None?
    requires Anchored(b, c, cm, Some(j), q, base) && depth + 1 == base + |q|
    requires Emitted(c, cm, rows, emitted) && AllFit(b, c, bm, cm, rows)
    ensures var started := rows + [Row(None, Some(j), depth)];
            && Emitted(c, cm, started, emitted + {c[j].id}) && AllFit(b, c, bm, cm, started)
            && Adds(rows, started, {}, {j})
  {
    var row := Row(None, Some(j), depth);
    AddsRow(rows, row);
    assert Fits(b, c, bm, cm, row);
    FitsAppend(b, c, bm, cm, rows, row);
    EmittedAppend(c, cm, rows, rows + [row], emitted, j);
    hide *;
  }

  /** What is left below an unmatched candidate span once its own row is added. */
  lemma {:induction false} CandidateKids(c: seq<Span>, cm: seq<Match>, rows: seq<Row>, children: map<string, seq<nat>>, j: nat,
                      depth: nat, q: seq<nat>)
    requires |cm| == |c| && j < |c| && ChildMap(c, children, |c|) && PathTo(CutOf(c, cm), q, j)
    requires Unseen(rows, Subtree(CutOf(c, cm), j)) && Adds(rows, rows + [Row(None, Some(j), depth)], {}, {j})
    ensures var list := ChildrenAt(children, c[j].id);
            && Kids(ParentsOf(c), list, Some(j)) && Ascends(list)
            && (forall l :: 0 <= l < |list| ==> list[l] < |c|)
            && {j} !! GrownC(c, cm, list, |list|)
            && Subtree(CutOf(c, cm), j) == {j} + GrownC(c, cm, list, |list|)
            && Unseen(rows + [Row(None, Some(j), depth)], GrownC(c, cm, list, |list|))
  {
    KidsOfMap(c, children);
    var list := ChildrenAt(children, c[j].id);
    assert Rooted(CutOf(c, cm), j);
    GrownKids(ParentsOf(c), MatchedFlags(PartnersOf(cm)), CutOf(c, cm), list, j);
    hide Subtree, ChildMap, Grown;
  }

  // ---- baseline rows ----

  function NoFlags(n: nat): (r: seq<bool>)
    ensures |r| == n && forall i :: 0 <= i < n ==> !r[i]
  {
    seq(n, _ => false)
  }

  /** The subtrees of the first k baseline spans of a list. */
  ghost function GrownB(b: seq<Span>, list: seq<nat>, k: nat): set<nat>
    requires k <= |list|
    requires forall l :: 0 <= l < |list| ==> list[l] < |b|
  {
    Grown(ParentsOf(b), NoFlags(|b|), list, k)
  }

  /** The candidate spans whose rows come with these baseline spans. */
  ghost function Under(c: seq<Span>, cm: seq<Match>, bs: set<nat>): set<nat>
    requires |cm| == |c|
  {
    Homed(CutOf(c, cm), PartnersOf(cm), bs)
  }

  ghost predicate BaselineLoop(b: seq<Span>, c: seq<Span>, cm: seq<Match>, rows: seq<Row>, out: seq<Row>, list: seq<nat>, k: nat)
    requires |cm| == |c| && k <= |list|
    requires forall l :: 0 <= l < |list| ==> list[l] < |b|
  {
    Adds(rows, out, GrownB(b, list, k), Under(c, cm, GrownB(b, list, k)))
  }

  ghost predicate BaselineAt(b: seq<Span>, s: Option<nat>, p: seq<nat>)
  {
    if s.None? then p == [] else PathTo(ParentsOf(b), p, s.value)
  }

  lemma {:induction false} BaselineStart(b: seq<Span>, c: seq<Span>, cm: seq<Match>, rows: seq<Row>, list: seq<nat>, s: Option<nat>)
    requires |cm| == |c| && Kids(ParentsOf(b), list, s)
    ensures forall l :: 0 <= l < |list| ==> list[l] < |b|
    ensures BaselineLoop(b, c, cm, rows, rows, list, 0)
  {
    assert Under(c, cm, {}) == {};
  }

  lemma {:induction false} BaselineNext(b: seq<Span>, c: seq<Span>, cm: seq<Match>, rows: seq<Row>, out: seq<Row>,
                     list: seq<nat>, k: nat, s: Option<nat>, p: seq<nat>)
    requires |cm| == |c| && Kids(ParentsOf(b), list, s) && k < |list| && BaselineAt(b, s, p)
    requires Unseen(rows, Under(c, cm, GrownB(b, list, |list|))) && BaselineLoop(b, c, cm, rows, out, list, k)
    ensures PathTo(ParentsOf(b), p + [list[k]], list[k]) && |p| < |b|
    ensures Unseen(out, Under(c, cm, Subtree(ParentsOf(b), list[k])))
  {
    var f, d := ParentsOf(b), list[k];
    if s.Some? {
      ExtendPath(f, p, s.value, d);
    } else {
      assert p + [d] == [d];
      RootIsRooted(f, d);
    }
    GrownDisjoint(f, NoFlags(|b|), f, list, s, k);
    HomedUnion(CutOf(c, cm), PartnersOf(cm), GrownB(b, list, k), Subtree(f, d));
    var rest := GrownB(b, list, |list|) - Subtree(f, d);
    HomedUnion(CutOf(c, cm), PartnersOf(cm), Subtree(f, d), rest);
    assert Subtree(f, d) + rest == GrownB(b, list, |list|);
    hide Homed, Subtree, Grown;
  }

  lemma {:induction false} BaselineDone(b: seq<Span>, c: seq<Span>, cm: seq<Match>, rows: seq<Row>, before: seq<Row>, out: seq<Row>,
                     list: seq<nat>, k: nat, s: Option<nat>)
    requires |cm| == |c| && Kids(ParentsOf(b), list, s) && k < |list|
    requires BaselineLoop(b, c, cm, rows, before, list, k)
    requires var d := Subtree(ParentsOf(b), list[k]); Adds(before, out, d, Under(c, cm, d))
    ensures BaselineLoop(b, c, cm, rows, out, list, k + 1)
  {
    var f, d := ParentsOf(b), Subtree(ParentsOf(b), list[k]);
    GrownDisjoint(f, NoFlags(|b|), f, list, s, k);
    HomedUnion(CutOf(c, cm), PartnersOf(cm), GrownB(b, list, k), d);
    AddsTrans(rows, before, out, GrownB(b, list, k), Under(c, cm, GrownB(b, list, k)), d, Under(c, cm, d));
    assert GrownB(b, list, k + 1) == GrownB(b, list, k) + d;
  }

  /** The row of a baseline span. */
  lemma {:induction false} BaselineRow(b: seq<Span>, c: seq<Span>, bm: seq<Match>, cm: seq<Match>, rows: seq<Row>, emitted: set<string>,
                    i: nat, depth: nat, p: seq<nat>)
    requires Consistent(b, c, bm, cm) && i < |b| && PathTo(ParentsOf(b), p, i) && |p| == depth + 1
    requires Emitted(c, cm, rows, emitted) && AllFit(b, c, bm, cm, rows)
    ensures var started := rows + [Row(Some(i), bm[i].matched, depth)];
            && Emitted(c, cm, started, emitted) && AllFit(b, c, bm, cm, started)
            && Adds(rows, started, {i}, if bm[i].matched.Some? then {bm[i].matched.value} else {})
  {
    var row := Row(Some(i), bm[i].matched, depth);
    AddsRow(rows, row);
    assert Fits(b, c, bm, cm, row);
    FitsAppend(b, c, bm, cm, rows, row);
    hide AllFit, Fits;
  }

  /** What hangs below one baseline span: its children's subtrees, and its partner's branch. */
  lemma {:induction false} BaselineKids(b: seq<Span>, c: seq<Span>, bm: seq<Match>, cm: seq<Match>, children: map<string, seq<nat>>,
                     i: nat, p: seq<nat>)
    requires Consistent(b, c, bm, cm) && i < |b| && ChildMap(b, children, |b|) && PathTo(ParentsOf(b), p, i)
    ensures var list := ChildrenAt(children, b[i].id);
            && Kids(ParentsOf(b), list, Some(i)) && Ascends(list)
            && (forall l :: 0 <= l < |list| ==> list[l] < |b|)
            && {i} !! GrownB(b, list, |list|)
            && Subtree(ParentsOf(b), i) == {i} + GrownB(b, list, |list|)
            && Under(c, cm, {i}) !! Under(c, cm, GrownB(b, list, |list|))
            && Under(c, cm, Subtree(ParentsOf(b), i)) == Under(c, cm, {i}) + Under(c, cm, GrownB(b, list, |list|))
    ensures Under(c, cm, {i}) == if bm[i].matched.Some? then Subtree(CutOf(c, cm), bm[i].matched.value) else {}
  {
    KidsOfMap(b, children);
    var list := ChildrenAt(children, b[i].id);
    assert Rooted(ParentsOf(b), i);
    GrownKids(ParentsOf(b), NoFlags(|b|), ParentsOf(b), list, i);
    HomedUnion(CutOf(c, cm), PartnersOf(cm), {i}, GrownB(b, list, |list|));
    HomedSingle(CutOf(c, cm), PartnersOf(cm), i, bm[i].matched);
    hide Homed, Subtree, Grown;
  }

  lemma {:induction false} PartnerKids(b: seq<Span>, c: seq<Span>, bm: seq<Match>, cm: seq<Match>, children: map<string, seq<nat>>,
                    i: nat, depth: nat, p: seq<nat>)
    requires Consistent(b, c, bm, cm) && i < |b| && ChildMap(c, children, |c|)
    requires PathTo(ParentsOf(b), p, i) && |p| == depth + 1 && bm[i].matched.Some?
    ensures var m := bm[i].matched.value;
            var list := ChildrenAt(children, c[m].id);
            && cm[m].matched == Some(i) && Anchored(b, c, cm, Some(m), [m], depth)
            && Kids(ParentsOf(c), list, Some(m)) && Ascends(list)
            && (forall l :: 0 <= l < |list| ==> list[l] < |c|)
            && {m} !! GrownC(c, cm, list, |list|)
            && Subtree(CutOf(c, cm), m) == {m} + GrownC(c, cm, list, |list|)
  {
    KidsOfMap(c, children);
    var m := bm[i].matched.value;
    RootIsRooted(CutOf(c, cm), m);
    GrownKids(ParentsOf(c), MatchedFlags(PartnersOf(cm)), CutOf(c, cm), ChildrenAt(children, c[m].id), m);
  }

  /** The candidate spans that get a row: those whose nearest matched ancestor or self is
      matched into a rooted baseline span, and those below an unmatched root. */
  ghost function Covered(b: seq<Span>, c: seq<Span>, cm: seq<Match>): set<nat>
    requires |cm| == |c|
  {
    Under(c, cm, RootedNodes(ParentsOf(b))) + Loose(CutOf(c, cm), MatchedFlags(PartnersOf(cm)))
  }

  lemma {:induction false} RootLists(b: seq<Span>, c: seq<Span>, cm: seq<Match>, bc: map<string, seq<nat>>, cc: map<string, seq<nat>>)
    requires |cm| == |c| && ChildMap(b, bc, |b|) && ChildMap(c, cc, |c|)
    ensures var list := ChildrenAt(bc, ROOT_SCOPE);
            && Kids(ParentsOf(b), list, None) && Ascends(list)
            && (forall l :: 0 <= l < |list| ==> list[l] < |b|)
            && GrownB(b, list, |list|) == RootedNodes(ParentsOf(b))
    ensures var list := ChildrenAt(cc, ROOT_SCOPE);
            && Kids(ParentsOf(c), list, None) && Ascends(list)
            && (forall l :: 0 <= l < |list| ==> list[l] < |c|)
            && GrownC(c, cm, list, |list|) == Loose(CutOf(c, cm), MatchedFlags(PartnersOf(cm)))
    ensures Under(c, cm, RootedNodes(ParentsOf(b))) !! Loose(CutOf(c, cm), MatchedFlags(PartnersOf(cm)))
  {
    KidsOfMap(b, bc);
    KidsOfMap(c, cc);
    GrownRoots(ParentsOf(b), NoFlags(|b|), ParentsOf(b), ChildrenAt(bc, ROOT_SCOPE));
    GrownRoots(ParentsOf(c), MatchedFlags(PartnersOf(cm)), CutOf(c, cm), ChildrenAt(cc, ROOT_SCOPE));
    LooseAll(ParentsOf(b), NoFlags(|b|));
    HomedNotLoose(CutOf(c, cm), PartnersOf(cm), RootedNodes(ParentsOf(b)));
    hide *;
  }

  lemma {:induction false} UnseenAfter(rows: seq<Row>, out: seq<Row>, bs: set<nat>, cs: set<nat>, total: set<nat>, rest: set<nat>)
    requires Unseen(rows, total) && Adds(rows, out, bs, cs) && rest <= total && cs !! rest
    ensures Unseen(out, rest)
  {
  }

  // ---- the summary ----

  datatype Summary = Summary(matchedSpans: nat, unmatchedBaseline: nat, unmatchedCandidate: nat, heuristicMatches: nat)

  /** Matched spans are the pairs of the matching, split into equal-id and heuristic ones, and
      each side is its matched and unmatched spans. */
  ghost predicate SummaryOf(b: seq<Span>, c: seq<Span>, bm: seq<Match>, cm: seq<Match>, x: Summary)
  {
    && x.matchedSpans == |PairsOf(bm)|
    && x.matchedSpans + x.unmatchedBaseline == |b|
    && x.matchedSpans + x.unmatchedCandidate == |c|
    && x.matchedSpans == |Stable(b, c)| + x.heuristicMatches
  }

  function MatchedCount(m: seq<Match>): nat
  {
    if m == [] then 0 else MatchedCount(m[..|m| - 1]) + (if m[|m| - 1].matched.Some? then 1 else 0)
  }

  method CountMatchedCompareSpans(m: seq<Match>) returns (count: nat)
    ensures count == MatchedCount(m)
  {
    count := 0;
    for i := 0 to |m|
      invariant count == MatchedCount(m[..i])
    {
      assert m[..i + 1][..i] == m[..i];
      if m[i].matched.Some? {
        count := count + 1;
      }
    }
    assert m[..|m|] == m;
  }

  method CountUnmatchedCompareSpans(m: seq<Match>) returns (count: nat)
    ensures count + MatchedCount(m) == |m|
  {
    count := 0;
    for i := 0 to |m|
      invariant count + MatchedCount(m[..i]) == i
    {
      assert m[..i + 1][..i] == m[..i];
      if m[i].matched.None? {
        count := count + 1;
      }
    }
    assert m[..|m|] == m;
  }

  lemma {:induction false} PairsCounted(m: seq<Match>)
    ensures |PairsOf(m)| == MatchedCount(m)
  {
    if m != [] {
      var n := |m| - 1;
      PairsCounted(m[..n]);
      var last := if m[n].matched.Some? then {(n, m[n].matched.value)} else {};
      forall p: (nat, nat)
        ensures p in PairsOf(m) <==> p in PairsOf(m[..n]) + last
      {
        assert p in PairsOf(m) <==> p.0 < |m| && m[p.0].matched == Some(p.1);
        assert p in PairsOf(m[..n]) <==> p.0 < n && m[..n][p.0].matched == Some(p.1);
      }
      assert PairsOf(m) == PairsOf(m[..n]) + last;
    } else {
      assert PairsOf(m) == {};
    }
  }

  /** The two tables count the same pairs. */
  lemma {:induction false} MatchedCounts(b: seq<Span>, c: seq<Span>, bm: seq<Match>, cm: seq<Match>)
    requires Consistent(b, c, bm, cm)
    ensures MatchedCount(bm) == |PairsOf(bm)| == MatchedCount(cm)
  {
    PairsCounted(bm);
    PairsCounted(cm);
    SwapMembers(PairsOf(bm));
    forall p: (nat, nat)
      ensures p in PairsOf(cm) <==> p in Swap(PairsOf(bm))
    {
      assert p in PairsOf(cm) <==> p.0 < |cm| && cm[p.0].matched == Some(p.1);
      assert (p.1, p.0) in PairsOf(bm) <==> p.1 < |bm| && bm[p.1].matched == Some(p.0);
    }
    assert PairsOf(cm) == Swap(PairsOf(bm));
    SwapSize(PairsOf(bm));
  }

  /** The equal-id pairs but those whose id is still to come. */
  ghost predicate StableBut(b: seq<Span>, c: seq<Span>, pairs: Pairs, remaining: set<string>)
  {
    forall p :: p in pairs <==> p in Stable(b, c) && b[p.0].id !in remaining
  }

  /** Handling one id adds its pair, if both traces have it, and both spans are free for it. */
  lemma {:induction false} StableStep(b: seq<Span>, c: seq<Span>, bm: seq<Match>, cm: seq<Match>,
                                      bId: map<string, nat>, cId: map<string, nat>, remaining: set<string>, id: string)
    requires ValidSpans(b) && ValidSpans(c) && Indexed(b, bId) && Indexed(c, cId) && Consistent(b, c, bm, cm)
    requires id in remaining && id in bId && StableBut(b, c, PairsOf(bm), remaining)
    ensures bId[id] < |b| && (id in cId ==> cId[id] < |c|)
    ensures id in cId ==>
              && bm[bId[id]].matched.None? && cm[cId[id]].matched.None? && SourceOf(b[bId[id]], c[cId[id]]) == StableId
              && StableBut(b, c, PairsOf(bm) + {(bId[id], cId[id])}, remaining - {id})
    ensures id !in cId ==> StableBut(b, c, PairsOf(bm), remaining - {id})
  {
    if id in cId {
      var i, j := bId[id], cId[id];
      assert forall k: nat :: (i, k) !in PairsOf(bm);
      assert forall k: nat :: (k, j) !in PairsOf(bm);
      UnpairedFree(b, c, bm, cm, i, j);
    }
  }

  lemma {:induction false} UnpairedFree(b: seq<Span>, c: seq<Span>, bm: seq<Match>, cm: seq<Match>, i: nat, j: nat)
    requires Consistent(b, c, bm, cm) && i < |b| && j < |c|
    ensures bm[i].matched.None? || (i, bm[i].matched.value) in PairsOf(bm)
    ensures cm[j].matched.None? || (cm[j].matched.value, j) in PairsOf(bm)
  {
  }


  class SessionComparisonBuilder {
    const b: seq<Span>
    const c: seq<Span>
    const bId: map<string, nat>
    const cId: map<string, nat>
    const baselineChildren: map<string, seq<nat>>
    const candidateChildren: map<string, seq<nat>>
    var bm: seq<Match>
    var cm: seq<Match>
    var heuristicMatches: nat
    var emittedCandidate: set<string>

    ghost predicate Valid()
      reads `bm, `cm
    {
      && |bm| == |b| && |cm| == |c|
      && ValidSpans(b) && ValidSpans(c) && Indexed(b, bId) && Indexed(c, cId)
      && Consistent(b, c, bm, cm)
      && ChildMap(b, baselineChildren, |b|) && ChildMap(c, candidateChildren, |c|)
    }

    constructor (b: seq<Span>, c: seq<Span>)
      requires ValidSpans(b) && ValidSpans(c)
      ensures Valid() && this.b == b && this.c == c && PairsOf(bm) == {} && emittedCandidate == {}
    {
      this.b, this.c := b, c;
      var x := IndexById(b);
      var y := IndexById(c);
      var baselineKids := GroupSessionCompareChildren(b, x);
      var candidateKids := GroupSessionCompareChildren(c, y);
      bId, cId, baselineChildren, candidateChildren := x, y, baselineKids, candidateKids;
      bm, cm := seq(|b|, _ => UNMATCHED), seq(|c|, _ => UNMATCHED);
      heuristicMatches, emittedCandidate := 0, {};
    }

    method AssignSpanPair(i: nat, j: nat, source: MatchSource)
      requires Valid() && i < |b| && j < |c| && bm[i].matched.None? && cm[j].matched.None?
      requires source == SourceOf(b[i], c[j])
      modifies `bm, `cm
      ensures Valid()
      ensures bm == old(bm)[i := MatchOf(b, c, i, j, j)] && cm == old(cm)[j := MatchOf(b, c, i, j, i)]
      ensures PairsOf(bm) == PairsOf(old(bm)) + {(i, j)}
    {
      ConsistentStep(b, c, bm, cm, i, j);
      var pairId := b[i].id + "|" + c[j].id;
      bm := bm[i := Match(Some(j), pairId, Some(source))];
      cm := cm[j := Match(Some(i), pairId, Some(source))];
    }

    method MatchStableSpans()
      requires Valid() && PairsOf(bm) == {}
      modifies `bm, `cm
      ensures Valid() && PairsOf(bm) == Stable(b, c)
    {
      var remaining := bId.Keys;
      while remaining != {}
        invariant Valid() && remaining <= bId.Keys && StableBut(b, c, PairsOf(bm), remaining)
        decreases remaining
      {
        hide StableBut, Consistent, ChildMap, ValidSpans;
        var id :| id in remaining;
        var i := bId[id];
        StableStep(b, c, bm, cm, bId, cId, remaining, id);
        remaining := remaining - {id};
        if id in cId {
          AssignSpanPair(i, cId[id], StableId);
        }
      }
    }

    /** Pairs two groups if each holds one span and neither span is matched. */
    method PairGroups(baselineGroup: seq<nat>, candidateGroup: seq<nat>) returns (paired: bool)
      requires Valid()
      requires |baselineGroup| == 1 ==> baselineGroup[0] < |b|
      requires |candidateGroup| == 1 ==> candidateGroup[0] < |c|
      requires |baselineGroup| == 1 == |candidateGroup| ==> SourceOf(b[baselineGroup[0]], c[candidateGroup[0]]) == Heuristic
      modifies `bm, `cm
      ensures Valid()
      ensures paired <==> |baselineGroup| == 1 == |candidateGroup|
                          && old(bm)[baselineGroup[0]].matched.None? && old(cm)[candidateGroup[0]].matched.None?
      ensures !paired ==> bm == old(bm) && cm == old(cm)
      ensures paired ==> var i, j := baselineGroup[0], candidateGroup[0];
                         bm == old(bm)[i := MatchOf(b, c, i, j, j)] && cm == old(cm)[j := MatchOf(b, c, i, j, i)]
    {
      paired := false;
      if |baselineGroup| == 1 && |candidateGroup| == 1 {
        var i, j := baselineGroup[0], candidateGroup[0];
        if bm[i].matched.None? && cm[j].matched.None? {
          AssignSpanPair(i, j, Heuristic);
          paired := true;
        }
      }
    }

    method GroupBoth() returns (baselineGroups: map<HeuristicKey, seq<nat>>, candidateGroups: map<HeuristicKey, seq<nat>>)
      requires Valid() && RoundState(b, c, bm, cm)
      ensures GroupsOf(b, c, bId, cId, Tables(bm, cm), Groups(baselineGroups, candidateGroups))
    {
      PairIdsDistinct(b, c, bm, cm);
      ScopesAreFaithful(b, bId, bm);
      ScopesAreFaithful(c, cId, cm);
      baselineGroups := GroupHeuristicCandidates(b, bId, bm);
      candidateGroups := GroupHeuristicCandidates(c, cId, cm);
    }

    /** One round: group both sides, then pair every key that names one span on each. */
    method HeuristicRound() returns (matchedThisRound: nat)
      requires Valid() && RoundState(b, c, bm, cm)
      modifies `bm, `cm
      ensures Valid() && RoundState(b, c, bm, cm)
      ensures PairsOf(old(bm)) <= PairsOf(bm)
      ensures forall p :: p in PairsOf(bm) - PairsOf(old(bm)) ==> Enabled(b, c, PairsOf(old(bm)), p.0, p.1)
      ensures |PairsOf(bm)| == |PairsOf(old(bm))| + matchedThisRound
      ensures matchedThisRound == 0 ==> Closed(b, c, PairsOf(bm))
    {
      hide GroupsOf, RoundState, Indexed, ValidSpans, PairsOf, Consistent, Closed, SourceOf, MatchOf;
      ghost var t0 := Tables(bm, cm);
      var baselineGroups, candidateGroups := GroupBoth();
      ghost var g := Groups(baselineGroups, candidateGroups);
      matchedThisRound := 0;
      var remaining := baselineGroups.Keys;
      VisitStart(b, c, bId, cId, t0, g);
      while remaining != {}
        invariant Valid() && Visited(b, c, t0, Tables(bm, cm), g, remaining, matchedThisRound)
        decreases remaining
      {
        var key :| key in remaining;
        var candidateGroup := if key in candidateGroups then candidateGroups[key] else [];
        if key in candidateGroups {
          VisitPair(b, c, bId, cId, t0, Tables(bm, cm), g, remaining, matchedThisRound, key);
        } else {
          VisitSkip(b, c, t0, Tables(bm, cm), g, remaining, matchedThisRound, key);
        }
        remaining := remaining - {key};
        var paired := PairGroups(baselineGroups[key], candidateGroup);
        if paired {
          matchedThisRound := matchedThisRound + 1;
        }
      }
      VisitEnd(b, c, bId, cId, t0, Tables(bm, cm), g, matchedThisRound);
    }

    /** Rounds of heuristic matching until one adds nothing: whatever order each round visits
        its groups in, the result is the least closed relation. */
    method MatchHeuristicSpans() returns (matches: nat)
      requires Valid() && PairsOf(bm) == Stable(b, c)
      modifies `bm, `cm
      ensures Valid() && IsMatching(b, c, PairsOf(bm))
      ensures |PairsOf(bm)| == |Stable(b, c)| + matches
    {
      matches := 0;
      while true
        invariant Valid() && RoundState(b, c, bm, cm)
        invariant forall s: Pairs :: Closed(b, c, s) ==> PairsOf(bm) <= s
        invariant |PairsOf(bm)| == |Stable(b, c)| + matches
        decreases |b| - |PairsOf(bm)|
      {
        hide RoundState, Indexed, ValidSpans, PairsOf, Consistent, Stable;
        ghost var before := PairsOf(bm);
        var matchedThisRound := HeuristicRound();
        RoundBelow(b, c, before, PairsOf(bm));
        PairsBounded(bm);
        matches := matches + matchedThisRound;
        if matchedThisRound == 0 {
          break;
        }
      }
    }

    // ---- rows ----

    /** The unmatched children among a list, each with its branch. */
    method AppendUnmatchedChildren(rows: seq<Row>, list: seq<nat>, depth: nat,
                                   ghost s: Option<nat>, ghost q: seq<nat>, ghost base: nat, ghost at: seq<nat>)
      returns (out: seq<Row>)
      requires Valid() && Kids(ParentsOf(c), list, s) && Anchored(b, c, cm, s, q, base) && depth == base + |q|
      requires Emitted(c, cm, rows, emittedCandidate) && AllFit(b, c, bm, cm, rows)
      requires Unseen(rows, GrownC(c, cm, list, |list|))
      requires CandidateDue(b, c, cm, rows, list, s, at) && depth == |at|
      modifies `emittedCandidate
      ensures Emitted(c, cm, out, emittedCandidate) && AllFit(b, c, bm, cm, out)
      ensures KidsOrdered(b, c, cm, rows, out, list, |list|, at, |b|)
      ensures Adds(rows, out, {}, GrownC(c, cm, list, |list|))
      decreases |c| - |q|, 0
    {
      hide ValidSpans, Indexed, Consistent, ChildMap, Kids, Anchored, Emitted, AllFit, Unseen, Grown, GrownC, Adds,
           CandidateDue, BranchDue, KidsOrdered, BranchOrdered;
      out := rows;
      ChildStart(c, cm, rows, list, s);
      CandidateOrderStart(b, c, cm, rows, list, s, at);
      var k := 0;
      while k < |list|
        invariant 0 <= k <= |list| && Valid()
        invariant Emitted(c, cm, out, emittedCandidate) && AllFit(b, c, bm, cm, out)
        invariant ChildLoop(c, cm, rows, out, list, k) && KidsOrdered(b, c, cm, rows, out, list, k, at, |b|)
      {
        var child := list[k];
        CandidateOrderNext(b, c, cm, rows, out, list, k, s, at);
        ChildNext(b, c, cm, rows, out, emittedCandidate, list, k, s, q, base);
        if cm[child].matched.None? && c[child].id !in emittedCandidate {
          ghost var before := out;
          out := AppendCandidateOnlyBranch(out, child, depth, q + [child], base, at + [|b| + child]);
          ChildDone(c, cm, rows, before, out, list, k, s);
          OrderDone(b, c, cm, rows, before, out, list, k, at, |b|, |b| + child);
        } else {
          OrderSkip(b, c, cm, rows, out, list, k, at, |b|);
        }
        k := k + 1;
      }
    }

    method AppendBaselineChildren(rows: seq<Row>, list: seq<nat>, depth: nat, ghost s: Option<nat>, ghost p: seq<nat>)
      returns (out: seq<Row>)
      requires Valid() && Kids(ParentsOf(b), list, s) && BaselineAt(b, s, p) && depth == |p|
      requires Emitted(c, cm, rows, emittedCandidate) && AllFit(b, c, bm, cm, rows)
      requires Unseen(rows, Under(c, cm, GrownB(b, list, |list|))) && BaselineDue(b, c, cm, rows, list, s, p)
      modifies `emittedCandidate
      ensures Emitted(c, cm, out, emittedCandidate) && AllFit(b, c, bm, cm, out)
      ensures KidsOrdered(b, c, cm, rows, out, list, |list|, p, 0)
      ensures Adds(rows, out, GrownB(b, list, |list|), Under(c, cm, GrownB(b, list, |list|)))
      decreases |b| - |p|, 0
    {
      hide ValidSpans, Indexed, Consistent, ChildMap, Kids, BaselineAt, Emitted, AllFit, Unseen, Subtree, GrownB, Under, Adds,
           BaselineDue, BranchDue, KidsOrdered, BranchOrdered;
      out := rows;
      BaselineStart(b, c, cm, rows, list, s);
      BaselineOrderStart(b, c, cm, rows, list, s, p);
      var k := 0;
      while k < |list|
        invariant 0 <= k <= |list| && Valid()
        invariant Emitted(c, cm, out, emittedCandidate) && AllFit(b, c, bm, cm, out)
        invariant BaselineLoop(b, c, cm, rows, out, list, k) && KidsOrdered(b, c, cm, rows, out, list, k, p, 0)
      {
        BaselineNext(b, c, cm, rows, out, list, k, s, p);
        BaselineOrderNext(b, c, cm, rows, out, list, k, s, p);
        ghost var before := out;
        out := AppendBaselineBranch(out, list[k], depth, p + [list[k]]);
        BaselineDone(b, c, cm, rows, before, out, list, k, s);
        OrderDone(b, c, cm, rows, before, out, list, k, p, 0, list[k]);
        k := k + 1;
      }
    }

    method AppendBaselineBranch(rows: seq<Row>, i: nat, depth: nat, ghost p: seq<nat>) returns (out: seq<Row>)
      requires Valid() && i < |b| && PathTo(ParentsOf(b), p, i) && |p| == depth + 1
      requires Emitted(c, cm, rows, emittedCandidate) && AllFit(b, c, bm, cm, rows)
      requires Unseen(rows, Under(c, cm, Subtree(ParentsOf(b), i))) && BranchDue(b, c, cm, rows, i, p)
      modifies `emittedCandidate
      ensures Emitted(c, cm, out, emittedCandidate) && AllFit(b, c, bm, cm, out) && BranchOrdered(b, c, cm, rows, out, p)
      ensures Adds(rows, out, Subtree(ParentsOf(b), i), Under(c, cm, Subtree(ParentsOf(b), i)))
      decreases |b| - |p|, 1
    {
      hide ValidSpans, Indexed, Consistent, ChildMap, Kids, Emitted, AllFit, Subtree, GrownB, GrownC, Under, PathTo, Adds, Unseen,
           BaselineDue, CandidateDue, BranchDue, KidsOrdered, BranchOrdered, AddsUnder, RowsBefore, Ascends;
      var started := rows + [Row(Some(i), bm[i].matched, depth)];
      var kids := ChildrenAt(baselineChildren, b[i].id);
      BaselineRow(b, c, bm, cm, rows, emittedCandidate, i, depth, p);
      BaselineKids(b, c, bm, cm, baselineChildren, i, p);
      ghost var grown := GrownB(b, kids, |kids|);
      ghost var total, below := Under(c, cm, Subtree(ParentsOf(b), i)), Under(c, cm, grown);
      ghost var partner: set<nat> := if bm[i].matched.Some? then {bm[i].matched.value} else {};
      if bm[i].matched.Some? {
        PartnerKids(b, c, bm, cm, candidateChildren, i, depth, p);
      }
      UnseenAfter(rows, started, {i}, partner, total, below);
      BaselineOrderRow(b, c, cm, rows, Row(Some(i), bm[i].matched, depth), kids, p);
      out := AppendBaselineChildren(started, kids, depth + 1, Some(i), p);
      BranchOrderDone(b, c, cm, rows, started, out, kids, p, 0);
      AddsTrans(rows, started, out, {i}, partner, grown, below);
      if bm[i].matched.Some? {
        var m := bm[i].matched.value;
        var partnerKids := ChildrenAt(candidateChildren, c[m].id);
        ghost var loose := GrownC(c, cm, partnerKids, |partnerKids|);
        ghost var grownRows := out;
        UnseenAfter(rows, out, {i} + grown, partner + below, total, loose);
        PartnerOrder(b, c, cm, started, out, i, m, kids, partnerKids, p);
        out := AppendUnmatchedChildren(out, partnerKids, depth + 1, Some(m), [m], depth, p);
        PartnerBranchDone(b, c, cm, rows, grownRows, out, partnerKids, p);
        AddsTrans(rows, grownRows, out, {i} + grown, partner + below, {}, loose);
        assert {i} + grown + {} == {i} + grown;
        assert partner + below + loose == total;
      } else {
        assert partner + below == total;
      }
    }

    method AppendCandidateOnlyBranch(rows: seq<Row>, j: nat, depth: nat, ghost q: seq<nat>, ghost base: nat, ghost at: seq<nat>)
      returns (out: seq<Row>)
      requires Valid() && j < |c| && cm[j].matched.None?
      requires Anchored(b, c, cm, Some(j), q, base) && depth + 1 == base + |q|
      requires Emitted(c, cm, rows, emittedCandidate) && AllFit(b, c, bm, cm, rows)
      requires Unseen(rows, Subtree(CutOf(c, cm), j)) && BranchDue(b, c, cm, rows, |b| + j, at) && |at| == depth + 1
      modifies `emittedCandidate
      ensures Emitted(c, cm, out, emittedCandidate) && AllFit(b, c, bm, cm, out) && BranchOrdered(b, c, cm, rows, out, at)
      ensures Adds(rows, out, {}, Subtree(CutOf(c, cm), j))
      decreases |c| - |q|, 1
    {
      hide ValidSpans, Indexed, Consistent, ChildMap, Kids, Emitted, AllFit, Unseen, Subtree, GrownC, Adds, PathTo, BaseDepth,
           CandidateDue, BranchDue, KidsOrdered, BranchOrdered, AddsUnder, Ascends;
      var kids := ChildrenAt(candidateChildren, c[j].id);
      CandidateRow(b, c, bm, cm, rows, emittedCandidate, j, depth, q, base);
      CandidateKids(c, cm, rows, candidateChildren, j, depth, q);
      emittedCandidate := emittedCandidate + {c[j].id};
      var started := rows + [Row(None, Some(j), depth)];
      CandidateOrderRow(b, c, cm, rows, Row(None, Some(j), depth), kids, at);
      out := AppendUnmatchedChildren(started, kids, depth + 1, Some(j), q, base, at);
      BranchOrderDone(b, c, cm, rows, started, out, kids, at, |b|);
      ghost var none: set<nat> := {};
      AddsTrans(rows, started, out, none, {j}, none, GrownC(c, cm, kids, |kids|));
      assert none + none == none;
    }

    /** Matches the spans, then emits the rows: each rooted baseline span once, each covered
        candidate span once, and matched spans in one row. */
    method Build() returns (rows: seq<Row>, summary: Summary)
      requires Valid() && PairsOf(bm) == {} && emittedCandidate == {}
      modifies this
      ensures Valid() && IsMatching(b, c, PairsOf(bm))
      ensures Adds([], rows, RootedNodes(ParentsOf(b)), Covered(b, c, cm)) && AllFit(b, c, bm, cm, rows)
      ensures InTreeOrder(RowForest(b, c, cm), |b|, rows)
      ensures SummaryOf(b, c, bm, cm, summary)
    {
      hide ValidSpans, Indexed, Consistent, ChildMap, Kids, RootedNodes, GrownB, GrownC, Under, Loose, PairsOf, Stable, IsMatching,
           BaselineDue, CandidateDue, InTreeOrder, Ascends, AddsKids;
      MatchStableSpans();
      heuristicMatches := MatchHeuristicSpans();
      RootLists(b, c, cm, baselineChildren, candidateChildren);
      RootsOrder(b, c, cm, ChildrenAt(baselineChildren, ROOT_SCOPE));
      rows := AppendBaselineChildren([], ChildrenAt(baselineChildren, ROOT_SCOPE), 0, None, []);
      ghost var before := rows;
      CandidateRootsOrder(b, c, cm, rows, ChildrenAt(baselineChildren, ROOT_SCOPE), ChildrenAt(candidateChildren, ROOT_SCOPE));
      rows := AppendUnmatchedChildren(rows, ChildrenAt(candidateChildren, ROOT_SCOPE), 0, None, [], 0, []);
      ghost var loose := Loose(CutOf(c, cm), MatchedFlags(PartnersOf(cm)));
      ghost var rooted := RootedNodes(ParentsOf(b));
      AddsTrans([], before, rows, rooted, Under(c, cm, rooted), {}, loose);
      assert rooted + {} == rooted;
      summary := BuildSummary();
    }

    method BuildSummary() returns (summary: Summary)
      requires Valid() && |PairsOf(bm)| == |Stable(b, c)| + heuristicMatches
      ensures SummaryOf(b, c, bm, cm, summary)
    {
      var matched := CountMatchedCompareSpans(bm);
      var unmatchedBaseline := CountUnmatchedCompareSpans(bm);
      var unmatchedCandidate := CountUnmatchedCompareSpans(cm);
      MatchedCounts(b, c, bm, cm);
      summary := Summary(matched, unmatchedBaseline, unmatchedCandidate, heuristicMatches);
    }
  }
}
