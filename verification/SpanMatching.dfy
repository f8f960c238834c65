/** What the span matching of a session comparison means, stated on two lists of spans
    and independently of the rounds that compute it. Spans are named by list position. */
module SpanMatching {
  import opened Basics

  const ROOT_SCOPE := "__root__"

  datatype Span = Span(id: string, parent: Option<string>, name: string, kind: string)

  type Pairs = set<(nat, nat)>

  predicate UniqueIds(s: seq<Span>)
  {
    forall i, j :: 0 <= i < j < |s| ==> s[i].id != s[j].id
  }

  /** The ids a comparison can handle: unique per trace, free of the pair separator, and
      never the root key of the child map. */
  predicate ValidSpans(s: seq<Span>)
  {
    && UniqueIds(s)
    && (forall i :: 0 <= i < |s| ==> '|' !in s[i].id && s[i].id != ROOT_SCOPE)
  }

  /** Position of the span with this id, if any. */
  function Find(s: seq<Span>, id: string): (r: Option<nat>)
    ensures r.Some? ==> r.value < |s| && s[r.value].id == id
    ensures r.None? ==> forall i :: 0 <= i < |s| ==> s[i].id != id
  {
    if s == [] then None
    else if s[|s| - 1].id == id then Some(|s| - 1)
    else Find(s[..|s| - 1], id)
  }

  /** The parent as a position: none for a span whose parent is absent or not in the trace. */
  function Parent(s: seq<Span>, i: nat): (r: Option<nat>)
    requires i < |s|
    ensures r.Some? ==> r.value < |s| && s[i].parent == Some(s[r.value].id)
  {
    if s[i].parent.None? then None else Find(s, s[i].parent.value)
  }

  function ParentsOf(s: seq<Span>): (f: seq<Option<nat>>)
    ensures |f| == |s| && forall i :: 0 <= i < |s| ==> f[i] == Parent(s, i)
  {
    seq(|s|, i requires 0 <= i < |s| => Parent(s, i))
  }

  /** How many of the first n spans have parent p. */
  function SiblingsBefore(s: seq<Span>, p: Option<nat>, n: nat): nat
    requires n <= |s|
  {
    if n == 0 then 0
    else SiblingsBefore(s, p, n - 1) + (if Parent(s, n - 1) == p then 1 else 0)
  }

  function Ordinal(s: seq<Span>, i: nat): nat
    requires i < |s|
  {
    SiblingsBefore(s, Parent(s, i), i)
  }

  function Stable(b: seq<Span>, c: seq<Span>): Pairs
  {
    set i: nat, j: nat | i < |b| && j < |c| && b[i].id == c[j].id :: (i, j)
  }

  predicate IdMatched(s: seq<Span>, i: nat, other: seq<Span>)
    requires i < |s|
  {
    exists j :: 0 <= j < |other| && other[j].id == s[i].id
  }

  predicate SameScope(b: seq<Span>, c: seq<Span>, r: Pairs, i: nat, j: nat)
    requires i < |b| && j < |c|
  {
    match (Parent(b, i), Parent(c, j))
    case (None, None) => true
    case (Some(p), Some(q)) => (p, q) in r
    case _ => false
  }

  /** The heuristic rule: neither span is matched by id, both are roots or their parents
      are matched to each other, and name, kind and ordinal agree. */
  predicate Enabled(b: seq<Span>, c: seq<Span>, r: Pairs, i: nat, j: nat)
  {
    && i < |b| && j < |c|
    && !IdMatched(b, i, c) && !IdMatched(c, j, b)
    && SameScope(b, c, r, i, j)
    && b[i].name == c[j].name && b[i].kind == c[j].kind
    && Ordinal(b, i) == Ordinal(c, j)
  }

  ghost predicate Closed(b: seq<Span>, c: seq<Span>, r: Pairs)
  {
    && Stable(b, c) <= r
    && forall i: nat, j: nat :: Enabled(b, c, r, i, j) ==> (i, j) in r
  }

  /** The least relation that holds every equal-id pair and is closed under the rule. */
  ghost predicate IsMatching(b: seq<Span>, c: seq<Span>, r: Pairs)
  {
    && Closed(b, c, r)
    && forall s: Pairs :: Closed(b, c, s) ==> r <= s
  }

  predicate Functional(r: Pairs)
  {
    && (forall p, q :: p in r && q in r && p.0 == q.0 ==> p == q)
    && (forall p, q :: p in r && q in r && p.1 == q.1 ==> p == q)
  }

  /** Each pair is an equal-id pair or is justified by the rule from pairs in the relation. */
  predicate Supported(b: seq<Span>, c: seq<Span>, r: Pairs)
  {
    forall p :: p in r ==> p in Stable(b, c) || Enabled(b, c, r, p.0, p.1)
  }

  // ---- ordinals ----

  lemma {:induction false} SiblingsMonotone(s: seq<Span>, p: Option<nat>, m: nat, n: nat)
    requires m <= n <= |s|
    ensures SiblingsBefore(s, p, m) <= SiblingsBefore(s, p, n)
  {
    if m < n {
      SiblingsMonotone(s, p, m, n - 1);
    }
  }

  /** Siblings are numbered without repeats, so a heuristic key names at most one span. */
  lemma {:induction false} OrdinalInjective(s: seq<Span>, i: nat, k: nat)
    requires i < |s| && k < |s|
    requires Parent(s, i) == Parent(s, k) && Ordinal(s, i) == Ordinal(s, k)
    ensures i == k
  {
    if i < k {
      SiblingsMonotone(s, Parent(s, i), i + 1, k);
    } else if k < i {
      SiblingsMonotone(s, Parent(s, i), k + 1, i);
    }
  }

  // ---- the matching as a relation ----

  predicate InRange(b: seq<Span>, c: seq<Span>, r: Pairs)
  {
    forall p :: p in r ==> p.0 < |b| && p.1 < |c|
  }


  /** A pair the rule enables cannot clash with a pair already justified. */
  lemma {:induction false} EnabledRespectsPairs(b: seq<Span>, c: seq<Span>, r: Pairs, i: nat, j: nat)
    requires UniqueIds(b) && UniqueIds(c)
    requires InRange(b, c, r) && Functional(r) && Supported(b, c, r)
    requires Enabled(b, c, r, i, j)
    ensures forall p :: p in r && p.0 == i ==> p == (i, j)
    ensures forall p :: p in r && p.1 == j ==> p == (i, j)
  {
    forall p | p in r && p.0 == i
      ensures p == (i, j)
    {
      assert p !in Stable(b, c);
      var k := p.1;
      assert Enabled(b, c, r, i, k);
      assert Parent(c, j) == Parent(c, k) by {
        if Parent(b, i).Some? {
          var q := Parent(b, i).value;
          assert (q, Parent(c, j).value) in r && (q, Parent(c, k).value) in r;
        }
      }
      OrdinalInjective(c, j, k);
    }
    forall p | p in r && p.1 == j
      ensures p == (i, j)
    {
      assert p !in Stable(b, c);
      var k := p.0;
      assert Enabled(b, c, r, k, j);
      assert Parent(b, i) == Parent(b, k) by {
        if Parent(c, j).Some? {
          var q := Parent(c, j).value;
          assert (Parent(b, i).value, q) in r && (Parent(b, k).value, q) in r;
        }
      }
      OrdinalInjective(b, i, k);
    }
  }

  /** The rule is monotone: more pairs enable more pairs. */
  lemma {:induction false} EnabledMonotone(b: seq<Span>, c: seq<Span>, r: Pairs, s: Pairs, i: nat, j: nat)
    requires r <= s && Enabled(b, c, r, i, j)
    ensures Enabled(b, c, s, i, j)
  {
  }

  /** The matching is one relation, whatever order the rounds visit their groups in. */
  lemma {:induction false} MatchingUnique(b: seq<Span>, c: seq<Span>, r: Pairs, s: Pairs)
    requires IsMatching(b, c, r) && IsMatching(b, c, s)
    ensures r == s
  {
    assert r <= s && s <= r;
  }

  /** Being least, the matching holds nothing that the rule does not justify from within it. */
  lemma {:induction false} MatchingSupported(b: seq<Span>, c: seq<Span>, r: Pairs)
    requires IsMatching(b, c, r)
    ensures Supported(b, c, r) && Stable(b, c) <= r
  {
    var s := set p | p in r && (p in Stable(b, c) || Enabled(b, c, r, p.0, p.1));
    forall i: nat, j: nat | Enabled(b, c, s, i, j)
      ensures (i, j) in s
    {
      EnabledMonotone(b, c, s, r, i, j);
    }
    assert Closed(b, c, s);
  }

  function Swap(r: Pairs): Pairs
  {
    set p | p in r :: (p.1, p.0)
  }

  lemma {:induction false} SwapMembers(r: Pairs)
    ensures forall i: nat, j: nat :: (i, j) in Swap(r) <==> (j, i) in r
    ensures Swap(Swap(r)) == r
  {
    forall i: nat, j: nat
      ensures (i, j) in Swap(r) <==> (j, i) in r
    {
      if (j, i) in r {
        assert ((j, i).1, (j, i).0) in Swap(r);
      }
    }
    forall p: (nat, nat)
      ensures p in Swap(Swap(r)) <==> p in r
    {
      if p in r {
        assert (p.1, p.0) in Swap(r);
        assert ((p.1, p.0).1, (p.1, p.0).0) in Swap(Swap(r));
      }
    }
  }

  lemma {:induction false} SwapSize(r: Pairs)
    ensures |Swap(r)| == |r|
  {
    SwapMembers(r);
    if r != {} {
      var p :| p in r;
      SwapSize(r - {p});
      SwapMembers(r - {p});
      assert Swap(r) == Swap(r - {p}) + {(p.1, p.0)};
    }
  }

  lemma {:induction false} SwapClosed(b: seq<Span>, c: seq<Span>, r: Pairs)
    requires Closed(b, c, r)
    ensures Closed(c, b, Swap(r))
  {
    SwapMembers(r);
    forall p | p in Stable(c, b)
      ensures p in Swap(r)
    {
      assert (p.1, p.0) in Stable(b, c);
    }
    forall i: nat, j: nat | Enabled(c, b, Swap(r), i, j)
      ensures (i, j) in Swap(r)
    {
      assert Enabled(b, c, r, j, i);
    }
  }

  /** Comparing the traces the other way round transposes the matching. */
  lemma {:induction false} MatchingTransposes(b: seq<Span>, c: seq<Span>, r: Pairs)
    requires IsMatching(b, c, r)
    ensures IsMatching(c, b, Swap(r))
  {
    SwapClosed(b, c, r);
    forall s: Pairs | Closed(c, b, s)
      ensures Swap(r) <= s
    {
      SwapClosed(c, b, s);
      SwapMembers(r);
      SwapMembers(s);
      assert r <= Swap(s);
      forall p | p in Swap(r)
        ensures p in s
      {
        assert (p.1, p.0) in r;
        assert (p.1, p.0) in Swap(s);
      }
    }
  }

  // ---- pair ids as scopes ----

  function PairId(x: string, y: string): string
  {
    x + "|" + y
  }

  /** With the separator barred from span ids, a pair id names one pair of spans. */
  lemma {:induction false} PairIdInjective(x: string, y: string, u: string, v: string)
    requires '|' !in x && '|' !in u
    requires PairId(x, y) == PairId(u, v)
    ensures x == u && y == v
  {
    var s := PairId(x, y);
    assert s[|x|] == '|' && s[|u|] == '|';
    assert forall k :: 0 <= k < |x| ==> s[k] != '|';
    assert forall k :: 0 <= k < |u| ==> s[k] != '|';
    assert |x| == |u|;
    assert x == s[..|x|] == u;
    assert y == s[|x| + 1..] == v;
  }

  lemma {:induction false} PairIdNotRoot(x: string, y: string)
    ensures PairId(x, y) != ROOT_SCOPE
  {
    assert '|' == PairId(x, y)[|x|];
    assert '|' !in ROOT_SCOPE;
  }
}
