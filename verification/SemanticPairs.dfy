/** Pairing the semantic events of two matched spans, and the diff groups it yields. Events
    are named by their position in their span's list. */
module SemanticPairs {
  import opened Basics

  datatype EventType = Decision | Effect | Wait

  /** key is what the key function of the event's type yields: the normalized question, the
      effect id or the wait id, if the payload holds a usable one. */
  datatype Event = Event(id: string, eventType: EventType, key: Option<string>)

  datatype DiffGroup = DiffGroup(eventType: EventType, baseline: Option<nat>, candidate: Option<nat>)

  function GroupAt(groups: map<string, seq<nat>>, key: string): seq<nat>
  {
    if key in groups then groups[key] else []
  }

  /** The first n events of a type with this key, in order. */
  function Members(ev: seq<Event>, t: EventType, key: string, n: nat): (r: seq<nat>)
    requires n <= |ev|
    ensures forall k: nat :: k in r <==> k < n && ev[k].eventType == t && ev[k].key == Some(key)
  {
    if n == 0 then []
    else
      Members(ev, t, key, n - 1) + (if ev[n - 1].eventType == t && ev[n - 1].key == Some(key) then [n - 1] else [])
  }

  /** The event alone has its type and key in its list. */
  predicate Unique(ev: seq<Event>, i: nat)
    requires i < |ev|
  {
    ev[i].key.Some? && forall k :: 0 <= k < |ev| && ev[k].eventType == ev[i].eventType && ev[k].key == ev[i].key ==> k == i
  }

  lemma {:induction false} MembersDistinct(ev: seq<Event>, t: EventType, key: string, n: nat, k: nat, l: nat)
    requires n <= |ev| && k < l < |Members(ev, t, key, n)|
    ensures Members(ev, t, key, n)[k] < Members(ev, t, key, n)[l]
  {
    var prior := Members(ev, t, key, n - 1);
    if l < |prior| {
      MembersDistinct(ev, t, key, n - 1, k, l);
    } else {
      assert prior[k] in prior;
    }
  }

  /** One member in all is what unique means. */
  lemma {:induction false} UniqueMembers(ev: seq<Event>, i: nat)
    requires i < |ev| && ev[i].key.Some?
    ensures Unique(ev, i) <==> |Members(ev, ev[i].eventType, ev[i].key.value, |ev|)| == 1
    ensures Unique(ev, i) ==> Members(ev, ev[i].eventType, ev[i].key.value, |ev|) == [i]
  {
    var r := Members(ev, ev[i].eventType, ev[i].key.value, |ev|);
    assert i in r;
    var at :| 0 <= at < |r| && r[at] == i;
    if Unique(ev, i) {
      var other := if at == 0 then |r| - 1 else 0;
      assert r[other] in r;
      if other < at {
        MembersDistinct(ev, ev[i].eventType, ev[i].key.value, |ev|, other, at);
      } else if at < other {
        MembersDistinct(ev, ev[i].eventType, ev[i].key.value, |ev|, at, other);
      }
    } else {
      var k :| 0 <= k < |ev| && ev[k].eventType == ev[i].eventType && ev[k].key == ev[i].key && k != i;
      assert k in r;
    }
  }

  /** The pairs: equal type and key, and unique on both sides. */
  predicate Paired(b: seq<Event>, c: seq<Event>, i: nat, j: nat)
  {
    && i < |b| && j < |c| && Unique(b, i) && Unique(c, j)
    && b[i].eventType == c[j].eventType && b[i].key == c[j].key
  }

  /** The event paired with an event, read off the groups under its key. */
  function Partner(b: seq<Event>, c: seq<Event>, i: nat): Option<nat>
    requires i < |b|
  {
    if b[i].key.None? then None
    else
      var bg := Members(b, b[i].eventType, b[i].key.value, |b|);
      var cg := Members(c, b[i].eventType, b[i].key.value, |c|);
      if |bg| == 1 && |cg| == 1 then Some(cg[0]) else None
  }

  /** An event's partner is the one event it is paired with, from either side. */
  lemma {:induction false} PartnerIff(b: seq<Event>, c: seq<Event>, i: nat, j: nat)
    requires i < |b| && j < |c|
    ensures Partner(b, c, i) == Some(j) <==> Paired(b, c, i, j)
    ensures Partner(c, b, j) == Some(i) <==> Paired(b, c, i, j)
  {
    if b[i].key.Some? {
      UniqueMembers(b, i);
      var cg := Members(c, b[i].eventType, b[i].key.value, |c|);
      assert |cg| == 1 ==> cg[0] in cg;
    }
    if c[j].key.Some? {
      UniqueMembers(c, j);
      var bg := Members(b, c[j].eventType, c[j].key.value, |b|);
      assert |bg| == 1 ==> bg[0] in bg;
    }
    hide Members, Unique;
  }

  /** The pairing is a partial bijection. */
  lemma {:induction false} PartnersBijective(b: seq<Event>, c: seq<Event>, i: nat, i': nat)
    requires i < |b| && i' < |b| && Partner(b, c, i).Some? && Partner(b, c, i) == Partner(b, c, i')
    ensures i == i'
  {
    var j := Partner(b, c, i).value;
    assert j in Members(c, b[i].eventType, b[i].key.value, |c|);
    PartnerIff(b, c, i, j);
    PartnerIff(b, c, i', j);
  }

  /** The table of one side after the passes for these event types and, in the pass for t,
      for the keys no longer left. */
  predicate Table(b: seq<Event>, c: seq<Event>, p: seq<Option<nat>>, types: set<EventType>, t: EventType, left: set<string>)
  {
    && |p| == |b|
    && forall i :: 0 <= i < |b| ==>
         p[i] == if b[i].eventType in types
                    || (b[i].eventType == t && b[i].key.Some? && b[i].key.value !in left)
                 then Partner(b, c, i) else None
  }

  predicate Done(b: seq<Event>, c: seq<Event>, p: seq<Option<nat>>, types: set<EventType>)
  {
    && |p| == |b|
    && forall i :: 0 <= i < |b| ==> p[i] == if b[i].eventType in types then Partner(b, c, i) else None
  }

  /** The groups under every key after n events. */
  ghost predicate KeyGroups(ev: seq<Event>, t: EventType, groups: map<string, seq<nat>>, n: nat)
    requires n <= |ev|
  {
    forall key :: GroupAt(groups, key) == Members(ev, t, key, n)
  }

  lemma {:induction false} KeyGroupsStep(ev: seq<Event>, t: EventType, groups: map<string, seq<nat>>, n: nat)
    requires n < |ev| && KeyGroups(ev, t, groups, n)
    ensures ev[n].eventType == t && ev[n].key.Some? ==> KeyGroups(ev, t, AppendTo(groups, ev[n].key.value, n), n + 1)
    ensures ev[n].eventType != t || ev[n].key.None? ==> KeyGroups(ev, t, groups, n + 1)
  {
    forall key
      ensures ev[n].eventType == t && ev[n].key.Some? ==>
                GroupAt(AppendTo(groups, ev[n].key.value, n), key) == Members(ev, t, key, n + 1)
      ensures ev[n].eventType != t || ev[n].key.None? ==> GroupAt(groups, key) == Members(ev, t, key, n + 1)
    {
      assert GroupAt(groups, key) == Members(ev, t, key, n);
    }
  }

  method GroupByKey(ev: seq<Event>, paired: seq<Option<nat>>, t: EventType) returns (groups: map<string, seq<nat>>)
    requires |paired| == |ev| && forall i :: 0 <= i < |ev| && ev[i].eventType == t ==> paired[i].None?
    ensures KeyGroups(ev, t, groups, |ev|)
  {
    groups := map[];
    var n: nat := 0;
    while n < |ev|
      invariant n <= |ev| && KeyGroups(ev, t, groups, n)
    {
      hide KeyGroups, AppendTo;
      KeyGroupsStep(ev, t, groups, n);
      if ev[n].eventType == t && paired[n].None? && ev[n].key.Some? {
        groups := AppendTo(groups, ev[n].key.value, n);
      }
      n := n + 1;
    }
  }

  /** The partner of an event is what its key's groups say. */
  lemma {:induction false} PartnerByGroups(b: seq<Event>, c: seq<Event>, t: EventType, key: string, i: nat)
    requires i < |b| && b[i].eventType == t && b[i].key == Some(key)
    ensures var bg, cg := Members(b, t, key, |b|), Members(c, t, key, |c|);
            && Partner(b, c, i) == (if |bg| == 1 && |cg| == 1 then Some(cg[0]) else None)
            && (|bg| == 1 ==> bg[0] == i)
  {
    assert i in Members(b, t, key, |b|);
  }

  /** Visiting one key records its pair if both groups hold one event. */
  lemma {:induction false} TableStep(b: seq<Event>, c: seq<Event>, p: seq<Option<nat>>, types: set<EventType>, t: EventType,
                  left: set<string>, key: string)
    requires Table(b, c, p, types, t, left) && key in left && t !in types
    ensures var bg, cg := Members(b, t, key, |b|), Members(c, t, key, |c|);
            if |bg| == 1 && |cg| == 1
            then bg[0] < |b| && Table(b, c, p[bg[0] := Some(cg[0])], types, t, left - {key})
            else Table(b, c, p, types, t, left - {key})
  {
    var bg, cg := Members(b, t, key, |b|), Members(c, t, key, |c|);
    assert |bg| == 1 ==> bg[0] in bg;
    hide Partner;
    forall i | 0 <= i < |b| && b[i].eventType == t && b[i].key == Some(key)
      ensures Partner(b, c, i) == if |bg| == 1 && |cg| == 1 then Some(cg[0]) else None
      ensures |bg| == 1 ==> bg[0] == i
    {
      PartnerByGroups(b, c, t, key, i);
    }
    hide Members;
  }

  /** A pass starts with every key that can give a pair still left. */
  lemma {:induction false} PassStart(b: seq<Event>, c: seq<Event>, p: seq<Option<nat>>, types: set<EventType>,
                                     t: EventType, left: set<string>)
    requires Done(b, c, p, types) && t !in types
    requires forall key :: key !in left ==> Members(b, t, key, |b|) == [] || Members(c, t, key, |c|) == []
    ensures Table(b, c, p, types, t, left)
  {
    forall i | 0 <= i < |b| && b[i].eventType == t && b[i].key.Some? && b[i].key.value !in left
      ensures Partner(b, c, i).None?
    {
      assert i in Members(b, t, b[i].key.value, |b|);
    }
  }

  lemma {:induction false} PassEnd(b: seq<Event>, c: seq<Event>, p: seq<Option<nat>>, types: set<EventType>, t: EventType)
    requires Table(b, c, p, types, t, {})
    ensures Done(b, c, p, types + {t})
  {
  }

  /** Pairs the events of one type whose key is unique on both sides. */
  method PairSemanticEvents(b: seq<Event>, c: seq<Event>, bp0: seq<Option<nat>>, cp0: seq<Option<nat>>,
                            ghost types: set<EventType>, t: EventType)
    returns (bp: seq<Option<nat>>, cp: seq<Option<nat>>)
    requires t !in types && Done(b, c, bp0, types) && Done(c, b, cp0, types)
    ensures Done(b, c, bp, types + {t}) && Done(c, b, cp, types + {t})
  {
    var baselineGroups := GroupByKey(b, bp0, t);
    var candidateGroups := GroupByKey(c, cp0, t);
    bp, cp := bp0, cp0;
    var left := baselineGroups.Keys;
    forall key | key !in left
      ensures Members(b, t, key, |b|) == []
    {
      assert GroupAt(baselineGroups, key) == Members(b, t, key, |b|);
    }
    PassStart(b, c, bp, types, t, left);
    PassStart(c, b, cp, types, t, left);
    while left != {}
      invariant Table(b, c, bp, types, t, left) && Table(c, b, cp, types, t, left)
      decreases left
    {
      hide Table;
      var key :| key in left;
      TableStep(b, c, bp, types, t, left, key);
      TableStep(c, b, cp, types, t, left, key);
      left := left - {key};
      var baselineGroup := GroupAt(baselineGroups, key);
      var candidateGroup := GroupAt(candidateGroups, key);
      if |baselineGroup| == 1 && |candidateGroup| == 1 {
        bp := bp[baselineGroup[0] := Some(candidateGroup[0])];
        cp := cp[candidateGroup[0] := Some(baselineGroup[0])];
      }
    }
    PassEnd(b, c, bp, types, t);
    PassEnd(c, b, cp, types, t);
  }

  /** Every baseline event in order, with its partner if it has one, then every unpaired
      candidate event in order. */
  function GroupsFor(b: seq<Event>, c: seq<Event>, bp: seq<Option<nat>>, cp: seq<Option<nat>>): seq<DiffGroup>
    requires |bp| == |b| && |cp| == |c|
  {
    BaselineGroups(b, bp, |b|) + CandidateGroups(c, cp, |c|)
  }

  function BaselineGroups(b: seq<Event>, bp: seq<Option<nat>>, n: nat): seq<DiffGroup>
    requires |bp| == |b| && n <= |b|
  {
    seq(n, i requires 0 <= i < n => DiffGroup(b[i].eventType, Some(i), bp[i]))
  }

  function CandidateGroups(c: seq<Event>, cp: seq<Option<nat>>, n: nat): seq<DiffGroup>
    requires |cp| == |c| && n <= |c|
  {
    if n == 0 then []
    else CandidateGroups(c, cp, n - 1) + (if cp[n - 1].None? then [DiffGroup(c[n - 1].eventType, None, Some(n - 1))] else [])
  }

  predicate UniqueEventIds(ev: seq<Event>)
  {
    forall i, j :: 0 <= i < j < |ev| ==> ev[i].id != ev[j].id
  }

  const ALL_TYPES := {Decision, Effect, Wait}

  method PairAllTypes(b: seq<Event>, c: seq<Event>) returns (bp: seq<Option<nat>>, cp: seq<Option<nat>>)
    ensures Done(b, c, bp, ALL_TYPES) && Done(c, b, cp, ALL_TYPES)
  {
    bp, cp := seq(|b|, _ => None), seq(|c|, _ => None);
    bp, cp := PairSemanticEvents(b, c, bp, cp, {}, Decision);
    bp, cp := PairSemanticEvents(b, c, bp, cp, {Decision}, Effect);
    bp, cp := PairSemanticEvents(b, c, bp, cp, {Decision, Effect}, Wait);
  }

  method BuildMatchedSemanticGroups(b: seq<Event>, c: seq<Event>)
    returns (groups: seq<DiffGroup>, bp: seq<Option<nat>>, cp: seq<Option<nat>>)
    requires UniqueEventIds(c)
    ensures Done(b, c, bp, ALL_TYPES) && Done(c, b, cp, ALL_TYPES)
    ensures groups == GroupsFor(b, c, bp, cp)
  {
    bp, cp := PairAllTypes(b, c);
    PartnersRecorded(b, c, bp, cp);
    hide Done, Partner;
    var emittedCandidate;
    groups, emittedCandidate := EmitBaselineEvents(b, c, bp, cp);
    groups := EmitCandidateEvents(groups, c, cp, emittedCandidate);
  }

  method EmitCandidateEvents(before: seq<DiffGroup>, c: seq<Event>, cp: seq<Option<nat>>, emittedCandidate: set<string>)
    returns (groups: seq<DiffGroup>)
    requires |cp| == |c| && forall j :: 0 <= j < |c| ==> (c[j].id in emittedCandidate <==> cp[j].Some?)
    ensures groups == before + CandidateGroups(c, cp, |c|)
  {
    groups := before;
    for j := 0 to |c|
      invariant groups == before + CandidateGroups(c, cp, j)
    {
      if c[j].id !in emittedCandidate {
        groups := groups + [DiffGroup(c[j].eventType, None, Some(j))];
      }
    }
  }

  method EmitBaselineEvents(b: seq<Event>, c: seq<Event>, bp: seq<Option<nat>>, cp: seq<Option<nat>>)
    returns (groups: seq<DiffGroup>, emittedCandidate: set<string>)
    requires |bp| == |b| && |cp| == |c| && UniqueEventIds(c)
    requires forall i :: 0 <= i < |b| && bp[i].Some? ==> bp[i].value < |c| && cp[bp[i].value] == Some(i)
    requires forall j :: 0 <= j < |c| && cp[j].Some? ==> cp[j].value < |b| && bp[cp[j].value] == Some(j)
    ensures groups == BaselineGroups(b, bp, |b|)
    ensures forall j :: 0 <= j < |c| ==> (c[j].id in emittedCandidate <==> cp[j].Some?)
  {
    groups, emittedCandidate := [], {};
    for i := 0 to |b|
      invariant groups == BaselineGroups(b, bp, i)
      invariant forall j :: 0 <= j < |c| ==> (c[j].id in emittedCandidate <==> cp[j].Some? && cp[j].value < i)
    {
      if bp[i].Some? {
        emittedCandidate := emittedCandidate + {c[bp[i].value].id};
      }
      groups := groups + [DiffGroup(b[i].eventType, Some(i), bp[i])];
    }
  }

  /** The two tables of a finished pairing name each other. */
  lemma {:induction false} PartnersRecorded(b: seq<Event>, c: seq<Event>, bp: seq<Option<nat>>, cp: seq<Option<nat>>)
    requires Done(b, c, bp, ALL_TYPES) && Done(c, b, cp, ALL_TYPES)
    ensures forall i :: 0 <= i < |b| && bp[i].Some? ==> bp[i].value < |c| && cp[bp[i].value] == Some(i)
    ensures forall j :: 0 <= j < |c| && cp[j].Some? ==> cp[j].value < |b| && bp[cp[j].value] == Some(j)
  {
    forall i | 0 <= i < |b| && bp[i].Some?
      ensures bp[i].value < |c| && cp[bp[i].value] == Some(i)
    {
      assert bp[i].value in Members(c, b[i].eventType, b[i].key.value, |c|);
      PartnerIff(b, c, i, bp[i].value);
    }
    forall j | 0 <= j < |c| && cp[j].Some?
      ensures cp[j].value < |b| && bp[cp[j].value] == Some(j)
    {
      assert cp[j].value in Members(b, c[j].eventType, c[j].key.value, |b|);
      PartnerIff(b, c, cp[j].value, j);
    }
  }

  function BaselineHits(groups: seq<DiffGroup>, i: nat): nat
  {
    if groups == [] then 0
    else BaselineHits(groups[..|groups| - 1], i) + (if groups[|groups| - 1].baseline == Some(i) then 1 else 0)
  }

  function CandidateHits(groups: seq<DiffGroup>, j: nat): nat
  {
    if groups == [] then 0
    else CandidateHits(groups[..|groups| - 1], j) + (if groups[|groups| - 1].candidate == Some(j) then 1 else 0)
  }

  lemma {:induction false} HitsAppend(x: seq<DiffGroup>, y: seq<DiffGroup>, k: nat)
    ensures BaselineHits(x + y, k) == BaselineHits(x, k) + BaselineHits(y, k)
    ensures CandidateHits(x + y, k) == CandidateHits(x, k) + CandidateHits(y, k)
  {
    if y == [] {
      assert x + y == x;
    } else {
      HitsAppend(x, y[..|y| - 1], k);
      assert (x + y)[..|x + y| - 1] == x + y[..|y| - 1];
    }
  }

  lemma {:induction false} BaselineGroupHits(b: seq<Event>, bp: seq<Option<nat>>, n: nat, i: nat, j: nat)
    requires |bp| == |b| && n <= |b|
    requires forall k, l :: 0 <= k < l < |b| && bp[k].Some? ==> bp[k] != bp[l]
    ensures BaselineHits(BaselineGroups(b, bp, n), i) == if i < n then 1 else 0
    ensures CandidateHits(BaselineGroups(b, bp, n), j) == if exists k :: 0 <= k < n && bp[k] == Some(j) then 1 else 0
  {
    if n > 0 {
      BaselineGroupHits(b, bp, n - 1, i, j);
      assert BaselineGroups(b, bp, n)[..n - 1] == BaselineGroups(b, bp, n - 1);
    }
  }

  lemma {:induction false} CandidateGroupHits(c: seq<Event>, cp: seq<Option<nat>>, n: nat, i: nat, j: nat)
    requires |cp| == |c| && n <= |c|
    ensures BaselineHits(CandidateGroups(c, cp, n), i) == 0
    ensures CandidateHits(CandidateGroups(c, cp, n), j) == if j < n && cp[j].None? then 1 else 0
  {
    if n > 0 {
      CandidateGroupHits(c, cp, n - 1, i, j);
      var tail := if cp[n - 1].None? then [DiffGroup(c[n - 1].eventType, None, Some(n - 1))] else [];
      HitsAppend(CandidateGroups(c, cp, n - 1), tail, i);
      HitsAppend(CandidateGroups(c, cp, n - 1), tail, j);
    }
  }

  /** The group of a candidate event before the n-th that has no partner. */
  predicate OwnGroup(c: seq<Event>, cp: seq<Option<nat>>, n: nat, g: DiffGroup)
    requires |cp| == |c|
  {
    && g.baseline.None? && g.candidate.Some? && g.candidate.value < n && g.candidate.value < |c|
    && cp[g.candidate.value].None? && g.eventType == c[g.candidate.value].eventType
  }

  predicate CandidateFirst(x: DiffGroup, y: DiffGroup)
  {
    x.candidate.Some? && y.candidate.Some? && x.candidate.value < y.candidate.value
  }

  predicate OwnGroups(c: seq<Event>, cp: seq<Option<nat>>, n: nat, g: seq<DiffGroup>)
    requires |cp| == |c|
  {
    && (forall k: nat :: k < |g| ==> OwnGroup(c, cp, n, g[k]))
    && (forall k: nat, l: nat :: k < l < |g| ==> CandidateFirst(g[k], g[l]))
  }

  lemma {:induction false} NextGroup(c: seq<Event>, cp: seq<Option<nat>>, n: nat, g: seq<DiffGroup>)
    requires |cp| == |c| && n < |c| && OwnGroups(c, cp, n, g)
    ensures OwnGroups(c, cp, n + 1, if cp[n].None? then g + [DiffGroup(c[n].eventType, None, Some(n))] else g)
  {
  }

  lemma {:induction false} CandidateGroupsAscend(c: seq<Event>, cp: seq<Option<nat>>, n: nat)
    requires |cp| == |c| && n <= |c|
    ensures OwnGroups(c, cp, n, CandidateGroups(c, cp, n))
  {
    if n > 0 {
      CandidateGroupsAscend(c, cp, n - 1);
      NextGroup(c, cp, n - 1, CandidateGroups(c, cp, n - 1));
      var none: seq<DiffGroup> := [];
      assert CandidateGroups(c, cp, n - 1) + none == CandidateGroups(c, cp, n - 1);
    }
  }

  /** The groups come in the baseline's order, each with its event's partner, and after them the candidate
      events that have none, in theirs. */
  lemma {:induction false} GroupsInOrder(b: seq<Event>, c: seq<Event>, bp: seq<Option<nat>>, cp: seq<Option<nat>>)
    requires |bp| == |b| && |cp| == |c|
    ensures var g := GroupsFor(b, c, bp, cp);
            && |g| >= |b|
            && (forall k: nat :: k < |b| ==> g[k] == DiffGroup(b[k].eventType, Some(k), bp[k]))
            && OwnGroups(c, cp, |c|, g[|b|..])
  {
    CandidateGroupsAscend(c, cp, |c|);
    assert GroupsFor(b, c, bp, cp)[|b|..] == CandidateGroups(c, cp, |c|);
  }

  /** Every event of the baseline lands in exactly one diff group, whatever the candidate has. */
  lemma {:induction false} BaselineEventsOnce(b: seq<Event>, c: seq<Event>, bp: seq<Option<nat>>, cp: seq<Option<nat>>, i: nat)
    requires Done(b, c, bp, ALL_TYPES) && Done(c, b, cp, ALL_TYPES)
    ensures BaselineHits(GroupsFor(b, c, bp, cp), i) == if i < |b| then 1 else 0
  {
    PartnersRecorded(b, c, bp, cp);
    hide Done;
    HitsAppend(BaselineGroups(b, bp, |b|), CandidateGroups(c, cp, |c|), i);
    BaselineGroupHits(b, bp, |b|, i, 0);
    CandidateGroupHits(c, cp, |c|, i, 0);
  }

  /** So does every event of the candidate. */
  lemma {:induction false} CandidateEventsOnce(b: seq<Event>, c: seq<Event>, bp: seq<Option<nat>>, cp: seq<Option<nat>>, j: nat)
    requires Done(b, c, bp, ALL_TYPES) && Done(c, b, cp, ALL_TYPES)
    ensures CandidateHits(GroupsFor(b, c, bp, cp), j) == if j < |c| then 1 else 0
  {
    PartnersRecorded(b, c, bp, cp);
    hide Done;
    HitsAppend(BaselineGroups(b, bp, |b|), CandidateGroups(c, cp, |c|), j);
    BaselineGroupHits(b, bp, |b|, 0, j);
    CandidateGroupHits(c, cp, |c|, 0, j);
    if j < |c| && cp[j].Some? {
      assert bp[cp[j].value] == Some(j);
    }
  }
}
