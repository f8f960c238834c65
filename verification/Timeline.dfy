/** A trace's timeline: its entries and their two orders. */
module Timeline {
  import opened Basics

  datatype Source = Explicit | Synthetic

  datatype Phase = NoPhase | PhaseStarted | PhaseTerminal

  /** cursorTime is the row's creation time; timestamp is when the event says it happened. */
  datatype Entry = Entry(id: string, source: Source, timestamp: int, cursorTime: int, sequence: Option<int>,
                         phase: Phase, spanId: string)

  datatype SpanEvent = SpanEvent(id: string, spanId: string, timestamp: int, createdAt: int, sequence: Option<int>)

  datatype Span = Span(spanId: string, startTime: Option<int>, endTime: Option<int>, status: string, createdAt: int)

  // ---- building ----

  function SyntheticId(spanId: string, eventType: string): string
  {
    spanId + ":" + eventType
  }

  function ExplicitEntry(e: SpanEvent): Entry
  {
    Entry(e.id, Explicit, e.timestamp, e.createdAt, e.sequence, NoPhase, e.spanId)
  }

  function StartedEntries(s: Span): seq<Entry>
  {
    if s.startTime.Some?
    then [Entry(SyntheticId(s.spanId, "span_started"), Synthetic, s.startTime.value, s.createdAt, None, PhaseStarted, s.spanId)]
    else []
  }

  function TerminalEntries(s: Span): seq<Entry>
  {
    if s.endTime.None? then []
    else if s.status == "completed" then
      [Entry(SyntheticId(s.spanId, "span_completed"), Synthetic, s.endTime.value, s.createdAt, None, PhaseTerminal, s.spanId)]
    else if s.status == "failed" || s.status == "error" then
      [Entry(SyntheticId(s.spanId, "span_failed"), Synthetic, s.endTime.value, s.createdAt, None, PhaseTerminal, s.spanId)]
    else []
  }

  function SpanEntries(s: Span): seq<Entry>
  {
    StartedEntries(s) + TerminalEntries(s)
  }

  function AllSpanEntries(spans: seq<Span>): seq<Entry>
  {
    if spans == [] then [] else AllSpanEntries(spans[..|spans| - 1]) + SpanEntries(spans[|spans| - 1])
  }

  function ExplicitEntries(events: seq<SpanEvent>): seq<Entry>
  {
    seq(|events|, i requires 0 <= i < |events| => ExplicitEntry(events[i]))
  }

  function Entries(events: seq<SpanEvent>, spans: seq<Span>): seq<Entry>
  {
    ExplicitEntries(events) + AllSpanEntries(spans)
  }

  method BuildTimelineEntries(events: seq<SpanEvent>, spans: seq<Span>) returns (entries: seq<Entry>)
    ensures entries == Entries(events, spans)
  {
    hide SpanEntries, ExplicitEntry;
    entries := [];
    var i: nat := 0;
    while i < |events|
      invariant i <= |events| && entries == ExplicitEntries(events[..i])
    {
      entries := entries + [ExplicitEntry(events[i])];
      i := i + 1;
    }
    assert events[..i] == events;
    i := 0;
    while i < |spans|
      invariant i <= |spans| && entries == ExplicitEntries(events) + AllSpanEntries(spans[..i])
    {
      assert spans[..i + 1][..i] == spans[..i];
      entries := entries + SpanEntries(spans[i]);
      i := i + 1;
    }
    assert spans[..i] == spans;
  }

  /** A span's entries: one at its start, and one at its end that says how it ended. */
  lemma {:induction false} SpanEntriesSay(s: Span)
    ensures var start := if s.startTime.Some? then s.startTime.value else 0; var end := if s.endTime.Some? then s.endTime.value else 0;
            var started := Entry(s.spanId + ":" + "span_started", Synthetic, start, s.createdAt, None, PhaseStarted, s.spanId);
            var completed := Entry(s.spanId + ":" + "span_completed", Synthetic, end, s.createdAt, None, PhaseTerminal, s.spanId);
            var failed := Entry(s.spanId + ":" + "span_failed", Synthetic, end, s.createdAt, None, PhaseTerminal, s.spanId);
            && (s.startTime.Some? && s.endTime.Some? && s.status == "completed" ==> SpanEntries(s) == [started, completed])
            && (s.startTime.Some? && s.endTime.Some? && (s.status == "failed" || s.status == "error") ==> SpanEntries(s) == [started, failed])
            && (s.startTime.None? && s.endTime.Some? && s.status == "completed" ==> SpanEntries(s) == [completed])
            && (s.startTime.None? && s.endTime.Some? && (s.status == "failed" || s.status == "error") ==> SpanEntries(s) == [failed])
            && (s.endTime.None? || (s.status != "completed" && s.status != "failed" && s.status != "error") ==>
                  SpanEntries(s) == if s.startTime.Some? then [started] else [])
  {
  }

  /** Events come first, each as it was reported, and then the entries of the spans, span by span. */
  lemma {:induction false} EntriesInOrder(events: seq<SpanEvent>, spans: seq<Span>, k: nat)
    requires k < |events|
    ensures |Entries(events, spans)| >= |events| && |Entries(events, [])| == |events|
    ensures var e := Entries(events, spans)[k];
            && e.id == events[k].id && e.source.Explicit? && e.timestamp == events[k].timestamp
            && e.cursorTime == events[k].createdAt && e.sequence == events[k].sequence && e.spanId == events[k].spanId
  {
  }

  // ---- the two orders ----

  datatype Order = ByCursor | ByDisplay

  function CompareInts(a: int, b: int): int
  {
    if a < b then -1 else if a > b then 1 else 0
  }

  function CompareStrings(a: string, b: string): int
  {
    if StrLess(a, b) then -1 else if StrLess(b, a) then 1 else 0
  }

  /** Numbers before nothing. */
  function CompareNullable(a: Option<int>, b: Option<int>): int
  {
    if a.None? && b.None? then 0 else if a.None? then 1 else if b.None? then -1 else CompareInts(a.value, b.value)
  }

  function SourceRank(s: Source): int
  {
    if s.Explicit? then 0 else 1
  }

  function PhaseRank(p: Phase): int
  {
    match p
    case NoPhase => 0
    case PhaseStarted => 2
    case PhaseTerminal => 3
  }

  function CompareByDisplay(a: Entry, b: Entry): int
  {
    var byTime := CompareInts(a.timestamp, b.timestamp);
    if byTime != 0 then byTime
    else
      var bySource := CompareInts(SourceRank(a.source), SourceRank(b.source));
      if bySource != 0 then bySource
      else
        var within :=
          if a.source.Explicit? && b.source.Explicit? then CompareNullable(a.sequence, b.sequence)
          else if a.source.Synthetic? && b.source.Synthetic? then CompareInts(PhaseRank(a.phase), PhaseRank(b.phase))
          else 0;
        if within != 0 then within else CompareStrings(a.id, b.id)
  }

  function CompareByCursor(a: Entry, b: Entry): int
  {
    var byTime := CompareInts(a.cursorTime, b.cursorTime);
    if byTime != 0 then byTime
    else
      var bySource := CompareInts(SourceRank(a.source), SourceRank(b.source));
      if bySource != 0 then bySource
      else if a.source.Explicit? && b.source.Explicit? then
        var bySequence := CompareNullable(a.sequence, b.sequence);
        if bySequence != 0 then bySequence else CompareStrings(a.id, b.id)
      else if a.source.Synthetic? && b.source.Synthetic? then
        var byPhase := CompareInts(PhaseRank(a.phase), PhaseRank(b.phase));
        if byPhase != 0 then byPhase else CompareStrings(a.spanId, b.spanId)
      else CompareStrings(a.id, b.id)
  }

  function Compare(o: Order, a: Entry, b: Entry): int
  {
    if o.ByCursor? then CompareByCursor(a, b) else CompareByDisplay(a, b)
  }

  /** What an order looks at, most significant first. */
  datatype Key = Key(time: int, rank: int, minor: Option<int>, name: string)

  function KeyOf(o: Order, e: Entry): Key
  {
    Key(if o.ByCursor? then e.cursorTime else e.timestamp, SourceRank(e.source),
        if e.source.Explicit? then e.sequence else Some(PhaseRank(e.phase)),
        if o.ByCursor? && e.source.Synthetic? then e.spanId else e.id)
  }

  function CompareKeys(a: Key, b: Key): int
  {
    if a.time != b.time then CompareInts(a.time, b.time)
    else if a.rank != b.rank then CompareInts(a.rank, b.rank)
    else if a.minor != b.minor then CompareNullable(a.minor, b.minor)
    else CompareStrings(a.name, b.name)
  }

  function TimeOf(o: Order, e: Entry): int
  {
    if o.ByCursor? then e.cursorTime else e.timestamp
  }

  predicate SequenceFirst(a: Option<int>, b: Option<int>)
  {
    a.Some? && (b.Some? ==> a.value < b.value)
  }

  predicate PhaseFirst(a: Phase, b: Phase)
  {
    (a.NoPhase? && !b.NoPhase?) || (a.PhaseStarted? && b.PhaseTerminal?)
  }

  /** The earlier entry; at one time events before span entries; then events by sequence, those without
      one last, and span entries started before ended; then by name. */
  predicate ComesFirst(o: Order, a: Entry, b: Entry)
  {
    if TimeOf(o, a) != TimeOf(o, b) then TimeOf(o, a) < TimeOf(o, b)
    else if a.source != b.source then a.source.Explicit?
    else if a.source.Explicit? then SequenceFirst(a.sequence, b.sequence) || (a.sequence == b.sequence && StrLess(a.id, b.id))
    else PhaseFirst(a.phase, b.phase)
         || (a.phase == b.phase && if o.ByCursor? then StrLess(a.spanId, b.spanId) else StrLess(a.id, b.id))
  }

  /** An entry is compared as less exactly if it comes first. */
  lemma {:induction false} LessComesFirst(o: Order, a: Entry, b: Entry)
    ensures Compare(o, a, b) < 0 <==> ComesFirst(o, a, b)
    ensures Compare(o, a, b) <= 0 ==> TimeOf(o, a) <= TimeOf(o, b)
  {
    hide StrLess;
  }

  lemma {:induction false} StringLaws(a: string, b: string, c: string)
    ensures CompareStrings(a, b) == -CompareStrings(b, a)
    ensures CompareStrings(a, b) == 0 <==> a == b
    ensures CompareStrings(a, b) <= 0 && CompareStrings(b, c) <= 0 ==> CompareStrings(a, c) <= 0
  {
    StrLessTotal(a, b);
    StrLessTotal(a, c);
    StrLessTotal(b, c);
    StrLessIrreflexive(a);
    StrLessIrreflexive(b);
    if StrLess(a, b) && StrLess(b, a) { StrLessTrans(a, b, a); }
    if StrLess(a, b) && StrLess(b, c) { StrLessTrans(a, b, c); }
    if StrLess(a, c) && StrLess(c, a) { StrLessTrans(a, c, a); }
    if StrLess(b, c) && StrLess(c, b) { StrLessTrans(b, c, b); }
  }

  /** Both orders are total on what they look at. */
  lemma {:induction false} OrderLaws(o: Order, a: Entry, b: Entry, c: Entry)
    ensures Compare(o, a, b) == CompareKeys(KeyOf(o, a), KeyOf(o, b))
    ensures Compare(o, a, b) == -Compare(o, b, a)
    ensures Compare(o, a, b) == 0 <==> KeyOf(o, a) == KeyOf(o, b)
    ensures Compare(o, a, b) <= 0 && Compare(o, b, c) <= 0 ==> Compare(o, a, c) <= 0
  {
    StringLaws(KeyOf(o, a).name, KeyOf(o, b).name, KeyOf(o, c).name);
  }

  // ---- no two entries alike ----

  /** The store gives explicit events unique ids, and span ids are unique within a trace. */
  ghost predicate UniqueRows(events: seq<SpanEvent>, spans: seq<Span>)
  {
    && (forall i: nat, j: nat :: i < j < |events| ==> events[i].id != events[j].id)
    && (forall i: nat :: i < |events| ==> events[i].id != "")
    && (forall i: nat, j: nat :: i < j < |spans| ==> spans[i].spanId != spans[j].spanId)
  }

  predicate Unlike(a: Entry, b: Entry)
  {
    (a.source != b.source || a.id != b.id) && KeyOf(ByCursor, a) != KeyOf(ByCursor, b)
  }

  ghost predicate Distinct(s: seq<Entry>)
  {
    && (forall i: nat, j: nat :: i < j < |s| ==> Unlike(s[i], s[j]))
    && (forall i: nat :: i < |s| ==> s[i].id != "")
  }

  predicate EventType(t: string)
  {
    t == "span_started" || t == "span_completed" || t == "span_failed"
  }

  predicate NoColon(t: string)
  {
    forall i: nat :: i < |t| ==> t[i] != ':'
  }

  lemma {:induction false} LastColon(s: string, t: string, s': string, t': string)
    requires NoColon(t) && NoColon(t') && |t| <= |t'| && s + ":" + t == s' + ":" + t'
    ensures s == s' && t == t'
  {
    var x := s + ":" + t;
    assert x[|s|] == ':';
    assert forall i: nat :: |s'| < i < |x| ==> x[i] == t'[i - |s'| - 1];
    assert |t| == |t'|;
    assert x[..|s|] == s && x[..|s'|] == s';
    assert x[|s| + 1..] == t && x[|s'| + 1..] == t';
  }

  /** A synthetic id names one span and one event type. */
  lemma {:induction false} SyntheticIdInjective(s: string, t: string, s': string, t': string)
    requires EventType(t) && EventType(t')
    ensures SyntheticId(s, t) == SyntheticId(s', t') ==> s == s' && t == t'
  {
    if SyntheticId(s, t) == SyntheticId(s', t') {
      if |t| <= |t'| { LastColon(s, t, s', t'); } else { LastColon(s', t', s, t); }
    }
  }

  function TypeOfPhase(e: Entry, t: string): bool
  {
    EventType(t) && e.id == SyntheticId(e.spanId, t) && (e.phase.PhaseStarted? <==> t == "span_started")
  }

  ghost predicate FromSpan(e: Entry)
  {
    e.source.Synthetic? && !e.phase.NoPhase? && exists t :: TypeOfPhase(e, t)
  }

  lemma {:induction false} SpanEntriesFromSpan(s: Span)
    ensures forall e :: e in SpanEntries(s) ==> FromSpan(e) && e.spanId == s.spanId
    ensures Distinct(SpanEntries(s))
  {
    forall e | e in SpanEntries(s) ensures FromSpan(e) {
      assert TypeOfPhase(e, "span_started") || TypeOfPhase(e, "span_completed") || TypeOfPhase(e, "span_failed");
    }
    SyntheticIdInjective(s.spanId, "span_started", s.spanId, "span_completed");
    SyntheticIdInjective(s.spanId, "span_started", s.spanId, "span_failed");
  }

  lemma {:induction false} OtherSpansUnlike(a: Entry, b: Entry)
    requires FromSpan(a) && FromSpan(b) && a.spanId != b.spanId
    ensures Unlike(a, b)
  {
    var t :| TypeOfPhase(a, t);
    var t' :| TypeOfPhase(b, t');
    SyntheticIdInjective(a.spanId, t, b.spanId, t');
  }

  lemma {:induction false} AllSpanEntriesDistinct(spans: seq<Span>)
    requires forall i: nat, j: nat :: i < j < |spans| ==> spans[i].spanId != spans[j].spanId
    ensures Distinct(AllSpanEntries(spans))
    ensures forall e :: e in AllSpanEntries(spans) ==>
              FromSpan(e) && exists i: nat :: i < |spans| && spans[i].spanId == e.spanId
  {
    if spans != [] {
      var front, last := spans[..|spans| - 1], spans[|spans| - 1];
      AllSpanEntriesDistinct(front);
      SpanEntriesFromSpan(last);
      var a, b := AllSpanEntries(front), SpanEntries(last);
      forall e | e in a ensures exists i: nat :: i < |spans| && spans[i].spanId == e.spanId {
        var i: nat :| i < |front| && front[i].spanId == e.spanId;
        assert spans[i].spanId == e.spanId;
      }
      forall i: nat, j: nat | i < |a| && j < |b| ensures Unlike(a[i], b[j]) {
        assert a[i] in a && b[j] in b;
        var k: nat :| k < |front| && front[k].spanId == a[i].spanId;
        assert spans[k].spanId != last.spanId;
        OtherSpansUnlike(a[i], b[j]);
      }
      DistinctAppend(a, b);
    }
  }

  lemma {:induction false} DistinctAppend(a: seq<Entry>, b: seq<Entry>)
    requires Distinct(a) && Distinct(b) && forall i: nat, j: nat :: i < |a| && j < |b| ==> Unlike(a[i], b[j])
    ensures Distinct(a + b)
  {
  }

  /** The entries of a trace differ pairwise, by source and id and in the cursor order. */
  lemma {:induction false} EntriesDistinct(events: seq<SpanEvent>, spans: seq<Span>)
    requires UniqueRows(events, spans)
    ensures Distinct(Entries(events, spans))
  {
    AllSpanEntriesDistinct(spans);
    var a, b := ExplicitEntries(events), AllSpanEntries(spans);
    forall i: nat, j: nat | i < |a| && j < |b| ensures Unlike(a[i], b[j]) {
      assert b[j] in b;
    }
    DistinctAppend(a, b);
  }

  // ---- sorting ----

  function Insert(o: Order, s: seq<Entry>, x: Entry): seq<Entry>
  {
    if s == [] || Compare(o, s[|s| - 1], x) <= 0 then s + [x] else Insert(o, s[..|s| - 1], x) + [s[|s| - 1]]
  }

  function Sort(o: Order, s: seq<Entry>): seq<Entry>
  {
    if s == [] then [] else Insert(o, Sort(o, s[..|s| - 1]), s[|s| - 1])
  }

  ghost predicate Sorted(o: Order, s: seq<Entry>)
  {
    forall i: nat, j: nat :: i < j < |s| ==> Compare(o, s[i], s[j]) <= 0
  }

  lemma {:induction false} InsertPermutes(o: Order, s: seq<Entry>, x: Entry)
    ensures multiset(Insert(o, s, x)) == multiset(s) + multiset{x}
  {
    hide Compare;
    if s != [] {
      assert s == s[..|s| - 1] + [s[|s| - 1]];
      InsertPermutes(o, s[..|s| - 1], x);
    }
  }

  lemma {:induction false} InsertLength(o: Order, s: seq<Entry>, x: Entry)
    ensures |Insert(o, s, x)| == |s| + 1
  {
    hide Compare;
    if s != [] { InsertLength(o, s[..|s| - 1], x); }
  }

  lemma {:induction false} InsertSorts(o: Order, s: seq<Entry>, x: Entry)
    requires Sorted(o, s)
    ensures Sorted(o, Insert(o, s, x))
  {
    hide Compare;
    if s != [] {
      var front, last := s[..|s| - 1], s[|s| - 1];
      OrderLaws(o, last, x, last);
      if Compare(o, last, x) <= 0 {
        forall i: nat | i < |s| ensures Compare(o, s[i], x) <= 0 {
          OrderLaws(o, s[i], last, x);
          OrderLaws(o, last, last, x);
        }
      } else {
        InsertSorts(o, front, x);
        InsertPermutes(o, front, x);
        var r := Insert(o, front, x);
        forall i: nat | i < |r| ensures Compare(o, r[i], last) <= 0 {
          assert r[i] in multiset(r);
          assert r[i] in front || r[i] == x;
        }
      }
    }
  }

  lemma {:induction false} MultisetAppend(front: seq<Entry>, last: Entry)
    ensures multiset(front + [last]) == multiset(front) + multiset{last}
  {
  }

  lemma {:induction false} SortLast(o: Order, s: seq<Entry>)
    requires s != []
    ensures Sort(o, s) == Insert(o, Sort(o, s[..|s| - 1]), s[|s| - 1])
  {
  }

  lemma {:induction false} SortPermutes(o: Order, s: seq<Entry>)
    ensures multiset(Sort(o, s)) == multiset(s)
  {
    if s != [] {
      var front, last := s[..|s| - 1], s[|s| - 1];
      SortPermutes(o, front);
      SortLast(o, s);
      assert s == front + [last];
      hide Insert, Sort;
      InsertPermutes(o, Sort(o, front), last);
      MultisetAppend(front, last);
    }
  }

  lemma {:induction false} SortLength(o: Order, s: seq<Entry>)
    ensures |Sort(o, s)| == |s|
  {
    hide Insert;
    if s != [] {
      SortLength(o, s[..|s| - 1]);
      InsertLength(o, Sort(o, s[..|s| - 1]), s[|s| - 1]);
    }
  }

  lemma {:induction false} SortSorts(o: Order, s: seq<Entry>)
    ensures Sorted(o, Sort(o, s))
  {
    hide Insert;
    if s != [] {
      SortSorts(o, s[..|s| - 1]);
      InsertSorts(o, Sort(o, s[..|s| - 1]), s[|s| - 1]);
    }
  }

  /** Sorting orders the entries and neither loses nor repeats one. */
  lemma {:induction false} SortSpec(o: Order, s: seq<Entry>)
    ensures Sorted(o, Sort(o, s)) && multiset(Sort(o, s)) == multiset(s) && |Sort(o, s)| == |s|
  {
    SortPermutes(o, s);
    SortLength(o, s);
    SortSorts(o, s);
  }

  lemma {:induction false} FirstAndRest(s: seq<Entry>)
    requires s != []
    ensures s == [s[0]] + s[1..] && multiset(s[1..]) == multiset(s) - multiset{s[0]} && s[0] in multiset(s)
  {
    assert s == [s[0]] + s[1..];
  }

  lemma {:induction false} RestSorted(o: Order, s: seq<Entry>)
    requires s != []
    ensures Sorted(o, s) ==> Sorted(o, s[1..])
    ensures Distinct(s) ==> Distinct(s[1..])
  {
    hide Compare, Unlike;
  }

  /** In both orders distinct entries have one sorted list only. */
  lemma {:induction false} SortedUnique(o: Order, a: seq<Entry>, b: seq<Entry>)
    requires Sorted(o, a) && Sorted(o, b) && |a| == |b| && multiset(a) == multiset(b) && Distinct(a)
    ensures a == b
  {
    hide Sorted, Distinct, Compare, KeyOf;
    if a != [] {
      FirstAndRest(a);
      FirstAndRest(b);
      assert a[0] in multiset(b) && b[0] in multiset(a);
      LeastIn(o, a, b[0]);
      LeastIn(o, b, a[0]);
      OrderLaws(o, a[0], b[0], a[0]);
      SameKeySame(o, a, a[0], b[0]);
      RestSorted(o, a);
      RestSorted(o, b);
      SortedUnique(o, a[1..], b[1..]);
    }
  }

  lemma {:induction false} LeastIn(o: Order, s: seq<Entry>, x: Entry)
    requires Sorted(o, s) && x in s
    ensures Compare(o, s[0], x) <= 0
  {
    hide Compare;
    OrderLaws(o, s[0], s[0], s[0]);
  }

  lemma {:induction false} SameKeySame(o: Order, s: seq<Entry>, x: Entry, y: Entry)
    requires Distinct(s) && x in s && y in s && KeyOf(o, x) == KeyOf(o, y)
    ensures x == y
  {
    var i: nat :| i < |s| && s[i] == x;
    var j: nat :| j < |s| && s[j] == y;
  }

  /** Both orders are strict and total on distinct entries. */
  lemma {:induction false} StrictTotalOrder(o: Order, s: seq<Entry>, i: nat, j: nat, k: nat)
    requires Distinct(s) && i < |s| && j < |s| && k < |s| && i != j
    ensures Compare(o, s[i], s[j]) != 0 && (Compare(o, s[i], s[j]) < 0 <==> Compare(o, s[j], s[i]) > 0)
    ensures Compare(o, s[i], s[j]) < 0 && Compare(o, s[j], s[k]) < 0 ==> Compare(o, s[i], s[k]) < 0
  {
    OrderLaws(o, s[i], s[j], s[k]);
    OrderLaws(o, s[j], s[i], s[k]);
    OrderLaws(o, s[k], s[j], s[i]);
    OrderLaws(o, s[i], s[k], s[j]);
    hide Compare;
    var a, b := if i < j then i else j, if i < j then j else i;
    assert Unlike(s[a], s[b]);
    if i != k {
      var c, d := if i < k then i else k, if i < k then k else i;
      assert Unlike(s[c], s[d]);
    }
  }
}
