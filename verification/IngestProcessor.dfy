/** The batch write path: sessions, then every referenced trace, each in lock order. */
module IngestProcessor {
  import opened Basics
  import opened KeyedUpserts
  import opened IngestOrder
  import L = LockOrder

  function SessionLocks(order: seq<Indexed>): seq<string>
  {
    seq(|order|, i requires 0 <= i < |order| => BySession(order[i]))
  }

  /** A list of locks that a batch may plan: sessions, then traces, each in order. */
  ghost predicate BatchLocks(locks: seq<L.Lock>)
  {
    exists ss, ts :: L.AscendingNames(ss) && L.AscendingNames(ts) && locks == L.Sessions(ss) + L.Traces(ts)
  }

  /** Where the loop over names stands: the traces of the names so far are written. */
  ghost predicate Written(traces: map<string, TraceRow>, before: map<string, TraceRow>, req: Request,
                          names: seq<string>, traceMap: map<string, string>)
  {
    && traces == UpsertAll(before, Grouped(All(req.traces), ByTrace, names), ByTrace, MergeTraceAt)
    && traceMap == (map n | n in names :: n)
    && (forall n :: n in names ==> n in traces)
  }

  /** All references there and every trace as request order leaves it, or the least reference missing. */
  ghost predicate LockOutcome(before: map<string, TraceRow>, after: map<string, TraceRow>, req: Request,
                              res: Result<map<string, string>, string>)
  {
    var done := UpsertAll(before, All(req.traces), ByTrace, MergeTraceAt);
    && (res.Ok? ==> res.value == TraceMap(req) && after == done && forall r :: r in Referenced(req) ==> r in done)
    && (res.Err? ==> res.error in req.spanTraces + req.eventTraces && res.error !in done
                     && forall r :: r in Referenced(req) && r !in done ==> StrLeq(res.error, r))
  }

  /** names lists what the request refers to, each once and in order. */
  ghost predicate ListsReferences(req: Request, names: seq<string>)
  {
    && StrictlyAscending(names)
    && (forall k :: k in names <==> k in Referenced(req))
    && (forall i: nat :: i < |req.traces| ==> req.traces[i].traceId in names)
  }

  lemma {:induction false} SortedReferences(req: Request, externalIds: seq<string>, names: seq<string>)
    requires |externalIds| == |req.traces| + |req.spanTraces| + |req.eventTraces|
    requires externalIds[|req.traces|..] == req.spanTraces + req.eventTraces
    requires forall i: nat :: i < |req.traces| ==> externalIds[i] == req.traces[i].traceId
    requires StrictlyAscending(names) && forall y :: y in names <==> y in externalIds
    ensures ListsReferences(req, names)
  {
    assert externalIds[..|req.traces|] == Names(req);
    assert externalIds == Names(req) + req.spanTraces + req.eventTraces;
  }

  lemma {:induction false} GroupIndexes(ts: seq<TraceInput>, k: string)
    ensures forall x :: x in ForKey(All(ts), ByTrace, k) ==> x.index < |ts| && x.trace == ts[x.index]
  {
    if ts != [] {
      GroupIndexes(ts[..|ts| - 1], k);
      assert All(ts)[..|ts| - 1] == All(ts[..|ts| - 1]);
    }
  }

  lemma {:induction false} WrittenTable(traces: map<string, TraceRow>, before: map<string, TraceRow>, req: Request,
                                        names: seq<string>, traceMap: map<string, string>)
    requires Written(traces, before, req, names, traceMap)
    ensures traces == UpsertAll(before, Grouped(All(req.traces), ByTrace, names), ByTrace, MergeTraceAt)
  {
  }

  lemma {:induction false} GroupKeys(traces: map<string, TraceRow>, all: seq<Indexed>, name: string, k: string)
    requires k in traces || (k == name && ForKey(all, ByTrace, name) != [])
    ensures k in UpsertAll(traces, ForKey(all, ByTrace, name), ByTrace, MergeTraceAt)
  {
    UpsertAllKeys(traces, ForKey(all, ByTrace, name), ByTrace, MergeTraceAt, k);
    ForKeyTwice(all, ByTrace, name, k);
  }

  lemma {:induction false} GroupedNext(all: seq<Indexed>, names: seq<string>, n: nat)
    requires n < |names|
    ensures Grouped(all, ByTrace, names[..n + 1]) == Grouped(all, ByTrace, names[..n]) + ForKey(all, ByTrace, names[n])
  {
    assert names[..n + 1][..n] == names[..n];
  }

  lemma {:induction false} WrittenGroup(traces: map<string, TraceRow>, traces': map<string, TraceRow>, before: map<string, TraceRow>,
                                        req: Request, names: seq<string>, n: nat, traceMap: map<string, string>)
    requires n < |names| && Written(traces, before, req, names[..n], traceMap)
    requires ForKey(All(req.traces), ByTrace, names[n]) != []
    requires traces' == UpsertAll(before, Grouped(All(req.traces), ByTrace, names[..n]) + ForKey(All(req.traces), ByTrace, names[n]),
                                  ByTrace, MergeTraceAt)
    ensures Written(traces', before, req, names[..n + 1], traceMap[names[n] := names[n]])
  {
    hide MergeTraceAt, UpsertAll, ForKey, Grouped;
    var all, name := All(req.traces), names[n];
    GroupedNext(all, names, n);
    UpsertAllAppend(before, Grouped(all, ByTrace, names[..n]), ForKey(all, ByTrace, name), ByTrace, MergeTraceAt);
    assert names[..n + 1] == names[..n] + [name];
    forall k | k in names[..n + 1] ensures k in traces' {
      assert k in names[..n] || k == name;
      GroupKeys(traces, all, name, k);
    }
  }

  lemma {:induction false} WrittenLocked(traces: map<string, TraceRow>, before: map<string, TraceRow>, req: Request,
                                         names: seq<string>, n: nat, traceMap: map<string, string>)
    requires n < |names| && Written(traces, before, req, names[..n], traceMap)
    requires ForKey(All(req.traces), ByTrace, names[n]) == [] && names[n] in traces
    ensures Written(traces, before, req, names[..n + 1], traceMap[names[n] := names[n]])
  {
    hide MergeTraceAt, UpsertAll, ForKey;
    var g := Grouped(All(req.traces), ByTrace, names[..n]);
    assert names[..n + 1][..n] == names[..n];
    assert g + [] == g;
    forall k | k in names[..n + 1] ensures k in traces {
      assert k in names[..n] || k == names[n];
    }
  }

  lemma {:induction false} WrittenKeys(traces: map<string, TraceRow>, before: map<string, TraceRow>, req: Request,
                                       names: seq<string>, traceMap: map<string, string>, k: string)
    requires Written(traces, before, req, names, traceMap) && StrictlyAscending(names)
    ensures k in before ==> k in traces
    ensures k in traces ==> k in UpsertAll(before, All(req.traces), ByTrace, MergeTraceAt)
    ensures k in names ==> k in traces
  {
    UpsertAllKeys(before, Grouped(All(req.traces), ByTrace, names), ByTrace, MergeTraceAt, k);
    UpsertAllKeys(before, All(req.traces), ByTrace, MergeTraceAt, k);
    GroupedForKey(All(req.traces), ByTrace, names, k);
  }

  lemma {:induction false} OnlyReferred(req: Request, name: string)
    requires name in Referenced(req) && ForKey(All(req.traces), ByTrace, name) == []
    ensures name in req.spanTraces + req.eventTraces
  {
    AllHas(req.traces, name);
    assert forall i: nat :: i < |req.traces| ==> Names(req)[i] == req.traces[i].traceId;
  }

  /** The names come in order, so the first one missing is the least. */
  lemma {:induction false} MissingLeast(traces: map<string, TraceRow>, before: map<string, TraceRow>, req: Request,
                                        names: seq<string>, n: nat, traceMap: map<string, string>)
    requires n < |names| && ListsReferences(req, names) && Written(traces, before, req, names[..n], traceMap)
    requires ForKey(All(req.traces), ByTrace, names[n]) == [] && names[n] !in traces
    ensures LockOutcome(before, traces, req, Err(names[n]))
  {
    hide MergeTraceAt, Written, UpsertAll, ForKey;
    var name := names[n];
    var done := UpsertAll(before, All(req.traces), ByTrace, MergeTraceAt);
    WrittenKeys(traces, before, req, names[..n], traceMap, name);
    UpsertAllKeys(before, All(req.traces), ByTrace, MergeTraceAt, name);
    OnlyReferred(req, name);
    assert forall j: nat :: j < n ==> names[j] in names[..n];
    forall r | r in Referenced(req) && r !in done ensures StrLeq(name, r) {
      WrittenKeys(traces, before, req, names[..n], traceMap, r);
      var j: nat :| j < |names| && names[j] == r;
    }
  }

  lemma {:induction false} WrittenAll(traces: map<string, TraceRow>, before: map<string, TraceRow>, req: Request,
                                      names: seq<string>, traceMap: map<string, string>)
    requires ListsReferences(req, names) && Written(traces, before, req, names, traceMap)
    ensures LockOutcome(before, traces, req, Ok(traceMap))
  {
    TracesInLockOrder(before, req.traces, names);
  }

  lemma {:induction false} WrittenNone(before: map<string, TraceRow>, req: Request)
    ensures Written(before, before, req, [], map[])
  {
  }

  lemma {:induction false} NamesAscend(names: seq<string>)
    requires StrictlyAscending(names)
    ensures L.AscendingNames(names) && forall n: nat :: n < |names| ==> L.AscendingNames(names[..n])
  {
  }

  lemma {:induction false} UpsertGroup(before: map<string, TraceRow>, all: seq<Indexed>, group: seq<Indexed>, n: nat)
    requires n < |group|
    ensures UpsertAll(before, all + group[..n + 1], ByTrace, MergeTraceAt)
            == Upsert(UpsertAll(before, all + group[..n], ByTrace, MergeTraceAt), group[n], ByTrace, MergeTraceAt)
  {
    var items := all + group[..n + 1];
    assert items[..|items| - 1] == all + group[..n];
  }

  /** inputs lists, for each name, its traces in request order. */
  ghost predicate Collected(ts: seq<TraceInput>, inputs: map<string, seq<Indexed>>)
  {
    && (forall k :: k in inputs <==> ForKey(All(ts), ByTrace, k) != [])
    && (forall k :: k in inputs ==> inputs[k] == ForKey(All(ts), ByTrace, k))
  }

  lemma {:induction false} NothingCollected()
    ensures Collected([], map[])
  {
  }

  lemma {:induction false} CollectedNext(ts: seq<TraceInput>, t: TraceInput, inputs: map<string, seq<Indexed>>)
    requires Collected(ts, inputs)
    ensures var k := t.traceId; var x := Indexed(|ts|, t);
            Collected(ts + [t], AppendTo(inputs, k, x))
  {
    var x := Indexed(|ts|, t);
    assert All(ts + [t]) == All(ts) + [x];
    assert All(ts + [t])[..|ts|] == All(ts);
  }

  class Processor {
    var sessions: map<string, SessionRow>
    var traces: map<string, TraceRow>
    /** The row locks this transaction has taken, in order. */
    var locks: seq<L.Lock>

    constructor (db: Tables)
      ensures sessions == db.sessions && traces == db.traces && locks == []
    {
      sessions, traces, locks := db.sessions, db.traces, [];
    }

    /** The traces that name a session, in request order. */
    method ListNamed(ts: seq<TraceInput>) returns (order: seq<Indexed>)
      ensures order == WithSession(ts)
    {
      order := [];
      var i: nat := 0;
      while i < |ts|
        invariant i <= |ts| && order == WithSession(ts[..i])
      {
        assert ts[..i + 1][..i] == ts[..i];
        if NamesSession(ts[i]) {
          order := order + [Indexed(i, ts[i])];
        }
        i := i + 1;
      }
      assert ts[..i] == ts;
    }

    method UpsertSession(x: Indexed, ghost before: map<string, SessionRow>, ghost done: seq<Indexed>)
      requires NamesSession(x.trace) && sessions == UpsertAll(before, done, BySession, MergeSessionAt)
      modifies this`sessions, this`locks
      ensures sessions == UpsertAll(before, done + [x], BySession, MergeSessionAt)
      ensures locks == old(locks) + [L.Session(BySession(x))]
    {
      hide MergeSession;
      var k := x.trace.sessionId.value;
      locks := locks + [L.Session(k)];
      var stored := if k in sessions then Some(sessions[k]) else None;
      sessions := sessions[k := MergeSession(stored, x.trace.context)];
      assert (done + [x])[..|done|] == done;
    }

    /** Writes the session of every trace that names one, visited stably sorted by session id. */
    method UpsertSessions(ts: seq<TraceInput>) returns (ids: seq<Option<string>>)
      modifies this`sessions, this`locks
      ensures sessions == HandleTraces(Tables(old(sessions), traces), ts).sessions
      ensures |ids| == |ts| && forall i: nat :: i < |ts| ==> ids[i] == SessionOf(ts[i])
      ensures exists ss :: L.AscendingNames(ss) && locks == old(locks) + L.Sessions(ss)
    {
      hide MergeSessionAt, UpsertAll, StableSort, WithSession, HandleTraces;
      var order := ListNamed(ts);
      order := StableSort(order, BySession);
      InOrder(ts, order);
      ids := seq(|ts|, _ => None);
      var n: nat := 0;
      assert order[..0] == [];
      UpsertNone(sessions);
      while n < |order|
        invariant n <= |order| && |ids| == |ts|
        invariant sessions == UpsertAll(old(sessions), order[..n], BySession, MergeSessionAt)
        invariant forall k: nat :: k < |ts| ==> ids[k] == None || ids[k] == SessionOf(ts[k])
        invariant forall k: nat :: k < n ==> ids[order[k].index] == SessionOf(order[k].trace)
        invariant locks == old(locks) + L.Sessions(SessionLocks(order[..n]))
      {
        var x := order[n];
        assert order[..n + 1] == order[..n] + [x];
        assert L.Sessions(SessionLocks(order[..n + 1])) == L.Sessions(SessionLocks(order[..n])) + [L.Session(BySession(x))];
        UpsertSession(x, old(sessions), order[..n]);
        ids := ids[x.index := x.trace.sessionId];
        n := n + 1;
      }
      assert order[..n] == order;
      SessionsInLockOrder(old(sessions), ts);
      SessionsApart(Tables(old(sessions), traces), ts);
    }

    lemma {:induction false} UpsertNone(before: map<string, SessionRow>)
      ensures UpsertAll(before, [], BySession, MergeSessionAt) == before
    {
    }

    /** The sorted order holds every trace that names a session, at its place. */
    lemma {:induction false} InOrder(ts: seq<TraceInput>, order: seq<Indexed>)
      requires order == StableSort(WithSession(ts), BySession)
      ensures forall k: nat :: k < |order| ==>
                order[k].index < |ts| && order[k].trace == ts[order[k].index] && NamesSession(order[k].trace)
      ensures forall i: nat :: i < |ts| && NamesSession(ts[i]) ==> exists k: nat :: k < |order| && order[k].index == i
      ensures L.AscendingNames(SessionLocks(order))
    {
      StableSortSorts(WithSession(ts), BySession);
      forall k: nat | k < |order|
        ensures order[k].index < |ts| && order[k].trace == ts[order[k].index] && NamesSession(order[k].trace)
      {
        assert order[k] in order;
        StableSortHas(WithSession(ts), BySession, order[k]);
        WithSessionHas(ts, order[k]);
      }
      forall i: nat | i < |ts| && NamesSession(ts[i]) ensures exists k: nat :: k < |order| && order[k].index == i {
        WithSessionHas(ts, Indexed(i, ts[i]));
        StableSortHas(WithSession(ts), BySession, Indexed(i, ts[i]));
        var k: nat :| k < |order| && order[k] == Indexed(i, ts[i]);
      }
    }

    /** Writes every trace of one name, in request order. */
    method UpsertTraces(group: seq<Indexed>, sessionIds: seq<Option<string>>, ghost all: seq<Indexed>, ghost before: map<string, TraceRow>)
      requires traces == UpsertAll(before, all, ByTrace, MergeTraceAt)
      requires forall k: nat :: k < |group| ==>
                 group[k].index < |sessionIds| && sessionIds[group[k].index] == SessionOf(group[k].trace)
      modifies this`traces
      ensures traces == UpsertAll(before, all + group, ByTrace, MergeTraceAt)
    {
      hide MergePatch;
      assert all + group[..0] == all;
      var n: nat := 0;
      while n < |group|
        invariant n <= |group| && traces == UpsertAll(before, all + group[..n], ByTrace, MergeTraceAt)
      {
        UpsertGroup(before, all, group, n);
        var t := group[n].trace;
        var stored := if t.traceId in traces then Some(traces[t.traceId]) else None;
        traces := traces[t.traceId := MergePatch(stored, sessionIds[group[n].index], t.patch)];
        n := n + 1;
      }
      assert group[..n] == group;
    }

    /** The traces of each name, in request order. */
    method CollectInputs(ts: seq<TraceInput>) returns (inputs: map<string, seq<Indexed>>, externalIds: seq<string>)
      ensures Collected(ts, inputs)
      ensures |externalIds| == |ts| && forall i: nat :: i < |ts| ==> externalIds[i] == ts[i].traceId
    {
      hide Collected;
      inputs, externalIds := map[], [];
      var i: nat := 0;
      assert ts[..0] == [];
      NothingCollected();
      while i < |ts|
        invariant i <= |ts| && |externalIds| == i && Collected(ts[..i], inputs)
        invariant forall j: nat :: j < i ==> externalIds[j] == ts[j].traceId
      {
        var k := ts[i].traceId;
        assert ts[..i + 1] == ts[..i] + [ts[i]];
        CollectedNext(ts[..i], ts[i], inputs);
        inputs := AppendTo(inputs, k, Indexed(i, ts[i]));
        externalIds := externalIds + [k];
        i := i + 1;
      }
      assert ts[..i] == ts;
    }

    /** Writes or locks every referenced trace, sorted by external id. A trace that only spans or
        events name must be there already; the least one missing makes the batch not ready. */
    method LockTraces(req: Request, sessionIds: seq<Option<string>>) returns (res: Result<map<string, string>, string>)
      requires |sessionIds| == |req.traces| && forall i: nat :: i < |req.traces| ==> sessionIds[i] == SessionOf(req.traces[i])
      modifies this`traces, this`locks
      ensures LockOutcome(old(traces), traces, req, res)
      ensures exists ts :: L.AscendingNames(ts) && locks == old(locks) + L.Traces(ts)
    {
      hide Written, LockOutcome, ListsReferences, L.AscendingNames, StrictlyAscending;
      hide UpsertAll, ForKey, Grouped, MergeTraceAt, SortedNames;
      var inputs, externalIds := CollectInputs(req.traces);
      assert Collected(req.traces, inputs);
      externalIds := externalIds + req.spanTraces + req.eventTraces;
      var names := SortedNames(externalIds);
      SortedNamesSpec(externalIds);
      SortedReferences(req, externalIds, names);
      NamesAscend(names);
      var traceMap: map<string, string> := map[];
      var n: nat := 0;
      WrittenNone(old(traces), req);
      while n < |names|
        invariant n <= |names| && Written(traces, old(traces), req, names[..n], traceMap)
        invariant locks == old(locks) + L.Traces(names[..n])
      {
        var name := names[n];
        assert names[..n + 1][..n] == names[..n];
        assert L.Traces(names[..n + 1]) == L.Traces(names[..n]) + [L.Trace(name)];
        locks := locks + [L.Trace(name)];
        ghost var soFar := traces;
        if name in inputs {
          GroupIndexes(req.traces, name);
          WrittenTable(traces, old(traces), req, names[..n], traceMap);
          UpsertTraces(inputs[name], sessionIds, Grouped(All(req.traces), ByTrace, names[..n]), old(traces));
          WrittenGroup(soFar, traces, old(traces), req, names, n, traceMap);
        } else if name in traces {
          WrittenLocked(traces, old(traces), req, names, n, traceMap);
        } else {
          MissingLeast(traces, old(traces), req, names, n, traceMap);
          assert locks == old(locks) + L.Traces(names[..n + 1]);
          NamesAscend(names[..n + 1]);
          return Err(name);
        }
        traceMap := traceMap[name := name];
        n := n + 1;
      }
      assert names[..n] == names;
      WrittenAll(traces, old(traces), req, names, traceMap);
      return Ok(traceMap);
    }

    /** The outcome is that of handling the traces in request order; a batch that is not ready
        reports the least trace it misses. Every lock was taken in the ingest order. */
    method ProcessBatch(req: Request) returns (res: Result<map<string, string>, string>)
      requires locks == []
      modifies this
      ensures var spec := InRequestOrder(old(Tables(sessions, traces)), req);
              && (res.Ok? <==> spec.Ok?)
              && (res.Ok? ==> spec.value == Processed(Tables(sessions, traces), res.value))
              && (res.Err? ==> var done := HandleTraces(old(Tables(sessions, traces)), req.traces).traces;
                    && res.error in req.spanTraces + req.eventTraces && res.error !in done
                    && forall r :: r in Referenced(req) && r !in done ==> StrLeq(res.error, r))
      ensures BatchLocks(locks)
    {
      hide HandleTraces, UpsertAll, MergeTraceAt, FirstMissing;
      ghost var db := Tables(sessions, traces);
      var sessionIds := UpsertSessions(req.traces);
      ghost var ss :| L.AscendingNames(ss) && locks == L.Sessions(ss);
      res := LockTraces(req, sessionIds);
      ghost var ts :| L.AscendingNames(ts) && locks == L.Sessions(ss) + L.Traces(ts);
      TracesApart(db, req.traces);
      FirstMissingSpec(HandleTraces(db, req.traces).traces, req.spanTraces + req.eventTraces);
    }
  }
}
