/** The ingest write path visits sessions and traces in lock order, yet writes what handling the
    traces in request order would write. */
module IngestOrder {
  import opened Basics
  import opened KeyedUpserts
  import L = LockOrder

  // ---- session context: the first non-empty value wins ----

  datatype SessionContext = SessionContext(name: Option<string>, userId: Option<string>, userName: Option<string>)

  datatype SessionRow = SessionRow(name: Option<string>, userId: Option<string>, metadata: map<string, string>)

  function NonEmpty(v: Option<string>): Option<string>
  {
    if v == Some("") then None else v
  }

  function FirstNonEmpty(stored: Option<string>, incoming: Option<string>): Option<string>
  {
    if NonEmpty(stored).Some? then stored else NonEmpty(incoming)
  }

  const UserNameKey := "user_name"

  function ContextMetadata(c: SessionContext): map<string, string>
  {
    if c.userName.Some? then map[UserNameKey := c.userName.value] else map[]
  }

  /** Stored keys win over incoming ones, but a stored blank user name is dropped first. */
  function MergeSession(row: Option<SessionRow>, c: SessionContext): SessionRow
  {
    match row
    case None => SessionRow(c.name, c.userId, ContextMetadata(c))
    case Some(r) =>
      var kept := if UserNameKey in r.metadata && r.metadata[UserNameKey] != "" then r.metadata
                  else r.metadata - {UserNameKey};
      SessionRow(FirstNonEmpty(r.name, c.name), FirstNonEmpty(r.userId, c.userId), ContextMetadata(c) + kept)
  }

  // ---- traces: patch semantics ----

  datatype TracePatch = TracePatch(name: Option<string>, userId: Option<string>, tags: seq<string>, environment: Option<string>,
                                   release: Option<string>, metadata: Option<map<string, string>>, input: Option<string>,
                                   output: Option<string>, status: Option<string>, startTime: Option<int>, endTime: Option<int>)

  datatype TraceRow = TraceRow(sessionId: Option<string>, name: Option<string>, userId: Option<string>, tags: seq<string>,
                               environment: Option<string>, release: Option<string>, metadata: Option<map<string, string>>,
                               input: Option<string>, output: Option<string>, status: string, startTime: Option<int>,
                               endTime: Option<int>, version: nat)

  datatype TraceInput = TraceInput(traceId: string, sessionId: Option<string>, context: SessionContext, patch: TracePatch)

  function Coalesce<T>(a: Option<T>, b: Option<T>): Option<T>
  {
    if a.Some? then a else b
  }

  function Least(a: Option<int>, b: Option<int>): Option<int>
  {
    if a.None? then b else if b.None? then a else if a.value < b.value then a else b
  }

  function Greatest(a: Option<int>, b: Option<int>): Option<int>
  {
    if a.None? then b else if b.None? then a else if a.value > b.value then a else b
  }

  predicate Settled(status: string)
  {
    status == "failed" || status == "error"
  }

  /** Values overwrite, absent ones do not; a failed status is never downgraded, and a patch
      without a status keeps the stored one. */
  function MergePatch(row: Option<TraceRow>, sessionId: Option<string>, p: TracePatch): TraceRow
  {
    match row
    case None =>
      TraceRow(sessionId, p.name, p.userId, p.tags, p.environment, p.release, p.metadata, p.input, p.output,
               if p.status.Some? then p.status.value else "running", p.startTime, p.endTime, 1)
    case Some(r) =>
      TraceRow(Coalesce(sessionId, r.sessionId), Coalesce(p.name, r.name), Coalesce(p.userId, r.userId),
               if p.tags != [] then p.tags else r.tags, Coalesce(p.environment, r.environment),
               Coalesce(p.release, r.release),
               // A stored SQL null stays null under concatenation.
               if p.metadata.Some? && r.metadata.Some? then Some(r.metadata.value + p.metadata.value) else r.metadata,
               Coalesce(p.input, r.input), Coalesce(p.output, r.output),
               if Settled(r.status) || p.status.None? then r.status else p.status.value,
               Least(r.startTime, p.startTime), Greatest(r.endTime, p.endTime), r.version + 1)
  }

  function MergeTrace(row: Option<TraceRow>, t: TraceInput): TraceRow
  {
    MergePatch(row, SessionOf(t), t.patch)
  }

  predicate NamesSession(t: TraceInput)
  {
    NonEmpty(t.sessionId).Some?
  }

  /** Rows are named by external id: the store gives each its internal id once. */
  function SessionOf(t: TraceInput): Option<string>
  {
    NonEmpty(t.sessionId)
  }

  function SessionKey(t: TraceInput): string
  {
    if NamesSession(t) then t.sessionId.value else ""
  }

  function TraceKey(t: TraceInput): string
  {
    t.traceId
  }

  function MergeSessionOf(row: Option<SessionRow>, t: TraceInput): SessionRow
  {
    MergeSession(row, t.context)
  }

  // ---- request order ----

  datatype Tables = Tables(sessions: map<string, SessionRow>, traces: map<string, TraceRow>)

  /** One trace: its session first, then the trace. */
  function HandleTrace(db: Tables, t: TraceInput): Tables
  {
    Tables(if NamesSession(t) then Upsert(db.sessions, t, SessionKey, MergeSessionOf) else db.sessions,
           Upsert(db.traces, t, TraceKey, MergeTrace))
  }

  function HandleTraces(db: Tables, ts: seq<TraceInput>): Tables
  {
    if ts == [] then db else HandleTrace(HandleTraces(db, ts[..|ts| - 1]), ts[|ts| - 1])
  }

  /** The first reference to a trace that is not there. */
  function FirstMissing(traces: map<string, TraceRow>, refs: seq<string>): Option<string>
  {
    if refs == [] then None
    else if refs[0] !in traces then Some(refs[0])
    else FirstMissing(traces, refs[1..])
  }

  datatype Request = Request(traces: seq<TraceInput>, spanTraces: seq<string>, eventTraces: seq<string>)

  function Names(req: Request): seq<string>
  {
    seq(|req.traces|, i requires 0 <= i < |req.traces| => req.traces[i].traceId)
  }

  /** The external ids a batch refers to, and the trace row each stands for. */
  function Referenced(req: Request): set<string>
  {
    set n | n in Names(req) + req.spanTraces + req.eventTraces
  }

  datatype Processed = Processed(db: Tables, traceMap: map<string, string>)

  function TraceMap(req: Request): map<string, string>
  {
    map n | n in Referenced(req) :: n
  }

  /** Handling a batch in request order: every trace, then every span's and event's reference. */
  function InRequestOrder(db: Tables, req: Request): Result<Processed, string>
  {
    var done := HandleTraces(db, req.traces);
    match FirstMissing(done.traces, req.spanTraces + req.eventTraces)
    case Some(name) => Err(name)
    case None => Ok(Processed(done, TraceMap(req)))
  }

  // ---- the traces of a request with their places ----

  datatype Indexed = Indexed(index: nat, trace: TraceInput)

  function BySession(x: Indexed): string
  {
    SessionKey(x.trace)
  }

  function ByTrace(x: Indexed): string
  {
    x.trace.traceId
  }

  function MergeSessionAt(row: Option<SessionRow>, x: Indexed): SessionRow
  {
    MergeSession(row, x.trace.context)
  }

  function MergeTraceAt(row: Option<TraceRow>, x: Indexed): TraceRow
  {
    MergeTrace(row, x.trace)
  }

  function All(ts: seq<TraceInput>): seq<Indexed>
  {
    seq(|ts|, i requires 0 <= i < |ts| => Indexed(i, ts[i]))
  }

  function WithSession(ts: seq<TraceInput>): seq<Indexed>
  {
    if ts == [] then []
    else
      var last := ts[|ts| - 1];
      WithSession(ts[..|ts| - 1]) + (if NamesSession(last) then [Indexed(|ts| - 1, last)] else [])
  }

  /** Sessions and traces do not touch each other's tables, so they can be handled apart. */
  lemma {:induction false} TracesApart(db: Tables, ts: seq<TraceInput>)
    ensures HandleTraces(db, ts).traces == UpsertAll(db.traces, All(ts), ByTrace, MergeTraceAt)
  {
    hide MergeTrace, MergeSession;
    if ts != [] {
      TracesApart(db, ts[..|ts| - 1]);
      assert All(ts)[..|ts| - 1] == All(ts[..|ts| - 1]);
    }
  }

  lemma {:induction false} SessionsApart(db: Tables, ts: seq<TraceInput>)
    ensures HandleTraces(db, ts).sessions == UpsertAll(db.sessions, WithSession(ts), BySession, MergeSessionAt)
  {
    hide MergeTrace, MergeSession;
    if ts != [] {
      var front, last := ts[..|ts| - 1], ts[|ts| - 1];
      SessionsApart(db, front);
      var w := WithSession(ts);
      if NamesSession(last) {
        assert w == WithSession(front) + [Indexed(|ts| - 1, last)];
        assert w[..|w| - 1] == WithSession(front);
      } else {
        assert w == WithSession(front);
      }
    }
  }

  lemma {:induction false} WithSessionHas(ts: seq<TraceInput>, x: Indexed)
    ensures x in WithSession(ts) <==> x.index < |ts| && x.trace == ts[x.index] && NamesSession(x.trace)
  {
    if ts != [] { WithSessionHas(ts[..|ts| - 1], x); }
  }

  lemma {:induction false} UpsertAllKeys<I, R>(rows: map<string, R>, items: seq<I>, key: I -> string,
                                               merge: (Option<R>, I) -> R, k: string)
    ensures k in UpsertAll(rows, items, key, merge) <==> k in rows || ForKey(items, key, k) != []
  {
    UpsertAllAt(rows, items, key, merge, k);
  }

  lemma {:induction false} FirstMissingSpec(traces: map<string, TraceRow>, refs: seq<string>)
    ensures FirstMissing(traces, refs).None? <==> forall r :: r in refs ==> r in traces
    ensures FirstMissing(traces, refs).Some? ==>
              FirstMissing(traces, refs).value in refs && FirstMissing(traces, refs).value !in traces
  {
    if refs != [] {
      FirstMissingSpec(traces, refs[1..]);
      assert refs == [refs[0]] + refs[1..];
    }
  }

  // ---- lock order ----

  /** Visiting the named sessions in lock order writes what request order writes. */
  lemma {:induction false} SessionsInLockOrder(rows: map<string, SessionRow>, ts: seq<TraceInput>)
    ensures UpsertAll(rows, StableSort(WithSession(ts), BySession), BySession, MergeSessionAt)
            == UpsertAll(rows, WithSession(ts), BySession, MergeSessionAt)
  {
    forall k ensures ForKey(StableSort(WithSession(ts), BySession), BySession, k) == ForKey(WithSession(ts), BySession, k) {
      StableSortForKey(WithSession(ts), BySession, k);
    }
    ReorderingKeepsTable(rows, StableSort(WithSession(ts), BySession), WithSession(ts), BySession, MergeSessionAt);
  }

  lemma {:induction false} AllHas(ts: seq<TraceInput>, k: string)
    ensures ForKey(All(ts), ByTrace, k) != [] <==> exists i: nat :: i < |ts| && ts[i].traceId == k
  {
    if ts != [] {
      AllHas(ts[..|ts| - 1], k);
      assert All(ts)[..|ts| - 1] == All(ts[..|ts| - 1]);
    }
  }

  /** So does visiting the traces grouped by external id, in lock order. */
  lemma {:induction false} TracesInLockOrder(rows: map<string, TraceRow>, ts: seq<TraceInput>, names: seq<string>)
    requires StrictlyAscending(names) && forall i: nat :: i < |ts| ==> ts[i].traceId in names
    ensures UpsertAll(rows, Grouped(All(ts), ByTrace, names), ByTrace, MergeTraceAt)
            == UpsertAll(rows, All(ts), ByTrace, MergeTraceAt)
  {
    forall k ensures ForKey(Grouped(All(ts), ByTrace, names), ByTrace, k) == ForKey(All(ts), ByTrace, k) {
      GroupedForKey(All(ts), ByTrace, names, k);
      AllHas(ts, k);
    }
    ReorderingKeepsTable(rows, Grouped(All(ts), ByTrace, names), All(ts), ByTrace, MergeTraceAt);
  }

  // ---- what the merges amount to ----

  function FirstGiven(vs: seq<Option<string>>): Option<string>
  {
    if vs == [] then None else if NonEmpty(vs[0]).Some? then vs[0] else FirstGiven(vs[1..])
  }

  lemma {:induction false} FirstGivenAppend(vs: seq<Option<string>>, v: Option<string>)
    ensures FirstGiven(vs + [v]) == if FirstGiven(vs).Some? then FirstGiven(vs) else NonEmpty(v)
  {
    if vs != [] {
      FirstGivenAppend(vs[1..], v);
      assert (vs + [v])[1..] == vs[1..] + [v];
    }
  }

  function StoredUserName(r: SessionRow): Option<string>
  {
    if UserNameKey in r.metadata then Some(r.metadata[UserNameKey]) else None
  }

  function GivenNames(stored: Option<SessionRow>, xs: seq<Indexed>): seq<Option<string>>
  {
    [if stored.Some? then stored.value.name else None]
    + seq(|xs|, i requires 0 <= i < |xs| => xs[i].trace.context.name)
  }

  function GivenUserNames(stored: Option<SessionRow>, xs: seq<Indexed>): seq<Option<string>>
  {
    [if stored.Some? then StoredUserName(stored.value) else None]
    + seq(|xs|, i requires 0 <= i < |xs| => xs[i].trace.context.userName)
  }

  /** One more trace gives a name only if none was given before it. */
  lemma {:induction false} NextName(row: Option<SessionRow>, x: Indexed, names: seq<Option<string>>, users: seq<Option<string>>)
    requires row.Some? ==> NonEmpty(row.value.name) == FirstGiven(names)
                           && NonEmpty(StoredUserName(row.value)) == FirstGiven(users)
    requires row.None? ==> FirstGiven(names).None? && FirstGiven(users).None?
    ensures var r := MergeSessionAt(row, x);
            && NonEmpty(r.name) == FirstGiven(names + [x.trace.context.name])
            && NonEmpty(StoredUserName(r)) == FirstGiven(users + [x.trace.context.userName])
  {
    FirstGivenAppend(names, x.trace.context.name);
    FirstGivenAppend(users, x.trace.context.userName);
    hide FirstGiven;
  }

  /** However many traces name a session, it keeps the first non-empty name and user name. */
  lemma {:induction false} FirstNameWins(stored: Option<SessionRow>, xs: seq<Indexed>)
    ensures var r := MergeAll(stored, xs, MergeSessionAt);
            if r.Some? then NonEmpty(r.value.name) == FirstGiven(GivenNames(stored, xs))
                            && NonEmpty(StoredUserName(r.value)) == FirstGiven(GivenUserNames(stored, xs))
            else xs == [] && stored.None?
  {
    if xs != [] {
      var front, last := xs[..|xs| - 1], xs[|xs| - 1];
      FirstNameWins(stored, front);
      assert GivenNames(stored, xs) == GivenNames(stored, front) + [last.trace.context.name];
      assert GivenUserNames(stored, xs) == GivenUserNames(stored, front) + [last.trace.context.userName];
      var row := MergeAll(stored, front, MergeSessionAt);
      if row.None? { assert GivenNames(stored, front) == [None] && GivenUserNames(stored, front) == [None]; }
      NextName(row, last, GivenNames(stored, front), GivenUserNames(stored, front));
      hide MergeSessionAt, FirstGiven, StoredUserName;
    }
  }

  function GivenUserIds(stored: Option<SessionRow>, xs: seq<Indexed>): seq<Option<string>>
  {
    [if stored.Some? then stored.value.userId else None]
    + seq(|xs|, i requires 0 <= i < |xs| => xs[i].trace.context.userId)
  }

  /** It keeps the first non-empty user id too, and of its metadata all but the user name. */
  lemma {:induction false} FirstUserIdWins(stored: Option<SessionRow>, xs: seq<Indexed>)
    requires stored.Some? || xs != []
    ensures var r := MergeAll(stored, xs, MergeSessionAt);
            && r.Some? && NonEmpty(r.value.userId) == FirstGiven(GivenUserIds(stored, xs))
            && r.value.metadata - {UserNameKey} == (if stored.Some? then stored.value.metadata - {UserNameKey} else map[])
  {
    if xs == [] {
      assert GivenUserIds(stored, xs) == [stored.value.userId];
      FirstGivenAppend([], stored.value.userId);
      assert [] + [stored.value.userId] == [stored.value.userId];
    } else {
      var front, last := xs[..|xs| - 1], xs[|xs| - 1];
      assert GivenUserIds(stored, xs) == GivenUserIds(stored, front) + [last.trace.context.userId];
      FirstGivenAppend(GivenUserIds(stored, front), last.trace.context.userId);
      if stored.Some? || front != [] {
        FirstUserIdWins(stored, front);
      } else {
        assert GivenUserIds(stored, front) == [None];
      }
      hide FirstGiven, GivenUserIds;
    }
  }

  /** A failed trace stays failed, and patches without a status leave the status alone. */
  lemma {:induction false} StatusProtected(stored: Option<TraceRow>, xs: seq<Indexed>)
    requires stored.Some?
    requires Settled(stored.value.status) || forall i: nat :: i < |xs| ==> xs[i].trace.patch.status.None?
    ensures MergeAll(stored, xs, MergeTraceAt).Some?
    ensures MergeAll(stored, xs, MergeTraceAt).value.status == stored.value.status
    ensures MergeAll(stored, xs, MergeTraceAt).value.version == stored.value.version + |xs|
  {
    if xs != [] { StatusProtected(stored, xs[..|xs| - 1]); }
  }

  /** All metadata that the traces bring, later keys over earlier ones. */
  function GivenMetadata(xs: seq<Indexed>): map<string, string>
  {
    if xs == [] then map[]
    else
      var p := xs[|xs| - 1].trace.patch;
      GivenMetadata(xs[..|xs| - 1]) + (if p.metadata.Some? then p.metadata.value else map[])
  }

  function MetadataOf(row: Option<TraceRow>): map<string, string>
  {
    if row.Some? && row.value.metadata.Some? then row.value.metadata.value else map[]
  }

  /** The row starts with metadata: the stored row's, or that of the trace which creates it. */
  predicate StartsWithMetadata(stored: Option<TraceRow>, xs: seq<Indexed>)
  {
    if stored.Some? then stored.value.metadata.Some? else xs != [] && xs[0].trace.patch.metadata.Some?
  }

  lemma {:induction false} MetadataAfter(stored: Option<TraceRow>, xs: seq<Indexed>)
    requires stored.Some? || xs != []
    ensures var r := MergeAll(stored, xs, MergeTraceAt);
            && r.Some? && (r.value.metadata.Some? <==> StartsWithMetadata(stored, xs))
            && (StartsWithMetadata(stored, xs) ==> r.value.metadata.value == MetadataOf(stored) + GivenMetadata(xs))
  {
    if xs != [] {
      var front := xs[..|xs| - 1];
      if stored.Some? || front != [] {
        MetadataAfter(stored, front);
      } else {
        assert GivenMetadata(front) == map[];
      }
    }
  }

  /** A trace's metadata is its stored metadata with all later metadata merged in, exactly when the row
      starts with metadata or nothing brings any: a row that starts with a null keeps the null. */
  lemma {:induction false} MetadataMergedIff(stored: Option<TraceRow>, xs: seq<Indexed>)
    requires stored.Some? || xs != []
    ensures MetadataOf(MergeAll(stored, xs, MergeTraceAt)) == MetadataOf(stored) + GivenMetadata(xs)
            <==> StartsWithMetadata(stored, xs) || GivenMetadata(xs) == map[]
  {
    MetadataAfter(stored, xs);
    hide MergeAll, GivenMetadata;
  }

  const NoPatch: TracePatch :=
    TracePatch(None, None, [], None, None, None, None, None, None, None, None)

  /** A trace reported first without metadata and then with some keeps none. */
  lemma {:induction false} MetadataLost()
    ensures var context := SessionContext(None, None, None);
            var xs := [Indexed(0, TraceInput("t", None, context, NoPatch)),
                       Indexed(1, TraceInput("t", None, context, NoPatch.(metadata := Some(map["k" := "v"]))))];
            GivenMetadata(xs) == map["k" := "v"] && MergeAll(None, xs, MergeTraceAt).Some?
            && MergeAll(None, xs, MergeTraceAt).value.metadata.None?
  {
    var context := SessionContext(None, None, None);
    var xs := [Indexed(0, TraceInput("t", None, context, NoPatch)),
               Indexed(1, TraceInput("t", None, context, NoPatch.(metadata := Some(map["k" := "v"]))))];
    assert xs[..1] == [xs[0]] && xs[..1][..0] == [];
    assert GivenMetadata(xs[..1]) == map[];
    MetadataAfter(None, xs);
  }

  // ---- what a trace comes to, field by field ----

  /** The last value given. */
  function LastSome<T>(vs: seq<Option<T>>): (r: Option<T>)
    ensures r.None? <==> forall i: nat :: i < |vs| ==> vs[i].None?
    ensures r.Some? ==> exists i: nat :: i < |vs| && vs[i] == r && forall j: nat :: i < j < |vs| ==> vs[j].None?
  {
    if vs == [] then None
    else if vs[|vs| - 1].Some? then vs[|vs| - 1]
    else LastSome(vs[..|vs| - 1])
  }

  predicate Failure(v: Option<string>)
  {
    v == Some("failed") || v == Some("error")
  }

  /** The first failure given. */
  function FirstFailure(vs: seq<Option<string>>): (r: Option<string>)
    ensures r.None? <==> forall i: nat :: i < |vs| ==> !Failure(vs[i])
    ensures r.Some? ==> Failure(r) && exists i: nat :: i < |vs| && vs[i] == r && forall j: nat :: j < i ==> !Failure(vs[j])
  {
    if vs == [] then None
    else
      var earlier := FirstFailure(vs[..|vs| - 1]);
      var last := vs[|vs| - 1];
      if earlier.Some? then earlier else if Failure(last) then last else None
  }

  predicate IsLeast(vs: seq<Option<int>>, r: Option<int>)
  {
    && (r.None? <==> forall i: nat :: i < |vs| ==> vs[i].None?)
    && (r.Some? ==> r in vs && forall i: nat :: i < |vs| && vs[i].Some? ==> r.value <= vs[i].value)
  }

  predicate IsGreatest(vs: seq<Option<int>>, r: Option<int>)
  {
    && (r.None? <==> forall i: nat :: i < |vs| ==> vs[i].None?)
    && (r.Some? ==> r in vs && forall i: nat :: i < |vs| && vs[i].Some? ==> vs[i].value <= r.value)
  }

  /** What the traces give for a field, after what the stored row has. */
  function Given<T>(stored: Option<TraceRow>, xs: seq<Indexed>, ofRow: TraceRow -> Option<T>, ofTrace: TraceInput -> Option<T>): (vs: seq<Option<T>>)
    ensures |vs| == |xs| + 1
  {
    [if stored.Some? then ofRow(stored.value) else None] + seq(|xs|, i requires 0 <= i < |xs| => ofTrace(xs[i].trace))
  }

  lemma {:induction false} GivenNext<T>(stored: Option<TraceRow>, xs: seq<Indexed>, ofRow: TraceRow -> Option<T>, ofTrace: TraceInput -> Option<T>)
    requires xs != []
    ensures Given(stored, xs, ofRow, ofTrace) == Given(stored, xs[..|xs| - 1], ofRow, ofTrace) + [ofTrace(xs[|xs| - 1].trace)]
  {
  }

  function TagsIf(tags: seq<string>): Option<seq<string>>
  {
    if tags == [] then None else Some(tags)
  }

  function StatusIn(r: TraceRow): Option<string> { Some(r.status) }
  function NameIn(r: TraceRow): Option<string> { r.name }
  function UserIn(r: TraceRow): Option<string> { r.userId }
  function EnvironmentIn(r: TraceRow): Option<string> { r.environment }
  function ReleaseIn(r: TraceRow): Option<string> { r.release }
  function InputIn(r: TraceRow): Option<string> { r.input }
  function OutputIn(r: TraceRow): Option<string> { r.output }
  function SessionIn(r: TraceRow): Option<string> { r.sessionId }
  function TagsIn(r: TraceRow): Option<seq<string>> { TagsIf(r.tags) }
  function StartIn(r: TraceRow): Option<int> { r.startTime }
  function EndIn(r: TraceRow): Option<int> { r.endTime }

  function StatusBy(t: TraceInput): Option<string> { t.patch.status }
  function NameBy(t: TraceInput): Option<string> { t.patch.name }
  function UserBy(t: TraceInput): Option<string> { t.patch.userId }
  function EnvironmentBy(t: TraceInput): Option<string> { t.patch.environment }
  function ReleaseBy(t: TraceInput): Option<string> { t.patch.release }
  function InputBy(t: TraceInput): Option<string> { t.patch.input }
  function OutputBy(t: TraceInput): Option<string> { t.patch.output }
  function SessionBy(t: TraceInput): Option<string> { if t.sessionId == Some("") then None else t.sessionId }
  function TagsBy(t: TraceInput): Option<seq<string>> { TagsIf(t.patch.tags) }
  function StartBy(t: TraceInput): Option<int> { t.patch.startTime }
  function EndBy(t: TraceInput): Option<int> { t.patch.endTime }

  lemma {:induction false} LastSomeNext<T>(vs: seq<Option<T>>, v: Option<T>)
    ensures LastSome(vs + [v]) == if v.Some? then v else LastSome(vs)
  {
    assert (vs + [v])[..|vs|] == vs;
  }

  lemma {:induction false} FirstFailureNext(vs: seq<Option<string>>, v: Option<string>)
    ensures FirstFailure(vs + [v]) ==
            if FirstFailure(vs).Some? then FirstFailure(vs) else if Failure(v) then v else None
  {
    assert (vs + [v])[..|vs|] == vs;
  }

  /** The status a row ends with: the first failure, else the last status given, else running. */
  function EndStatus(vs: seq<Option<string>>): string
  {
    if FirstFailure(vs).Some? then FirstFailure(vs).value
    else if LastSome(vs).Some? then LastSome(vs).value
    else "running"
  }

  lemma {:induction false} FailureEnds(vs: seq<Option<string>>)
    ensures FirstFailure(vs).Some? <==> Failure(Some(EndStatus(vs)))
  {
    if FirstFailure(vs).None? && LastSome(vs).Some? {
      var i: nat :| i < |vs| && vs[i] == LastSome(vs);
      assert !Failure(vs[i]);
    }
  }

  lemma {:induction false} EndStatusNext(vs: seq<Option<string>>, v: Option<string>)
    ensures EndStatus(vs + [v]) == if Failure(Some(EndStatus(vs))) || v.None? then EndStatus(vs) else v.value
  {
    FirstFailureNext(vs, v);
    LastSomeNext(vs, v);
    FailureEnds(vs);
    hide FirstFailure, LastSome;
  }

  lemma {:induction false} OneStatus(v: Option<string>)
    ensures EndStatus([v]) == if v.Some? then v.value else "running"
  {
    var none: seq<Option<string>> := [];
    EndStatusNext(none, v);
    assert none + [v] == [v];
    assert EndStatus(none) == "running";
    hide EndStatus, FirstFailure, LastSome;
  }

  /** A trace's status is its first failure, and until then the last status given to it. */
  lemma {:induction false} StatusMerged(stored: Option<TraceRow>, xs: seq<Indexed>)
    requires stored.Some? || xs != []
    ensures MergeAll(stored, xs, MergeTraceAt).Some?
    ensures MergeAll(stored, xs, MergeTraceAt).value.status == EndStatus(Given(stored, xs, StatusIn, StatusBy))
    ensures MergeAll(stored, xs, MergeTraceAt).value.version == (if stored.Some? then stored.value.version else 0) + |xs|
    decreases |xs|
  {
    if xs == [] {
      assert Given(stored, xs, StatusIn, StatusBy) == [Some(stored.value.status)];
      OneStatus(Some(stored.value.status));
    } else {
      var front, v := xs[..|xs| - 1], StatusBy(xs[|xs| - 1].trace);
      GivenNext(stored, xs, StatusIn, StatusBy);
      EndStatusNext(Given(stored, front, StatusIn, StatusBy), v);
      if stored.Some? || front != [] {
        StatusMerged(stored, front);
      } else {
        assert Given(stored, front, StatusIn, StatusBy) == [None];
        OneStatus(None);
      }
      hide EndStatus, Given;
    }
  }

  /** Every other value is the last one given, the start time the least and the end time the greatest. */
  ghost predicate FieldsMerged(stored: Option<TraceRow>, xs: seq<Indexed>, r: TraceRow)
  {
    && r.name == LastSome(Given(stored, xs, NameIn, NameBy))
    && r.userId == LastSome(Given(stored, xs, UserIn, UserBy))
    && r.environment == LastSome(Given(stored, xs, EnvironmentIn, EnvironmentBy))
    && r.release == LastSome(Given(stored, xs, ReleaseIn, ReleaseBy))
    && r.input == LastSome(Given(stored, xs, InputIn, InputBy))
    && r.output == LastSome(Given(stored, xs, OutputIn, OutputBy))
    && r.sessionId == LastSome(Given(stored, xs, SessionIn, SessionBy))
    && TagsIf(r.tags) == LastSome(Given(stored, xs, TagsIn, TagsBy))
  }

  lemma {:induction false} LastNext<T>(stored: Option<TraceRow>, xs: seq<Indexed>, ofRow: TraceRow -> Option<T>, ofTrace: TraceInput -> Option<T>)
    requires xs != []
    ensures var v := ofTrace(xs[|xs| - 1].trace);
            LastSome(Given(stored, xs, ofRow, ofTrace))
            == if v.Some? then v else LastSome(Given(stored, xs[..|xs| - 1], ofRow, ofTrace))
  {
    GivenNext(stored, xs, ofRow, ofTrace);
    LastSomeNext(Given(stored, xs[..|xs| - 1], ofRow, ofTrace), ofTrace(xs[|xs| - 1].trace));
    hide Given, LastSome;
  }

  lemma {:induction false} LastStored<T>(stored: Option<TraceRow>, ofRow: TraceRow -> Option<T>, ofTrace: TraceInput -> Option<T>)
    ensures LastSome(Given(stored, [], ofRow, ofTrace)) == if stored.Some? then ofRow(stored.value) else None
  {
    assert Given(stored, [], ofRow, ofTrace) == [if stored.Some? then ofRow(stored.value) else None];
    var none: seq<Option<T>> := [];
    LastSomeNext(none, if stored.Some? then ofRow(stored.value) else None);
    assert none + [if stored.Some? then ofRow(stored.value) else None] == [if stored.Some? then ofRow(stored.value) else None];
  }

  lemma {:induction false} FieldsStored(stored: Option<TraceRow>)
    ensures stored.Some? ==> FieldsMerged(stored, [], stored.value)
    ensures stored.None? ==>
              && LastSome(Given(stored, [], NameIn, NameBy)).None? && LastSome(Given(stored, [], UserIn, UserBy)).None?
              && LastSome(Given(stored, [], EnvironmentIn, EnvironmentBy)).None? && LastSome(Given(stored, [], ReleaseIn, ReleaseBy)).None?
              && LastSome(Given(stored, [], InputIn, InputBy)).None? && LastSome(Given(stored, [], OutputIn, OutputBy)).None?
              && LastSome(Given(stored, [], SessionIn, SessionBy)).None? && LastSome(Given(stored, [], TagsIn, TagsBy)).None?
  {
    hide Given, LastSome;
    LastStored(stored, NameIn, NameBy);
    LastStored(stored, UserIn, UserBy);
    LastStored(stored, EnvironmentIn, EnvironmentBy);
    LastStored(stored, ReleaseIn, ReleaseBy);
    LastStored(stored, InputIn, InputBy);
    LastStored(stored, OutputIn, OutputBy);
    LastStored(stored, SessionIn, SessionBy);
    LastStored(stored, TagsIn, TagsBy);
  }

  lemma {:induction false} LastValuesMerged(stored: Option<TraceRow>, xs: seq<Indexed>)
    requires stored.Some? || xs != []
    ensures MergeAll(stored, xs, MergeTraceAt).Some? && FieldsMerged(stored, xs, MergeAll(stored, xs, MergeTraceAt).value)
    decreases |xs|
  {
    hide Given, LastSome;
    if xs == [] {
      FieldsStored(stored);
    } else {
      var front := xs[..|xs| - 1];
      if stored.Some? || front != [] {
        LastValuesMerged(stored, front);
      } else {
        FieldsStored(stored);
      }
      LastNext(stored, xs, NameIn, NameBy);
      LastNext(stored, xs, UserIn, UserBy);
      LastNext(stored, xs, EnvironmentIn, EnvironmentBy);
      LastNext(stored, xs, ReleaseIn, ReleaseBy);
      LastNext(stored, xs, InputIn, InputBy);
      LastNext(stored, xs, OutputIn, OutputBy);
      LastNext(stored, xs, SessionIn, SessionBy);
      LastNext(stored, xs, TagsIn, TagsBy);
    }
  }

  lemma {:induction false} OneBound(v: Option<int>)
    ensures IsLeast([v], v) && IsGreatest([v], v)
  {
    assert v in [v];
  }

  /** A trace starts at the least and ends at the greatest time given. */
  lemma {:induction false} TimesMerged(stored: Option<TraceRow>, xs: seq<Indexed>)
    requires stored.Some? || xs != []
    ensures var r := MergeAll(stored, xs, MergeTraceAt);
            && r.Some? && IsLeast(Given(stored, xs, StartIn, StartBy), r.value.startTime)
            && IsGreatest(Given(stored, xs, EndIn, EndBy), r.value.endTime)
    decreases |xs|
  {
    hide IsLeast, IsGreatest;
    if xs == [] {
      assert Given(stored, xs, StartIn, StartBy) == [stored.value.startTime];
      assert Given(stored, xs, EndIn, EndBy) == [stored.value.endTime];
      OneBound(stored.value.startTime);
      OneBound(stored.value.endTime);
    } else {
      var front, t := xs[..|xs| - 1], xs[|xs| - 1].trace;
      GivenNext(stored, xs, StartIn, StartBy);
      GivenNext(stored, xs, EndIn, EndBy);
      if stored.Some? || front != [] {
        TimesMerged(stored, front);
        TimesStep(Given(stored, front, StartIn, StartBy), MergeAll(stored, front, MergeTraceAt).value.startTime, StartBy(t));
        TimesStep(Given(stored, front, EndIn, EndBy), MergeAll(stored, front, MergeTraceAt).value.endTime, EndBy(t));
      } else {
        assert Given(stored, front, StartIn, StartBy) == [None] && Given(stored, front, EndIn, EndBy) == [None];
        OneBound(None);
        TimesStep([None], None, StartBy(t));
        TimesStep([None], None, EndBy(t));
      }
      hide Given;
    }
  }

  lemma {:induction false} TimesStep(vs: seq<Option<int>>, r: Option<int>, v: Option<int>)
    ensures IsLeast(vs, r) ==> IsLeast(vs + [v], Least(r, v))
    ensures IsGreatest(vs, r) ==> IsGreatest(vs + [v], Greatest(r, v))
  {
    var all := vs + [v];
    assert all[|vs|] == v;
    assert forall i: nat :: i < |vs| ==> all[i] == vs[i];
  }

  /** After a batch each trace's row is its stored row with the batch's traces of that name merged in
      request order, and each session's likewise. */
  lemma {:induction false} BatchMerges(db: Tables, ts: seq<TraceInput>, name: string)
    ensures Lookup(HandleTraces(db, ts).traces, name) == MergeAll(Lookup(db.traces, name), ForKey(All(ts), ByTrace, name), MergeTraceAt)
    ensures Lookup(HandleTraces(db, ts).sessions, name)
            == MergeAll(Lookup(db.sessions, name), ForKey(WithSession(ts), BySession, name), MergeSessionAt)
  {
    TracesApart(db, ts);
    SessionsApart(db, ts);
    UpsertAllAt(db.traces, All(ts), ByTrace, MergeTraceAt, name);
    UpsertAllAt(db.sessions, WithSession(ts), BySession, MergeSessionAt, name);
  }
}
