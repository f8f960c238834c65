/** Starting a run is idempotent per request key. */
module StartRun {
  import opened Basics

  datatype StartRequest = StartRequest(key: string, instanceKey: string, definition: string, version: string)

  /** The external id of a run's trace: a prefix and the run id. */
  datatype TraceName = EngineTrace(run: nat)

  datatype StartResult = StartResult(run: nat, instanceKey: string, trace: TraceName)

  datatype ApiError = ApiError(code: string, message: string, httpStatus: nat)

  datatype Response = Started(result: StartResult) | Refused(error: ApiError) | Internal

  datatype RowStatus = InProgress | Completed | Failed | Expired

  /** A dedupe row: the claim of a request key, and what the request came to. */
  datatype Row = Row(status: RowStatus, result: Option<StartResult>, errorCode: string, errorMessage: string, expiresAt: int)

  datatype Definition = Definition(enabled: bool, publishedAt: int)

  datatype RunRow = RunRow(requestKey: string, instanceKey: string)

  /** reaped remembers the request keys whose completed rows retention has deleted. */
  datatype Db = Db(dedupe: map<string, Row>, catalog: map<(string, string), Definition>, instances: set<string>,
                   runs: map<nat, RunRow>, histories: map<nat, nat>, traces: set<TraceName>, nextRun: nat, reaped: seq<string>)

  const EmptyDb := Db(map[], map[], {}, map[], map[], {}, 0, [])
  const ClaimLifetime := 3600
  const LivenessWindow := 60

  // ---- error codes ----

  const NotRegistered := "definition_not_registered"
  const InstanceConflict := "instance_conflict"
  const InvalidRequest := "invalid_request"
  const RequestInProgress := "request_in_progress"

  function StatusFor(code: string): nat
  {
    match code
    case "definition_not_registered" => 400
    case "invalid_request" => 400
    case "instance_conflict" => 409
    case "request_in_progress" => 409
    case "run_not_terminal" => 409
    case "run_not_suspendable" => 409
    case "run_terminal" => 409
    case "not_found" => 404
    case _ => 400
  }

  predicate IsSpace(c: char)
  {
    || ('\t' <= c <= '\r') || c == ' ' || c == '\U{85}' || c == '\U{A0}' || c == '\U{1680}'
    || ('\U{2000}' <= c <= '\U{200A}') || c == '\U{2028}' || c == '\U{2029}' || c == '\U{202F}' || c == '\U{205F}'
    || c == '\U{3000}'
  }

  predicate Blank(s: string)
  {
    forall i :: 0 <= i < |s| ==> IsSpace(s[i])
  }

  predicate Malformed(req: StartRequest)
  {
    Blank(req.instanceKey) || Blank(req.definition) || Blank(req.version) || Blank(req.key)
  }

  // ---- what a start comes to ----

  predicate Finalized(r: Row)
  {
    r.status.Completed? || r.status.Failed?
  }

  /** The stored outcome, told again. */
  function Replay(r: Row): Response
  {
    if r.status.Failed? then Refused(ApiError(r.errorCode, r.errorMessage, StatusFor(r.errorCode)))
    else if r.result.Some? then Started(r.result.value)
    else Internal
  }

  /** Why a claimed request cannot start, if so. */
  function Refusal(db: Db, req: StartRequest, now: int): Option<ApiError>
  {
    var name := (req.definition, req.version);
    if name !in db.catalog then Some(ApiError(NotRegistered, "is not registered", 400))
    else if !db.catalog[name].enabled then Some(ApiError(NotRegistered, "is disabled", 400))
    else if db.catalog[name].publishedAt < now - LivenessWindow then Some(ApiError(NotRegistered, "has no live runtime", 400))
    else if req.instanceKey in db.instances then Some(ApiError(InstanceConflict, "an instance with this key already exists", 409))
    else None
  }

  function Refuse(db: Db, req: StartRequest, e: ApiError, now: int): Db
  {
    db.(dedupe := db.dedupe[req.key := Row(Failed, None, e.code, e.message, now + ClaimLifetime)])
  }

  function Create(db: Db, req: StartRequest, now: int): Db
  {
    var run := db.nextRun;
    var result := StartResult(run, req.instanceKey, EngineTrace(run));
    db.(dedupe := db.dedupe[req.key := Row(Completed, Some(result), "", "", now + ClaimLifetime)],
        instances := db.instances + {req.instanceKey}, runs := db.runs[run := RunRow(req.key, req.instanceKey)],
        histories := db.histories[run := 1], traces := db.traces + {EngineTrace(run)}, nextRun := run + 1)
  }

  /** A start that commits: the tables and the answer. */
  function Start(db: Db, req: StartRequest, now: int): (Db, Response)
  {
    if Malformed(req) then
      (db, Refused(ApiError(InvalidRequest, "fields are required", 400)))
    else if req.key in db.dedupe && Finalized(db.dedupe[req.key]) then
      (db, Replay(db.dedupe[req.key]))
    else if req.key in db.dedupe && db.dedupe[req.key].status.InProgress? && db.dedupe[req.key].expiresAt >= now then
      (db, Refused(ApiError(RequestInProgress, "is still in progress", 409)))
    else
      match Refusal(db, req, now)
      case Some(e) => (Refuse(db, req, e, now), Refused(e))
      case None => (Create(db, req, now), Started(StartResult(db.nextRun, req.instanceKey, EngineTrace(db.nextRun))))
  }

  // ---- schedules ----

  datatype Step =
    | StartStep(req: StartRequest, now: int)
    | Publish(definition: string, version: string, entry: Definition)
    | ExpireClaims(now: int)
    | Reap(key: string)

  function ExpiredRow(r: Row, now: int): Row
  {
    if r.status.InProgress? && r.expiresAt < now then r.(status := Expired) else r
  }

  function ApplyStep(db: Db, s: Step): Db
  {
    match s
    case StartStep(req, now) => Start(db, req, now).0
    case Publish(definition, version, entry) => db.(catalog := db.catalog[(definition, version) := entry])
    case ExpireClaims(now) => db.(dedupe := map k | k in db.dedupe :: ExpiredRow(db.dedupe[k], now))
    case Reap(key) =>
      if key in db.dedupe && !db.dedupe[key].status.InProgress?
      then db.(dedupe := db.dedupe - {key}, reaped := if db.dedupe[key].status.Completed? then db.reaped + [key] else db.reaped)
      else db
  }

  function RunSteps(db: Db, steps: seq<Step>): Db
  {
    if steps == [] then db else ApplyStep(RunSteps(db, steps[..|steps| - 1]), steps[|steps| - 1])
  }

  // ---- the invariant ----

  function RunsOf(db: Db, key: string): set<nat>
  {
    set r | r in db.runs && db.runs[r].requestKey == key
  }

  function Times(keys: seq<string>, key: string): nat
  {
    if keys == [] then 0 else Times(keys[..|keys| - 1], key) + (if keys[|keys| - 1] == key then 1 else 0)
  }

  /** No committed claim is unfinished; a completed one names a run made for its key, a failed one
      carries an error that is told with the status it was told with first. */
  predicate OkRow(db: Db, key: string, r: Row)
  {
    match r.status
    case Completed =>
      && r.result.Some? && r.result.value.run in db.runs && r.result.value.trace == EngineTrace(r.result.value.run)
      && db.runs[r.result.value.run] == RunRow(key, r.result.value.instanceKey)
    case Failed => r.errorCode == NotRegistered || r.errorCode == InstanceConflict
    case _ => false
  }

  function CompletedNow(db: Db, key: string): nat
  {
    if key in db.dedupe && db.dedupe[key].status.Completed? then 1 else 0
  }

  /** No two runs have one instance key. */
  ghost predicate OneRunEach(db: Db)
  {
    forall a, b :: a in db.runs && b in db.runs && db.runs[a].instanceKey == db.runs[b].instanceKey ==> a == b
  }

  ghost predicate Inv(db: Db)
  {
    && (forall key :: key in db.dedupe ==> OkRow(db, key, db.dedupe[key]))
    && (forall r :: r in db.runs ==> r < db.nextRun && db.runs[r].instanceKey in db.instances)
    && db.histories.Keys == db.runs.Keys
    && (forall r: nat :: EngineTrace(r) in db.traces <==> r in db.runs)
    && (forall key :: |RunsOf(db, key)| == Times(db.reaped, key) + CompletedNow(db, key))
    && OneRunEach(db)
  }

  lemma {:induction false} CreateRuns(db: Db, req: StartRequest, now: int, key: string)
    requires Inv(db) && CompletedNow(db, req.key) == 0
    ensures |RunsOf(Create(db, req, now), key)| == Times(db.reaped, key) + CompletedNow(Create(db, req, now), key)
  {
    var db' := Create(db, req, now);
    if key == req.key {
      assert db.nextRun !in RunsOf(db, key);
      assert RunsOf(db', key) == RunsOf(db, key) + {db.nextRun};
    } else {
      assert RunsOf(db', key) == RunsOf(db, key);
    }
  }

  lemma {:induction false} RefuseKeepsInv(db: Db, req: StartRequest, e: ApiError, now: int)
    requires Inv(db) && CompletedNow(db, req.key) == 0 && (e.code == NotRegistered || e.code == InstanceConflict)
    ensures Inv(Refuse(db, req, e, now))
  {
    var db' := Refuse(db, req, e, now);
    forall key ensures |RunsOf(db', key)| == Times(db'.reaped, key) + CompletedNow(db', key) {
      assert RunsOf(db', key) == RunsOf(db, key);
    }
  }

  lemma {:induction false} CreateKeepsInv(db: Db, req: StartRequest, now: int)
    requires Inv(db) && CompletedNow(db, req.key) == 0 && req.instanceKey !in db.instances
    ensures Inv(Create(db, req, now))
  {
    var db' := Create(db, req, now);
    forall key ensures |RunsOf(db', key)| == Times(db'.reaped, key) + CompletedNow(db', key) {
      CreateRuns(db, req, now, key);
    }
    CreateKeepsRows(db, req, now);
    hide RunsOf, CompletedNow, OkRow, OneRunEach, Times;
  }

  lemma {:induction false} CreateKeepsRows(db: Db, req: StartRequest, now: int)
    requires Inv(db) && req.instanceKey !in db.instances
    ensures var db' := Create(db, req, now);
            (forall key :: key in db'.dedupe ==> OkRow(db', key, db'.dedupe[key])) && OneRunEach(db')
  {
    hide RunsOf, CompletedNow;
    var db' := Create(db, req, now);
    forall key | key in db'.dedupe ensures OkRow(db', key, db'.dedupe[key]) {
      assert key != req.key ==> OkRow(db, key, db.dedupe[key]);
    }
  }

  lemma {:induction false} StartKeepsInv(db: Db, req: StartRequest, now: int)
    requires Inv(db)
    ensures Inv(Start(db, req, now).0)
  {
    hide Inv;
    if CompletedNow(db, req.key) == 0 {
      match Refusal(db, req, now)
      case Some(e) => RefuseKeepsInv(db, req, e, now);
      case None => CreateKeepsInv(db, req, now);
    }
  }

  lemma {:induction false} ReapKeepsInv(db: Db, k: string)
    requires Inv(db)
    ensures Inv(ApplyStep(db, Reap(k)))
  {
    var db' := ApplyStep(db, Reap(k));
    if db' != db {
      forall key ensures |RunsOf(db', key)| == Times(db'.reaped, key) + CompletedNow(db', key) {
        assert RunsOf(db', key) == RunsOf(db, key);
        assert (db.reaped + [k])[..|db.reaped|] == db.reaped;
      }
    }
  }

  lemma {:induction false} StepKeepsInv(db: Db, s: Step)
    requires Inv(db)
    ensures Inv(ApplyStep(db, s))
  {
    var db' := ApplyStep(db, s);
    match s
    case StartStep(req, now) => StartKeepsInv(db, req, now);
    case Reap(key) => ReapKeepsInv(db, key);
    case Publish(_, _, _) =>
      forall key ensures RunsOf(db', key) == RunsOf(db, key) {}
    case ExpireClaims(_) =>
      assert db'.dedupe == db.dedupe;
  }

  lemma {:induction false} InvAlways(db: Db, steps: seq<Step>)
    requires Inv(db)
    ensures Inv(RunSteps(db, steps))
  {
    if steps != [] {
      InvAlways(db, steps[..|steps| - 1]);
      StepKeepsInv(RunSteps(db, steps[..|steps| - 1]), steps[|steps| - 1]);
    }
  }

  lemma {:induction false} EmptyInv()
    ensures Inv(EmptyDb)
  {
    forall key ensures RunsOf(EmptyDb, key) == {} {}
  }

  // ---- idempotence ----

  /** Whatever the schedule: no claim is left in progress, and a request key has made one run per
      completed row it has had, so at most one while retention has not deleted its row. */
  lemma {:induction false} RunsPerKey(steps: seq<Step>, key: string)
    ensures var db := RunSteps(EmptyDb, steps);
            && (key in db.dedupe ==> Finalized(db.dedupe[key]))
            && |RunsOf(db, key)| == Times(db.reaped, key) + CompletedNow(db, key)
            && (Times(db.reaped, key) == 0 ==> |RunsOf(db, key)| <= 1)
  {
    EmptyInv();
    InvAlways(EmptyDb, steps);
    var db := RunSteps(EmptyDb, steps);
    assert key in db.dedupe ==> OkRow(db, key, db.dedupe[key]);
  }

  /** The definition is published, enabled and served by a live runtime. */
  predicate Live(db: Db, req: StartRequest, now: int)
  {
    var name := (req.definition, req.version);
    name in db.catalog && db.catalog[name].enabled && db.catalog[name].publishedAt >= now - LivenessWindow
  }

  /** What a start needs to make a run: its key has no row, its definition is live and its instance key new. */
  predicate Fresh(db: Db, req: StartRequest, now: int)
  {
    !Malformed(req) && req.key !in db.dedupe && Live(db, req, now) && req.instanceKey !in db.instances
  }

  /** A start makes a run exactly when the request is fresh, and then one, under its keys. */
  lemma {:induction false} StartMakesRunIff(db: Db, req: StartRequest, now: int)
    requires Inv(db)
    ensures var later := Start(db, req, now).0;
            && (later.runs != db.runs <==> Fresh(db, req, now))
            && (Fresh(db, req, now) ==> db.nextRun !in db.runs && later.runs == db.runs[db.nextRun := RunRow(req.key, req.instanceKey)])
  {
    assert req.key in db.dedupe ==> OkRow(db, req.key, db.dedupe[req.key]);
  }

  /** What a well-formed request with a new key is told: that its definition is not live, or else that its
      instance exists, or else its run, its instance and its trace. */
  lemma {:induction false} NewKeyAnswered(db: Db, req: StartRequest, now: int)
    requires !Malformed(req) && req.key !in db.dedupe
    ensures var answer := Start(db, req, now).1;
            if !Live(db, req, now) then answer.Refused? && answer.error.code == "definition_not_registered" && answer.error.httpStatus == 400
            else if req.instanceKey in db.instances then answer.Refused? && answer.error.code == "instance_conflict" && answer.error.httpStatus == 409
            else answer == Started(StartResult(db.nextRun, req.instanceKey, EngineTrace(db.nextRun)))
  {
  }

  /** A request with nothing but white space for a key, an instance key or a definition is refused unseen. */
  lemma {:induction false} BlankRefused(db: Db, req: StartRequest, now: int, field: string)
    requires field == req.key || field == req.instanceKey || field == req.definition || field == req.version
    requires forall i: nat :: i < |field| ==> field[i] == ' ' || '\t' <= field[i] <= '\r'
    ensures Start(db, req, now).0 == db && Start(db, req, now).1.Refused?
    ensures Start(db, req, now).1.error.code == "invalid_request" && Start(db, req, now).1.error.httpStatus == 400
  {
    assert Blank(field);
  }

  /** The step makes a run under a key that has made one before. */
  predicate Restarts(db: Db, s: Step, key: string)
  {
    s.StartStep? && s.req.key == key && Fresh(db, s.req, s.now) && RunsOf(db, key) != {}
  }

  ghost predicate NoRestarts(steps: seq<Step>, key: string)
  {
    forall i: nat :: i < |steps| ==> !Restarts(RunSteps(EmptyDb, steps[..i]), steps[i], key)
  }

  lemma {:induction false} StepRuns(db: Db, s: Step, key: string)
    requires Inv(db)
    ensures var made := s.StartStep? && s.req.key == key && Fresh(db, s.req, s.now);
            && RunsOf(ApplyStep(db, s), key) == RunsOf(db, key) + (if made then {db.nextRun} else {})
            && db.nextRun !in RunsOf(db, key)
  {
    if s.StartStep? { StartMakesRunIff(db, s.req, s.now); }
    hide Start, Fresh;
  }

  lemma {:induction false} LastRestarts(steps: seq<Step>, key: string)
    requires steps != []
    ensures var front := steps[..|steps| - 1];
            NoRestarts(steps, key) <==> NoRestarts(front, key) && !Restarts(RunSteps(EmptyDb, front), steps[|steps| - 1], key)
  {
    var front := steps[..|steps| - 1];
    hide Restarts, RunSteps;
    assert forall i: nat :: i < |front| ==> front[..i] == steps[..i] && front[i] == steps[i];
  }

  /** A key has made at most one run exactly when no start of the schedule found a run of it, no row for
      it, a live definition and a new instance key. */
  lemma {:induction false} OneRunIff(steps: seq<Step>, key: string)
    ensures |RunsOf(RunSteps(EmptyDb, steps), key)| <= 1 <==> NoRestarts(steps, key)
  {
    if steps == [] {
      assert RunsOf(EmptyDb, key) == {};
    } else {
      var front := steps[..|steps| - 1];
      OneRunIff(front, key);
      LastRestarts(steps, key);
      EmptyInv();
      InvAlways(EmptyDb, front);
      StepRuns(RunSteps(EmptyDb, front), steps[|steps| - 1], key);
      hide Inv, NoRestarts, RunsOf, Fresh, ApplyStep;
      var runs := RunsOf(RunSteps(EmptyDb, front), key);
      assert |runs| == 0 <==> runs == {};
    }
  }

  /** Over every schedule an instance key has at most one run, whatever retention deletes. */
  lemma {:induction false} OneRunPerInstance(steps: seq<Step>, a: nat, b: nat)
    ensures var db := RunSteps(EmptyDb, steps);
            a in db.runs && b in db.runs && db.runs[a].instanceKey == db.runs[b].instanceKey ==> a == b
  {
    EmptyInv();
    InvAlways(EmptyDb, steps);
  }

  lemma {:induction false} InstancesGrow(db: Db, steps: seq<Step>)
    ensures db.instances <= RunSteps(db, steps).instances
  {
    if steps != [] { InstancesGrow(db, steps[..|steps| - 1]); }
  }

  /** So a request for an instance that has its run never makes another: while its row is there it is
      answered from it, and after that it is refused. */
  lemma {:induction false} RepeatMakesNoRun(db: Db, r: nat, steps: seq<Step>, again: StartRequest, later: int)
    requires Inv(db) && r in db.runs && db.runs[r].instanceKey == again.instanceKey
    ensures var since := RunSteps(db, steps);
            && Start(since, again, later).0.runs == since.runs
            && (!Malformed(again) && again.key !in since.dedupe && Live(since, again, later) ==>
                  Start(since, again, later).1 == Refused(ApiError(InstanceConflict, "an instance with this key already exists", 409)))
  {
    InvAlways(db, steps);
    InstancesGrow(db, steps);
    StartMakesRunIff(RunSteps(db, steps), again, later);
  }

  const FirstRequest := StartRequest("k", "i", "d", "v")
  const OtherRequest := StartRequest("k", "j", "d", "v")

  /** A run is started, retention deletes its dedupe row, and the key comes again. */
  const ReapedSteps: seq<Step> :=
    [Publish("d", "v", Definition(true, 0)), StartStep(FirstRequest, 0), Reap("k"), Publish("d", "v", Definition(true, 9000))]

  lemma {:induction false} NotMalformed()
    ensures !Malformed(FirstRequest) && !Malformed(OtherRequest)
  {
    assert forall s: string :: s != "" && !IsSpace(s[0]) ==> !Blank(s);
  }

  lemma {:induction false} ReapedState()
    ensures var db := RunSteps(EmptyDb, ReapedSteps);
            && db.runs == map[0 := RunRow("k", "i")] && db.instances == {"i"} && db.dedupe == map[] && db.nextRun == 1
            && db.catalog == map[("d", "v") := Definition(true, 9000)]
  {
    var s := ReapedSteps;
    NotMalformed();
    var published := EmptyDb.(catalog := map[("d", "v") := Definition(true, 0)]);
    var started := Create(published, FirstRequest, 0);
    assert s[..3][..2] == s[..2] && s[..2][..1] == s[..1] && s[..1][..0] == [];
    assert RunSteps(EmptyDb, []) == EmptyDb;
    assert RunSteps(EmptyDb, s[..1]) == published;
    hide Malformed;
    assert RunSteps(EmptyDb, s[..2]) == started;
    assert RunSteps(EmptyDb, s[..3]) == ApplyStep(started, Reap("k"));
    assert started.dedupe - {"k"} == map[];
  }

  /** It starts a second run with another instance key, and is refused with the same one. */
  lemma {:induction false} ReusedKeyReachable()
    ensures RunsOf(RunSteps(EmptyDb, ReapedSteps + [StartStep(OtherRequest, 9000)]), "k") == {0, 1}
    ensures Start(RunSteps(EmptyDb, ReapedSteps), FirstRequest, 9000).1
            == Refused(ApiError(InstanceConflict, "an instance with this key already exists", 409))
  {
    var s := ReapedSteps + [StartStep(OtherRequest, 9000)];
    assert s[..|s| - 1] == ReapedSteps;
    NotMalformed();
    ReapedState();
    hide Malformed, RunSteps;
    assert "i" != "j" by { assert "i"[0] != "j"[0]; }
    var db := RunSteps(EmptyDb, ReapedSteps);
    assert Start(db, OtherRequest, 9000).0.runs == map[0 := RunRow("k", "i"), 1 := RunRow("k", "j")];
  }

  /** A request that is refused makes nothing but its dedupe row. */
  lemma {:induction false} RefusedMakesNothing(db: Db, req: StartRequest, now: int)
    requires Inv(db) && Start(db, req, now).1.Refused?
    ensures Start(db, req, now).0 == db.(dedupe := Start(db, req, now).0.dedupe)
    ensures forall key :: key != req.key ==> (key in Start(db, req, now).0.dedupe <==> key in db.dedupe)
  {
  }

  predicate NeverReaped(steps: seq<Step>, key: string)
  {
    forall i :: 0 <= i < |steps| ==> steps[i] != Reap(key)
  }

  lemma {:induction false} RowStays(db: Db, steps: seq<Step>, key: string)
    requires Inv(db) && key in db.dedupe && NeverReaped(steps, key)
    ensures key in RunSteps(db, steps).dedupe && RunSteps(db, steps).dedupe[key] == db.dedupe[key]
  {
    if steps != [] {
      var front := steps[..|steps| - 1];
      RowStays(db, front, key);
      InvAlways(db, front);
      assert OkRow(RunSteps(db, front), key, db.dedupe[key]);
    }
  }

  /** Once a well-formed request has been answered, the same key is answered the same - the same
      result, or the same code, message and HTTP status - and changes nothing, whatever the
      request's other fields and whatever has happened since, until retention deletes its row. */
  lemma {:induction false} ReplayAnswersTheSame(db: Db, req: StartRequest, now: int, steps: seq<Step>, again: StartRequest, later: int)
    requires Inv(db) && !Malformed(req) && !Malformed(again) && again.key == req.key
    requires NeverReaped(steps, req.key)
    ensures var first := Start(db, req, now);
            var since := RunSteps(first.0, steps);
            Start(since, again, later) == (since, first.1)
  {
    var first := Start(db, req, now);
    assert req.key in db.dedupe ==> OkRow(db, req.key, db.dedupe[req.key]);
    StartKeepsInv(db, req, now);
    RowStays(first.0, steps, req.key);
    StoredAnswer(db, req, now);
  }

  /** The row a start leaves tells the answer it gave. */
  lemma {:induction false} StoredAnswer(db: Db, req: StartRequest, now: int)
    requires Inv(db) && !Malformed(req)
    ensures var first := Start(db, req, now);
            req.key in first.0.dedupe && Finalized(first.0.dedupe[req.key]) && Replay(first.0.dedupe[req.key]) == first.1
  {
    assert req.key in db.dedupe ==> OkRow(db, req.key, db.dedupe[req.key]);
  }
}
