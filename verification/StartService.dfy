/** Starting a run, statement by statement, inside one transaction. */
module StartService {
  import opened Basics
  import opened StartRun

  datatype ClaimState = ClaimedNew | ClaimedReclaimed | ExistingFinalized | ExistingInProgress | NotAcquired

  /** How a commit goes; a lost answer leaves the writes in place. */
  datatype CommitCall = Acked | AnswerLost | NotCommitted

  class Service {
    var db: Db
    /** What other transactions commit at the k-th wait, and how the k-th commit goes. */
    const schedule: nat -> seq<Step>
    const commits: nat -> CommitCall
    var waits: nat
    var made: nat

    ghost var begun: Db
    ghost var committed: seq<Step>

    ghost predicate Valid()
      reads this
    {
      Inv(db) && db == RunSteps(begun, committed)
    }

    constructor (schedule: nat -> seq<Step>, commits: nat -> CommitCall)
      ensures Valid() && begun == EmptyDb && committed == []
    {
      this.schedule, this.commits := schedule, commits;
      db, waits, made := EmptyDb, 0, 0;
      begun, committed := EmptyDb, [];
      EmptyInv();
    }

    method Others()
      requires Valid()
      modifies this`db, this`committed, this`waits
      ensures Valid() && old(committed) <= committed
      ensures schedule(old(waits)) == [] ==> db == old(db)
    {
      hide Inv, ApplyStep;
      var todo := schedule(waits);
      waits := waits + 1;
      var n: nat := 0;
      while n < |todo|
        invariant n <= |todo| && Valid() && old(committed) <= committed
        invariant n == 0 ==> db == old(db)
      {
        StepKeepsInv(db, todo[n]);
        assert (committed + [todo[n]])[..|committed|] == committed;
        db := ApplyStep(db, todo[n]);
        committed := committed + [todo[n]];
        n := n + 1;
      }
    }

    /** Claims the request key, or finds the row that has it. The row may be deleted between the
        two statements, so there is a second try. Until the commit, the claim is this
        transaction's own. */
    method ClaimStartRequestDedupe(key: string, now: int) returns (state: ClaimState, seen: Db)
      requires Valid()
      modifies this`db, this`committed, this`waits
      ensures old(committed) <= committed && Inv(seen) && seen == RunSteps(begun, committed)
      ensures Undisturbed() ==> !state.NotAcquired?
      ensures
              match state
              case ClaimedNew => key !in seen.dedupe && Claims(seen, db, key, now)
              case ClaimedReclaimed => key in seen.dedupe && CanClaim(seen, key, now) && Claims(seen, db, key, now)
              case ExistingFinalized => db == seen && key in db.dedupe && Finalized(db.dedupe[key])
              case ExistingInProgress =>
                db == seen && key in db.dedupe && db.dedupe[key].status.InProgress? && db.dedupe[key].expiresAt >= now
              case NotAcquired => db == seen
    {
      hide Inv, ApplyStep;
      var attempts := 0;
      while attempts < 2
        invariant Valid() && old(committed) <= committed
        invariant Undisturbed() ==> attempts == 0
      {
        Others();
        seen := db;
        if key !in db.dedupe {
          db := db.(dedupe := db.dedupe[key := Row(InProgress, None, "", "", now + ClaimLifetime)]);
          return ClaimedNew, seen;
        }
        Others();
        seen := db;
        if key in db.dedupe {
          match db.dedupe[key].status {
            case Completed => return ExistingFinalized, seen;
            case Failed => return ExistingFinalized, seen;
            case InProgress =>
              if db.dedupe[key].expiresAt >= now {
                return ExistingInProgress, seen;
              }
            case Expired =>
          }
          db := db.(dedupe := db.dedupe[key := Row(InProgress, None, "", "", now + ClaimLifetime)]);
          return ClaimedReclaimed, seen;
        }
        attempts := attempts + 1;
      }
      return NotAcquired, db;
    }

    /** Records why the claimed request cannot start. */
    method FinalizeStartFailure(key: string, e: ApiError)
      requires key in db.dedupe
      modifies this`db
      ensures db == old(db).(dedupe := old(db).dedupe[key := Row(Failed, None, e.code, e.message, old(db).dedupe[key].expiresAt)])
    {
      var row := db.dedupe[key].(status := Failed, result := None, errorCode := e.code, errorMessage := e.message);
      db := db.(dedupe := db.dedupe[key := row]);
    }

    method FinalizeStartSuccess(key: string, result: StartResult)
      requires key in db.dedupe
      modifies this`db
      ensures db == old(db).(dedupe := old(db).dedupe[key := Row(Completed, Some(result), "", "", old(db).dedupe[key].expiresAt)])
    {
      var row := db.dedupe[key].(status := Completed, result := Some(result), errorCode := "", errorMessage := "");
      db := db.(dedupe := db.dedupe[key := row]);
    }

    ghost predicate Undisturbed()
    {
      (forall n :: commits(n).Acked?) && (forall n :: schedule(n) == [])
    }

    /** Starts a run. What the transaction commits, and what it answers when the commit is
        answered, is one start on the tables it claimed its key in. */
    method StartRun(req: StartRequest, now: int) returns (response: Response)
      requires Valid()
      modifies this
      ensures Valid() && begun == old(begun) && old(committed) <= committed
      ensures response.Internal? || Told(begun, committed, req, now, response)
      ensures Undisturbed() ==> !response.Internal?
    {
      hide Inv, ApplyStep, Start;
      StartCases(db, req, now);
      if Malformed(req) {
        return Refused(ApiError(InvalidRequest, "fields are required", 400));
      }
      var claim, seen := ClaimStartRequestDedupe(req.key, now);
      StartCases(seen, req, now);
      match claim {
        case NotAcquired => return Internal;
        case ExistingFinalized =>
          StoredReplay(seen, req.key);
          return Replay(db.dedupe[req.key]);
        case ExistingInProgress => return Refused(ApiError(RequestInProgress, "is still in progress", 409));
        case _ =>
      }

      var name := (req.definition, req.version);
      var refusal: Option<ApiError> := None;
      if name !in db.catalog {
        refusal := Some(ApiError(NotRegistered, "is not registered", 400));
      } else if !db.catalog[name].enabled {
        refusal := Some(ApiError(NotRegistered, "is disabled", 400));
      } else if db.catalog[name].publishedAt < now - LivenessWindow {
        refusal := Some(ApiError(NotRegistered, "has no live runtime", 400));
      } else if req.instanceKey in db.instances {
        refusal := Some(ApiError(InstanceConflict, "an instance with this key already exists", 409));
      }
      if refusal.Some? {
        FinalizeStartFailure(req.key, refusal.value);
        assert db.dedupe == Refuse(seen, req, refusal.value, now).dedupe;
        response := Commit(seen, req, now, Refused(refusal.value));
      } else {
        var result := CreateRun(req);
        FinalizeStartSuccess(req.key, result);
        assert db.dedupe == Create(seen, req, now).dedupe;
        response := Commit(seen, req, now, Started(result));
      }
    }

    /** The instance, its run, the run's first event and its trace. */
    method CreateRun(req: StartRequest) returns (result: StartResult)
      modifies this`db
      ensures db == old(db).(instances := old(db).instances + {req.instanceKey},
                             runs := old(db).runs[old(db).nextRun := RunRow(req.key, req.instanceKey)],
                             histories := old(db).histories[old(db).nextRun := 1],
                             traces := old(db).traces + {EngineTrace(old(db).nextRun)}, nextRun := old(db).nextRun + 1)
      ensures result == StartResult(old(db).nextRun, req.instanceKey, EngineTrace(old(db).nextRun))
    {
      var run := db.nextRun;
      db := db.(instances := db.instances + {req.instanceKey});
      db := db.(runs := db.runs[run := RunRow(req.key, req.instanceKey)], nextRun := run + 1);
      db := db.(histories := db.histories[run := 1]);
      db := db.(traces := db.traces + {EngineTrace(run)});
      result := StartResult(run, req.instanceKey, EngineTrace(run));
    }

    /** Commits the transaction's tables, or rolls them back. */
    method Commit(seen: Db, req: StartRequest, now: int, answer: Response) returns (response: Response)
      requires Inv(seen) && seen == RunSteps(begun, committed) && Start(seen, req, now) == (db, answer) && !answer.Internal?
      modifies this`db, this`committed, this`made
      ensures Valid() && old(committed) <= committed
      ensures response.Internal? || (response == answer && Told(begun, committed, req, now, response))
      ensures Undisturbed() ==> !response.Internal?
    {
      hide Inv, Start;
      var c := commits(made);
      made := made + 1;
      if c.NotCommitted? {
        db := seen;
        return Internal;
      }
      StepKeepsInv(seen, StartStep(req, now));
      assert (committed + [StartStep(req, now)])[..|committed|] == committed;
      committed := committed + [StartStep(req, now)];
      return if c.Acked? then answer else Internal;
    }
  }

  /** Until the commit, the claimed row is in progress and all else is as it was. */
  predicate Claims(seen: Db, db: Db, key: string, now: int)
  {
    db == seen.(dedupe := seen.dedupe[key := Row(InProgress, None, "", "", now + ClaimLifetime)])
  }

  /** The answer is that of a start: the last step committed, or one that had nothing to write. */
  ghost predicate Told(begun: Db, committed: seq<Step>, req: StartRequest, now: int, response: Response)
  {
    var db := RunSteps(begun, committed);
    || Start(db, req, now) == (db, response)
    || (committed != [] && committed[|committed| - 1] == StartStep(req, now)
        && response == Start(RunSteps(begun, committed[..|committed| - 1]), req, now).1)
  }

  predicate CanClaim(db: Db, key: string, now: int)
  {
    key in db.dedupe ==>
      !Finalized(db.dedupe[key]) && !(db.dedupe[key].status.InProgress? && db.dedupe[key].expiresAt >= now)
  }

  /** What a start comes to, case by case. */
  lemma {:induction false} StartCases(db: Db, req: StartRequest, now: int)
    ensures Malformed(req) ==> Start(db, req, now) == (db, Refused(ApiError(InvalidRequest, "fields are required", 400)))
    ensures !Malformed(req) && req.key in db.dedupe && Finalized(db.dedupe[req.key]) ==>
              Start(db, req, now) == (db, Replay(db.dedupe[req.key]))
    ensures !Malformed(req) && req.key in db.dedupe && db.dedupe[req.key].status.InProgress? && db.dedupe[req.key].expiresAt >= now ==>
              Start(db, req, now) == (db, Refused(ApiError(RequestInProgress, "is still in progress", 409)))
    ensures !Malformed(req) && CanClaim(db, req.key, now) ==>
              Start(db, req, now) ==
              (match Refusal(db, req, now)
               case Some(e) => (Refuse(db, req, e, now), Refused(e))
               case None => (Create(db, req, now), Started(StartResult(db.nextRun, req.instanceKey, EngineTrace(db.nextRun)))))
  {
  }

  lemma {:induction false} StoredReplay(db: Db, key: string)
    requires Inv(db) && key in db.dedupe
    ensures !Replay(db.dedupe[key]).Internal?
  {
    assert OkRow(db, key, db.dedupe[key]);
  }
}
