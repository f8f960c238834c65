/** The services that ingest batches: inline with retries on conflict, or accepted and worked off by
    a job that may crash, be retried, or lose the answer to its commit. */
module BatchService {
  import opened Basics
  import opened IngestOrder
  import opened BatchOnce

  /** How a call goes. A conflict is a deadlock or serialization failure, a refusal an error that no
      retry can cure. */
  datatype Call = Fine | Broken | Conflicted | Refused | CrashedThere

  /** Why processing a batch did not go through. */
  datatype ProcessingError = MissingTrace | TerminalError | Transient

  /** How a commit goes: a lost answer leaves the caller with an error and the writes in place. */
  datatype CommitCall = Acked | AnswerLost | NotCommitted(conflict: bool) | CrashedBefore | CrashedAfter

  /** How an attempt of a job ends: done, to be retried, or cut short by a crash. */
  datatype Attempt = Done | Retry | Crashed

  datatype ClaimResult = Process | Skip | ClaimBroken | ClaimCrashed

  datatype Reply = Ok | Accepted | Duplicate | NotReady(missing: string) | WriteConflict(attempts: nat) | OtherError

  /** One inline attempt: an answer, a conflict that rolled it back, or a crash of the server. */
  datatype Once = Answer(reply: Reply) | Conflict | CrashedOnce

  const ConflictAttempts: nat := 3

  class Service {
    var store: Store
    /** What the store's calls and commits answer, in the order they are made. */
    const calls: nat -> Call
    const commits: nat -> CommitCall
    /** What other requests and jobs commit between this one's own transactions. */
    const schedule: nat -> seq<Step>
    var made: nat
    var waits: nat

    ghost var begun: Store
    ghost var committed: seq<Step>
    /** Those of the committed steps that this service's own calls made. */
    ghost var mine: seq<Step>

    ghost predicate Valid()
      reads this
    {
      Inv(store) && store == RunSteps(begun, committed)
    }

    constructor (calls: nat -> Call, commits: nat -> CommitCall, schedule: nat -> seq<Step>)
      ensures Valid() && begun == EmptyStore && committed == []
    {
      this.calls, this.commits, this.schedule := calls, commits, schedule;
      store, made, waits := EmptyStore, 0, 0;
      begun, committed, mine := EmptyStore, [], [];
    }

    method AskCall() returns (c: Call)
      modifies this`made
      ensures c == calls(old(made)) && made == old(made) + 1
    {
      c := calls(made);
      made := made + 1;
    }

    method AskCommit() returns (c: CommitCall)
      modifies this`made
      ensures c == commits(old(made)) && made == old(made) + 1
    {
      c := commits(made);
      made := made + 1;
    }

    /** One transaction of this service commits. */
    method Run(step: Step)
      requires Valid()
      modifies this`store, this`committed
      ensures Valid() && committed == old(committed) + [step] && store == ApplyStep(old(store), step)
    {
      hide Inv, ApplyStep;
      StepKeepsInv(store, step);
      assert (committed + [step])[..|committed|] == committed;
      store := ApplyStep(store, step);
      committed := committed + [step];
    }

    /** Others go on. A job has one active attempt, so they neither claim nor settle its batch. */
    method Others(active: Option<string>)
      requires Valid()
      modifies this`store, this`committed, this`waits
      ensures Valid() && old(committed) <= committed
      ensures active.Some? ==> SameBatch(old(store), store, active.value)
      ensures schedule(old(waits)) == [] ==> store == old(store)
    {
      var todo := schedule(waits);
      waits := waits + 1;
      var n: nat := 0;
      while n < |todo|
        invariant n <= |todo| && Valid() && old(committed) <= committed
        invariant active.Some? ==> SameBatch(old(store), store, active.value)
        invariant n == 0 ==> store == old(store)
      {
        hide Inv;
        if active.None? || LeavesAlone(todo[n], active.value) {
          if active.Some? { LeftAlone(store, todo[n], active.value); }
          Run(todo[n]);
        }
        n := n + 1;
      }
    }

    /** Commits a transaction of one step, as far as the store lets it. */
    method Commit(step: Step) returns (c: CommitCall)
      requires Valid()
      modifies this`store, this`committed, this`made, this`mine
      ensures Valid() && old(committed) <= committed && c == commits(old(made)) && made == old(made) + 1
      ensures if c.Acked? || c.AnswerLost? || c.CrashedAfter?
              then store == ApplyStep(old(store), step) && mine == old(mine) + [step]
              else store == old(store) && mine == old(mine)
    {
      c := AskCommit();
      if c.Acked? || c.AnswerLost? || c.CrashedAfter? {
        Run(step);
        mine := mine + [step];
      }
    }

    // ---- the job ----

    /** Claims a queued batch, resumes one that a crashed attempt left, and skips a settled one. */
    method ClaimBatch(key: string) returns (r: ClaimResult)
      requires Valid()
      modifies this`store, this`committed, this`made, this`waits, this`mine
      ensures Valid() && old(committed) <= committed
      ensures r.Process? ==> InStatus(store, key, Processing)
      ensures r.Skip? ==> BatchSettled(store, key)
      ensures Undisturbed() && InStatus(old(store), key, Queued) ==>
                r.Process? && store.payloads == old(store).payloads && store.tables == old(store).tables
    {
      hide Inv, ApplyStep;
      Others(Some(key));
      var call := AskCall();
      if call.CrashedThere? { return ClaimCrashed; }
      if !call.Fine? { return ClaimBroken; }
      if key !in store.batches { return Skip; }
      match store.batches[key].status {
        case Completed => return Skip;
        case Failed => return Skip;
        case AcceptedLegacy => return Skip;
        case Processing => return Process;
        case Queued =>
          Others(Some(key));
          if store.batches[key].status.Queued? {
            ClaimEffect(store, key);
            var c := Commit(Claim(key));
            if c.Acked? { return Process; }
            return if c.CrashedBefore? || c.CrashedAfter? then ClaimCrashed else ClaimBroken;
          } else {
            assert false;
          }
      }
    }

    /** Gives the batch up for good. */
    method FinishTerminalFailure(key: string) returns (a: Attempt)
      requires Valid() && InStatus(store, key, Processing)
      modifies this`store, this`committed, this`made, this`mine
      ensures Valid() && old(committed) <= committed
      ensures a.Done? ==> InStatus(store, key, Failed)
      ensures commits(old(made)).Acked? ==> a.Done?
    {
      hide Inv, InRequestOrder;
      var c := Commit(Fail(key));
      return if c.Acked? then Done else if c.CrashedBefore? || c.CrashedAfter? then Crashed else Retry;
    }

    /** Puts the batch back for the job's next attempt. */
    method RetryBatch(key: string) returns (a: Attempt)
      requires Valid() && InStatus(store, key, Processing)
      modifies this`store, this`committed, this`made, this`mine
      ensures Valid() && old(committed) <= committed && !a.Done?
      ensures commits(old(made)).Acked? ==> a.Retry? && InStatus(store, key, Queued) && key in store.payloads
      ensures store.tables == old(store).tables
    {
      assert OkBatch(store, key);
      var c := Commit(Requeue(key));
      return if c.CrashedBefore? || c.CrashedAfter? then Crashed else Retry;
    }

    /** Looks up what became of a commit that brought no answer. */
    method ResolveCommitOutcome(key: string) returns (a: Attempt)
      requires Valid()
      modifies this`store, this`committed, this`made, this`waits
      ensures Valid() && old(committed) <= committed
      ensures a.Done? ==> InStatus(store, key, Completed) || InStatus(store, key, Failed)
      ensures Undisturbed() && (InStatus(old(store), key, Completed) || InStatus(old(store), key, Failed)) ==> a.Done?
    {
      assert OkBatch(store, key);
      hide Inv;
      Others(Some(key));
      var read := AskCall();
      if read.CrashedThere? { return Crashed; }
      if read.Fine? && key in store.batches {
        var again := AskCall();
        if again.CrashedThere? { return Crashed; }
        var payloadMissing := again.Fine? && key !in store.payloads;
        if store.batches[key].status.Completed? && payloadMissing { return Done; }
        if store.batches[key].status.Failed? { return Done; }
      }
      return Retry;
    }

    /** A missing trace is retried until the deadline, a terminal error never, any other error always. */
    method HandleProcessingError(key: string, error: ProcessingError, late: bool) returns (a: Attempt)
      requires Valid() && InStatus(store, key, Processing)
      modifies this`store, this`committed, this`made, this`mine
      ensures Valid() && old(committed) <= committed
      ensures a.Done? ==> (error.TerminalError? || (error.MissingTrace? && late)) && InStatus(store, key, Failed)
      ensures commits(old(made)).Acked? ==>
                if error.TerminalError? || (error.MissingTrace? && late) then a.Done? && InStatus(store, key, Failed)
                else a.Retry? && InStatus(store, key, Queued)
    {
      if error.MissingTrace? {
        if !late {
          a := RetryBatch(key);
          return;
        }
        a := FinishTerminalFailure(key);
        return;
      }
      if error.TerminalError? {
        a := FinishTerminalFailure(key);
        return;
      }
      a := RetryBatch(key);
    }

    /** One attempt of the job. When it ends without an error, the batch is settled. An attempt that
        nothing disturbs completes a batch whose traces are there. */
    method Work(key: string, late: bool) returns (a: Attempt)
      requires Valid()
      modifies this
      ensures Valid() && old(committed) <= committed
      ensures a.Done? ==> BatchSettled(store, key)
      ensures Undisturbed() && InStatus(old(store), key, Queued) && Ready(old(store), key) ==>
                a.Done? && InStatus(store, key, Completed)
                && store.tables == InRequestOrder(old(store).tables, old(store).payloads[key].request.value).value.db
      ensures Undisturbed() && InStatus(old(store), key, Queued) && !Ready(old(store), key) ==>
                if late || key !in old(store).payloads || old(store).payloads[key].request.None? then a.Done? && InStatus(store, key, Failed)
                else a.Retry? && InStatus(store, key, Queued)
    {
      assert OkBatch(store, key);
      hide Inv, InRequestOrder, ApplyStep;
      var claim := ClaimBatch(key);
      if claim.Skip? { return Done; }
      if claim.ClaimCrashed? { return Crashed; }
      if claim.ClaimBroken? { return Retry; }
      Others(Some(key));
      var call := AskCall();
      if call.CrashedThere? { return Crashed; }
      if !call.Fine? || key !in store.payloads || store.payloads[key].request.None? {
        a := FinishTerminalFailure(key);
        return a;
      }
      var req := store.payloads[key].request.value;
      call := AskCall();
      if call.CrashedThere? { return Crashed; }
      if !call.Fine? {
        a := RetryBatch(key);
        return a;
      }
      a := Write(key, req, late);
    }

    /** Writes the batch, marks it completed and deletes its payload, in one transaction. */
    method Write(key: string, req: Request, late: bool) returns (a: Attempt)
      requires Valid() && InStatus(store, key, Processing)
      requires key in store.payloads && store.payloads[key].request == Some(req)
      modifies this`store, this`committed, this`made, this`waits, this`mine
      ensures Valid() && old(committed) <= committed
      ensures a.Done? ==> BatchSettled(store, key)
      ensures Undisturbed() && InRequestOrder(old(store).tables, req).Ok? ==>
                a.Done? && InStatus(store, key, Completed) && store.tables == InRequestOrder(old(store).tables, req).value.db
      ensures Undisturbed() && InRequestOrder(old(store).tables, req).Err? ==>
                if late then a.Done? && InStatus(store, key, Failed) else a.Retry? && InStatus(store, key, Queued)
    {
      hide Inv, InRequestOrder, ApplyStep;
      ghost var before := store;
      var processed := AskCall();
      if processed.CrashedThere? { return Crashed; }
      var result := InRequestOrder(store.tables, req);
      if !processed.Fine? || result.Err? {
        var error := if processed.Fine? then MissingTrace else if processed.Refused? then TerminalError else Transient;
        a := HandleProcessingError(key, error, late);
        return a;
      }
      var written := AskCall();
      if written.CrashedThere? { return Crashed; }
      if !written.Fine? {
        a := RetryBatch(key);
        return a;
      }
      ApplyEffect(store, key, req);
      var c := Commit(Apply(key));
      match c {
        case Acked => return Done;
        case CrashedBefore => return Crashed;
        case CrashedAfter => return Crashed;
        case _ =>
          a := ResolveCommitOutcome(key);
      }
    }

    /** No call breaks, every commit is answered and nobody else is at work. */
    ghost predicate Undisturbed()
    {
      (forall n :: calls(n) == Fine) && (forall n :: commits(n) == Acked) && (forall n :: schedule(n) == [])
    }

    // ---- inline ingestion ----

    /** Claims and processes a batch in one transaction. */
    method IngestOnce(key: string, req: Request) returns (r: Once, ghost seen: Store)
      requires Valid()
      modifies this`store, this`committed, this`made, this`waits, this`mine
      ensures Valid() && old(committed) <= committed
      ensures Answered(r, key, req, old(mine), mine, store) && (r.Answer? ==> !r.reply.WriteConflict?)
      ensures DecidedOn(r, key, req, seen, calls(old(made)), commits(old(made) + 1), store) && old(made) < made
      ensures schedule(old(waits)) == [] ==> seen == old(store)
    {
      hide Inv, InRequestOrder, ApplyStep;
      Others(None);
      seen := store;
      var call := AskCall();
      match call {
        case CrashedThere => return CrashedOnce, seen;
        case Conflicted => return Conflict, seen;
        case Broken => return Answer(OtherError), seen;
        case Refused => return Answer(OtherError), seen;
        case Fine =>
      }
      if key in store.batches { return Answer(Duplicate), seen; }
      var result := InRequestOrder(store.tables, req);
      if result.Err? { return Answer(NotReady(result.error)), seen; }
      InlineEffect(store, key, req);
      var c := Commit(IngestInline(key, req));
      match c {
        case Acked => return Answer(Reply.Ok), seen;
        case AnswerLost => return Answer(OtherError), seen;
        case NotCommitted(conflict) => return if conflict then Conflict else Answer(OtherError), seen;
        case _ => return CrashedOnce, seen;
      }
    }

    /** Ingests a batch inline, again from the start while it loses conflicts, at most three times. */
    method Ingest(key: string, req: Request) returns (r: Once, attempts: nat, ghost seen: Store, ghost lost: seq<nat>)
      requires Valid()
      modifies this`store, this`committed, this`made, this`waits, this`mine
      ensures Valid() && old(committed) <= committed && 1 <= attempts <= ConflictAttempts
      ensures !r.Conflict? && Answered(r, key, req, old(mine), mine, store)
      ensures r.Answer? && r.reply.WriteConflict? ==> attempts == ConflictAttempts && r.reply.attempts == attempts
      ensures |lost| == (if r.Answer? && r.reply.WriteConflict? then attempts else attempts - 1) && AllLost(lost)
      ensures r == Answer(Duplicate) ==> key in seen.batches && store == seen
      ensures forall x :: r == Answer(NotReady(x)) ==> InRequestOrder(seen.tables, req) == Err(x) && store == seen
      ensures r == Answer(Reply.Ok) ==> InRequestOrder(seen.tables, req).Ok? && store.tables == InRequestOrder(seen.tables, req).value.db
      ensures Undisturbed() ==> attempts == 1 && seen == old(store)
      ensures Undisturbed() ==>
                r == if key in old(store).batches then Answer(Duplicate)
                     else match InRequestOrder(old(store).tables, req)
                          case Err(x) => Answer(NotReady(x))
                          case Ok(done) => Answer(Reply.Ok)
    {
      hide Inv, ApplyStep, InRequestOrder, DecidedOn, Answered, AllLost;
      attempts := 1;
      lost := [];
      ghost var at: nat := made;
      NothingLost();
      r, seen := IngestOnce(key, req);
      Decided(r, key, req, seen, calls(at), commits(at + 1), store);
      while r.Conflict? && attempts < ConflictAttempts
        invariant 1 <= attempts <= ConflictAttempts
        invariant Valid() && old(committed) <= committed && Answered(r, key, req, old(mine), mine, store)
        invariant (r.Answer? ==> !r.reply.WriteConflict?) && |lost| == attempts - 1 && AllLost(lost) && at < made
        invariant DecidedOn(r, key, req, seen, calls(at), commits(at + 1), store) && (|lost| > 0 ==> lost[|lost| - 1] < at)
        invariant Undisturbed() ==> attempts == 1 && seen == old(store) && !r.Conflict?
        decreases ConflictAttempts - attempts
      {
        Decided(r, key, req, seen, calls(at), commits(at + 1), store);
        ConflictAnswered(key, req, old(mine), mine, store, attempts);
        LostNext(lost, at);
        attempts := attempts + 1;
        lost := lost + [at];
        at := made;
        r, seen := IngestOnce(key, req);
      }
      Decided(r, key, req, seen, calls(at), commits(at + 1), store);
      if r.Conflict? {
        ConflictAnswered(key, req, old(mine), mine, store, attempts);
        LostNext(lost, at);
        lost := lost + [at];
        r := Answer(WriteConflict(attempts));
      }
    }

    lemma {:induction false} NothingLost()
      ensures AllLost([])
    {
    }

    lemma {:induction false} LostNext(lost: seq<nat>, at: nat)
      requires AllLost(lost) && (|lost| > 0 ==> lost[|lost| - 1] < at)
      requires calls(at).Conflicted? || commits(at + 1) == NotCommitted(true)
      ensures AllLost(lost + [at])
    {
      assert forall i: nat :: i < |lost| ==> lost[i] <= lost[|lost| - 1];
    }

    /** At each of these places a transaction of this call was begun and lost a conflict. */
    ghost predicate AllLost(lost: seq<nat>)
    {
      && (forall i: nat, j: nat :: i < j < |lost| ==> lost[i] < lost[j])
      && forall i: nat :: i < |lost| ==> calls(lost[i]).Conflicted? || commits(lost[i] + 1) == NotCommitted(true)
    }

    /** Stores a batch for later, with its job, in one transaction. */
    method AcceptAsync(key: string, payload: Payload) returns (r: Once)
      requires Valid()
      modifies this`store, this`committed, this`made, this`waits, this`mine
      ensures Valid() && old(committed) <= committed
      ensures r == Answer(Duplicate) ==> key in store.batches && mine == old(mine)
      ensures r == Answer(Accepted) ==> InStatus(store, key, Queued) && key in store.payloads && store.payloads[key] == payload
                                        && mine == old(mine) + [Accept(key, payload)]
      ensures calls(old(made)).Fine? && commits(old(made) + 1).Acked? ==> r == Answer(Duplicate) || r == Answer(Accepted)
      ensures Undisturbed() ==>
                r == (if key in old(store).batches then Answer(Duplicate) else Answer(Accepted)) && store.tables == old(store).tables
    {
      hide Inv;
      Others(None);
      var call := AskCall();
      if call.CrashedThere? { return CrashedOnce; }
      if !call.Fine? { return Answer(OtherError); }
      if key in store.batches { return Answer(Duplicate); }
      var c := Commit(Accept(key, payload));
      match c {
        case Acked => return Answer(Accepted);
        case AnswerLost => return Answer(OtherError);
        case NotCommitted(_) => return Answer(OtherError);
        case _ => return CrashedOnce;
      }
    }
  }

  predicate BatchSettled(s: Store, key: string)
  {
    key in s.batches ==> !s.batches[key].status.Queued? && !s.batches[key].status.Processing?
  }

  predicate Ready(s: Store, key: string)
  {
    key in s.payloads && s.payloads[key].request.Some? && InRequestOrder(s.tables, s.payloads[key].request.value).Ok?
  }

  /** What an inline answer says about the call's own writes. Only a success, a lost answer or a
      crash can come with writes, and then with the one inline transaction. */
  ghost predicate Answered(r: Once, key: string, req: Request, before: seq<Step>, after: seq<Step>, s: Store)
  {
    && (after == before || after == before + [IngestInline(key, req)])
    && (r == Answer(Reply.Ok) ==> after != before && InStatus(s, key, Completed) && Times(s.log, key) == 1)
    && (after != before ==> r == Answer(Reply.Ok) || r == Answer(OtherError) || r == CrashedOnce)
    && (r == Answer(Duplicate) ==> key in s.batches)
    && r != Answer(Accepted)
  }

  /** What an inline attempt comes to on the store it claimed its key in: a duplicate exactly if the key is
      taken, not ready exactly if a trace is missing, a conflict exactly if a call or the commit lost one,
      and otherwise success, with the writes of request order, as soon as the commit is answered. */
  ghost predicate DecidedOn(r: Once, key: string, req: Request, seen: Store, call: Call, commit: CommitCall, s: Store)
  {
    var goes := call.Fine? && key !in seen.batches;
    var done := InRequestOrder(seen.tables, req);
    && (r == Answer(Duplicate) <==> call.Fine? && key in seen.batches)
    && (forall x :: r == Answer(NotReady(x)) <==> goes && done == Err(x))
    && (r.Conflict? <==> call.Conflicted? || (goes && done.Ok? && commit == NotCommitted(true)))
    && (r == Answer(Reply.Ok) <==> goes && done.Ok? && commit.Acked?)
    && (if goes && done.Ok? && (commit.Acked? || commit.AnswerLost? || commit.CrashedAfter?)
        then InStatus(s, key, Completed) && s.tables == done.value.db
        else s == seen)
  }

  lemma {:induction false} Decided(r: Once, key: string, req: Request, seen: Store, call: Call, commit: CommitCall, s: Store)
    requires DecidedOn(r, key, req, seen, call, commit, s)
    ensures r.Conflict? ==> (call.Conflicted? || commit == NotCommitted(true)) && s == seen
    ensures r == Answer(Duplicate) ==> key in seen.batches && s == seen
    ensures forall x :: r == Answer(NotReady(x)) ==> InRequestOrder(seen.tables, req) == Err(x) && s == seen
    ensures r == Answer(Reply.Ok) ==> InRequestOrder(seen.tables, req).Ok? && s.tables == InRequestOrder(seen.tables, req).value.db
    ensures call.Fine? && commit.Acked? ==>
              r == if key in seen.batches then Answer(Duplicate)
                   else match InRequestOrder(seen.tables, req)
                        case Err(x) => Answer(NotReady(x))
                        case Ok(done) => Answer(Reply.Ok)
  {
    hide InRequestOrder;
    var done := InRequestOrder(seen.tables, req);
    if call.Fine? && key !in seen.batches && done.Err? { assert r == Answer(NotReady(done.error)) <==> done == Err(done.error); }
  }

  lemma {:induction false} ConflictAnswered(key: string, req: Request, before: seq<Step>, after: seq<Step>, s: Store, attempts: nat)
    requires Answered(Conflict, key, req, before, after, s)
    ensures after == before && Answered(Answer(WriteConflict(attempts)), key, req, before, after, s)
  {
  }

  lemma {:induction false} ClaimEffect(s: Store, key: string)
    requires InStatus(s, key, Queued)
    ensures var t := ApplyStep(s, Claim(key));
            InStatus(t, key, Processing) && t.payloads == s.payloads && t.tables == s.tables
  {
  }

  lemma {:induction false} ApplyEffect(s: Store, key: string, req: Request)
    requires InStatus(s, key, Processing) && key in s.payloads && s.payloads[key].request == Some(req)
    requires InRequestOrder(s.tables, req).Ok?
    ensures var t := ApplyStep(s, Apply(key));
            InStatus(t, key, Completed) && t.tables == InRequestOrder(s.tables, req).value.db
  {
  }

  lemma {:induction false} InlineEffect(s: Store, key: string, req: Request)
    requires Inv(s) && key !in s.batches && InRequestOrder(s.tables, req).Ok?
    ensures var t := ApplyStep(s, IngestInline(key, req));
            InStatus(t, key, Completed) && Times(t.log, key) == 1 && t.tables == InRequestOrder(s.tables, req).value.db
  {
    assert OkBatch(s, key);
    LogGrows(s.log, (key, req), key);
  }

  /** Another transaction that is not an attempt at the key's job. */
  predicate LeavesAlone(step: Step, key: string)
  {
    step.key != key || step.IngestInline? || step.Accept? || step.CleanUp?
  }

  ghost predicate SameBatch(s: Store, s': Store, key: string)
  {
    key in s.batches ==> key in s'.batches && s'.batches[key] == s.batches[key]
  }

  lemma {:induction false} LeftAlone(s: Store, step: Step, key: string)
    requires LeavesAlone(step, key)
    ensures SameBatch(s, ApplyStep(s, step), key)
  {
  }
}
