/** The rows of ingest batches, and the transactions on them: a batch key's writes apply at most once. */
module BatchOnce {
  import opened Basics
  import opened IngestOrder

  datatype Status = Queued | Processing | Completed | Failed | AcceptedLegacy

  /** direct tells a batch that was ingested inline from one that was accepted for later. */
  datatype Batch = Batch(status: Status, direct: bool, attempts: nat)

  /** A stored payload, and the request it decodes to if it does. */
  datatype Payload = Payload(request: Option<Request>)

  /** log remembers whose writes were applied, in order. */
  datatype Store = Store(batches: map<string, Batch>, payloads: map<string, Payload>, tables: Tables, log: seq<(string, Request)>)

  const EmptyStore := Store(map[], map[], Tables(map[], map[]), [])

  datatype Step =
    | IngestInline(key: string, req: Request)
    | Accept(key: string, payload: Payload)
    | Claim(key: string)
    | Apply(key: string)
    | Requeue(key: string)
    | Fail(key: string)
    | CleanUp(key: string)

  predicate InStatus(s: Store, key: string, status: Status)
  {
    key in s.batches && s.batches[key].status == status
  }

  /** A batch's writes and its completion are one transaction. */
  predicate CanApply(s: Store, key: string)
  {
    InStatus(s, key, Processing) && key in s.payloads && s.payloads[key].request.Some?
    && InRequestOrder(s.tables, s.payloads[key].request.value).Ok?
  }

  predicate Enabled(s: Store, step: Step)
  {
    match step
    case IngestInline(key, req) => key !in s.batches && InRequestOrder(s.tables, req).Ok?
    case Accept(key, _) => key !in s.batches
    case Claim(key) => InStatus(s, key, Queued)
    case Apply(key) => CanApply(s, key)
    case Requeue(key) => InStatus(s, key, Processing)
    case Fail(key) => InStatus(s, key, Processing)
    case CleanUp(key) => InStatus(s, key, Failed)
  }

  function WithStatus(s: Store, key: string, status: Status): Store
    requires key in s.batches
  {
    s.(batches := s.batches[key := s.batches[key].(status := status)])
  }

  function Effect(s: Store, step: Step): Store
    requires Enabled(s, step)
  {
    match step
    case IngestInline(key, req) =>
      s.(batches := s.batches[key := Batch(Completed, true, 0)], tables := InRequestOrder(s.tables, req).value.db,
         log := s.log + [(key, req)])
    case Accept(key, payload) =>
      s.(batches := s.batches[key := Batch(Queued, false, 0)], payloads := s.payloads[key := payload])
    case Claim(key) =>
      s.(batches := s.batches[key := s.batches[key].(status := Processing, attempts := s.batches[key].attempts + 1)])
    case Apply(key) =>
      var req := s.payloads[key].request.value;
      WithStatus(s, key, Completed).(payloads := s.payloads - {key}, tables := InRequestOrder(s.tables, req).value.db,
                                     log := s.log + [(key, req)])
    case Requeue(key) => WithStatus(s, key, Queued)
    case Fail(key) => WithStatus(s, key, Failed)
    case CleanUp(key) => s.(payloads := s.payloads - {key})
  }

  function ApplyStep(s: Store, step: Step): Store
  {
    if Enabled(s, step) then Effect(s, step) else s
  }

  function RunSteps(s: Store, steps: seq<Step>): Store
  {
    if steps == [] then s else ApplyStep(RunSteps(s, steps[..|steps| - 1]), steps[|steps| - 1])
  }

  // ---- what a step does ----

  function StatusOf(s: Store, key: string): Option<Status>
  {
    if key in s.batches then Some(s.batches[key].status) else None
  }

  /** Where a batch comes from and goes to by each step on it. */
  predicate Moves(step: Step, from: Option<Status>, to: Option<Status>)
  {
    match step
    case IngestInline(_, _) => from.None? && to == Some(Completed)
    case Accept(_, _) => from.None? && to == Some(Queued)
    case Claim(_) => from == Some(Queued) && to == Some(Processing)
    case Apply(_) => from == Some(Processing) && to == Some(Completed)
    case Requeue(_) => from == Some(Processing) && to == Some(Queued)
    case Fail(_) => from == Some(Processing) && to == Some(Failed)
    case CleanUp(_) => from == Some(Failed) && to == Some(Failed)
  }

  /** A step moves its own batch if it is enabled, and touches no other; only an inline batch and an
      application write, and then what handling the request in order writes. */
  lemma {:induction false} StepMoves(s: Store, step: Step, key: string)
    ensures var t := ApplyStep(s, step);
            && (key == step.key && Enabled(s, step) ==> Moves(step, StatusOf(s, key), StatusOf(t, key)))
            && (key != step.key || !Enabled(s, step) ==>
                  && StatusOf(t, key) == StatusOf(s, key) && (key in t.payloads <==> key in s.payloads)
                  && (key in s.payloads ==> t.payloads[key] == s.payloads[key]))
            && (Enabled(s, step) && step.Accept? ==> key != step.key || (key in t.payloads && t.payloads[key] == step.payload))
            && (Enabled(s, step) && (step.Apply? || step.CleanUp?) ==> step.key !in t.payloads)
            && (Enabled(s, step) && step.IngestInline? ==> t.tables == InRequestOrder(s.tables, step.req).value.db)
            && (Enabled(s, step) && step.Apply? ==> t.tables == InRequestOrder(s.tables, s.payloads[step.key].request.value).value.db)
            && (!step.Apply? && !step.IngestInline? ==> t.tables == s.tables && t.log == s.log)
            && (key in s.batches ==>
                  t.batches[key].attempts == s.batches[key].attempts + (if step.Claim? && key == step.key && Enabled(s, step) then 1 else 0)
                  && t.batches[key].direct == s.batches[key].direct)
  {
    hide InRequestOrder;
  }

  // ---- at most once ----

  function Times(log: seq<(string, Request)>, key: string): nat
  {
    if log == [] then 0 else Times(log[..|log| - 1], key) + (if log[|log| - 1].0 == key then 1 else 0)
  }

  function Replayed(tables: Tables, log: seq<(string, Request)>): Tables
  {
    if log == [] then tables
    else
      var before := Replayed(tables, log[..|log| - 1]);
      var r := InRequestOrder(before, log[|log| - 1].1);
      if r.Ok? then r.value.db else before
  }

  /** Applied once exactly when completed, and the payload kept exactly as long as it may be needed. */
  ghost predicate OkBatch(s: Store, key: string)
  {
    if key !in s.batches then Times(s.log, key) == 0 && key !in s.payloads
    else
      var b := s.batches[key];
      && !b.status.AcceptedLegacy? && (b.direct ==> b.status.Completed?)
      && Times(s.log, key) == (if b.status.Completed? then 1 else 0)
      && (b.status.Completed? ==> key !in s.payloads)
      && (b.status.Queued? || b.status.Processing? ==> key in s.payloads)
  }

  ghost predicate Inv(s: Store)
  {
    && (forall key :: OkBatch(s, key))
    && s.tables == Replayed(EmptyStore.tables, s.log)
  }

  lemma {:induction false} LogGrows(log: seq<(string, Request)>, entry: (string, Request), key: string)
    ensures Times(log + [entry], key) == Times(log, key) + (if entry.0 == key then 1 else 0)
    ensures (log + [entry])[..|log|] == log
  {
    assert (log + [entry])[..|log|] == log;
  }

  lemma {:induction false} StepKeepsInv(s: Store, step: Step)
    requires Inv(s)
    ensures Inv(ApplyStep(s, step))
  {
    if Enabled(s, step) {
      var s' := Effect(s, step);
      forall key ensures OkBatch(s', key) {
        assert OkBatch(s, key);
        assert OkBatch(s, step.key);
        if step.IngestInline? { LogGrows(s.log, (step.key, step.req), key); }
        if step.Apply? { LogGrows(s.log, (step.key, s.payloads[step.key].request.value), key); }
      }
      if step.IngestInline? { LogGrows(s.log, (step.key, step.req), ""); }
      if step.Apply? { LogGrows(s.log, (step.key, s.payloads[step.key].request.value), ""); }
    }
  }

  lemma {:induction false} InvAlways(s: Store, steps: seq<Step>)
    requires Inv(s)
    ensures Inv(RunSteps(s, steps))
  {
    if steps != [] {
      InvAlways(s, steps[..|steps| - 1]);
      StepKeepsInv(RunSteps(s, steps[..|steps| - 1]), steps[|steps| - 1]);
    }
  }

  /** Whatever the schedule: a key's writes apply at most once, and the tables hold exactly the
      applied batches' writes. An accepted batch is completed exactly when its writes are applied
      and its payload is gone, and a failed one is not applied. */
  lemma {:induction false} ExactlyOnce(steps: seq<Step>, key: string)
    ensures var s := RunSteps(EmptyStore, steps);
            && Times(s.log, key) <= 1
            && s.tables == Replayed(EmptyStore.tables, s.log)
            && (key in s.batches && !s.batches[key].direct ==>
                  (s.batches[key].status.Completed? <==> Times(s.log, key) == 1 && key !in s.payloads))
            && (InStatus(s, key, Failed) ==> Times(s.log, key) == 0)
            && (Times(s.log, key) == 1 ==> InStatus(s, key, Completed))
  {
    assert Inv(EmptyStore);
    InvAlways(EmptyStore, steps);
    assert OkBatch(RunSteps(EmptyStore, steps), key);
  }

  /** A settled batch stays settled, and its payload stays gone. */
  lemma {:induction false} SettledStays(s: Store, steps: seq<Step>, key: string)
    requires Inv(s) && key in s.batches && (s.batches[key].status.Completed? || s.batches[key].status.Failed?)
    ensures key in RunSteps(s, steps).batches && RunSteps(s, steps).batches[key] == s.batches[key]
    ensures Times(RunSteps(s, steps).log, key) == Times(s.log, key)
  {
    if steps != [] {
      var front, last := steps[..|steps| - 1], steps[|steps| - 1];
      SettledStays(s, front, key);
      InvAlways(s, front);
      SettledStep(RunSteps(s, front), last, key);
    }
  }

  lemma {:induction false} SettledStep(s: Store, step: Step, key: string)
    requires Inv(s) && key in s.batches && (s.batches[key].status.Completed? || s.batches[key].status.Failed?)
    ensures key in ApplyStep(s, step).batches && ApplyStep(s, step).batches[key] == s.batches[key]
    ensures Times(ApplyStep(s, step).log, key) == Times(s.log, key)
  {
    hide InRequestOrder;
    StepKeepsInv(s, step);
    assert OkBatch(s, key) && OkBatch(ApplyStep(s, step), key);
  }
}
