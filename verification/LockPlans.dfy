/** The locks that the batch path and the termination path take are plans of the lock order. */
module LockPlans {
  import opened Basics
  import opened IngestProcessor
  import opened EngineDb
  import opened EngineInvariant
  import opened DescendantLocks
  import opened KeyedUpserts
  import L = LockOrder

  /** A processed batch has taken the locks of an ingest transaction, in its order. */
  lemma {:induction false} BatchPlanned(sys: L.System, key: string, locks: seq<L.Lock>)
    requires BatchLocks(locks)
    ensures exists ss, ts :: L.Enabled(sys, L.BeginIngest(key, ss, ts))
                             && L.Effect(sys, L.BeginIngest(key, ss, ts))
                                == sys + [L.Tx(L.Ingesting, {}, [L.BatchKey(key)] + locks)]
  {
    var ss, ts :| L.AscendingNames(ss) && L.AscendingNames(ts) && locks == L.Sessions(ss) + L.Traces(ts);
    assert [L.BatchKey(key)] + locks == [L.BatchKey(key)] + L.Sessions(ss) + L.Traces(ts);
    assert L.Enabled(sys, L.BeginIngest(key, ss, ts));
  }

  /** How far a termination of r has come: it has taken the runs of n levels, and holds all it asked for. */
  function AfterLevels(db: Db, r: nat, held: set<L.Lock>, n: nat): L.Tx
  {
    L.Tx(L.LockingRuns(Depth(db, r) + n), held, [])
  }

  /** A termination can begin with its parent and itself, and go on level by level as they are listed. */
  lemma {:induction false} TerminationPlanned(db: Db, r: nat, levels: seq<seq<nat>>, sys: L.System, i: nat, held: set<L.Lock>, n: nat)
    requires OkTree(db) && r in db.runs && LevelsOf(db, r, Closure(db, r), levels) && n < |levels|
    requires i < |sys| && sys[i] == AfterLevels(db, r, held, n)
    ensures L.Enabled(sys, L.BeginTerminate(db.runs[r].run.parent, r, Depth(db, r)))
    ensures L.Enabled(sys, L.NextLevel(i, levels[n]))
    ensures L.Effect(sys, L.NextLevel(i, levels[n]))[i].todo == L.Runs(Depth(db, r) + 1 + n, levels[n])
    ensures forall x :: x in levels[n] ==> Depth(db, x) == Depth(db, r) + 1 + n
  {
    assert OkParent(db, r);
    assert Ascending(levels[n]);
  }

  lemma {:induction false} AscendingLeq(names: seq<string>)
    requires StrictlyAscending(names)
    ensures L.AscendingNames(names)
  {
  }

  /** Once it holds all levels it can take the traces it is going to write, in the order of the batches. */
  lemma {:induction false} TracesPlanned(db: Db, r: nat, levels: seq<seq<nat>>, nameOf: nat -> string,
                                         sys: L.System, i: nat, held: set<L.Lock>)
    requires r in db.runs && LevelsOf(db, r, Closure(db, r), levels)
    requires i < |sys| && sys[i] == AfterLevels(db, r, held, |levels|)
    ensures var names := TraceNames(db.runs[r].run, r, levels, nameOf);
            && L.Enabled(sys, L.ToTraces(i, names))
            && L.Effect(sys, L.ToTraces(i, names))[i].todo == L.Traces(names)
            && forall name :: name in names <==> NamesTrace(db, r, nameOf, name)
  {
    TracesOfSubtree(db, r, levels, nameOf);
    AscendingLeq(TraceNames(db.runs[r].run, r, levels, nameOf));
    hide TraceNames, StrictlyAscending, NamesTrace;
  }
}
