/** What other transactions may do while this one holds some run locks. */
module Interference {
  import opened Basics
  import opened RunState
  import opened RunInvariants
  import opened EngineDb
  import opened EngineInvariant
  import opened TerminateSubtree

  function ParentOf(db: Db, r: nat): set<nat>
    requires r in db.runs
  {
    if db.runs[r].run.parent.Some? then {db.runs[r].run.parent.value} else {}
  }

  /** The run locks a step takes: the run whose row it writes, and before that the run whose
      children it adds, replaces or ends. */
  function LocksOf(db: Db, s: Step): set<nat>
    requires Enabled(db, s)
  {
    match s
    case StartRun(_, _) => {}
    case OnRun(r, op) => if Apply(db.runs[r], op, db.nextHistoryId).run != db.runs[r].run then {r} else {}
    case TerminateRun(r) => ParentOf(db, r) + Closure(db, r) + {r}
    case StartChild(p, _, _, _, _) => {p}
    case EndRunOf(r, _, _) => ParentOf(db, r) + {r}
    case ContinueAsNew(r, _, _) => ParentOf(db, r) + {r}
    case FailChildWait(link) => {db.links[link].parent}
  }

  /** A step of another transaction can commit only if it needs none of the held locks. */
  predicate MayCommit(db: Db, s: Step, held: set<nat>)
  {
    Enabled(db, s) && LocksOf(db, s) !! held
  }

  /** Every run stays where it is in the tree, and the rows of the held runs stay as they are. */
  ghost predicate RunsRespect(runs: map<nat, RunView>, runs': map<nat, RunView>, held: set<nat>)
  {
    forall x :: x in runs ==> x in runs' && SameIdentity(runs[x], runs'[x]) && (x in held ==> runs'[x].run == runs[x].run)
  }

  /** The relationships whose parent is held stay as they are, and no new one appears. */
  ghost predicate LinksRespect(links: map<nat, Link>, links': map<nat, Link>, held: set<nat>)
  {
    && (forall l :: l in links && links[l].parent in held ==> l in links' && links'[l] == links[l])
    && (forall l :: l in links' && links'[l].parent in held ==> l in links && links'[l] == links[l])
  }

  ghost predicate Respects(db: Db, db': Db, held: set<nat>)
  {
    RunsRespect(db.runs, db'.runs, held) && LinksRespect(db.links, db'.links, held)
  }

  lemma {:induction false} RespectsTransitive(a: Db, b: Db, c: Db, held: set<nat>)
    requires Respects(a, b, held) && Respects(b, c, held)
    ensures Respects(a, c, held)
  {
  }

  lemma {:induction false} RespectsReflexive(db: Db, held: set<nat>)
    ensures Respects(db, db, held)
  {
  }

  lemma {:induction false} RespectsKeys(db: Db, db': Db, held: set<nat>)
    requires Respects(db, db', held)
    ensures db.runs.Keys <= db'.runs.Keys
    ensures forall x :: x in db.runs ==> db'.runs[x].run.parent == db.runs[x].run.parent
  {
  }

  /** Fewer held locks are respected too. */
  lemma {:induction false} RespectsFewer(db: Db, db': Db, held: set<nat>, fewer: set<nat>)
    requires Respects(db, db', held) && fewer <= held
    ensures Respects(db, db', fewer)
  {
  }

  lemma {:induction false} WakeParentRespects(db: Db, runs: map<nat, RunView>, x: nat, held: set<nat>)
    requires x in db.runs && runs.Keys == db.runs.Keys && ParentOf(db, x) !! held
    requires RunsRespect(db.runs, runs, held)
    ensures RunsRespect(db.runs, WakeParent(db, runs, x), held)
  {
    forall y | y in db.runs
      ensures y in WakeParent(db, runs, x) && SameIdentity(db.runs[y], WakeParent(db, runs, x)[y])
      ensures y in held ==> WakeParent(db, runs, x)[y].run == db.runs[y].run
    {
      WakeParentEffect(db, runs, x, y);
    }
  }

  /** A relationship that a termination ends has its parent among the runs it locks. */
  lemma {:induction false} ClosedLinkHeld(db: Db, r: nat, l: nat)
    requires OkTree(db) && r in db.runs && l in db.links && db.links[l].status.LinkActive?
    requires db.links[l].current in Closure(db, r)
    ensures db.links[l].parent in ParentOf(db, r) + Closure(db, r)
  {
    assert OkLink(db, db.links[l]);
    assert OkParent(db, db.links[l].current);
  }

  lemma {:induction false} TerminateRespectsRuns(db: Db, r: nat, held: set<nat>)
    requires Inv(db) && MayCommit(db, TerminateRun(r), held)
    ensures RunsRespect(db.runs, Terminate(db, r).runs, held)
  {
    var s := Closure(db, r);
    if !Terminal(db.runs[r].run.status) {
      forall x | x in db.runs
        ensures SameIdentity(db.runs[x], TerminatedRuns(db, s)[x])
        ensures x in held ==> TerminatedRuns(db, s)[x].run == db.runs[x].run
      {
        if x in s { ClosureLive(db, r, x); }
        TerminatedRunKeeps(db, s, x);
      }
      hide Inv, TerminatedRuns, Closure, SameIdentity;
      WakeParentRespects(db, TerminatedRuns(db, s), r, held);
      hide WakeParent;
    }
  }

  /** Ending relationships none of whose parents is held respects the held locks. */
  lemma {:induction false} ClosingRespects(links: map<nat, Link>, s: set<nat>, status: RunStatus, held: set<nat>)
    requires forall l :: l in links && links[l].status.LinkActive? && links[l].current in s ==> links[l].parent !in held
    ensures LinksRespect(links, CloseLinks(links, s, status), held)
  {
  }

  lemma {:induction false} ContinuingRespects(links: map<nat, Link>, r: nat, c: nat, held: set<nat>)
    requires forall l :: l in links && links[l].current == r ==> links[l].parent !in held
    ensures LinksRespect(links, map l | l in links :: Continued(links[l], r, c), held)
  {
  }

  lemma {:induction false} TerminateRespectsLinks(db: Db, r: nat, held: set<nat>)
    requires Inv(db) && MayCommit(db, TerminateRun(r), held)
    ensures LinksRespect(db.links, Terminate(db, r).links, held)
  {
    hide OkTree, OkRuns, TerminatedRuns, Closure, WakeParent, CloseLinks, LinksRespect;
    var s := Closure(db, r);
    forall l | l in db.links && db.links[l].status.LinkActive? && db.links[l].current in s
      ensures db.links[l].parent !in held
    {
      ClosedLinkHeld(db, r, l);
    }
    ClosingRespects(db.links, s, RunStatus.Terminated, held);
    if Terminal(db.runs[r].run.status) { NothingRespects(db.links, held); }
  }

  lemma {:induction false} NothingRespects(links: map<nat, Link>, held: set<nat>)
    ensures LinksRespect(links, links, held)
  {
  }

  lemma {:induction false} LinkOfEnding(db: Db, r: nat, l: nat)
    requires OkTree(db) && r in db.runs && l in db.links && db.links[l].current == r
    ensures db.links[l].parent in ParentOf(db, r)
  {
    assert OkLink(db, db.links[l]);
  }

  lemma {:induction false} EndingRespectsLinks(db: Db, s: Step, held: set<nat>)
    requires Inv(db) && MayCommit(db, s, held) && (s.EndRunOf? || s.ContinueAsNew?)
    ensures LinksRespect(db.links, Effect(db, s).links, held)
  {
    forall l | l in db.links && db.links[l].current == s.r ensures db.links[l].parent !in held {
      LinkOfEnding(db, s.r, l);
    }
    if s.EndRunOf? {
      ClosingRespects(db.links, {s.r}, s.status, held);
    } else {
      ContinuingRespects(db.links, s.r, s.c, held);
    }
    hide Inv, WakeParent, EndRun, LinksRespect, LocksOf;
  }

  lemma {:induction false} EndingRespectsRuns(db: Db, s: Step, held: set<nat>)
    requires Inv(db) && MayCommit(db, s, held) && (s.EndRunOf? || s.ContinueAsNew?)
    ensures RunsRespect(db.runs, Effect(db, s).runs, held)
  {
    hide Inv, EndRun;
    var r := s.r;
    var status := if s.EndRunOf? then s.status else RunStatus.ContinuedAsNew;
    var ended := db.runs[r := EndRun(db.runs[r], status, s.consumed, db.nextHistoryId)];
    EndRunIdentity(db.runs[r], status, s.consumed, db.nextHistoryId);
    WakeParentRespects(db, ended, r, held);
    hide WakeParent;
  }

  lemma {:induction false} OthersRespect(db: Db, s: Step, held: set<nat>)
    requires MayCommit(db, s, held) && !s.EndRunOf? && !s.ContinueAsNew? && !s.TerminateRun?
    ensures Respects(db, Effect(db, s), held)
  {
    if s.OnRun? { ApplyStaysInTree(db.runs[s.r], s.op, db.nextHistoryId); }
    hide Apply, Allowed;
  }

  /** A committed step of another transaction respects the held locks. */
  lemma {:induction false} StepRespects(db: Db, s: Step, held: set<nat>)
    requires Inv(db) && MayCommit(db, s, held)
    ensures Respects(db, ApplyStep(db, s), held)
  {
    hide RunsRespect, LinksRespect, Inv, LocksOf;
    if s.TerminateRun? { TerminateRespectsRuns(db, s.r, held); TerminateRespectsLinks(db, s.r, held); }
    else if s.EndRunOf? || s.ContinueAsNew? { EndingRespectsRuns(db, s, held); EndingRespectsLinks(db, s, held); }
    else { OthersRespect(db, s, held); }
  }

  lemma {:induction false} RespectsHeldRuns(db: Db, db': Db, held: set<nat>, x: nat)
    requires Respects(db, db', held) && x in held && x in db.runs
    ensures x in db'.runs && db'.runs[x].run == db.runs[x].run
  {
  }
}
