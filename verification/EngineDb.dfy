/** The engine's tables, and the transactions that change them. Every transaction is one step;
    a schedule is any sequence of steps, and a step that is not enabled does nothing. */
module EngineDb {
  import opened Basics
  import opened RunState
  import opened RunInvariants

  datatype LinkStatus = LinkActive | LinkEnded(status: RunStatus)

  /** A child relationship: the parent run, the key it gave the child, and the child's current run. */
  datatype Link = Link(parent: nat, childKey: string, current: nat, status: LinkStatus, waitFailed: bool, continuations: nat)

  datatype InstanceStatus = ActiveInstance | EndedInstance(status: RunStatus)

  datatype Db = Db(runs: map<nat, RunView>, links: map<nat, Link>, instances: map<nat, InstanceStatus>, nextHistoryId: nat)

  const EmptyDb: Db := Db(map[], map[], map[], 1)
  const MaxChildDepth: nat := 32
  const MaxContinuationFollowDepth: nat := 32

  // ---- the active subtree ----

  predicate Links(l: Link, p: nat, x: nat)
  {
    l.status.LinkActive? && l.parent == p && l.current == x
  }

  predicate ActiveChild(db: Db, p: nat, x: nat)
  {
    exists l :: l in db.links && Links(db.links[l], p, x)
  }

  function Depth(db: Db, x: nat): nat
  {
    if x in db.runs then db.runs[x].run.depth else 0
  }

  /** x is r, or an active descendant of r. */
  predicate Under(db: Db, r: nat, x: nat)
    decreases Depth(db, x)
  {
    || x == r
    || (x in db.runs && db.runs[x].run.parent.Some?
        && var p := db.runs[x].run.parent.value;
           Depth(db, p) < Depth(db, x) && ActiveChild(db, p, x) && Under(db, r, p))
  }

  function Closure(db: Db, r: nat): set<nat>
  {
    set x | x in db.runs && Under(db, r, x)
  }

  /** Whether y is terminated before x: deepest first, and in run id order within a depth. */
  predicate Before(db: Db, y: nat, x: nat)
  {
    Depth(db, y) > Depth(db, x) || (Depth(db, y) == Depth(db, x) && y < x)
  }

  function EarlierIn(db: Db, s: set<nat>, x: nat): set<nat>
  {
    set y | y in s && Before(db, y, x)
  }

  // ---- transactions ----

  datatype Step =
    | StartRun(r: nat, inst: nat)
    | OnRun(r: nat, op: RunOp)
    | TerminateRun(r: nat)
    | StartChild(p: nat, link: nat, key: string, c: nat, inst: nat)
    | EndRunOf(r: nat, status: RunStatus, consumed: set<nat>)
    | ContinueAsNew(r: nat, consumed: set<nat>, c: nat)
    | FailChildWait(link: nat)

  predicate Enabled(db: Db, s: Step)
  {
    match s
    case StartRun(r, inst) => r !in db.runs && inst !in db.instances
    case OnRun(r, op) => r in db.runs && Allowed(db.runs[r], op)
    case TerminateRun(r) => r in db.runs
    case StartChild(p, link, _, c, inst) =>
      && p in db.runs && db.runs[p].run.status.Running? && db.runs[p].run.depth < MaxChildDepth
      && c !in db.runs && link !in db.links && inst !in db.instances
    case EndRunOf(r, status, _) =>
      && r in db.runs && db.runs[r].run.status.Running?
      && (status.Completed? || status.Failed? || status.Cancelled?)
    case ContinueAsNew(r, _, c) => r in db.runs && db.runs[r].run.status.Running? && c !in db.runs
    case FailChildWait(link) =>
      link in db.links && db.links[link].parent in db.runs && db.runs[db.links[link].parent].run.status.Running?
  }

  predicate WaitsFor(db: Db, x: nat)
  {
    exists l :: l in db.links && db.links[l].status.LinkActive? && db.links[l].current == x && !db.links[l].waitFailed
  }

  /** Queues and projects x's parent, if it waits on x. */
  function WakeParent(db: Db, runs: map<nat, RunView>, x: nat): (m: map<nat, RunView>)
    requires x in db.runs
  {
    var run := db.runs[x].run;
    if run.parent.Some? && run.parent.value in runs && WaitsFor(db, x)
    then runs[run.parent.value := WakeOnChild(runs[run.parent.value], run.childKey)]
    else runs
  }

  function CloseLink(l: Link, s: set<nat>, status: RunStatus): Link
  {
    if l.status.LinkActive? && l.current in s then l.(status := LinkEnded(status)) else l
  }

  function CloseLinks(links: map<nat, Link>, s: set<nat>, status: RunStatus): map<nat, Link>
  {
    map l | l in links :: CloseLink(links[l], s, status)
  }

  function InstancesOf(db: Db, s: set<nat>): set<nat>
  {
    set x | x in s && x in db.runs :: db.runs[x].run.instance
  }

  function EndInstances(db: Db, s: set<nat>, status: RunStatus): map<nat, InstanceStatus>
  {
    map i | i in db.instances :: if i in InstancesOf(db, s) then EndedInstance(status) else db.instances[i]
  }

  /** The subtree's runs once terminated, each with the history id its turn gives it. */
  function TerminatedRuns(db: Db, s: set<nat>): map<nat, RunView>
  {
    map x | x in db.runs ::
      if x in s then TerminateRows(db.runs[x], db.nextHistoryId + |EarlierIn(db, s, x)|) else db.runs[x]
  }

  function Terminate(db: Db, r: nat): Db
    requires r in db.runs
  {
    if Terminal(db.runs[r].run.status) then db
    else
      var s := Closure(db, r);
      Db(WakeParent(db, TerminatedRuns(db, s), r), CloseLinks(db.links, s, Terminated),
         EndInstances(db, s, Terminated), db.nextHistoryId + |s|)
  }

  function Continued(l: Link, r: nat, c: nat): Link
  {
    if l.status.LinkActive? && l.current == r then l.(current := c, continuations := l.continuations + 1) else l
  }

  /** A parent that has followed a child through too many continuations is woken to fail its wait. */
  predicate FollowedTooFar(db: Db, r: nat)
  {
    exists l :: l in db.links && db.links[l].status.LinkActive? && db.links[l].current == r
                && db.links[l].continuations + 1 >= MaxContinuationFollowDepth
  }

  function Effect(db: Db, s: Step): Db
    requires Enabled(db, s)
  {
    var id := db.nextHistoryId;
    match s
    case StartRun(r, inst) =>
      Db(db.runs[r := NewRun(Run(Queued, NoWait, None, inst, None, "", 0), id)], db.links,
         db.instances[inst := ActiveInstance], id + 1)
    case OnRun(r, op) => 
      var v := Apply(db.runs[r], op, id);
      db.(runs := db.runs[r := v], nextHistoryId := NextId(db.runs[r], v, id))
    case TerminateRun(r) => Terminate(db, r)
    case StartChild(p, link, key, c, inst) =>
      Db(db.runs[c := NewRun(Run(Queued, NoWait, None, inst, Some(p), key, db.runs[p].run.depth + 1), id)],
         db.links[link := Link(p, key, c, LinkActive, false, 0)], db.instances[inst := ActiveInstance], id + 1)
    case EndRunOf(r, status, consumed) =>
      Db(WakeParent(db, db.runs[r := EndRun(db.runs[r], status, consumed, id)], r), CloseLinks(db.links, {r}, status),
         EndInstances(db, {r}, status), id + 1)
    case ContinueAsNew(r, consumed, c) =>
      var run := db.runs[r].run;
      var ended := db.runs[r := EndRun(db.runs[r], RunStatus.ContinuedAsNew, consumed, id)];
      var woken := if FollowedTooFar(db, r) then WakeParent(db, ended, r) else ended;
      Db(woken[c := NewRun(run, id + 1)], map l | l in db.links :: Continued(db.links[l], r, c),
         db.instances[run.instance := ActiveInstance], id + 2)
    case FailChildWait(link) => db.(links := db.links[link := db.links[link].(waitFailed := true)])
  }

  function ApplyStep(db: Db, s: Step): Db
  {
    if Enabled(db, s) then Effect(db, s) else db
  }

  function RunSteps(db: Db, steps: seq<Step>): Db
  {
    if steps == [] then db else ApplyStep(RunSteps(db, steps[..|steps| - 1]), steps[|steps| - 1])
  }

  // ---- the invariant ----

  ghost predicate OkParent(db: Db, x: nat)
    requires x in db.runs
  {
    var run := db.runs[x].run;
    && run.depth <= MaxChildDepth && run.instance in db.instances
    && (if run.parent.Some? then run.parent.value in db.runs && run.depth == Depth(db, run.parent.value) + 1
        else run.depth == 0)
  }

  ghost predicate OkLink(db: Db, l: Link)
  {
    && l.parent in db.runs && l.current in db.runs
    && db.runs[l.current].run.parent == Some(l.parent) && db.runs[l.current].run.childKey == l.childKey
    && (l.status.LinkActive? <==> !Terminal(db.runs[l.current].run.status))
  }

  /** A child run that has not ended is the current run of a relationship. */
  ghost predicate Linked(db: Db, x: nat)
    requires x in db.runs
  {
    db.runs[x].run.parent.Some? && !Terminal(db.runs[x].run.status) ==>
      exists l :: l in db.links && Links(db.links[l], db.runs[x].run.parent.value, x)
  }

  ghost predicate OkRuns(db: Db)
  {
    forall x :: x in db.runs ==> OkView(db.runs[x], db.nextHistoryId)
  }

  ghost predicate OkTree(db: Db)
  {
    && (forall x :: x in db.runs ==> OkParent(db, x) && Linked(db, x))
    && (forall l :: l in db.links ==> OkLink(db, db.links[l]))
    && (forall l, m :: l in db.links && m in db.links && db.links[l].current == db.links[m].current ==> l == m)
  }

  ghost predicate Inv(db: Db)
  {
    db.nextHistoryId > 0 && OkRuns(db) && OkTree(db)
  }
}
