/** Any number of extraction attempts over any number of archives, interleaved, crashed
    and repeated: each attempt reconciles against the graph and later writes its plan. */
module Replay {
  import opened Options
  import opened ReconciliationPlan
  import opened ReconciliationLaws
  import opened EvidenceRows
  import opened EvidenceGraph
  import opened GraphWriteLaws
  import opened Reconcile

  datatype Stage = Planned | Stored

  /** An attempt that has reconciled, and perhaps written the graph. */
  datatype Worker = Worker(archive: string, plan: Plan, firstId: nat, stage: Stage)

  datatype Applied = Applied(archive: string, plan: Plan, firstId: nat)

  /** `applied` is a history variable: the plans written so far. */
  datatype State = State(graph: Graph, workers: map<nat, Worker>, nextId: nat, applied: seq<Applied>)

  const START := State(EMPTY, map[], 0, [])

  datatype Step =
    | Begin(w: nat, archive: string, plan: Plan)
    | Store(w: nat)
    | Finish(w: nat)

  function Apply(s: State, a: Step): State {
    match a
    case Begin(w, archive, plan) =>
      if w in s.workers then s
      else s.(workers := s.workers[w := Worker(archive, plan, s.nextId, Planned)], nextId := s.nextId + |plan.Creations()|)
    case Store(w) =>
      if w !in s.workers || !s.workers[w].stage.Planned? then s
      else StoreStep(s, w)
    case Finish(w) => s.(workers := s.workers - {w})
  }

  function StoreStep(s: State, w: nat): State
    requires w in s.workers
  {
    var me := s.workers[w];
    var moved := s.workers[w := me.(stage := Stored)];
    if GateSkips(s.graph, me.plan) then s.(workers := moved)
    else s.(workers := moved, graph := Written(s.graph, me.plan), applied := s.applied + [Applied(me.archive, me.plan, me.firstId)])
  }

  /** The gate, as decided by counting. */
  function GateSkips(g: Graph, plan: Plan): (skips: bool)
    ensures skips <==> Skipped(g, plan)
  {
    var ids := set i, k | 0 <= i < |Sources(plan)| && 0 <= k < |Sources(plan)[i].contributors| :: Sources(plan)[i].contributors[k].evidenceId;
    assert forall e :: e in ids <==> Plans(plan, e);
    ids != {} && forall e :: e in ids ==> Processed(g, e)
  }

  /** What a plan made from graph `g` is like. */
  ghost predicate MadeFor(archive: string, g: Graph, firstId: nat, plan: Plan) {
    WellLinked(plan, firstId) && SourcesContribute(plan) && TargetsExist(g, plan) && PlansFresh(archive, g, plan)
  }

  ghost predicate OnlyAttempt(s: State, archive: string) {
    forall w :: w in s.workers ==> s.workers[w].archive != archive
  }

  /** An attempt begins with a plan made from the present graph, while no other attempt
      of the archive is alive. */
  ghost predicate Allowed(s: State, a: Step) {
    a.Begin? ==> MadeFor(a.archive, s.graph, s.nextId, a.plan) && OnlyAttempt(s, a.archive)
  }

  /** The plan comes out of `reconcile` for some candidates, recalls and answers. */
  ghost predicate Reconciles(s: State, a: Step) {
    a.Begin? ==> OnlyAttempt(s, a.archive) && ComesOut(a.archive, s.graph, s.nextId, a.plan)
  }

  ghost predicate ComesOut(archive: string, g: Graph, firstId: nat, plan: Plan) {
    exists views, ms :: Possible(g, views, ms) && Reconciled(archive, g, views, ms, firstId) == Some(plan)
  }

  /** Whatever the candidates and answers, reconciling gives plans of the kind the
      machine allows. */
  lemma ReconcilingIsAllowed(s: State, a: Step)
    requires Reconciles(s, a)
    ensures Allowed(s, a)
  {
    if a.Begin? {
      var views, ms :| Possible(s.graph, views, ms) && Reconciled(a.archive, s.graph, views, ms, s.nextId) == Some(a.plan);
      PlanIsPlanOf(a.archive, s.graph, views, ms, s.nextId);
      PlanIsFresh(a.archive, s.graph, views, ms, s.nextId);
      PlanTargetsExist(a.archive, s.graph, views, ms, s.nextId);
    }
  }

  ghost predicate Next(s: State, a: Step, t: State) { Allowed(s, a) && t == Apply(s, a) }

  ghost predicate ReconcilingNext(s: State, a: Step, t: State) { Reconciles(s, a) && t == Apply(s, a) }

  /** The states of a run from the start. */
  ghost predicate Run(states: seq<State>, steps: seq<Step>) {
    && |states| == |steps| + 1 && states[0] == START
    && forall i :: 0 <= i < |steps| ==> Next(states[i], steps[i], states[i + 1])
  }

  /** A run in which every attempt reconciles when it begins. */
  ghost predicate ReconcilingRun(states: seq<State>, steps: seq<Step>) {
    && |states| == |steps| + 1 && states[0] == START
    && forall i :: 0 <= i < |steps| ==> ReconcilingNext(states[i], steps[i], states[i + 1])
  }

  lemma ReconcilingNextIsNext(s: State, a: Step, t: State)
    requires ReconcilingNext(s, a, t)
    ensures Next(s, a, t)
  {
    ReconcilingIsAllowed(s, a);
  }

  lemma ReconcilingRunIsRun(states: seq<State>, steps: seq<Step>)
    requires ReconcilingRun(states, steps)
    ensures Run(states, steps)
  {
    forall i | 0 <= i < |steps| ensures Next(states[i], steps[i], states[i + 1]) {
      ReconcilingNextIsNext(states[i], steps[i], states[i + 1]);
    }
  }

  // ----- the invariant -----

  /** Every evidence node supports one memory. */
  ghost predicate OneMemoryEach(g: Graph) {
    forall e :: e in g.evidence ==> IsOne(g.evidence[e])
  }

  ghost predicate IsOne(ms: set<nat>) { exists m :: ms == {m} }

  predicate InPlan(applied: seq<Applied>, i: nat, m: nat)
    requires i < |applied|
  {
    Targeted(applied[i].plan.updates, |applied[i].plan.updates|, m)
  }

  /** How many applied plans update memory `m`. */
  function UpdatesOf(applied: seq<Applied>, n: nat, m: nat): nat
    requires n <= |applied|
  {
    if n == 0 then 0 else UpdatesOf(applied, n - 1, m) + if InPlan(applied, n - 1, m) then 1 else 0
  }

  ghost predicate IsApplied(g: Graph, a: Applied) {
    && TargetsExist(g, a.plan)
    && forall e :: Plans(a.plan, e) ==> Processed(g, e) && e.archive == a.archive
  }

  ghost predicate Disjoint(p: Plan, q: Plan) { forall e :: !(Plans(p, e) && Plans(q, e)) }

  ghost predicate ComesFrom(applied: seq<Applied>, e: EvidenceId) {
    exists i :: 0 <= i < |applied| && Plans(applied[i].plan, e)
  }

  /** The graph is the result of the applied plans, each piece of evidence applied once. */
  ghost predicate HistoryOk(g: Graph, applied: seq<Applied>) {
    OneMemoryEach(g) && AllApplied(g, applied) && AllDisjoint(applied) && AllComeFrom(g, applied) && VersionsCount(g, applied)
  }

  ghost predicate AllApplied(g: Graph, applied: seq<Applied>) {
    forall i :: 0 <= i < |applied| ==> IsApplied(g, applied[i])
  }

  ghost predicate AllDisjoint(applied: seq<Applied>) {
    forall i, j :: 0 <= i < j < |applied| ==> Disjoint(applied[i].plan, applied[j].plan)
  }

  ghost predicate AllComeFrom(g: Graph, applied: seq<Applied>) {
    forall e :: Processed(g, e) ==> ComesFrom(applied, e)
  }

  ghost predicate VersionsCount(g: Graph, applied: seq<Applied>) {
    forall m :: m in g.memories ==> g.memories[m].version == 1 + UpdatesOf(applied, |applied|, m)
  }

  ghost predicate WorkerOk(g: Graph, nextId: nat, me: Worker) {
    me.stage.Planned? ==> Fits(g, me.plan, me.firstId) && PlansFresh(me.archive, g, me.plan) && me.firstId + |me.plan.Creations()| <= nextId
  }

  predicate Apart(a: Worker, b: Worker) {
    && a.archive != b.archive
    && (a.firstId + |a.plan.Creations()| <= b.firstId || b.firstId + |b.plan.Creations()| <= a.firstId)
  }

  ghost predicate WorkersOk(g: Graph, workers: map<nat, Worker>, nextId: nat) {
    && (forall m :: m in g.memories ==> m < nextId)
    && (forall w :: w in workers ==> WorkerOk(g, nextId, workers[w]) && workers[w].firstId + |workers[w].plan.Creations()| <= nextId)
    && (forall v, w :: v in workers && w in workers && v != w ==> Apart(workers[v], workers[w]))
  }

  ghost predicate Inv(s: State) {
    HistoryOk(s.graph, s.applied) && WorkersOk(s.graph, s.workers, s.nextId)
  }
}
