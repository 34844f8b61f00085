/** While attempts of one archive do not overlap, evidence is applied exactly once. */
module ReplaySafety {
  import opened ReconciliationPlan
  import opened ReconciliationLaws
  import opened EvidenceRows
  import opened EvidenceGraph
  import opened GraphWriteLaws
  import opened Reconcile
  import opened Replay
  import opened ReplaySteps

  ghost predicate ExactlyOnce(s: State) {
    && (forall e :: Processed(s.graph, e) ==> IsOne(s.graph.evidence[e]))
    && (forall e :: Processed(s.graph, e) <==> ComesFrom(s.applied, e))
    && (forall i, j :: 0 <= i < j < |s.applied| ==> Disjoint(s.applied[i].plan, s.applied[j].plan))
    && (forall m :: m in s.graph.memories ==> s.graph.memories[m].version == 1 + UpdatesOf(s.applied, |s.applied|, m))
  }

  lemma InvIsExactlyOnce(s: State)
    requires Inv(s)
    ensures ExactlyOnce(s)
  {
    forall e | ComesFrom(s.applied, e) ensures Processed(s.graph, e) {
      var i :| 0 <= i < |s.applied| && Plans(s.applied[i].plan, e);
      assert IsApplied(s.graph, s.applied[i]);
    }
  }

  /** Attempts that reconcile when they begin keep the invariant over whole runs. */
  lemma {:induction false} RunKeeps(states: seq<State>, steps: seq<Step>, n: nat)
    requires ReconcilingRun(states, steps) && n <= |steps|
    ensures Inv(states[n])
  {
    if n > 0 {
      RunKeeps(states, steps, n - 1);
      assert ReconcilingNext(states[n - 1], steps[n - 1], states[n]);
      ReconcilingNextIsNext(states[n - 1], steps[n - 1], states[n]);
      NextKeeps(states[n - 1], steps[n - 1], states[n]);
    }
  }

  /** At every point of every run of attempts, with any answers and crashes: a piece of
      evidence in the graph supports exactly one memory and comes from exactly one applied
      plan, and a memory's version counts exactly the applied plans that update it. */
  lemma EvidenceIsAppliedExactlyOnce(states: seq<State>, steps: seq<Step>, n: nat)
    requires ReconcilingRun(states, steps) && n < |states|
    ensures ExactlyOnce(states[n])
  {
    RunKeeps(states, steps, n);
    InvIsExactlyOnce(states[n]);
  }
}
