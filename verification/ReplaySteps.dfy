/** Every step of the replay machine keeps its invariant.

    Writing a plan touches the history of applied plans (each piece of evidence applied
    once, versions counting the updates) and the other attempts under way (their plans stay
    about evidence that is not in the graph, and their new ids stay unused). The two are
    kept apart here: first what a write does to the history, then what it leaves to the
    other attempts. */
module ReplaySteps {
  import opened ReconciliationPlan
  import opened ReconciliationLaws
  import opened EvidenceRows
  import opened EvidenceGraph
  import opened GraphWriteLaws
  import opened Reconcile
  import opened Replay

  // ----- storing a plan -----

  /** A plan made from this graph is never skipped by the gate. */
  lemma FreshPlanIsNotSkipped(archive: string, g: Graph, plan: Plan)
    requires PlansFresh(archive, g, plan)
    ensures !Skipped(g, plan)
  {
  }

  lemma StoredEvidence(g: Graph, applied: seq<Applied>, a: Applied, firstId: nat, e: EvidenceId)
    requires HistoryOk(g, applied) && Fits(g, a.plan, firstId) && PlansFresh(a.archive, g, a.plan)
    ensures var g' := Written(g, a.plan);
            && (Processed(g', e) <==> Processed(g, e) || Plans(a.plan, e))
            && (Processed(g', e) ==> IsOne(Supports(g'.evidence, e)))
  {
    EvidenceWritten(g, a.plan, firstId, e);
    if Plans(a.plan, e) {
      var m :| Supports(Written(g, a.plan).evidence, e) == Supports(g.evidence, e) + {m};
      assert !Processed(g, e);
      assert Supports(Written(g, a.plan).evidence, e) == {m};
    }
  }

  lemma {:induction false} NotTargetedNeverUpdated(g: Graph, applied: seq<Applied>, n: nat, m: nat)
    requires n <= |applied| && m !in g.memories && forall i :: 0 <= i < |applied| ==> TargetsExist(g, applied[i].plan)
    ensures UpdatesOf(applied, n, m) == 0
  {
    if n > 0 {
      NotTargetedNeverUpdated(g, applied, n - 1, m);
      assert TargetsExist(g, applied[n - 1].plan);
    }
  }

  lemma {:induction false} UpdatesOfPrefix(applied: seq<Applied>, a: Applied, n: nat, m: nat)
    requires n <= |applied|
    ensures UpdatesOf(applied + [a], n, m) == UpdatesOf(applied, n, m)
  {
    if n > 0 {
      UpdatesOfPrefix(applied, a, n - 1, m);
    }
  }

  /** Versions keep counting the applied updates. */
  lemma StoredVersion(g: Graph, applied: seq<Applied>, a: Applied, firstId: nat, m: nat)
    requires HistoryOk(g, applied) && Fits(g, a.plan, firstId) && m in Written(g, a.plan).memories
    ensures Written(g, a.plan).memories[m].version == 1 + UpdatesOf(applied + [a], |applied| + 1, m)
  {
    UpdatesOfPrefix(applied, a, |applied|, m);
    if m in g.memories {
      OldMemoryVersion(g, a.plan, firstId, m);
    } else {
      forall i | 0 <= i < |applied| ensures TargetsExist(g, applied[i].plan) {
        assert IsApplied(g, applied[i]);
      }
      NotTargetedNeverUpdated(g, applied, |applied|, m);
      NewMemoryVersion(g, a.plan, firstId, m);
    }
  }

  lemma NewMemoryVersion(g: Graph, plan: Plan, firstId: nat, m: nat)
    requires Fits(g, plan, firstId) && m in Written(g, plan).memories && m !in g.memories
    ensures Written(g, plan).memories[m].version == 1 && !Targeted(plan.updates, |plan.updates|, m)
  {
    MemoryIds(g, plan, firstId);
    NewMemoryWritten(g, plan, firstId, m - firstId);
  }

  lemma OldMemoryVersion(g: Graph, plan: Plan, firstId: nat, m: nat)
    requires Fits(g, plan, firstId) && m in g.memories
    ensures m in Written(g, plan).memories
    ensures Written(g, plan).memories[m].version == g.memories[m].version + if Targeted(plan.updates, |plan.updates|, m) then 1 else 0
  {
    OldMemoryWritten(g, plan, firstId, m);
  }

  lemma StoredApplied(g: Graph, applied: seq<Applied>, a: Applied, firstId: nat, b: Applied)
    requires HistoryOk(g, applied) && Fits(g, a.plan, firstId) && PlansFresh(a.archive, g, a.plan)
    requires b == a || IsApplied(g, b)
    ensures IsApplied(Written(g, a.plan), b)
  {
    MemoryIds(g, a.plan, firstId);
    forall e | Plans(b.plan, e) ensures Processed(Written(g, a.plan), e) && e.archive == b.archive {
      StoredEvidence(g, applied, a, firstId, e);
    }
  }

  lemma StoreKeepsDisjoint(g: Graph, applied: seq<Applied>, a: Applied)
    requires AllApplied(g, applied) && AllDisjoint(applied) && PlansFresh(a.archive, g, a.plan)
    ensures AllDisjoint(applied + [a])
  {
    var more := applied + [a];
    forall i, j | 0 <= i < j < |more| ensures Disjoint(more[i].plan, more[j].plan) {
      assert IsApplied(g, applied[i]);
    }
  }

  lemma StoreKeepsEvidence(g: Graph, applied: seq<Applied>, a: Applied, firstId: nat)
    requires HistoryOk(g, applied) && Fits(g, a.plan, firstId) && PlansFresh(a.archive, g, a.plan)
    ensures OneMemoryEach(Written(g, a.plan)) && AllComeFrom(Written(g, a.plan), applied + [a])
  {
    var g' := Written(g, a.plan);
    forall e | e in g'.evidence ensures IsOne(g'.evidence[e]) {
      EvidenceNodesSupport(g, a.plan, firstId, e);
      StoredEvidence(g, applied, a, firstId, e);
    }
    forall e | Processed(g', e) ensures ComesFrom(applied + [a], e) {
      StoredEvidence(g, applied, a, firstId, e);
      ComesFromMore(applied, a, e);
    }
  }

  lemma StoreKeepsHistory(g: Graph, applied: seq<Applied>, a: Applied, firstId: nat)
    requires HistoryOk(g, applied) && Fits(g, a.plan, firstId) && PlansFresh(a.archive, g, a.plan)
    ensures HistoryOk(Written(g, a.plan), applied + [a])
  {
    var g', more := Written(g, a.plan), applied + [a];
    StoreKeepsEvidence(g, applied, a, firstId);
    StoreKeepsDisjoint(g, applied, a);
    forall i | 0 <= i < |more| ensures IsApplied(g', more[i]) {
      StoredApplied(g, applied, a, firstId, more[i]);
    }
    forall m | m in g'.memories ensures g'.memories[m].version == 1 + UpdatesOf(more, |more|, m) {
      StoredVersion(g, applied, a, firstId, m);
    }
  }

  lemma ComesFromMore(applied: seq<Applied>, a: Applied, e: EvidenceId)
    ensures ComesFrom(applied, e) || Plans(a.plan, e) ==> ComesFrom(applied + [a], e)
  {
    var more := applied + [a];
    assert more[|applied|] == a;
    if i :| 0 <= i < |applied| && Plans(applied[i].plan, e) {
      assert more[i] == applied[i];
    }
  }

  /** No evidence node without a supported memory is ever made. */
  lemma EvidenceNodesSupport(g: Graph, plan: Plan, firstId: nat, e: EvidenceId)
    requires OneMemoryEach(g) && Fits(g, plan, firstId) && e in Written(g, plan).evidence
    ensures Processed(Written(g, plan), e)
  {
    NodesSupport(g.evidence, MemoriesAfter(g, plan), Rows(plan), |Rows(plan)|, e);
    if e in g.evidence {
      assert IsOne(g.evidence[e]);
    }
  }

  lemma {:induction false} NodesSupport(ev: map<EvidenceId, set<nat>>, ms: map<nat, Memory>, rows: seq<Row>, n: nat, e: EvidenceId)
    requires n <= |rows| && (e in ev ==> ev[e] != {}) && e in EvidenceUpTo(ev, ms, rows, n)
    ensures EvidenceUpTo(ev, ms, rows, n)[e] != {}
  {
    if n > 0 {
      var before := EvidenceUpTo(ev, ms, rows, n - 1);
      if e in before {
        NodesSupport(ev, ms, rows, n - 1, e);
      }
    }
  }

  // ----- every step keeps the invariant -----

  lemma BeginKeeps(s: State, a: Step)
    requires Inv(s) && a.Begin? && Allowed(s, a)
    ensures Inv(Apply(s, a))
  {
    if a.w !in s.workers {
      NewWorker(s, a.w, Worker(a.archive, a.plan, s.nextId, Planned));
    }
  }

  lemma NewWorker(s: State, w: nat, me: Worker)
    requires Inv(s) && w !in s.workers && me.stage.Planned? && me.firstId == s.nextId
    requires MadeFor(me.archive, s.graph, me.firstId, me.plan) && OnlyAttempt(s, me.archive)
    ensures WorkersOk(s.graph, s.workers[w := me], s.nextId + |me.plan.Creations()|)
  {
  }

  lemma OtherWorkerKept(s: State, me: Worker, other: Worker)
    requires Inv(s) && me.stage.Planned? && WorkerOk(s.graph, s.nextId, me) && WorkerOk(s.graph, s.nextId, other) && Apart(me, other)
    ensures WorkerOk(Written(s.graph, me.plan), s.nextId, other)
  {
    MemoryIds(s.graph, me.plan, me.firstId);
    if other.stage.Planned? {
      forall e | Plans(other.plan, e) ensures e.archive == other.archive && !Processed(Written(s.graph, me.plan), e) {
        StoredEvidence(s.graph, s.applied, Applied(me.archive, me.plan, me.firstId), me.firstId, e);
      }
    }
  }

  lemma StoreKeeps(s: State, w: nat)
    requires Inv(s) && w in s.workers && s.workers[w].stage.Planned?
    ensures Inv(StoreStep(s, w))
    ensures StoreStep(s, w).graph == Written(s.graph, s.workers[w].plan)
    ensures StoreStep(s, w).applied == s.applied + [Applied(s.workers[w].archive, s.workers[w].plan, s.workers[w].firstId)]
  {
    var me := s.workers[w];
    assert WorkerOk(s.graph, s.nextId, me);
    FreshPlanIsNotSkipped(me.archive, s.graph, me.plan);
    StoreKeepsHistory(s.graph, s.applied, Applied(me.archive, me.plan, me.firstId), me.firstId);
    StoreKeepsWorkers(s, w);
  }

  lemma StoreKeepsWorkers(s: State, w: nat)
    requires Inv(s) && w in s.workers && s.workers[w].stage.Planned?
    ensures WorkersOk(Written(s.graph, s.workers[w].plan), s.workers[w := s.workers[w].(stage := Stored)], s.nextId)
  {
    var me := s.workers[w];
    assert WorkerOk(s.graph, s.nextId, me);
    MemoryIds(s.graph, me.plan, me.firstId);
    var moved := s.workers[w := me.(stage := Stored)];
    forall v | v in moved ensures WorkerOk(Written(s.graph, me.plan), s.nextId, moved[v]) {
      if v != w {
        assert Apart(s.workers[w], s.workers[v]);
        OtherWorkerKept(s, me, s.workers[v]);
      }
    }
    forall u, v | u in moved && v in moved && u != v ensures Apart(moved[u], moved[v]) {
      assert Apart(s.workers[u], s.workers[v]);
    }
  }

  lemma StepKeeps(s: State, a: Step)
    requires Inv(s) && Allowed(s, a)
    ensures Inv(Apply(s, a))
  {
    match a {
      case Begin(_, _, _) => BeginKeeps(s, a);
      case Store(w) =>
        if w in s.workers && s.workers[w].stage.Planned? {
          StoreKeeps(s, w);
        }
      case Finish(_) =>
    }
  }

  lemma NextKeeps(s: State, a: Step, t: State)
    requires Inv(s) && Next(s, a, t)
    ensures Inv(t)
  {
    StepKeeps(s, a);
  }
}
