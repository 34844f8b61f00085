/** A memory over all plans of a serial run: it never gets less certain or less superseded. */
module MemoryLife {
  import opened Options
  import Confidence
  import opened ReconciliationPlan
  import opened ReconciliationLaws
  import opened ReconciliationOrder
  import opened EvidenceRows
  import opened EvidenceGraph
  import opened GraphWriteLaws
  import opened Reconcile
  import opened Replay
  import opened ReplaySteps
  import opened ReplayWitness

  function Rank(s: Status): nat {
    match s case Active => 0 case Conflicted => 1 case Superseded => 2
  }

  predicate Sure(m: Memory) { m.confidence == Confidence.UNITS }

  /** Memory `n` is what memory `m` may become. */
  predicate Later(m: Memory, n: Memory) {
    && n.facts == m.facts && n.importance == m.importance && m.version <= n.version
    && Rank(m.status) <= Rank(n.status)
    && m.confidence <= n.confidence && Confidence.InUnits(n.confidence) && (Sure(n) <==> Sure(m))
    && (m.status.Superseded? ==> n == m)
  }

  ghost predicate SoundGraph(g: Graph) { forall m :: m in g.memories ==> Confidence.InUnits(g.memories[m].confidence) }

  ghost predicate GraphLater(g: Graph, h: Graph) {
    forall m :: m in g.memories ==> m in h.memories && Later(g.memories[m], h.memories[m])
  }

  /** Extraction admits confidences from 0 to 1 only. */
  predicate SoundViews(views: seq<View>) { forall i :: 0 <= i < |views| ==> 0.0 <= views[i].confidence <= 1.0 }

  // ----- one update -----

  /** The guard that a write does not check: the target is not superseded, and its
      confidence is not above the planned one. */
  predicate InTime(m: Memory, u: Update) {
    && !m.status.Superseded?
    && (u.mergedConfidence.Some? ==>
          && m.confidence <= u.mergedConfidence.value && Confidence.InUnits(u.mergedConfidence.value)
          && (u.mergedConfidence.value == Confidence.UNITS <==> Sure(m)))
  }

  lemma UpdateInTimeExactly(m: Memory, u: Update)
    requires Confidence.InUnits(m.confidence)
    ensures Later(m, Updated(m, u)) <==> InTime(m, u)
  {
    assert Updated(m, u).version == m.version + 1;
  }

  /** Whenever a plan is written, and whatever was written since it was made: a target moves
      on as it may exactly when the update is still in time for it. */
  lemma WriteMovesOnExactly(g: Graph, plan: Plan, firstId: nat, i: nat)
    requires Fits(g, plan, firstId) && SoundGraph(g) && i < |plan.updates|
    ensures var t := plan.updates[i].target;
            && t in g.memories && t in Written(g, plan).memories
            && (Later(g.memories[t], Written(g, plan).memories[t]) <==> InTime(g.memories[t], plan.updates[i]))
  {
    var t := plan.updates[i].target;
    OldMemoryWritten(g, plan, firstId, t);
    UpdateInTimeExactly(g.memories[t], plan.updates[i]);
  }

  // ----- a plan made from the present graph is in time -----

  lemma RoundedInUnits(x: real)
    requires 0.0 <= x <= 1.0
    ensures Confidence.InUnits(Confidence.RoundToUnits(x))
  {
    Confidence.NearestIsMonotone(0.0, x * 10000.0);
    Confidence.NearestIsMonotone(x * 10000.0, 10000.0);
  }

  /** What an input recalls is in the graph as recalled, and not superseded. */
  lemma SnapshotIsCurrent(archive: string, g: Graph, views: seq<View>, ms: seq<Meeting>, p: nat, t: nat, s: Snapshot)
    requires Possible(g, views, ms) && AllAnswered(archive, g, views, ms) && p < |views|
    requires Recalls(Inputs(archive, g, views, ms)[p], t, s)
    ensures t in g.memories && !g.memories[t].status.Superseded? && s.confidence == g.memories[t].confidence
  {
    assert AnsweredAt(archive, g, views, ms, p);
    assert IsRecall(g, views[p], ms[p].recalled);
    var i :| 0 <= i < |ms[p].recalled| && ms[p].recalled[i] == s;
  }

  lemma InputConfidence(archive: string, g: Graph, views: seq<View>, ms: seq<Meeting>, c: Candidate)
    requires |views| == |ms| && AllAnswered(archive, g, views, ms) && SoundViews(views) && c in Inputs(archive, g, views, ms)
    ensures 0.0 <= c.confidence <= 1.0
  {
    var p :| 0 <= p < |views| && Inputs(archive, g, views, ms)[p] == c;
    assert AnsweredAt(archive, g, views, ms, p);
  }

  lemma MemberOfGroup(cs: seq<Candidate>, s: Slot, k: nat)
    requires k < |Group(cs, s)|
    ensures Group(cs, s)[k] in cs
  {
    GroupMembers(cs, s, |cs|, Group(cs, s)[k]);
    assert cs[..|cs|] == cs;
  }

  /** The largest confidence of a group, rounded. */
  lemma GroupConfidence(archive: string, g: Graph, views: seq<View>, ms: seq<Meeting>, s: Slot)
    requires |views| == |ms| && AllAnswered(archive, g, views, ms) && SoundViews(views)
    requires Group(Inputs(archive, g, views, ms), s) != []
    ensures var group := Group(Inputs(archive, g, views, ms), s);
            && Confidence.InUnits(Confidence.RoundToUnits(MaxConfidence(group, |group|)))
            && Confidence.InUnits(Confidence.RoundToUnits(group[0].confidence))
  {
    var cs := Inputs(archive, g, views, ms);
    var group := Group(cs, s);
    var i := MaxConfidenceIs(group, |group|);
    MemberOfGroup(cs, s, i);
    MemberOfGroup(cs, s, 0);
    InputConfidence(archive, g, views, ms, group[i]);
    InputConfidence(archive, g, views, ms, group[0]);
    RoundedInUnits(MaxConfidence(group, |group|));
    RoundedInUnits(group[0].confidence);
  }

  /** The target of a group is as the group recalled it. */
  lemma TargetIsCurrent(archive: string, g: Graph, views: seq<View>, ms: seq<Meeting>, t: nat)
    requires Possible(g, views, ms) && AllAnswered(archive, g, views, ms)
    requires GroupOk(Group(Inputs(archive, g, views, ms), Existing(t)), t)
    ensures var group := Group(Inputs(archive, g, views, ms), Existing(t));
            && t in g.memories && !g.memories[t].status.Superseded?
            && FirstSnapshot(group, t, |group|).value.confidence == g.memories[t].confidence
  {
    var cs := Inputs(archive, g, views, ms);
    var group := Group(cs, Existing(t));
    FirstSnapshotIs(group, t, |group|);
    var s := FirstSnapshot(group, t, |group|).value;
    var k :| 0 <= k < |group| && Recalls(group[k], t, s);
    MemberOfGroup(cs, Existing(t), k);
    var p :| 0 <= p < |cs| && cs[p] == group[k];
    SnapshotIsCurrent(archive, g, views, ms, p, t, s);
  }

  lemma PlannedInTime(archive: string, g: Graph, views: seq<View>, ms: seq<Meeting>, firstId: nat, i: nat)
    requires Possible(g, views, ms) && SoundViews(views) && SoundGraph(g) && Reconciled(archive, g, views, ms, firstId).Some?
    requires i < |Reconciled(archive, g, views, ms, firstId).value.updates|
    ensures var u := Reconciled(archive, g, views, ms, firstId).value.updates[i];
            u.target in g.memories && InTime(g.memories[u.target], u)
  {
    var cs := Inputs(archive, g, views, ms);
    var t := Targets(cs)[i];
    UpdateFacts(cs, Targets(cs), firstId, i);
    assert OkAt(cs, Targets(cs), i);
    TargetIsCurrent(archive, g, views, ms, t);
    GroupConfidence(archive, g, views, ms, Existing(t));
    var group := Group(cs, Existing(t));
    Confidence.MergeStaysBelowOne(g.memories[t].confidence, Confidence.RoundToUnits(MaxConfidence(group, |group|)));
  }

  lemma PlannedCreationsSound(archive: string, g: Graph, views: seq<View>, ms: seq<Meeting>, firstId: nat, k: nat)
    requires |views| == |ms| && SoundViews(views) && Reconciled(archive, g, views, ms, firstId).Some?
    requires k < |Reconciled(archive, g, views, ms, firstId).value.Creations()|
    ensures Confidence.InUnits(Reconciled(archive, g, views, ms, firstId).value.Creations()[k].confidence)
  {
    var cs := Inputs(archive, g, views, ms);
    var ts, ks, plan := Targets(cs), Keys(cs), PlanOf(cs, firstId);
    if k < |plan.linked| {
      var i := LinkedFrom(cs, ts, firstId, |ts|, k);
      GroupConfidence(archive, g, views, ms, Existing(ts[i]));
    } else {
      KeysHaveTheirGroups(cs);
      KeyedCreationsAt(cs, ks, firstId + LinkCount(cs, ts, |ts|), |ks|, k - |plan.linked|);
      GroupConfidence(archive, g, views, ms, Keyed(ks[k - |plan.linked|]));
    }
  }

  lemma OldMovesOn(archive: string, g: Graph, views: seq<View>, ms: seq<Meeting>, firstId: nat, plan: Plan, m: nat)
    requires Possible(g, views, ms) && SoundViews(views) && SoundGraph(g) && m in g.memories
    requires Reconciled(archive, g, views, ms, firstId) == Some(plan) && Fits(g, plan, firstId)
    ensures m in Written(g, plan).memories && Later(g.memories[m], Written(g, plan).memories[m])
  {
    OldMemoryWritten(g, plan, firstId, m);
    if i :| 0 <= i < |plan.updates| && plan.updates[i].target == m {
      PlannedInTime(archive, g, views, ms, firstId, i);
      WriteMovesOnExactly(g, plan, firstId, i);
    }
  }

  /** A plan written to the graph it was made from moves every memory on as it may. */
  lemma WriteMovesOn(archive: string, g: Graph, views: seq<View>, ms: seq<Meeting>, firstId: nat, plan: Plan)
    requires Possible(g, views, ms) && SoundViews(views) && SoundGraph(g)
    requires Reconciled(archive, g, views, ms, firstId) == Some(plan) && Fits(g, plan, firstId)
    ensures GraphLater(g, Written(g, plan)) && SoundGraph(Written(g, plan))
  {
    MemoryIds(g, plan, firstId);
    forall m | m in Written(g, plan).memories
      ensures Confidence.InUnits(Written(g, plan).memories[m].confidence)
      ensures m in g.memories ==> Later(g.memories[m], Written(g, plan).memories[m])
    {
      if m in g.memories {
        OldMovesOn(archive, g, views, ms, firstId, plan, m);
      } else {
        NewIsSound(archive, g, views, ms, firstId, plan, m);
      }
    }
  }

  lemma NewIsSound(archive: string, g: Graph, views: seq<View>, ms: seq<Meeting>, firstId: nat, plan: Plan, m: nat)
    requires |views| == |ms| && SoundViews(views) && m !in g.memories && m in Written(g, plan).memories
    requires Reconciled(archive, g, views, ms, firstId) == Some(plan) && Fits(g, plan, firstId)
    ensures Confidence.InUnits(Written(g, plan).memories[m].confidence)
  {
    var k := NewMemoryIs(g, plan, firstId, m);
    PlannedCreationsSound(archive, g, views, ms, firstId, k);
  }

  lemma NewMemoryIs(g: Graph, plan: Plan, firstId: nat, m: nat) returns (k: nat)
    requires Fits(g, plan, firstId) && m !in g.memories && m in Written(g, plan).memories
    ensures k < |plan.Creations()| && Written(g, plan).memories[m].confidence == plan.Creations()[k].confidence
  {
    MemoryIds(g, plan, firstId);
    k := m - firstId;
    NewMemoryWritten(g, plan, firstId, k);
  }

  // ----- runs whose attempts follow one another -----

  ghost predicate SoundlyComesOut(archive: string, g: Graph, firstId: nat, plan: Plan) {
    exists views, ms :: SoundViews(views) && Possible(g, views, ms) && Reconciled(archive, g, views, ms, firstId) == Some(plan)
  }

  /** No attempt has reconciled without having written or ended. */
  ghost predicate Idle(s: State) { forall w :: w in s.workers ==> !s.workers[w].stage.Planned? }

  ghost predicate SerialNext(s: State, a: Step, t: State) {
    && (a.Begin? ==> Idle(s) && OnlyAttempt(s, a.archive) && SoundlyComesOut(a.archive, s.graph, s.nextId, a.plan))
    && t == Apply(s, a)
  }

  ghost predicate SerialRun(states: seq<State>, steps: seq<Step>) {
    && |states| == |steps| + 1 && states[0] == START
    && forall i :: 0 <= i < |steps| ==> SerialNext(states[i], steps[i], states[i + 1])
  }

  ghost predicate SerialInv(s: State) {
    Inv(s) && SoundGraph(s.graph) && AtMostOneCurrent(s.graph, s.workers)
  }

  /** At most one attempt has still to write, and its plan was made from the present graph. */
  ghost predicate AtMostOneCurrent(g: Graph, workers: map<nat, Worker>) {
    && (forall w :: w in workers && workers[w].stage.Planned? ==> IsCurrent(g, workers[w]))
    && (forall v, w :: v in workers && w in workers && workers[v].stage.Planned? && workers[w].stage.Planned? ==> v == w)
  }

  ghost predicate IsCurrent(g: Graph, me: Worker) { SoundlyComesOut(me.archive, g, me.firstId, me.plan) }

  lemma SerialNextIsNext(s: State, a: Step, t: State)
    requires SerialNext(s, a, t)
    ensures Next(s, a, t)
  {
    if a.Begin? {
      var views, ms :| SoundViews(views) && Possible(s.graph, views, ms)
                       && Reconciled(a.archive, s.graph, views, ms, s.nextId) == Some(a.plan);
      assert ComesOut(a.archive, s.graph, s.nextId, a.plan);
      ReconcilingIsAllowed(s, a);
    }
  }

  lemma SerialStore(s: State, w: nat)
    requires SerialInv(s) && w in s.workers && s.workers[w].stage.Planned?
    ensures GraphLater(s.graph, StoreStep(s, w).graph) && SoundGraph(StoreStep(s, w).graph)
  {
    var me := s.workers[w];
    assert IsCurrent(s.graph, me) && WorkerOk(s.graph, s.nextId, me);
    var views, ms :| SoundViews(views) && Possible(s.graph, views, ms)
                     && Reconciled(me.archive, s.graph, views, ms, me.firstId) == Some(me.plan);
    WriteMovesOn(me.archive, s.graph, views, ms, me.firstId, me.plan);
    StoreKeeps(s, w);
  }

  lemma SameGraphLater(g: Graph)
    requires SoundGraph(g)
    ensures GraphLater(g, g)
  {
  }

  lemma SerialWorkers(s: State, a: Step)
    requires AtMostOneCurrent(s.graph, s.workers) && SerialNext(s, a, Apply(s, a))
    ensures AtMostOneCurrent(Apply(s, a).graph, Apply(s, a).workers)
  {
    if a.Store? && a.w in s.workers && s.workers[a.w].stage.Planned? {
      var workers := Apply(s, a).workers;
      assert forall w :: w in workers ==> !workers[w].stage.Planned?;
    }
  }

  lemma SerialGraph(s: State, a: Step)
    requires SerialInv(s)
    ensures GraphLater(s.graph, Apply(s, a).graph) && SoundGraph(Apply(s, a).graph)
  {
    if a.Store? && a.w in s.workers && s.workers[a.w].stage.Planned? {
      SerialStore(s, a.w);
    } else {
      SameGraphLater(s.graph);
    }
  }

  lemma SerialStep(s: State, a: Step, t: State)
    requires SerialInv(s) && SerialNext(s, a, t)
    ensures SerialInv(t) && GraphLater(s.graph, t.graph)
  {
    SerialNextIsNext(s, a, t);
    NextKeeps(s, a, t);
    SerialWorkers(s, a);
    SerialGraph(s, a);
  }

  lemma {:induction false} SerialRunKeeps(states: seq<State>, steps: seq<Step>, n: nat)
    requires SerialRun(states, steps) && n <= |steps|
    ensures SerialInv(states[n])
  {
    if n > 0 {
      SerialRunKeeps(states, steps, n - 1);
      assert SerialNext(states[n - 1], steps[n - 1], states[n]);
      SerialStep(states[n - 1], steps[n - 1], states[n]);
    }
  }

  lemma LaterGraphs(f: Graph, g: Graph, h: Graph)
    requires GraphLater(f, g) && GraphLater(g, h)
    ensures GraphLater(f, h)
  {
    forall m | m in f.memories ensures m in h.memories && Later(f.memories[m], h.memories[m]) {
      assert Later(f.memories[m], g.memories[m]) && Later(g.memories[m], h.memories[m]);
    }
  }

  /** Over any stretch of a run whose attempts follow one another, with any answers and
      crashes, every memory moves on as it may. */
  lemma {:induction false} MemoriesMoveOn(states: seq<State>, steps: seq<Step>, i: nat, j: nat)
    requires SerialRun(states, steps) && i <= j < |states|
    ensures GraphLater(states[i].graph, states[j].graph)
    decreases j - i
  {
    if i == j {
      SerialRunKeeps(states, steps, j);
      SameGraphLater(states[j].graph);
    } else {
      MemoriesMoveOn(states, steps, i, j - 1);
      StepMovesOn(states, steps, j - 1);
      LaterGraphs(states[i].graph, states[j - 1].graph, states[j].graph);
    }
  }

  lemma StepMovesOn(states: seq<State>, steps: seq<Step>, n: nat)
    requires SerialRun(states, steps) && n < |steps|
    ensures GraphLater(states[n].graph, states[n + 1].graph)
  {
    SerialRunKeeps(states, steps, n);
    assert SerialNext(states[n], steps[n], states[n + 1]);
    SerialStep(states[n], steps[n], states[n + 1]);
  }

  /** Once a memory is superseded, no recall of the rest of the run finds it, for any
      candidate. */
  lemma SupersededIsNotRecalled(states: seq<State>, steps: seq<Step>, i: nat, j: nat, m: nat, v: View, ss: seq<Snapshot>)
    requires SerialRun(states, steps) && i <= j < |states|
    requires m in states[i].graph.memories && states[i].graph.memories[m].status.Superseded?
    requires IsRecall(states[j].graph, v, ss)
    ensures m in states[j].graph.memories && states[j].graph.memories[m] == states[i].graph.memories[m]
    ensures forall k :: 0 <= k < |ss| ==> ss[k].memoryId != m
  {
    MemoriesMoveOn(states, steps, i, j);
  }

  /** Whatever attempts overlap, a write leaves a superseded memory superseded exactly when
      it has no conflict with it. */
  lemma StaysSupersededExactly(g: Graph, plan: Plan, firstId: nat, m: nat)
    requires Fits(g, plan, firstId) && m in g.memories && g.memories[m].status.Superseded?
    ensures m in Written(g, plan).memories
    ensures Written(g, plan).memories[m].status.Superseded? <==>
            forall i :: 0 <= i < |plan.updates| && plan.updates[i].target == m ==> !plan.updates[i].action.Conflict?
  {
    if i :| 0 <= i < |plan.updates| && plan.updates[i].target == m {
      TargetWritten(g, plan, firstId, i);
    } else {
      OthersStay(g, plan, firstId, m);
    }
  }
  // ----- when attempts overlap -----

  const HALF := View(0, 0, OLD, TEXT, 0.5, 0, "half")
  const LOW := View(0, 1, OLD, TEXT, 0.0, 0, "low")
  const HIGH := View(0, 2, OLD, TEXT, 1.0, 0, "high")

  /** A graph with one memory of confidence 0.5. */
  const H1 := WithMemory(EMPTY, "x", HALF, 0)

  function MergeOne(archive: string, v: View): Update {
    UpdateOfOne(InputOf(archive, false, v, MergeMeeting(H1)))
  }

  function MergePlan(archive: string, v: View): Plan { Plan([MergeOne(archive, v)], [], []) }

  lemma HalfComesOut()
    ensures ComesOut("x", EMPTY, 0, CreatePlan("x", HALF, 0))
  {
    var views, ms := [HALF], [Meeting([], None)];
    assert AnsweredAt("x", EMPTY, views, ms, 0);
    var cs := Inputs("x", EMPTY, views, ms);
    assert cs == [InputOf("x", false, HALF, ms[0])];
    assert Sole(cs, 0);
    SoleCreate(cs, 0, 0);
    assert Possible(EMPTY, views, ms);
  }

  lemma MergeComesOut(archive: string, v: View)
    requires archive != "x" && (v == LOW || v == HIGH)
    ensures ComesOut(archive, H1, 1, MergePlan(archive, v))
  {
    var views, ms := [v], [MergeMeeting(H1)];
    assert IsRecall(H1, v, ms[0].recalled) by {
      assert ms[0].recalled[0].memoryId == 0;
    }
    assert !Processed(H1, EvidenceOf(archive, v)) && AnsweredAt(archive, H1, views, ms, 0);
    var cs := Inputs(archive, H1, views, ms);
    assert cs == [InputOf(archive, false, v, MergeMeeting(H1))];
    assert SoleMerge(cs, 0);
    SoleMergePlan(cs, 0, 1);
    assert Possible(H1, views, ms);
  }

  lemma MergedOf(archive: string, v: View)
    ensures MergeOne(archive, v).mergedConfidence == Some(Confidence.Merge(H1.memories[0].confidence, Confidence.RoundToUnits(v.confidence)))
  {
    var c := InputOf(archive, false, v, MergeMeeting(H1));
    assert FirstSnapshot([c], 0, 1) == Find(c.recalled, 0, 1) == Some(c.recalled[0]);
    assert MaxConfidence([c], 1) == v.confidence;
  }

  lemma MergedConfidences()
    ensures MergeOne("a", LOW).mergedConfidence == Some(5000)
    ensures MergeOne("b", HIGH).mergedConfidence == Some(6250)
  {
    HalfConfidence();
    MergedOf("a", LOW);
    MergedOf("b", HIGH);
    MergesOfHalf();
  }

  lemma HalfConfidence()
    ensures H1.memories[0].confidence == 5000
  {
    assert MaxConfidence([InputOf("x", false, HALF, Meeting([], None))], 1) == 0.5;
  }

  lemma MergesOfHalf()
    ensures Confidence.Merge(5000, Confidence.RoundToUnits(0.0)) == 5000
    ensures Confidence.Merge(5000, Confidence.RoundToUnits(1.0)) == 6250
  {
    Confidence.MergeInUnits(5000, 0);
    Confidence.MergeInUnits(5000, 10000);
  }

  /** The graph after archive "b" has been written. */
  lemma HighWritten()
    ensures var g := Written(H1, MergePlan("b", HIGH));
            0 in g.memories && g.memories[0].confidence == 6250 && !Processed(g, EvidenceId("a", 1))
  {
    MergedConfidences();
    WrittenUpdate(H1, MergeOne("b", HIGH), Contributor(0, EvidenceId("b", 2)));
  }

  lemma LowWritten(g: Graph)
    requires 0 in g.memories
    ensures 0 in Written(g, MergePlan("a", LOW)).memories && Written(g, MergePlan("a", LOW)).memories[0].confidence == 5000
  {
    MergedConfidences();
    WrittenUpdate(g, MergeOne("a", LOW), Contributor(0, EvidenceId("a", 1)));
  }

  lemma LowIsPlanned()
    ensures Plans(MergePlan("a", LOW), EvidenceId("a", 1))
  {
    var plan := MergePlan("a", LOW);
    assert Sources(plan)[0].contributors[0].evidenceId == EvidenceId("a", 1);
    assert Mentions(Sources(plan)[0], EvidenceId("a", 1));
  }

  function Waiting(archive: string, plan: Plan, s: State): Worker { Worker(archive, plan, s.nextId, Planned) }

  /** Two archives reconcile, without new memories, before either is written. */
  lemma BothBegin(states: seq<State>, steps: seq<Step>, s: State, p: Plan, q: Plan) returns (states': seq<State>, steps': seq<Step>)
    requires ReconcilingRun(states, steps) && states[|steps|] == s && s.workers == map[]
    requires ComesOut("a", s.graph, s.nextId, p) && ComesOut("b", s.graph, s.nextId, q) && p.Creations() == q.Creations() == []
    ensures ReconcilingRun(states', steps') && |steps'| == |steps| + 2
    ensures states'[|steps| + 2] == s.(workers := map[1 := Waiting("a", p, s), 2 := Waiting("b", q, s)])
  {
    states', steps' := OneBegins(states, steps, s, 1, "a", p);
    var one := s.(workers := s.workers[1 := Waiting("a", p, s)]);
    states', steps' := OneBegins(states', steps', one, 2, "b", q);
    assert one.workers[2 := Waiting("b", q, s)] == map[1 := Waiting("a", p, s), 2 := Waiting("b", q, s)];
  }

  lemma OneBegins(states: seq<State>, steps: seq<Step>, s: State, w: nat, archive: string, p: Plan)
    returns (states': seq<State>, steps': seq<Step>)
    requires ReconcilingRun(states, steps) && states[|steps|] == s && w !in s.workers && OnlyAttempt(s, archive)
    requires ComesOut(archive, s.graph, s.nextId, p) && p.Creations() == []
    ensures ReconcilingRun(states', steps') && |steps'| == |steps| + 1
    ensures states'[|steps| + 1] == s.(workers := s.workers[w := Waiting(archive, p, s)])
  {
    var one := BeginStep(s, w, archive, p);
    Extended(states, steps, Begin(w, archive, p), one);
    states', steps' := states + [one], steps + [Begin(w, archive, p)];
  }

  /** Then the second is written, and the first after it. */
  lemma BothStore(states: seq<State>, steps: seq<Step>, s: State, p: Plan, q: Plan) returns (states': seq<State>, steps': seq<Step>)
    requires ReconcilingRun(states, steps) && states[|steps|] == s
    requires 1 in s.workers && 2 in s.workers && s.workers[1] == Waiting("a", p, s) && s.workers[2] == Waiting("b", q, s)
    requires !Skipped(s.graph, q) && !Skipped(Written(s.graph, q), p)
    ensures ReconcilingRun(states', steps') && |steps'| == |steps| + 2
    ensures states'[|steps| + 1].graph == Written(s.graph, q)
    ensures states'[|steps| + 2].graph == Written(Written(s.graph, q), p)
  {
    var one := StoreResult(s, 2);
    Extended(states, steps, Store(2), one);
    var two := StoreResult(one, 1);
    Extended(states + [one], steps + [Store(2)], Store(1), two);
    states', steps' := states + [one] + [two], steps + [Store(2)] + [Store(1)];
  }

  lemma HalfRun() returns (states: seq<State>, steps: seq<Step>)
    ensures ReconcilingRun(states, steps) && |steps| == 3
    ensures states[3] == State(H1, map[], 1, [Applied("x", CreatePlan("x", HALF, 0), 0)])
  {
    HalfComesOut();
    ComesOutFresh("x", EMPTY, 0, CreatePlan("x", HALF, 0));
    states, steps := FirstRun("x", CreatePlan("x", HALF, 0));
    CreatePlanWritten(EMPTY, "x", HALF, 0);
  }

  lemma NeitherIsSkipped()
    ensures !Skipped(H1, MergePlan("b", HIGH)) && !Skipped(Written(H1, MergePlan("b", HIGH)), MergePlan("a", LOW))
  {
    MergeComesOut("b", HIGH);
    ComesOutFresh("b", H1, 1, MergePlan("b", HIGH));
    FreshPlanIsNotSkipped("b", H1, MergePlan("b", HIGH));
    HighWritten();
    LowIsPlanned();
  }

  /** Attempts of different archives that overlap can undo each other's work on a memory:
      here its confidence falls from 0.625 back to 0.5. */
  lemma OverlapLowersConfidence() returns (states: seq<State>, steps: seq<Step>)
    ensures ReconcilingRun(states, steps) && |steps| == 7
    ensures 0 in states[6].graph.memories && 0 in states[7].graph.memories
    ensures states[6].graph.memories[0].confidence == 6250 && states[7].graph.memories[0].confidence == 5000
  {
    states, steps := HalfRun();
    MergeComesOut("a", LOW);
    MergeComesOut("b", HIGH);
    states, steps := BothBegin(states, steps, states[3], MergePlan("a", LOW), MergePlan("b", HIGH));
    NeitherIsSkipped();
    states, steps := BothStore(states, steps, states[5], MergePlan("a", LOW), MergePlan("b", HIGH));
    HighWritten();
    LowWritten(Written(H1, MergePlan("b", HIGH)));
  }
}
