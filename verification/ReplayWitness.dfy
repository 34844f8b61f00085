/** Two runs that show why replay and one attempt at a time matter.

    In the first, a replay whose plan is not empty leaves the index behind: the model merges
    a candidate that it skipped before the crash. In the second, two overlapping attempts of
    one archive apply the same evidence twice, because the gate skips a write only if all of
    its evidence is in the graph. */
module ReplayWitness {
  import opened Options
  import opened ReconciliationPlan
  import opened ReconciliationLaws
  import opened EvidenceRows
  import opened EvidenceGraph
  import opened GraphWriteLaws
  import opened Reconcile
  import opened Replay
  import opened ReplaySteps
  import opened IndexSync

  // ----- plans with one slot -----

  /** Candidate `p` is the only one that takes part. */
  predicate Sole(cs: seq<Candidate>, p: nat) {
    && p < |cs| && Aggregates(cs[p]) && Placeable(cs[p])
    && forall i :: 0 <= i < |cs| && i != p ==> !Aggregates(cs[i])
  }

  lemma {:induction false} SoleSlots(cs: seq<Candidate>, p: nat, n: nat)
    requires Sole(cs, p) && n <= |cs|
    ensures var s := SlotOf(cs[p]);
            && TargetsUpTo(cs, n) == (if p < n && s.Existing? then [s.target] else [])
            && KeysUpTo(cs, n) == (if p < n && s.Keyed? then [s.key] else [])
            && GroupUpTo(cs, s, n) == (if p < n then [cs[p]] else [])
  {
    if n > 0 {
      SoleSlots(cs, p, n - 1);
    }
  }

  lemma SoleCreate(cs: seq<Candidate>, p: nat, firstId: nat)
    requires Sole(cs, p) && cs[p].action.Create?
    ensures Plannable(cs)
    ensures PlanOf(cs, firstId) == Plan([], [], [KeyedCreation([cs[p]], cs[p].key.value, firstId)])
  {
    SoleSlots(cs, p, |cs|);
    KeysHaveTheirGroups(cs);
    var ks := Keys(cs);
    assert |ks| == 1 && Group(cs, Keyed(ks[0])) == [cs[p]];
    var xs := KeyedCreations(cs, ks, firstId, 1);
    assert xs == [KeyedAt(cs, ks, firstId, 0)];
  }

  /** The only candidate that takes part merges into a memory it recalled first. */
  predicate SoleMerge(cs: seq<Candidate>, p: nat) {
    Sole(cs, p) && cs[p].action.Merge? && |cs[p].recalled| == 1 && cs[p].recalled[0].memoryId == cs[p].target.value
  }

  lemma SoleMergePlan(cs: seq<Candidate>, p: nat, firstId: nat)
    requires SoleMerge(cs, p)
    ensures Plannable(cs)
    ensures PlanOf(cs, firstId) == Plan([UpdateOf([cs[p]], cs[p].target.value, firstId)], [], [])
  {
    SoleSlots(cs, p, |cs|);
    KeysHaveTheirGroups(cs);
    var ts, t, g := Targets(cs), cs[p].target.value, [cs[p]];
    assert ts == [t] && Group(cs, Existing(t)) == g;
    assert GroupOk(g, t) by {
      assert Find(cs[p].recalled, t, 1).Some?;
      assert FirstSnapshot(g, t, 1).Some?;
    }
    assert OkAt(cs, ts, 0);
    var us := Updates(cs, ts, firstId, 1);
    assert us == [UpdateAt(cs, ts, firstId, 0)];
    assert LinkCount(cs, ts, 1) == 0;
  }

  // ----- writing such plans -----

  lemma WrittenCreate(g: Graph, x: Creation, c: Contributor)
    requires x.kind.Fresh? && x.contributors == [c] && x.memoryId !in g.memories
    ensures Written(g, Plan([], [], [x]))
         == Graph(g.memories[x.memoryId := MemoryOf(x)],
                  g.evidence[c.evidenceId := Supports(g.evidence, c.evidenceId) + {x.memoryId}], g.supersedes, g.conflicts)
    ensures PlannedIds(Plan([], [], [x])) == {x.memoryId}
  {
    var plan := Plan([], [], [x]);
    assert plan.Creations() == [x];
    SoleRow(plan, x.memoryId, c);
    assert CreatedUpTo(g.memories, [x], 1) == g.memories[x.memoryId := MemoryOf(x)];
    var ms := MemoriesAfter(g, plan);
    assert EdgesUpTo(g.supersedes, ms, [x], 1, true) == g.supersedes;
    assert EdgesUpTo(g.conflicts, ms, [x], 1, false) == g.conflicts;
    SoleEvidence(g.evidence, ms, Row(c.evidenceId, x.memoryId));
  }

  lemma WrittenUpdate(g: Graph, u: Update, c: Contributor)
    requires u.contributors == [c] && u.target in g.memories
    ensures Written(g, Plan([u], [], []))
         == Graph(g.memories[u.target := Updated(g.memories[u.target], u)],
                  g.evidence[c.evidenceId := Supports(g.evidence, c.evidenceId) + {u.target}], g.supersedes, g.conflicts)
    ensures PlannedIds(Plan([u], [], [])) == {u.target}
  {
    var plan := Plan([u], [], []);
    assert plan.Creations() == [];
    SoleRow(plan, u.target, c);
    var ms := MemoriesAfter(g, plan);
    assert UpdatedUpTo(g.memories, [u], 1) == g.memories[u.target := Updated(g.memories[u.target], u)];
    SoleEvidence(g.evidence, ms, Row(c.evidenceId, u.target));
  }

  lemma SoleEvidence(ev: map<EvidenceId, set<nat>>, ms: map<nat, Memory>, r: Row)
    requires r.memory in ms
    ensures EvidenceUpTo(ev, ms, [r], 1) == ev[r.evidenceId := Supports(ev, r.evidenceId) + {r.memory}]
  {
    assert EvidenceUpTo(ev, ms, [r], 0) == ev;
  }

  lemma SoleRow(plan: Plan, memory: nat, c: Contributor)
    requires Sources(plan) == [Source(memory, [c])]
    ensures Rows(plan) == [Row(c.evidenceId, memory)] && PlannedIds(plan) == {memory}
  {
    var ss := Sources(plan);
    assert RowsOf(ss, 0) == [];
    assert Appended([], ss[0], 0) == [];
    assert Appended([], ss[0], 1) == [Row(c.evidenceId, memory)];
    assert RowsOf(ss, 1) == [Row(c.evidenceId, memory)];
  }

  // ----- the candidates of the runs -----

  const TEXT := Text("t", "t")
  const OLD := Facts(Fact, "user", "is", None, None, None, None, None, None)
  const NEW := OLD.(relation := "likes")
  const FIRST := View(0, 0, OLD, TEXT, 1.0, 0, "first")
  const FRESH_VIEW := View(0, 1, NEW, TEXT, 1.0, 0, "fresh")
  const KNOWN_VIEW := View(1, 2, OLD, TEXT, 1.0, 0, "known")
  const VIEWS := [FRESH_VIEW, KNOWN_VIEW]

  function Created(archive: string, v: View, id: nat): Creation {
    KeyedCreation([InputOf(archive, false, v, Meeting([], None))], v.key, id)
  }

  function CreatePlan(archive: string, v: View, id: nat): Plan { Plan([], [], [Created(archive, v, id)]) }

  /** The graph after a plan that creates one memory. */
  function WithMemory(g: Graph, archive: string, v: View, id: nat): Graph {
    var e := EvidenceOf(archive, v);
    Graph(g.memories[id := MemoryOf(Created(archive, v, id))], g.evidence[e := Supports(g.evidence, e) + {id}], g.supersedes, g.conflicts)
  }

  lemma CreatePlanWritten(g: Graph, archive: string, v: View, id: nat)
    requires id !in g.memories
    ensures Written(g, CreatePlan(archive, v, id)) == WithMemory(g, archive, v, id)
    ensures PlannedIds(CreatePlan(archive, v, id)) == {id}
  {
    WrittenCreate(g, Created(archive, v, id), Contributor(v.index, EvidenceOf(archive, v)));
  }

  /** A graph with one memory, made from the first archive. */
  const G1 := WithMemory(EMPTY, "x", FIRST, 0)

  lemma FirstPlan()
    ensures ComesOut("x", EMPTY, 0, CreatePlan("x", FIRST, 0))
  {
    var views, ms := [FIRST], [Meeting([], None)];
    assert AnsweredAt("x", EMPTY, views, ms, 0);
    var cs := Inputs("x", EMPTY, views, ms);
    assert cs == [InputOf("x", false, FIRST, ms[0])];
    assert Sole(cs, 0);
    SoleCreate(cs, 0, 0);
    assert Possible(EMPTY, views, ms);
  }

  /** The second archive: one candidate is new, the model skips the other. */
  lemma SkippingPlan()
    ensures ComesOut("a", G1, 1, CreatePlan("a", FRESH_VIEW, 1))
  {
    var known := Snapshot(0, G1.memories[0].confidence);
    var ms := [Meeting([], None), Meeting([known], Some(Answer(Skip, None, None)))];
    assert AnsweredAt("a", G1, VIEWS, ms, 0) && AnsweredAt("a", G1, VIEWS, ms, 1);
    assert !Processed(G1, EvidenceOf("a", FRESH_VIEW)) && !Processed(G1, EvidenceOf("a", KNOWN_VIEW));
    var cs := Inputs("a", G1, VIEWS, ms);
    assert cs[0] == InputOf("a", false, FRESH_VIEW, Meeting([], None));
    assert Sole(cs, 0);
    SoleCreate(cs, 0, 1);
    assert IsRecall(G1, FRESH_VIEW, []);
    assert IsRecall(G1, KNOWN_VIEW, [known]) by {
      assert [known][0].memoryId == 0;
    }
    assert Possible(G1, VIEWS, ms);
  }

  /** The second archive's new candidate is in the graph. */
  const G2 := WithMemory(G1, "a", FRESH_VIEW, 1)

  function MergeMeeting(g: Graph): Meeting
    requires 0 in g.memories
  {
    Meeting([Snapshot(0, g.memories[0].confidence)], Some(Answer(Merge, Some(0), None)))
  }

  function MergeUpdate(g: Graph): Update
    requires 0 in g.memories
  {
    UpdateOfOne(InputOf("a", false, KNOWN_VIEW, MergeMeeting(g)))
  }

  function UpdateOfOne(c: Candidate): Update
    requires Aggregates(c) && Placeable(c) && c.action.Merge? && |c.recalled| == 1 && c.recalled[0].memoryId == c.target.value
  {
    assert Find(c.recalled, c.target.value, 1).Some? && FirstSnapshot([c], c.target.value, 1).Some?;
    UpdateOf([c], c.target.value, 0)
  }

  function ReplayMeetings(): seq<Meeting> {
    [Meeting([Snapshot(1, G2.memories[1].confidence)], None), MergeMeeting(G2)]
  }

  lemma ReplayIsPossible()
    ensures Possible(G2, VIEWS, ReplayMeetings())
  {
    var ms := ReplayMeetings();
    assert IsRecall(G2, FRESH_VIEW, ms[0].recalled) by {
      assert ms[0].recalled[0].memoryId == 1;
    }
    assert IsRecall(G2, KNOWN_VIEW, ms[1].recalled) by {
      assert ms[1].recalled[0].memoryId == 0;
    }
  }

  /** Replaying the second archive: the new candidate is processed, and this time the model
      merges the other one. */
  lemma MergingPlan()
    ensures ComesOut("a", G2, 2, Plan([MergeUpdate(G2)], [], []))
  {
    ReplayIsPossible();
    var ms := ReplayMeetings();
    assert Processed(G2, EvidenceOf("a", FRESH_VIEW)) && !Processed(G2, EvidenceOf("a", KNOWN_VIEW));
    assert AnsweredAt("a", G2, VIEWS, ms, 0) && AnsweredAt("a", G2, VIEWS, ms, 1);
    var cs := Inputs("a", G2, VIEWS, ms);
    assert cs[1] == InputOf("a", false, KNOWN_VIEW, MergeMeeting(G2));
    assert SoleMerge(cs, 1);
    SoleMergePlan(cs, 1, 2);
  }

  // ----- a replay that leaves the index behind -----

  lemma BeginStep(s: State, w: nat, archive: string, plan: Plan) returns (t: State)
    requires w !in s.workers && OnlyAttempt(s, archive) && ComesOut(archive, s.graph, s.nextId, plan)
    ensures ReconcilingNext(s, Begin(w, archive, plan), t)
    ensures t == s.(workers := s.workers[w := Worker(archive, plan, s.nextId, Planned)], nextId := s.nextId + |plan.Creations()|)
  {
    t := s.(workers := s.workers[w := Worker(archive, plan, s.nextId, Planned)], nextId := s.nextId + |plan.Creations()|);
  }

  lemma StoreResult(s: State, w: nat) returns (t: State)
    requires w in s.workers && s.workers[w].stage.Planned? && !Skipped(s.graph, s.workers[w].plan)
    ensures t == Apply(s, Store(w))
    ensures var me := s.workers[w];
            t == State(Written(s.graph, me.plan), s.workers[w := me.(stage := Stored)], s.nextId,
                       s.applied + [Applied(me.archive, me.plan, me.firstId)])
  {
    t := StoreStep(s, w);
  }

  /** One attempt, alone, from start to finish. */
  lemma Attempt(s: State, w: nat, archive: string, plan: Plan) returns (begun: State, stored: State, finished: State)
    requires s.workers == map[] && ComesOut(archive, s.graph, s.nextId, plan) && PlansFresh(archive, s.graph, plan)
    ensures ReconcilingNext(s, Begin(w, archive, plan), begun)
    ensures ReconcilingNext(begun, Store(w), stored)
    ensures ReconcilingNext(stored, Finish(w), finished)
    ensures stored.workers == map[w := Worker(archive, plan, s.nextId, Stored)]
    ensures stored.graph == finished.graph == Written(s.graph, plan)
    ensures stored.applied == finished.applied == s.applied + [Applied(archive, plan, s.nextId)]
    ensures finished.workers == map[] && finished.nextId == s.nextId + |plan.Creations()|
  {
    begun := BeginStep(s, w, archive, plan);
    var me := Worker(archive, plan, s.nextId, Planned);
    assert begun.workers == map[w := me];
    stored := StoreAlone(begun, w, me);
    finished := FinishAlone(stored, w);
  }

  lemma StoreAlone(s: State, w: nat, me: Worker) returns (t: State)
    requires s.workers == map[w := me] && me.stage.Planned? && PlansFresh(me.archive, s.graph, me.plan)
    ensures ReconcilingNext(s, Store(w), t)
    ensures t == State(Written(s.graph, me.plan), map[w := me.(stage := Stored)], s.nextId, s.applied + [Applied(me.archive, me.plan, me.firstId)])
  {
    t := StoreFresh(s, w);
  }

  lemma FinishAlone(s: State, w: nat) returns (t: State)
    requires s.workers.Keys == {w} && s.workers[w].stage.Stored?
    ensures ReconcilingNext(s, Finish(w), t) && t == s.(workers := map[])
  {
    t := s.(workers := s.workers - {w});
  }

  lemma StoreFresh(s: State, w: nat) returns (t: State)
    requires w in s.workers && s.workers[w].stage.Planned? && PlansFresh(s.workers[w].archive, s.graph, s.workers[w].plan)
    ensures ReconcilingNext(s, Store(w), t)
    ensures var me := s.workers[w];
            t == State(Written(s.graph, me.plan), s.workers[w := me.(stage := Stored)], s.nextId,
                       s.applied + [Applied(me.archive, me.plan, me.firstId)])
  {
    FreshPlanIsNotSkipped(s.workers[w].archive, s.graph, s.workers[w].plan);
    t := StoreResult(s, w);
  }

  lemma ComesOutFresh(archive: string, g: Graph, firstId: nat, plan: Plan)
    requires ComesOut(archive, g, firstId, plan)
    ensures PlansFresh(archive, g, plan)
  {
    var views, ms :| Possible(g, views, ms) && Reconciled(archive, g, views, ms, firstId) == Some(plan);
    PlanIsFresh(archive, g, views, ms, firstId);
  }

  const P1 := CreatePlan("x", FIRST, 0)
  const P2 := CreatePlan("a", FRESH_VIEW, 1)
  const P3 := Plan([MergeUpdate(G2)], [], [])

  lemma PlansWritten()
    ensures Written(EMPTY, P1) == G1 && Written(G1, P2) == G2
    ensures |P1.Creations()| == 1 && |P2.Creations()| == 1
    ensures PlannedIds(P2) == {1}
  {
    CreatePlanWritten(EMPTY, "x", FIRST, 0);
    CreatePlanWritten(G1, "a", FRESH_VIEW, 1);
  }

  lemma IndexLeftBehind()
    ensures RepairedSeeds(Written(G2, P3), "a", P3, true) == Some({0})
    ensures 1 !in Expanded(Written(G2, P3), {0}, {})
  {
    var c := Contributor(1, EvidenceId("a", 2));
    WrittenUpdate(G2, MergeUpdate(G2), c);
  }

  lemma Extended(states: seq<State>, steps: seq<Step>, a: Step, t: State)
    requires ReconcilingRun(states, steps) && ReconcilingNext(states[|steps|], a, t)
    ensures ReconcilingRun(states + [t], steps + [a])
  {
    var more, longer := states + [t], steps + [a];
    forall i | 0 <= i < |longer| ensures ReconcilingNext(more[i], longer[i], more[i + 1]) {
      ReconcilingAt(states, steps, a, t, i);
    }
  }

  lemma ReconcilingAt(states: seq<State>, steps: seq<Step>, a: Step, t: State, i: nat)
    requires ReconcilingRun(states, steps) && ReconcilingNext(states[|steps|], a, t) && i <= |steps|
    ensures ReconcilingNext((states + [t])[i], (steps + [a])[i], (states + [t])[i + 1])
  {
    if i < |steps| {
      assert ReconcilingNext(states[i], steps[i], states[i + 1]);
    }
  }

  /** A run extended by one attempt. */
  lemma AttemptRun(states: seq<State>, steps: seq<Step>, s: State, w: nat, archive: string, plan: Plan)
    returns (states': seq<State>, steps': seq<Step>, finished: State)
    requires ReconcilingRun(states, steps) && s == states[|steps|]
    requires s.workers == map[] && ComesOut(archive, s.graph, s.nextId, plan) && PlansFresh(archive, s.graph, plan)
    ensures ReconcilingRun(states', steps') && |steps'| == |steps| + 3 && finished == states'[|steps| + 3]
    ensures finished == State(Written(s.graph, plan), map[], s.nextId + |plan.Creations()|, s.applied + [Applied(archive, plan, s.nextId)])
    ensures states'[|steps| + 2] == finished.(workers := map[w := Worker(archive, plan, s.nextId, Stored)])
  {
    var begun, stored: State;
    begun, stored, finished := Attempt(s, w, archive, plan);
    Extended(states, steps, Begin(w, archive, plan), begun);
    states', steps' := states + [begun], steps + [Begin(w, archive, plan)];
    Extended(states', steps', Store(w), stored);
    states', steps' := states' + [stored], steps' + [Store(w)];
    Extended(states', steps', Finish(w), finished);
    states', steps' := states' + [finished], steps' + [Finish(w)];
  }

  lemma NoSteps()
    ensures ReconcilingRun([START], [])
  {
  }

  /** The first attempt of all, for any archive. */
  lemma FirstRun(archive: string, plan: Plan) returns (states: seq<State>, steps: seq<Step>)
    requires ComesOut(archive, EMPTY, 0, plan) && PlansFresh(archive, EMPTY, plan)
    ensures ReconcilingRun(states, steps) && |steps| == 3
    ensures states[3] == State(Written(EMPTY, plan), map[], |plan.Creations()|, [Applied(archive, plan, 0)])
  {
    NoSteps();
    var last: State;
    states, steps, last := AttemptRun([START], [], START, 0, archive, plan);
    assert [] + [Applied(archive, plan, 0)] == [Applied(archive, plan, 0)];
  }

  lemma RunOfFirst() returns (states: seq<State>, steps: seq<Step>)
    ensures ReconcilingRun(states, steps) && |steps| == 3 && states[3] == State(G1, map[], 1, [Applied("x", P1, 0)])
  {
    FirstPlan();
    ComesOutFresh("x", EMPTY, 0, P1);
    PlansWritten();
    states, steps := FirstRun("x", P1);
  }

  lemma RunOfSecond() returns (states: seq<State>, steps: seq<Step>)
    ensures ReconcilingRun(states, steps) && |steps| == 6 && states[6] == State(G2, map[], 2, [Applied("x", P1, 0), Applied("a", P2, 1)])
  {
    states, steps := RunOfFirst();
    SkippingPlan();
    ComesOutFresh("a", G1, 1, P2);
    PlansWritten();
    var last: State;
    states, steps, last := AttemptRun(states, steps, states[3], 1, "a", P2);
  }

  lemma RunOfReplay() returns (states: seq<State>, steps: seq<Step>)
    ensures ReconcilingRun(states, steps) && |steps| == 9
    ensures states[8] == State(Written(G2, P3), map[2 := Worker("a", P3, 2, Stored)], 2,
                               [Applied("x", P1, 0), Applied("a", P2, 1), Applied("a", P3, 2)])
  {
    states, steps := RunOfSecond();
    MergingPlan();
    ComesOutFresh("a", G2, 2, P3);
    var last: State;
    states, steps, last := AttemptRun(states, steps, states[6], 2, "a", P3);
  }

  /** Both attempts of archive "a" write the graph; the first ends before it writes the
      index. The replay's own plan is not empty, so nothing is repaired, and the memory
      the first attempt created is not synced although the replay completes the archive. */
  lemma ReplayWithNewAnswerLeavesIndexBehind() returns (states: seq<State>, steps: seq<Step>)
    ensures ReconcilingRun(states, steps) && |steps| == 9
    ensures states[8] == State(Written(G2, P3), map[2 := Worker("a", P3, 2, Stored)], 2,
                               [Applied("x", P1, 0), Applied("a", P2, 1), Applied("a", P3, 2)])
    ensures PlannedIds(P2) == {1} && RepairedSeeds(states[8].graph, "a", P3, true) == Some({0})
    ensures 1 !in Expanded(states[8].graph, {0}, {})
  {
    states, steps := RunOfReplay();
    PlansWritten();
    IndexLeftBehind();
  }

  // ----- two attempts at once -----

  const TWINS := [View(0, 1, OLD, TEXT, 1.0, 0, "one"), View(1, 2, OLD, TEXT, 1.0, 0, "two")]

  function TwinInput(i: nat): Candidate
    requires i < 2
  {
    InputOf("a", false, TWINS[i], MergeMeeting(G1))
  }

  const BOTH := [TwinInput(0), TwinInput(1)]

  lemma BothGroup()
    ensures Targets(BOTH) == [0] && Keys(BOTH) == [] && Group(BOTH, Existing(0)) == BOTH && GroupOk(BOTH, 0)
  {
    assert TargetsUpTo(BOTH, 1) == [0] && KeysUpTo(BOTH, 1) == [];
    assert GroupUpTo(BOTH, Existing(0), 1) == [BOTH[0]];
    assert Find(BOTH[0].recalled, 0, 1).Some?;
    assert FirstSnapshot(BOTH, 0, 1).Some?;
    assert MergedTexts(BOTH, 1) == [];
  }

  const MERGE_BOTH := Plan([UpdateOfBoth()], [], [])
  const MERGE_ONE := Plan([UpdateOfOne(TwinInput(0))], [], [])

  function UpdateOfBoth(): Update {
    BothGroup();
    UpdateOf(BOTH, 0, 1)
  }

  lemma BothPlan()
    ensures Plannable(BOTH) && PlanOf(BOTH, 1) == MERGE_BOTH
  {
    BothGroup();
    KeysHaveTheirGroups(BOTH);
    assert OkAt(BOTH, Targets(BOTH), 0);
    assert Updates(BOTH, Targets(BOTH), 1, 1) == [UpdateAt(BOTH, Targets(BOTH), 1, 0)];
    assert LinkCount(BOTH, Targets(BOTH), 1) == 0;
  }

  lemma TwinRecall(i: nat)
    requires i < 2
    ensures IsRecall(G1, TWINS[i], MergeMeeting(G1).recalled)
  {
    assert MergeMeeting(G1).recalled[0].memoryId == 0;
  }

  function TwinMeetings(): seq<Meeting> { [MergeMeeting(G1), MergeMeeting(G1)] }

  lemma BothInputs()
    ensures Possible(G1, TWINS, TwinMeetings())
    ensures forall i :: 0 <= i < 2 ==> AnsweredAt("a", G1, TWINS, TwinMeetings(), i)
    ensures Inputs("a", G1, TWINS, TwinMeetings()) == BOTH
  {
    TwinRecall(0);
    TwinRecall(1);
    assert !Processed(G1, EvidenceOf("a", TWINS[0])) && !Processed(G1, EvidenceOf("a", TWINS[1]));
    assert AnsweredAt("a", G1, TWINS, TwinMeetings(), 0) && AnsweredAt("a", G1, TWINS, TwinMeetings(), 1);
  }
  lemma BothComesOut()
    ensures ComesOut("a", G1, 1, MERGE_BOTH)
  {
    BothInputs();
    BothPlan();
    assert Reconciled("a", G1, TWINS, TwinMeetings(), 1) == Some(MERGE_BOTH);
  }

  lemma OneComesOut()
    ensures ComesOut("a", G1, 1, MERGE_ONE)
  {
    var skipped := Meeting(MergeMeeting(G1).recalled, Some(Answer(Skip, None, None)));
    var ms := [MergeMeeting(G1), skipped];
    TwinRecall(0);
    TwinRecall(1);
    assert Possible(G1, TWINS, ms);
    assert !Processed(G1, EvidenceOf("a", TWINS[0])) && !Processed(G1, EvidenceOf("a", TWINS[1]));
    assert AnsweredAt("a", G1, TWINS, ms, 0) && AnsweredAt("a", G1, TWINS, ms, 1);
    var cs := Inputs("a", G1, TWINS, ms);
    assert cs[0] == TwinInput(0);
    assert SoleMerge(cs, 0);
    SoleMergePlan(cs, 0, 1);
  }

  const SHARED := EvidenceId("a", 1)

  /** For a plan `p` made before the same archive's plan `q` was written, the gate skips
      the write exactly when all of `p`'s evidence is planned by `q` too. If only part of
      it is, the shared part is applied a second time. */
  lemma GateAfterOverlap(archive: string, g: Graph, p: Plan, q: Plan, firstId: nat)
    requires Fits(g, q, firstId) && PlansFresh(archive, g, p)
    ensures Skipped(Written(g, q), p) <==> (exists e :: Plans(p, e)) && forall e :: Plans(p, e) ==> Plans(q, e)
  {
    forall e | Plans(p, e) ensures Processed(Written(g, q), e) <==> Plans(q, e) {
      EvidenceWritten(g, q, firstId, e);
    }
  }

  /** Two attempts of one archive that are both planned before either is written: the
      second write happens, and applies shared evidence twice, exactly when the plans share
      evidence but the second is not wholly within the first. */
  lemma OverlapAppliesTwiceExactly(s: State, v: nat, w: nat, e: EvidenceId) returns (t: State)
    requires v in s.workers && w in s.workers && v != w && s.workers[v].stage.Planned? && s.workers[w].stage.Planned?
    requires var p, q := s.workers[v], s.workers[w];
             p.archive == q.archive && Fits(s.graph, q.plan, q.firstId)
             && PlansFresh(p.archive, s.graph, p.plan) && PlansFresh(q.archive, s.graph, q.plan)
    requires Plans(s.workers[v].plan, e) && Plans(s.workers[w].plan, e)
    ensures t == Apply(Apply(s, Store(w)), Store(v))
    ensures var p, q := s.workers[v], s.workers[w];
            && |s.applied| < |t.applied| && t.applied[|s.applied|] == Applied(q.archive, q.plan, q.firstId)
            && (|t.applied| == |s.applied| + 2 && t.applied[|s.applied| + 1].plan == p.plan
                <==> exists x :: Plans(p.plan, x) && !Plans(q.plan, x))
  {
    var p, q := s.workers[v], s.workers[w];
    FreshPlanIsNotSkipped(q.archive, s.graph, q.plan);
    var half := StoreResult(s, w);
    GateAfterOverlap(p.archive, s.graph, p.plan, q.plan, q.firstId);
    t := StoreStep(half, v);
  }

  lemma SharedEvidence()
    ensures Plans(MERGE_BOTH, SHARED) && Plans(MERGE_ONE, SHARED) && Plans(MERGE_BOTH, EvidenceId("a", 2)) && !Plans(MERGE_ONE, EvidenceId("a", 2))
  {
    var c := Contributor(0, SHARED);
    assert Sources(MERGE_BOTH)[0].contributors[0] == c;
    assert Sources(MERGE_BOTH)[0].contributors[1].evidenceId == EvidenceId("a", 2);
    assert Mentions(Sources(MERGE_BOTH)[0], SHARED) && Mentions(Sources(MERGE_BOTH)[0], EvidenceId("a", 2));
    assert MERGE_ONE.updates[0].contributors == [c];
    assert Mentions(Sources(MERGE_ONE)[0], SHARED);
  }

  /** Such plans exist: after one archive has been stored, two attempts of another
      reconcile to plans that share evidence without one being within the other. */
  lemma PartialOverlapHappens() returns (states: seq<State>, steps: seq<Step>)
    ensures ReconcilingRun(states, steps) && |steps| == 3 && states[3].workers == map[]
    ensures ComesOut("a", states[3].graph, states[3].nextId, MERGE_BOTH) && ComesOut("a", states[3].graph, states[3].nextId, MERGE_ONE)
    ensures Plans(MERGE_BOTH, SHARED) && Plans(MERGE_ONE, SHARED) && exists x :: Plans(MERGE_BOTH, x) && !Plans(MERGE_ONE, x)
  {
    states, steps := RunOfFirst();
    BothComesOut();
    OneComesOut();
    SharedEvidence();
  }

  /** An attempt begins with a plan for the present graph, whether or not another attempt of
      the archive is under way. */
  ghost predicate AnyNext(s: State, a: Step, t: State) {
    (a.Begin? ==> ComesOut(a.archive, s.graph, s.nextId, a.plan)) && t == Apply(s, a)
  }

  ghost predicate AnyRun(states: seq<State>, steps: seq<Step>) {
    && |states| == |steps| + 1 && states[0] == START
    && forall i :: 0 <= i < |steps| ==> AnyNext(states[i], steps[i], states[i + 1])
  }

  lemma ExtendedAny(states: seq<State>, steps: seq<Step>, a: Step, t: State)
    requires AnyRun(states, steps) && AnyNext(states[|steps|], a, t)
    ensures AnyRun(states + [t], steps + [a])
  {
    var more, longer := states + [t], steps + [a];
    forall i | 0 <= i < |longer| ensures AnyNext(more[i], longer[i], more[i + 1]) {
      ExtendedAt(states, steps, a, t, i);
    }
  }

  lemma ExtendedAt(states: seq<State>, steps: seq<Step>, a: Step, t: State, i: nat)
    requires AnyRun(states, steps) && AnyNext(states[|steps|], a, t) && i <= |steps|
    ensures AnyNext((states + [t])[i], (steps + [a])[i], (states + [t])[i + 1])
  {
    if i < |steps| {
      assert AnyNext(states[i], steps[i], states[i + 1]);
    }
  }

  lemma ReconcilingIsAny(states: seq<State>, steps: seq<Step>)
    requires ReconcilingRun(states, steps)
    ensures AnyRun(states, steps)
  {
    forall i | 0 <= i < |steps| ensures AnyNext(states[i], steps[i], states[i + 1]) {
      assert ReconcilingNext(states[i], steps[i], states[i + 1]);
    }
  }

  const BEFORE := State(G1, map[], 1, [Applied("x", P1, 0)])

  lemma OneFits()
    ensures Fits(G1, MERGE_ONE, 1)
  {
    OneComesOut();
    ReconcilingIsAllowed(BEFORE, Begin(2, "a", MERGE_ONE));
  }

  function Waiting(s: State, plan: Plan): Worker { Worker("a", plan, s.nextId, Planned) }

  lemma OneBegins(states: seq<State>, steps: seq<Step>, s: State, w: nat, p: Plan) returns (states': seq<State>, steps': seq<Step>)
    requires AnyRun(states, steps) && states[|steps|] == s && w !in s.workers
    requires ComesOut("a", s.graph, s.nextId, p) && p.Creations() == []
    ensures AnyRun(states', steps') && |steps'| == |steps| + 1
    ensures states'[|steps| + 1] == s.(workers := s.workers[w := Waiting(s, p)])
  {
    var t := s.(workers := s.workers[w := Waiting(s, p)]);
    assert AnyNext(s, Begin(w, "a", p), t);
    ExtendedAny(states, steps, Begin(w, "a", p), t);
    states', steps' := states + [t], steps + [Begin(w, "a", p)];
  }

  lemma OneStores(states: seq<State>, steps: seq<Step>, s: State, w: nat, p: Plan) returns (states': seq<State>, steps': seq<Step>)
    requires AnyRun(states, steps) && states[|steps|] == s && w in s.workers
    requires s.workers[w] == Waiting(s, p) && !Skipped(s.graph, p)
    ensures AnyRun(states', steps') && |steps'| == |steps| + 1
    ensures states'[|steps| + 1] == State(Written(s.graph, p), s.workers[w := Waiting(s, p).(stage := Stored)], s.nextId,
                                          s.applied + [Applied("a", p, s.nextId)])
  {
    var t := StoreResult(s, w);
    assert AnyNext(s, Store(w), t);
    ExtendedAny(states, steps, Store(w), t);
    states', steps' := states + [t], steps + [Store(w)];
  }

  /** Two attempts begin with plans for the same graph, and both are written. */
  lemma BothApplied(states: seq<State>, steps: seq<Step>, s: State, p: Plan, q: Plan) returns (states': seq<State>, steps': seq<Step>)
    requires AnyRun(states, steps) && states[|steps|] == s && s.workers == map[] && p.Creations() == q.Creations() == []
    requires ComesOut("a", s.graph, s.nextId, p) && ComesOut("a", s.graph, s.nextId, q)
    requires !Skipped(s.graph, q) && !Skipped(Written(s.graph, q), p)
    ensures AnyRun(states', steps') && |steps'| == |steps| + 4
    ensures var applied := states'[|steps| + 4].applied;
            && |applied| == |s.applied| + 2 && applied[|s.applied|] == Applied("a", q, s.nextId)
            && applied[|s.applied| + 1] == Applied("a", p, s.nextId)
  {
    states', steps' := OneBegins(states, steps, s, 1, p);
    var one := states'[|steps| + 1];
    states', steps' := OneBegins(states', steps', one, 2, q);
    var two := states'[|steps| + 2];
    states', steps' := OneStores(states', steps', two, 2, q);
    var three := states'[|steps| + 3];
    states', steps' := OneStores(states', steps', three, 1, p);
  }

  lemma FirstStored() returns (states: seq<State>, steps: seq<Step>)
    ensures AnyRun(states, steps) && |steps| == 3
    ensures states[3].workers == map[] && states[3].graph == G1 && states[3].nextId == 1 && |states[3].applied| == 1
  {
    states, steps := RunOfFirst();
    ReconcilingIsAny(states, steps);
  }

  lemma OverlappingPlans() returns (p: Plan, q: Plan)
    ensures ComesOut("a", G1, 1, p) && ComesOut("a", G1, 1, q) && p.Creations() == q.Creations() == []
    ensures !Skipped(G1, q) && !Skipped(Written(G1, q), p) && Plans(p, SHARED) && Plans(q, SHARED)
  {
    p, q := MERGE_BOTH, MERGE_ONE;
    BothComesOut();
    OneComesOut();
    GatesOpen();
    SharedEvidence();
  }

  /** One run in which two overlapping attempts of an archive apply the same evidence twice. */
  lemma OverlapAppliesTwice() returns (states: seq<State>, steps: seq<Step>)
    ensures AnyRun(states, steps) && |steps| == 7 && |states[7].applied| == 3
    ensures states[7].applied[1].archive == states[7].applied[2].archive == "a"
    ensures Plans(states[7].applied[1].plan, SHARED) && Plans(states[7].applied[2].plan, SHARED)
  {
    states, steps := FirstStored();
    var p, q := OverlappingPlans();
    states, steps := BothApplied(states, steps, states[3], p, q);
  }

  lemma GatesOpen()
    ensures !Skipped(G1, MERGE_ONE) && !Skipped(Written(G1, MERGE_ONE), MERGE_BOTH)
  {
    SharedEvidence();
    OneFits();
    BothComesOut();
    OneComesOut();
    ComesOutFresh("a", G1, 1, MERGE_BOTH);
    ComesOutFresh("a", G1, 1, MERGE_ONE);
    BothGateOpen(G1, MERGE_BOTH, MERGE_ONE);
  }

  lemma BothGateOpen(g: Graph, p: Plan, q: Plan)
    requires Fits(g, q, 1) && PlansFresh("a", g, p) && PlansFresh("a", g, q) && exists x :: Plans(p, x) && !Plans(q, x)
    ensures !Skipped(g, q) && !Skipped(Written(g, q), p)
  {
    FreshPlanIsNotSkipped("a", g, q);
    GateAfterOverlap("a", g, p, q, 1);
  }

  // ----- one evidence id for two candidates -----

  /** Two candidates that differ in nothing but their confidence. */
  const AGAIN := [View(0, 1, OLD, TEXT, 1.0, 0, "new"), View(1, 1, OLD, TEXT, 0.5, 0, "new")]

  function AgainMeetings(): seq<Meeting> {
    [MergeMeeting(G1), Meeting(MergeMeeting(G1).recalled, Some(Answer(Create, None, None)))]
  }

  function AgainInput(i: nat): Candidate
    requires i < 2
  {
    InputOf("a", false, AGAIN[i], AgainMeetings()[i])
  }

  /** The model merges the first into memory 0 and makes a new memory of the second. */
  const MIXED_INPUTS := [AgainInput(0), AgainInput(1)]
  const MIXED := Plan([UpdateOfOne(AgainInput(0))], [], [KeyedCreation([AgainInput(1)], "new", 1)])

  lemma MixedGroups()
    ensures Targets(MIXED_INPUTS) == [0] && Keys(MIXED_INPUTS) == ["new"]
    ensures Group(MIXED_INPUTS, Existing(0)) == [AgainInput(0)] && Group(MIXED_INPUTS, Keyed("new")) == [AgainInput(1)]
  {
    var cs := MIXED_INPUTS;
    assert TargetsUpTo(cs, 1) == [0] && KeysUpTo(cs, 1) == [];
    assert GroupUpTo(cs, Existing(0), 1) == [cs[0]] && GroupUpTo(cs, Keyed("new"), 1) == [];
  }

  lemma MixedPlan()
    ensures Plannable(MIXED_INPUTS) && PlanOf(MIXED_INPUTS, 1) == MIXED
  {
    var cs := MIXED_INPUTS;
    MixedGroups();
    KeysHaveTheirGroups(cs);
    MixedOk();
    OneTargetOneKey(cs, 0, "new", 1);
  }

  lemma MixedOk()
    ensures GroupOk([AgainInput(0)], 0)
  {
    var c := AgainInput(0);
    assert Find(c.recalled, 0, 1).Some? && FirstSnapshot([c], 0, 1).Some?;
  }

  /** A plan with one merged target and one key. */
  lemma OneTargetOneKey(cs: seq<Candidate>, t: nat, k: string, firstId: nat)
    requires (forall i :: 0 <= i < |cs| ==> Placeable(cs[i])) && Targets(cs) == [t] && Keys(cs) == [k]
    requires GroupOk(Group(cs, Existing(t)), t) && Group(cs, Existing(t))[0].action.Merge? && Group(cs, Keyed(k)) != []
    ensures Plannable(cs)
    ensures PlanOf(cs, firstId) == Plan([UpdateOf(Group(cs, Existing(t)), t, firstId)], [], [KeyedCreation(Group(cs, Keyed(k)), k, firstId)])
  {
    KeysHaveTheirGroups(cs);
    assert OkAt(cs, Targets(cs), 0);
    assert Updates(cs, Targets(cs), firstId, 1) == [UpdateAt(cs, Targets(cs), firstId, 0)];
    assert LinkCount(cs, Targets(cs), 1) == 0;
    assert KeyedCreations(cs, Keys(cs), firstId, 1) == [KeyedAt(cs, Keys(cs), firstId, 0)];
  }

  lemma MixedComesOut()
    ensures ComesOut("a", G1, 1, MIXED)
  {
    var ms := AgainMeetings();
    forall i | 0 <= i < 2 ensures IsRecall(G1, AGAIN[i], ms[i].recalled) {
      assert ms[i].recalled[0].memoryId == 0;
    }
    assert Possible(G1, AGAIN, ms);
    assert !Processed(G1, SHARED);
    assert AnsweredAt("a", G1, AGAIN, ms, 0) && AnsweredAt("a", G1, AGAIN, ms, 1);
    assert Inputs("a", G1, AGAIN, ms) == MIXED_INPUTS;
    MixedPlan();
  }

  /** An update and a creation on the same evidence: its only row is on the new memory. */
  lemma SharedRows(u: Update, x: Creation, i: nat, j: nat, e: EvidenceId)
    requires u.contributors == [Contributor(i, e)] && x.contributors == [Contributor(j, e)]
    ensures Rows(Plan([u], [], [x])) == [Row(e, x.memoryId)] && PlannedIds(Plan([u], [], [x])) == {x.memoryId, u.target}
  {
    var plan := Plan([u], [], [x]);
    var ss, row := Sources(plan), Row(e, x.memoryId);
    assert ss == [Source(x.memoryId, x.contributors), Source(u.target, u.contributors)];
    assert RowsOf(ss, 0) == [] && Appended([], ss[0], 0) == [];
    assert Appended([], ss[0], 1) == [row];
    assert RowsOf(ss, 1) == [row];
    assert [row][0].evidenceId == e;
    assert HasRow([row], e);
    assert Appended([row], ss[1], 0) == [row];
    assert Appended([row], ss[1], 1) == [row];
    assert ss[0].memory in PlannedIds(plan) && ss[1].memory in PlannedIds(plan);
  }

  lemma SharedWritten(g: Graph, u: Update, x: Creation, i: nat, j: nat, e: EvidenceId)
    requires u.contributors == [Contributor(i, e)] && x.contributors == [Contributor(j, e)]
    requires x.kind.Fresh? && x.memoryId !in g.memories && u.target in g.memories
    ensures Written(g, Plan([u], [], [x]))
         == Graph(g.memories[x.memoryId := MemoryOf(x)][u.target := Updated(g.memories[u.target], u)],
                  g.evidence[e := Supports(g.evidence, e) + {x.memoryId}], g.supersedes, g.conflicts)
  {
    var plan := Plan([u], [], [x]);
    SharedRows(u, x, i, j, e);
    assert plan.Creations() == [x];
    assert CreatedUpTo(g.memories, [x], 0) == g.memories;
    assert CreatedUpTo(g.memories, [x], 1) == g.memories[x.memoryId := MemoryOf(x)];
    var created := CreatedUpTo(g.memories, [x], 1);
    assert UpdatedUpTo(created, [u], 0) == created;
    assert UpdatedUpTo(created, [u], 1) == created[u.target := Updated(created[u.target], u)];
    var ms := MemoriesAfter(g, plan);
    assert EdgesUpTo(g.supersedes, ms, [x], 1, true) == g.supersedes;
    assert EdgesUpTo(g.conflicts, ms, [x], 1, false) == g.conflicts;
    SoleEvidence(g.evidence, ms, Row(e, x.memoryId));
  }

  lemma MixedContributors()
    ensures MIXED.updates[0].contributors == [Contributor(0, SHARED)] && MIXED.updates[0].target == 0
    ensures MIXED.keyed[0].contributors == [Contributor(1, SHARED)] && MIXED.keyed[0].memoryId == 1 && MIXED.keyed[0].kind.Fresh?
    ensures MemoryOf(MIXED.keyed[0]).facts == OLD && MemoryOf(MIXED.keyed[0]).status.Active?
    ensures MIXED.updates[0].action.Merge?
  {
    assert Representative([AgainInput(1)], 1) == AgainInput(1);
  }

  /** The evidence is on the new memory only. */
  lemma MixedWritten()
    ensures var g := Written(G1, MIXED);
            && g.evidence == G1.evidence[SHARED := {1}] && g.supersedes == g.conflicts == {}
            && g.memories.Keys == {0, 1}
            && (forall m :: m in g.memories ==> g.memories[m].facts == OLD && g.memories[m].status.Active?)
    ensures PlannedIds(MIXED) == {0, 1}
  {
    MixedContributors();
    FirstMemory();
    SharedOnFirst(G1, MIXED.updates[0], MIXED.keyed[0]);
  }

  lemma SharedOnFirst(g: Graph, u: Update, x: Creation)
    requires u.contributors == [Contributor(0, SHARED)] && u.target == 0 && u.action.Merge?
    requires x.contributors == [Contributor(1, SHARED)] && x.memoryId == 1 && x.kind.Fresh?
    requires MemoryOf(x).facts == OLD && MemoryOf(x).status.Active?
    requires g.memories.Keys == {0} && g.memories[0].facts == OLD && g.memories[0].status.Active? && SHARED !in g.evidence
    ensures var h := Written(g, Plan([u], [], [x]));
            && h.evidence == g.evidence[SHARED := {1}] && h.supersedes == g.supersedes && h.conflicts == g.conflicts
            && h.memories.Keys == {0, 1}
            && (forall m :: m in h.memories ==> h.memories[m].facts == OLD && h.memories[m].status.Active?)
    ensures PlannedIds(Plan([u], [], [x])) == {0, 1}
  {
    SharedRows(u, x, 0, 1, SHARED);
    SharedWritten(g, u, x, 0, 1, SHARED);
    assert Supports(g.evidence, SHARED) + {x.memoryId} == {1};
  }

  lemma FirstMemory()
    ensures G1.memories.Keys == {0} && G1.memories[0].facts == OLD && G1.memories[0].status.Active?
    ensures G1.evidence.Keys == {EvidenceId("x", 0)} && G1.supersedes == G1.conflicts == {}
  {
    assert Representative([InputOf("x", false, FIRST, Meeting([], None))], 1) == InputOf("x", false, FIRST, Meeting([], None));
  }

  /** The replay plans nothing: the shared evidence id is in the graph. */
  lemma AgainPlansNothing()
    ensures ComesOut("a", Written(G1, MIXED), 2, NOTHING)
  {
    MixedWritten();
    TwoRecalled(Written(G1, MIXED));
  }

  lemma TwoRecalled(g: Graph)
    requires g.memories.Keys == {0, 1} && forall m :: m in g.memories ==> g.memories[m].facts == OLD && g.memories[m].status.Active?
    requires Processed(g, SHARED)
    ensures ComesOut("a", g, 2, NOTHING)
  {
    var ss := [Snapshot(0, g.memories[0].confidence), Snapshot(1, g.memories[1].confidence)];
    var ms := [Meeting(ss, None), Meeting(ss, None)];
    assert ss[0].memoryId == 0 && ss[1].memoryId == 1;
    assert IsRecall(g, AGAIN[0], ss) && IsRecall(g, AGAIN[1], ss);
    assert Possible(g, AGAIN, ms);
    ProcessedArchivePlansNothing("a", g, AGAIN, ms, 2);
  }

  lemma MixedLeftBehind()
    ensures Supported(Written(G1, MIXED), "a") == {1} && Synced(Written(G1, MIXED), "a", NOTHING, {}) == {1}
  {
    MixedWritten();
    NothingIsPlanned();
    FirstMemory();
    SupportedIsOne(Written(G1, MIXED));
  }

  lemma SupportedIsOne(g: Graph)
    requires g.evidence.Keys == {EvidenceId("x", 0), SHARED} && g.evidence[SHARED] == {1} && g.supersedes == g.conflicts == {}
    ensures Supported(g, "a") == {1} && Related(g, {1}) == {} && EntityLinked(g, {}) == {}
  {
    assert 1 in g.evidence[SHARED] && "x" != "a";
    assert forall m :: m in Supported(g, "a") ==> m == 1;
    assert forall m :: m !in Related(g, {1});
    assert SHARED in g.evidence && SHARED.archive == "a" && 1 in g.evidence[SHARED];
    assert 1 in Supported(g, "a");
    assert Supported(g, "a") == {1};
    assert Related(g, {1}) == {};
    assert EntityLinked(g, {}) == {};
  }

  /** With a repeated evidence id even an empty replay can leave the index behind: memory 0
      was updated on evidence whose only row is on memory 1. */
  lemma RepeatedEvidenceLeavesIndexBehind() returns (states: seq<State>, steps: seq<Step>)
    ensures ReconcilingRun(states, steps) && |steps| == 6 && |states[6].applied| == 2 && states[6].applied[1] == Applied("a", MIXED, 1)
    ensures ComesOut("a", states[6].graph, states[6].nextId, NOTHING)
    ensures PlannedIds(MIXED) == {0, 1} && Synced(states[6].graph, "a", NOTHING, {}) == {1}
  {
    states, steps := RunOfFirst();
    MixedComesOut();
    ComesOutFresh("a", G1, 1, MIXED);
    var finished;
    states, steps, finished := AttemptRun(states, steps, BEFORE, 2, "a", MIXED);
    MixedWritten();
    AgainPlansNothing();
    MixedLeftBehind();
  }

  // ----- an archive that the model skips -----

  /** The model skips the only candidate: the attempt aborts, and as it changes nothing, so
      does every attempt after it that is answered the same. */
  lemma SkippedArchiveAborts() returns (states: seq<State>, steps: seq<Step>)
    ensures ReconcilingRun(states, steps) && |steps| == 3
    ensures ComesOut("s", states[3].graph, states[3].nextId, NOTHING) && Written(states[3].graph, NOTHING) == states[3].graph
    ensures RepairedSeeds(states[3].graph, "s", NOTHING, true).None?
  {
    states, steps := RunOfFirst();
    var views, ms := [FIRST], [Meeting(MergeMeeting(G1).recalled, Some(Answer(Skip, None, None)))];
    assert IsRecall(G1, FIRST, ms[0].recalled) by {
      assert ms[0].recalled[0].memoryId == 0;
    }
    assert Possible(G1, views, ms) && AnsweredAt("s", G1, views, ms, 0);
    var cs := Inputs("s", G1, views, ms);
    assert !Aggregates(cs[0]);
    NothingAggregates(cs, 1);
    NothingIsPlanned();
    assert Sources(NOTHING) == [] && Rows(NOTHING) == [];
    assert Supported(G1, "s") == {};
  }
}
