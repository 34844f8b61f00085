/** From candidates and graph to a plan (`ReconciliationService.reconcile`), for any memories
    the recall query may find and any answers the validation admits. */
module Reconcile {
  import opened Options
  import opened ReconciliationPlan
  import opened ReconciliationLaws
  import opened EvidenceRows
  import opened EvidenceGraph
  import opened GraphWriteLaws

  /** An aligned candidate; its key is a digest of its aligned facts. */
  datatype View = View(
    index: nat, fingerprint: nat, facts: Facts, content: Text, confidence: real, sourceTime: int, key: string)

  datatype Answer = Answer(action: Action, target: Option<nat>, merged: Option<Text>)

  /** What one candidate meets: the recalled memories, and the answer if the model gave one. */
  datatype Meeting = Meeting(recalled: seq<Snapshot>, answer: Option<Answer>)

  const RECALL_LIMIT := 20

  predicate Matches(m: Memory, v: View) {
    && m.facts.memoryType == v.facts.memoryType && m.facts.subject == v.facts.subject && m.facts.relation == v.facts.relation
    && !m.status.Superseded?
  }

  /** A result of the recall query: distinct matching memories, and all of them if there
      are fewer than the limit. */
  ghost predicate IsRecall(g: Graph, v: View, ss: seq<Snapshot>) {
    && |ss| <= RECALL_LIMIT
    && (forall i, j :: 0 <= i < j < |ss| ==> ss[i].memoryId != ss[j].memoryId)
    && (forall i :: 0 <= i < |ss| ==>
          (ss[i].memoryId in g.memories && Matches(g.memories[ss[i].memoryId], v)
           && ss[i].confidence == g.memories[ss[i].memoryId].confidence))
    && (|ss| < RECALL_LIMIT ==> forall m :: m in g.memories && Matches(g.memories[m], v) ==> exists i :: 0 <= i < |ss| && ss[i].memoryId == m)
  }

  predicate Knows(ss: seq<Snapshot>, t: nat) {
    exists i :: 0 <= i < |ss| && ss[i].memoryId == t
  }

  /** `_validate_llm_output`, as far as it concerns the target. */
  predicate ValidAnswer(a: Answer, ss: seq<Snapshot>) {
    if a.action.Create? || a.action.Skip? then a.target.None? else a.target.Some? && Knows(ss, a.target.value)
  }

  ghost predicate Possible(g: Graph, views: seq<View>, ms: seq<Meeting>) {
    && |ms| == |views|
    && (forall i :: 0 <= i < |views| ==> IsRecall(g, views[i], ms[i].recalled))
    && (forall i :: 0 <= i < |views| && ms[i].answer.Some? ==> ValidAnswer(ms[i].answer.value, ms[i].recalled))
  }

  function EvidenceOf(archive: string, v: View): EvidenceId { EvidenceId(archive, v.fingerprint) }

  /** The planning input for one candidate: skipped if its evidence is in the graph,
      created if nothing is recalled, and otherwise as answered. */
  function InputOf(archive: string, processed: bool, v: View, m: Meeting): Candidate
    requires processed || m.recalled == [] || m.answer.Some?
  {
    var e := EvidenceOf(archive, v);
    if processed then
      Candidate(v.index, v.fingerprint, e, Skip, None, true, None, None, v.facts, v.content, v.confidence, v.sourceTime, [])
    else if m.recalled == [] then
      Candidate(v.index, v.fingerprint, e, Create, None, false, None, Some(v.key), v.facts, v.content, v.confidence, v.sourceTime, [])
    else
      var a := m.answer.value;
      Candidate(v.index, v.fingerprint, e, a.action, a.target, false, a.merged,
                if a.action.Create? then Some(v.key) else None, v.facts, v.content, v.confidence, v.sourceTime, m.recalled)
  }

  predicate AnsweredAt(archive: string, g: Graph, views: seq<View>, ms: seq<Meeting>, i: nat)
    requires i < |views| == |ms|
  {
    Processed(g, EvidenceOf(archive, views[i])) || ms[i].recalled == [] || ms[i].answer.Some?
  }

  predicate AllAnswered(archive: string, g: Graph, views: seq<View>, ms: seq<Meeting>)
    requires |views| == |ms|
  {
    forall i :: 0 <= i < |views| ==> AnsweredAt(archive, g, views, ms, i)
  }

  function InputAt(archive: string, g: Graph, views: seq<View>, ms: seq<Meeting>, i: nat): Candidate
    requires i < |views| == |ms| && AnsweredAt(archive, g, views, ms, i)
  {
    InputOf(archive, Processed(g, EvidenceOf(archive, views[i])), views[i], ms[i])
  }

  function InputsUpTo(archive: string, g: Graph, views: seq<View>, ms: seq<Meeting>, n: nat): (r: seq<Candidate>)
    requires n <= |views| == |ms| && forall i :: 0 <= i < n ==> AnsweredAt(archive, g, views, ms, i)
    ensures |r| == n
    ensures forall i :: 0 <= i < n ==> AnsweredAt(archive, g, views, ms, i) && r[i] == InputAt(archive, g, views, ms, i)
  {
    if n == 0 then []
    else InputsUpTo(archive, g, views, ms, n - 1) + [InputAt(archive, g, views, ms, n - 1)]
  }

  function Inputs(archive: string, g: Graph, views: seq<View>, ms: seq<Meeting>): seq<Candidate>
    requires |views| == |ms| && AllAnswered(archive, g, views, ms)
  {
    InputsUpTo(archive, g, views, ms, |views|)
  }

  /** The plan, or nothing if the model fails or the plan conflicts. */
  function Reconciled(archive: string, g: Graph, views: seq<View>, ms: seq<Meeting>, firstId: nat): Option<Plan>
    requires |views| == |ms|
  {
    if AllAnswered(archive, g, views, ms) && Plannable(Inputs(archive, g, views, ms))
    then Some(PlanOf(Inputs(archive, g, views, ms), firstId))
    else None
  }

  /** `reconcile`: one input per candidate, stopping when the model fails, then the plan. */
  method ReconcileArchive(archive: string, g: Graph, views: seq<View>, ms: seq<Meeting>, firstId: nat) returns (r: Option<Plan>)
    requires |views| == |ms|
    ensures r == Reconciled(archive, g, views, ms, firstId)
  {
    var inputs: seq<Candidate> := [];
    for n := 0 to |views|
      invariant forall i :: 0 <= i < n ==> AnsweredAt(archive, g, views, ms, i)
      invariant inputs == InputsUpTo(archive, g, views, ms, n)
    {
      var processed := Processed(g, EvidenceOf(archive, views[n]));
      if !processed && ms[n].recalled != [] && ms[n].answer.None? {
        assert !AnsweredAt(archive, g, views, ms, n);
        return None;
      }
      var v, e := views[n], EvidenceId(archive, views[n].fingerprint);
      var input := Candidate(v.index, v.fingerprint, e, Skip, None, processed, None, None, v.facts, v.content, v.confidence, v.sourceTime, []);
      if !processed {
        if ms[n].recalled == [] {
          input := input.(action := Create, key := Some(v.key));
        } else {
          var a := ms[n].answer.value;
          input := input.(action := a.action, target := a.target, mergedContent := a.merged, recalled := ms[n].recalled);
          if a.action == Create {
            input := input.(key := Some(v.key));
          }
        }
      }
      inputs := inputs + [input];
    }
    var outcome := BuildReconciliationPlan(inputs, firstId);
    return match outcome case Success(plan) => Some(plan) case PlanConflict => None;
  }

  // ----- what a plan made from the graph is like -----

  /** Every piece of evidence it plans is the archive's own and not processed yet. */
  ghost predicate PlansFresh(archive: string, g: Graph, plan: Plan) {
    forall e :: Plans(plan, e) ==> e.archive == archive && !Processed(g, e)
  }

  ghost predicate TargetsExist(g: Graph, plan: Plan) {
    forall i :: 0 <= i < |plan.updates| ==> plan.updates[i].target in g.memories
  }

  ghost predicate SourcesContribute(plan: Plan) {
    forall i :: 0 <= i < |Sources(plan)| ==> Sources(plan)[i].contributors != []
  }

  lemma InputFacts(archive: string, g: Graph, views: seq<View>, ms: seq<Meeting>, p: nat)
    requires Possible(g, views, ms) && AllAnswered(archive, g, views, ms) && p < |views|
    ensures var c := Inputs(archive, g, views, ms)[p];
            && c.evidenceId == EvidenceOf(archive, views[p])
            && (Aggregates(c) ==> !Processed(g, c.evidenceId))
            && (Aggregates(c) && !c.action.Create? && c.target.Some? ==> c.target.value in g.memories)
  {
    assert AnsweredAt(archive, g, views, ms, p);
    assert IsRecall(g, views[p], ms[p].recalled);
  }

  lemma PlanIsFresh(archive: string, g: Graph, views: seq<View>, ms: seq<Meeting>, firstId: nat)
    requires Possible(g, views, ms) && Reconciled(archive, g, views, ms, firstId).Some?
    ensures PlansFresh(archive, g, Reconciled(archive, g, views, ms, firstId).value)
  {
    var cs := Inputs(archive, g, views, ms);
    var plan := PlanOf(cs, firstId);
    KindsAreProper(cs, firstId);
    forall e | Plans(plan, e) ensures e.archive == archive && !Processed(g, e) {
      var i :| 0 <= i < |Sources(plan)| && Mentions(Sources(plan)[i], e);
      var p := SourceMentions(cs, firstId, i, e);
      InputFacts(archive, g, views, ms, p);
    }
  }

  lemma PlanTargetsExist(archive: string, g: Graph, views: seq<View>, ms: seq<Meeting>, firstId: nat)
    requires Possible(g, views, ms) && Reconciled(archive, g, views, ms, firstId).Some?
    ensures TargetsExist(g, Reconciled(archive, g, views, ms, firstId).value)
  {
    var cs := Inputs(archive, g, views, ms);
    var plan := PlanOf(cs, firstId);
    TargetsAre(cs, |cs|);
    forall i | 0 <= i < |plan.updates| ensures plan.updates[i].target in g.memories {
      UpdateFacts(cs, Targets(cs), firstId, i);
      assert Targets(cs)[i] in Targets(cs);
      var p :| 0 <= p < |cs| && InSlot(cs[p], Existing(Targets(cs)[i]));
      InputFacts(archive, g, views, ms, p);
    }
  }

  lemma PlanSourcesContribute(cs: seq<Candidate>, firstId: nat)
    requires Plannable(cs)
    ensures SourcesContribute(PlanOf(cs, firstId))
  {
    var plan := PlanOf(cs, firstId);
    forall i | 0 <= i < |plan.linked| ensures plan.linked[i].contributors != [] {
      UpdateOfLink(cs, firstId, i);
    }
    forall i | 0 <= i < |plan.keyed| ensures plan.keyed[i].contributors != [] {
      KeyedContribute(cs, firstId, i);
    }
    forall i | 0 <= i < |plan.updates| ensures plan.updates[i].contributors != [] {
      UpdateFacts(cs, Targets(cs), firstId, i);
      assert OkAt(cs, Targets(cs), i);
    }
    SourcesOf(plan);
  }

  lemma SourcesOf(plan: Plan)
    requires forall i :: 0 <= i < |plan.linked| ==> plan.linked[i].contributors != []
    requires forall i :: 0 <= i < |plan.keyed| ==> plan.keyed[i].contributors != []
    requires forall i :: 0 <= i < |plan.updates| ==> plan.updates[i].contributors != []
    ensures SourcesContribute(plan)
  {
  }

  lemma KeyedContribute(cs: seq<Candidate>, firstId: nat, i: nat)
    requires Plannable(cs) && i < |PlanOf(cs, firstId).keyed|
    ensures PlanOf(cs, firstId).keyed[i].contributors != []
  {
    KeysHaveTheirGroups(cs);
    KeyedCreationsAt(cs, Keys(cs), firstId + LinkCount(cs, Targets(cs), |Targets(cs)|), |Keys(cs)|, i);
  }

  /** Distinct fingerprints make the plan separated. */
  lemma PlanIsSeparated(archive: string, g: Graph, views: seq<View>, ms: seq<Meeting>, firstId: nat)
    requires |views| == |ms| && Reconciled(archive, g, views, ms, firstId).Some?
    requires forall i, j :: 0 <= i < j < |views| ==> views[i].fingerprint != views[j].fingerprint
    ensures Separated(Reconciled(archive, g, views, ms, firstId).value)
  {
    var cs := Inputs(archive, g, views, ms);
    forall i, j | 0 <= i < j < |cs| ensures cs[i].evidenceId != cs[j].evidenceId {
      assert AnsweredAt(archive, g, views, ms, i) && AnsweredAt(archive, g, views, ms, j);
    }
    DistinctEvidenceSeparates(cs, firstId);
  }

  lemma PlanIsPlanOf(archive: string, g: Graph, views: seq<View>, ms: seq<Meeting>, firstId: nat)
    requires |views| == |ms| && Reconciled(archive, g, views, ms, firstId).Some?
    ensures WellLinked(Reconciled(archive, g, views, ms, firstId).value, firstId)
    ensures SourcesContribute(Reconciled(archive, g, views, ms, firstId).value)
  {
    PlansAreWellLinked(Inputs(archive, g, views, ms), firstId);
    PlanSourcesContribute(Inputs(archive, g, views, ms), firstId);
  }

  /** With every candidate's evidence in the graph the plan is empty. */
  lemma ProcessedArchivePlansNothing(archive: string, g: Graph, views: seq<View>, ms: seq<Meeting>, firstId: nat)
    requires Possible(g, views, ms)
    requires forall i :: 0 <= i < |views| ==> Processed(g, EvidenceOf(archive, views[i]))
    ensures Reconciled(archive, g, views, ms, firstId) == Some(Plan([], [], []))
  {
    forall i | 0 <= i < |views| ensures AnsweredAt(archive, g, views, ms, i) {
    }
    var cs := Inputs(archive, g, views, ms);
    forall i | 0 <= i < |cs| ensures !Aggregates(cs[i]) {
      InputFacts(archive, g, views, ms, i);
    }
    NothingAggregates(cs, |cs|);
  }

  lemma {:induction false} NothingAggregates(cs: seq<Candidate>, n: nat)
    requires n <= |cs| && forall i :: 0 <= i < |cs| ==> !Aggregates(cs[i])
    ensures TargetsUpTo(cs, n) == [] && KeysUpTo(cs, n) == []
  {
    if n > 0 {
      NothingAggregates(cs, n - 1);
    }
  }
}
