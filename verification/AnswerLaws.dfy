/** What becomes of each candidate of an archive, by what the graph holds and what the model answers. */
module AnswerLaws {
  import opened Options
  import opened ReconciliationPlan
  import opened ReconciliationLaws
  import opened ReconciliationMeaning
  import opened ReconciliationOrder
  import opened EvidenceRows
  import opened EvidenceGraph
  import opened Reconcile

  /** The candidate's evidence supports a memory of the graph. */
  ghost predicate IsKnown(archive: string, g: Graph, v: View) {
    exists m :: EvidenceId(archive, v.fingerprint) in g.evidence && m in g.evidence[EvidenceId(archive, v.fingerprint)]
  }

  /** The model is asked about the candidate: its evidence is not in the graph, and memories
      were recalled for it. */
  ghost predicate IsAsked(archive: string, g: Graph, v: View, m: Meeting) {
    !IsKnown(archive, g, v) && m.recalled != []
  }

  ghost predicate IsNew(archive: string, g: Graph, v: View, m: Meeting) {
    !IsKnown(archive, g, v) && (m.recalled == [] || (m.answer.Some? && m.answer.value.action.Create?))
  }

  /** Its evidence is in the graph, or the model skips it. */
  ghost predicate IsSkipped(archive: string, g: Graph, v: View, m: Meeting) {
    IsKnown(archive, g, v) || (m.recalled != [] && m.answer.Some? && m.answer.value.action.Skip?)
  }

  function Mine(archive: string, v: View): Contributor { Contributor(v.index, EvidenceId(archive, v.fingerprint)) }

  lemma ProcessedIs(archive: string, g: Graph, v: View)
    ensures Processed(g, EvidenceOf(archive, v)) <==> IsKnown(archive, g, v)
  {
    var e := EvidenceId(archive, v.fingerprint);
    if e in g.evidence && g.evidence[e] != {} {
      var x :| x in g.evidence[e];
    }
  }

  /** What the recall finds: at most twenty memories of the candidate's type, subject and
      predicate that are not superseded, as they are in the graph; and all of these if they are
      fewer than twenty. */
  lemma RecallIs(g: Graph, v: View, ss: seq<Snapshot>)
    requires IsRecall(g, v, ss)
    ensures |ss| <= 20
    ensures forall i :: 0 <= i < |ss| ==> ss[i].memoryId in g.memories && IsAlike(g.memories[ss[i].memoryId], v)
                                          && ss[i].confidence == g.memories[ss[i].memoryId].confidence
    ensures |ss| < 20 ==> forall m :: m in g.memories && IsAlike(g.memories[m], v) ==> exists i :: 0 <= i < |ss| && ss[i].memoryId == m
  {
    assert forall m :: m in g.memories ==> (IsAlike(g.memories[m], v) <==> Matches(g.memories[m], v));
  }

  predicate IsAlike(m: Memory, v: View) {
    (m.status == Active || m.status == Conflicted)
    && (m.facts.memoryType, m.facts.subject, m.facts.relation) == (v.facts.memoryType, v.facts.subject, v.facts.relation)
  }

  // ----- candidates about an existing memory -----

  /** The update of a target has every candidate of the target as a contributor. */
  lemma TargetIsUpdated(cs: seq<Candidate>, firstId: nat, p: nat, t: nat) returns (i: nat)
    requires Plannable(cs) && p < |cs| && InSlot(cs[p], Existing(t))
    ensures var us := PlanOf(cs, firstId).updates;
            i < |us| && us[i].target == t && Contributor(cs[p].index, cs[p].evidenceId) in us[i].contributors
  {
    TargetsAre(cs, |cs|);
    assert HasSlot(cs, Existing(t), |cs|);
    i :| 0 <= i < |Targets(cs)| && Targets(cs)[i] == t;
    UpdateFacts(cs, Targets(cs), firstId, i);
    var k := PlaceOf(cs, Existing(t), p);
    assert Contributors(Group(cs, Existing(t)))[k] == Contributor(cs[p].index, cs[p].evidenceId);
  }

  /** An answered merge, supersede or conflict becomes the update of the answered memory, with
      that action, the candidate's evidence, and the answered text for a merge. */
  lemma AnswerIsPlanned(archive: string, g: Graph, views: seq<View>, ms: seq<Meeting>, firstId: nat, plan: Plan, p: nat) returns (i: nat)
    requires Possible(g, views, ms) && Reconciled(archive, g, views, ms, firstId) == Some(plan) && p < |views|
    requires IsAsked(archive, g, views[p], ms[p]) && ms[p].answer.Some?
    requires ms[p].answer.value.action in {Merge, Supersede, Conflict}
    ensures var a := ms[p].answer.value;
            && i < |plan.updates| && a.target == Some(plan.updates[i].target) && plan.updates[i].action == a.action
            && Mine(archive, views[p]) in plan.updates[i].contributors
            && (a.action.Merge? && a.merged.Some? ==> plan.updates[i].mergedContent == Some(a.merged.value.normal))
  {
    var cs, a := Inputs(archive, g, views, ms), ms[p].answer.value;
    ProcessedIs(archive, g, views[p]);
    assert AnsweredAt(archive, g, views, ms, p);
    var t := a.target.value;
    assert InSlot(cs[p], Existing(t));
    i := TargetIsUpdated(cs, firstId, p, t);
    PlannedUpdateIs(cs, firstId, i);
    if a.action.Merge? && a.merged.Some? {
      assert HasText(cs[p], a.merged.value.normal);
      assert GivesText(cs, t, a.merged.value.normal);
    }
  }

  /** An answered supersede or conflict also brings the candidate's own statement along as a
      new memory. */
  lemma AnswerBringsMemory(archive: string, g: Graph, views: seq<View>, ms: seq<Meeting>, firstId: nat, plan: Plan, p: nat) returns (k: nat)
    requires Possible(g, views, ms) && Reconciled(archive, g, views, ms, firstId) == Some(plan) && p < |views|
    requires IsAsked(archive, g, views[p], ms[p]) && ms[p].answer.Some?
    requires ms[p].answer.value.action in {Supersede, Conflict}
    ensures var a, v := ms[p].answer.value, views[p];
            && k < |plan.linked| && a.target.Some?
            && plan.linked[k].kind == (if a.action == Supersede then Superseding(a.target.value) else ConflictingWith(a.target.value))
            && plan.linked[k].content == v.content.raw && plan.linked[k].facts == v.facts
            && plan.linked[k].contributors == [Mine(archive, v)]
  {
    var cs, a := Inputs(archive, g, views, ms), ms[p].answer.value;
    var i := AnswerIsPlanned(archive, g, views, ms, firstId, plan, p);
    UpdatesAndLinks(cs, firstId);
    assert HasCreation(plan.updates[i], plan.linked);
    k :| 0 <= k < |plan.linked| && Linking(plan.updates[i], plan.linked[k]);
    LinkedCreationIs(cs, firstId, k);
    ProcessedIs(archive, g, views[p]);
    assert AnsweredAt(archive, g, views, ms, p);
    assert InSlot(cs[p], Existing(a.target.value));
  }

  // ----- candidates for new memories -----

  lemma KeyIsCreated(cs: seq<Candidate>, firstId: nat, p: nat, key: string) returns (k: nat)
    requires Plannable(cs) && p < |cs| && InSlot(cs[p], Keyed(key))
    ensures var xs := PlanOf(cs, firstId).keyed;
            k < |xs| && xs[k].key == Some(key) && Contributor(cs[p].index, cs[p].evidenceId) in xs[k].contributors
  {
    KeysAre(cs, |cs|);
    KeysHaveTheirGroups(cs);
    assert HasSlot(cs, Keyed(key), |cs|);
    k :| 0 <= k < |Keys(cs)| && Keys(cs)[k] == key;
    KeyedCreationsAt(cs, Keys(cs), firstId + LinkCount(cs, Targets(cs), |Targets(cs)|), |Keys(cs)|, k);
    var l := PlaceOf(cs, Keyed(key), p);
    assert Contributors(Group(cs, Keyed(key)))[l] == Contributor(cs[p].index, cs[p].evidenceId);
  }

  /** A candidate without recalled memories, or one the model wants created, contributes to
      the new memory of its key. */
  lemma NewIsCreated(archive: string, g: Graph, views: seq<View>, ms: seq<Meeting>, firstId: nat, plan: Plan, p: nat) returns (k: nat)
    requires Possible(g, views, ms) && Reconciled(archive, g, views, ms, firstId) == Some(plan) && p < |views|
    requires IsNew(archive, g, views[p], ms[p])
    ensures k < |plan.keyed| && plan.keyed[k].key == Some(views[p].key) && Mine(archive, views[p]) in plan.keyed[k].contributors
  {
    var cs := Inputs(archive, g, views, ms);
    ProcessedIs(archive, g, views[p]);
    assert AnsweredAt(archive, g, views, ms, p);
    assert InSlot(cs[p], Keyed(views[p].key));
    k := KeyIsCreated(cs, firstId, p, views[p].key);
  }

  // ----- candidates that are skipped -----

  /** A skipped candidate's evidence is nowhere in the plan, unless another candidate of the
      archive has the same fingerprint. */
  lemma SkippedIsNotPlanned(archive: string, g: Graph, views: seq<View>, ms: seq<Meeting>, firstId: nat, plan: Plan, p: nat)
    requires Possible(g, views, ms) && Reconciled(archive, g, views, ms, firstId) == Some(plan) && p < |views|
    requires IsSkipped(archive, g, views[p], ms[p])
    requires forall q :: 0 <= q < |views| && q != p ==> views[q].fingerprint != views[p].fingerprint
    ensures !Plans(plan, EvidenceId(archive, views[p].fingerprint))
  {
    var cs, e := Inputs(archive, g, views, ms), EvidenceId(archive, views[p].fingerprint);
    SkippedDoesNotAggregate(archive, g, views, ms, p);
    if Plans(plan, e) {
      var q := PlannedFrom(cs, firstId, e);
      InputHasOwnEvidence(archive, g, views, ms, q);
      assert false;
    }
  }

  lemma SkippedDoesNotAggregate(archive: string, g: Graph, views: seq<View>, ms: seq<Meeting>, p: nat)
    requires |views| == |ms| && AllAnswered(archive, g, views, ms) && p < |views| && IsSkipped(archive, g, views[p], ms[p])
    ensures !Aggregates(Inputs(archive, g, views, ms)[p])
  {
    ProcessedIs(archive, g, views[p]);
    assert AnsweredAt(archive, g, views, ms, p);
  }

  lemma InputHasOwnEvidence(archive: string, g: Graph, views: seq<View>, ms: seq<Meeting>, q: nat)
    requires |views| == |ms| && AllAnswered(archive, g, views, ms) && q < |views|
    ensures Inputs(archive, g, views, ms)[q].evidenceId == EvidenceId(archive, views[q].fingerprint)
  {
    assert AnsweredAt(archive, g, views, ms, q);
  }

  /** Planned evidence is that of a candidate which goes somewhere. */
  lemma PlannedFrom(cs: seq<Candidate>, firstId: nat, e: EvidenceId) returns (q: nat)
    requires Plannable(cs) && Plans(PlanOf(cs, firstId), e)
    ensures q < |cs| && cs[q].evidenceId == e && Aggregates(cs[q])
  {
    var plan := PlanOf(cs, firstId);
    KindsAreProper(cs, firstId);
    var i :| 0 <= i < |Sources(plan)| && Mentions(Sources(plan)[i], e);
    q := SourceMentions(cs, firstId, i, e);
  }
}
