/** Bringing the search index up to date with the graph, also after a crash between the two. */
module IndexSync {
  import opened Options
  import opened ReconciliationPlan
  import opened ReconciliationLaws
  import opened EvidenceRows
  import opened EvidenceGraph
  import opened GraphWriteLaws
  import opened Reconcile
  import ExtractionTask
  import opened Replay
  import opened ReplaySafety
  import opened ReplaySteps

  // ----- what the index must cover -----

  /** The memories a plan creates or updates. */
  function PlannedIds(plan: Plan): set<nat> {
    set i | 0 <= i < |Sources(plan)| :: Sources(plan)[i].memory
  }

  /** The memories that an archive's evidence supports. */
  function Supported(g: Graph, archive: string): set<nat> {
    set e, m | e in g.evidence && e.archive == archive && m in g.evidence[e] :: m
  }

  predicate Neighbours(g: Graph, a: nat, b: nat) {
    (a, b) in g.supersedes || (b, a) in g.supersedes || (a, b) in g.conflicts || (b, a) in g.conflicts
  }

  function Related(g: Graph, seeds: set<nat>): set<nat> {
    set m, x | m in g.memories && x in seeds && Neighbours(g, x, m) :: m
  }

  /** The memories about an aligned entity other than the user. */
  function EntityLinked(g: Graph, entities: set<string>): set<nat> {
    set m | m in g.memories
            && (g.memories[m].facts.subject in entities
                || (g.memories[m].facts.objectEntity.Some? && g.memories[m].facts.objectEntity.value in entities))
  }

  function Expanded(g: Graph, seeds: set<nat>, entities: set<string>): set<nat> {
    seeds + Related(g, seeds) + EntityLinked(g, entities)
  }

  /** The seeds after `_repair_empty_replay_index_sync_set`; nothing means the attempt aborts without a result. */
  function RepairedSeeds(g: Graph, archive: string, plan: Plan, hasMemories: bool): Option<set<nat>> {
    if PlannedIds(plan) != {} || !hasMemories then Some(PlannedIds(plan))
    else if Supported(g, archive) == {} then None
    else Some(Supported(g, archive))
  }

  /** How a sync ends; the task is then completed, failed, or left as it is. */
  datatype SyncOutcome = Completed | AlreadyCompleted | Aborted | Failed

  /** Joined by a SUPERSEDES or CONFLICTS_WITH edge, in either direction. */
  ghost predicate IsJoined(g: Graph, x: nat, m: nat) {
    exists edge :: edge in g.supersedes + g.conflicts && (edge == (x, m) || edge == (m, x))
  }

  /** The memory's subject or its object is the entity. */
  predicate NamesEntity(m: Memory, e: string) { m.facts.subject == e || m.facts.objectEntity == Some(e) }

  /** Nothing asks for this memory to be synced. */
  ghost predicate MayKeep(g: Graph, seeds: set<nat>, entities: set<string>, m: nat) {
    m !in seeds && (m in g.memories ==> (forall x :: x in seeds ==> !IsJoined(g, x, m)) && forall e :: e in entities ==> !NamesEntity(g.memories[m], e))
  }

  /** The search index: each memory as it was last written. */
  class SearchIndex {
    var documents: map<nat, Memory>

    constructor ()
      ensures documents == map[]
    {
      documents := map[];
    }

    /** `RetrievalIndexSyncService.sync` for a task of the given status. Every memory of the expanded set is written as
        it is in the graph, none if one of them is not there; a bulk write that fails may
        have written the memories of `part`. */
    method Sync(g: Graph, seeds: set<nat>, entities: set<string>, task: Option<ExtractionTask.Status>, part: Option<set<nat>>)
      returns (r: SyncOutcome)
      modifies this
      ensures r == match task
                   case None => Aborted
                   case Some(status) =>
                     if status.Completed? then AlreadyCompleted
                     else if !status.Processing? then Aborted
                     else if Expanded(g, seeds, entities) <= g.memories.Keys && (part.None? || Expanded(g, seeds, entities) == {}) then Completed
                     else Failed
      ensures r.Completed? ==> IsWritten(g, old(documents), documents, Expanded(g, seeds, entities))
      // on completion: the seeds, their neighbours, and the memories about an entity are as in the graph
      ensures r.Completed? ==>
                && (forall m :: m in seeds ==> m in g.memories && m in documents && documents[m] == g.memories[m])
                && (forall x, m :: x in seeds && m in g.memories && IsJoined(g, x, m) ==> m in documents && documents[m] == g.memories[m])
                && (forall m, e :: m in g.memories && e in entities && NamesEntity(g.memories[m], e) ==> m in documents && documents[m] == g.memories[m])
                && (forall m :: MayKeep(g, seeds, entities, m) ==>
                      (m in documents <==> m in old(documents)) && (m in documents ==> documents[m] == old(documents)[m]))
      ensures r.Failed? && Expanded(g, seeds, entities) <= g.memories.Keys ==>
                IsWritten(g, old(documents), documents, Expanded(g, seeds, entities) * part.value)
      ensures r.Aborted? || r.AlreadyCompleted? || !(Expanded(g, seeds, entities) <= g.memories.Keys) ==> documents == old(documents)
    {
      if task.None? {
        return Aborted;
      }
      if task.value.Completed? {
        return AlreadyCompleted;
      }
      if !task.value.Processing? {
        return Aborted;
      }
      var related := set x, m | x in seeds && m in g.memories && Neighbours(g, x, m) :: m;
      var linked := set m | m in g.memories && (g.memories[m].facts.subject in entities
                                                || (g.memories[m].facts.objectEntity.Some? && g.memories[m].facts.objectEntity.value in entities));
      var ids := seeds + related + linked;
      assert ids == Expanded(g, seeds, entities);
      ExpandedIs(g, seeds, entities);
      if ids == {} {
        return Completed;
      }
      if !(ids <= g.memories.Keys) {
        return Failed;
      }
      BulkUpsert(g, if part.Some? then ids * part.value else ids);
      r := if part.Some? then Failed else Completed;
    }

    method BulkUpsert(g: Graph, ids: set<nat>)
      requires ids <= g.memories.Keys
      modifies this
      ensures IsWritten(g, old(documents), documents, ids)
    {
      var todo := ids;
      ghost var done: set<nat> := {};
      while todo != {}
        invariant todo <= ids && done == ids - todo
        invariant IsWritten(g, old(documents), documents, done)
        decreases |todo|
      {
        var m :| m in todo;
        OneMoreWritten(g, old(documents), documents, done, m);
        documents := documents[m := g.memories[m]];
        todo, done := todo - {m}, done + {m};
      }
    }
  }

  /** The documents of `ids` are those of the graph, the others as before. */
  ghost predicate IsWritten(g: Graph, before: map<nat, Memory>, after: map<nat, Memory>, ids: set<nat>) {
    && (forall m :: m in after <==> m in before || m in ids)
    && (forall m :: m in ids ==> m in g.memories && after[m] == g.memories[m])
    && (forall m :: m in before && m !in ids ==> after[m] == before[m])
  }

  lemma OneMoreWritten(g: Graph, before: map<nat, Memory>, after: map<nat, Memory>, ids: set<nat>, m: nat)
    requires IsWritten(g, before, after, ids) && m in g.memories
    ensures IsWritten(g, before, after[m := g.memories[m]], ids + {m})
  {
  }

  // ----- what a written plan leaves in the graph -----

  ghost predicate LinkEdge(g: Graph, x: Creation) {
    !x.kind.Fresh? && (x.memoryId, x.kind.target) in (if x.kind.Superseding? then g.supersedes else g.conflicts)
  }

  ghost predicate SettledAt(g: Graph, plan: Plan, i: nat, e: EvidenceId)
    requires i < |Sources(plan)|
  {
    Settles(plan, i) && Mentions(Sources(plan)[i], e) ==> Sources(plan)[i].memory in Supports(g.evidence, e)
  }

  /** A separated plan can be read back from the graph: evidence and edges are there. */
  ghost predicate Durable(g: Graph, plan: Plan) {
    && (forall i, e :: 0 <= i < |Sources(plan)| ==> SettledAt(g, plan, i, e))
    && (forall k :: 0 <= k < |plan.linked| ==> LinkEdge(g, plan.linked[k]))
  }

  ghost predicate Traced(g: Graph, a: Applied) {
    && WellLinked(a.plan, a.firstId) && SourcesContribute(a.plan)
    && (forall i :: 0 <= i < |Sources(a.plan)| ==> Sources(a.plan)[i].memory in g.memories)
    && (Separated(a.plan) ==> Durable(g, a.plan))
  }

  /** Evidence supports memories that exist. */
  ghost predicate Grounded(g: Graph) {
    forall e :: e in g.evidence ==> g.evidence[e] <= g.memories.Keys
  }

  ghost predicate TraceInv(s: State) {
    Inv(s) && Grounded(s.graph) && AllTraced(s.graph, s.applied)
  }

  ghost predicate AllTraced(g: Graph, applied: seq<Applied>) {
    forall i :: 0 <= i < |applied| ==> Traced(g, applied[i])
  }

  lemma SupportsGrow(g: Graph, plan: Plan, firstId: nat, e: EvidenceId)
    requires Fits(g, plan, firstId)
    ensures Supports(g.evidence, e) <= Supports(Written(g, plan).evidence, e)
  {
    EvidenceWritten(g, plan, firstId, e);
  }

  lemma DurableStays(g: Graph, plan: Plan, firstId: nat, other: Plan)
    requires Fits(g, plan, firstId) && Durable(g, other)
    ensures Durable(Written(g, plan), other)
  {
    EdgesGrow(g, plan);
    forall i, e | 0 <= i < |Sources(other)| ensures SettledAt(Written(g, plan), other, i, e) {
      assert SettledAt(g, other, i, e);
      SupportsGrow(g, plan, firstId, e);
    }
    forall k | 0 <= k < |other.linked| ensures LinkEdge(Written(g, plan), other.linked[k]) {
      assert LinkEdge(g, other.linked[k]);
    }
  }

  lemma DurableWhenWritten(g: Graph, plan: Plan, firstId: nat)
    requires Fits(g, plan, firstId) && Separated(plan)
    ensures Durable(Written(g, plan), plan)
  {
    forall i, e | 0 <= i < |Sources(plan)| ensures SettledAt(Written(g, plan), plan, i, e) {
      if Settles(plan, i) && Mentions(Sources(plan)[i], e) {
        EvidenceSettled(g, plan, firstId, i, e);
      }
    }
    forall k | 0 <= k < |plan.linked| ensures LinkEdge(Written(g, plan), plan.linked[k]) {
      EdgesWritten(g, plan, firstId, k);
      var i := UpdateFor(plan, firstId, k);
    }
  }

  lemma GroundedStays(g: Graph, plan: Plan, firstId: nat)
    requires Fits(g, plan, firstId) && Grounded(g)
    ensures Grounded(Written(g, plan))
  {
    MemoryIds(g, plan, firstId);
    RowMemoriesExist(g, plan, firstId);
    forall e | e in Written(g, plan).evidence ensures Written(g, plan).evidence[e] <= Written(g, plan).memories.Keys {
      NodesGrounded(g.evidence, MemoriesAfter(g, plan), Rows(plan), |Rows(plan)|, e);
    }
  }

  lemma {:induction false} NodesGrounded(ev: map<EvidenceId, set<nat>>, ms: map<nat, Memory>, rows: seq<Row>, n: nat, e: EvidenceId)
    requires n <= |rows| && (e in ev ==> ev[e] <= ms.Keys) && e in EvidenceUpTo(ev, ms, rows, n)
    ensures EvidenceUpTo(ev, ms, rows, n)[e] <= ms.Keys
  {
    if n > 0 && e in EvidenceUpTo(ev, ms, rows, n - 1) {
      NodesGrounded(ev, ms, rows, n - 1, e);
    }
  }

  lemma StoreKeepsTrace(s: State, w: nat, t: State)
    requires TraceInv(s) && w in s.workers && s.workers[w].stage.Planned? && t == StoreStep(s, w)
    ensures TraceInv(t)
  {
    var me := s.workers[w];
    assert WorkerOk(s.graph, s.nextId, me);
    StoreKeeps(s, w);
    GroundedStays(s.graph, me.plan, me.firstId);
    forall i | 0 <= i < |t.applied| ensures Traced(t.graph, t.applied[i]) {
      if i < |s.applied| {
        TracedStays(s.graph, me.plan, me.firstId, s.applied[i]);
      } else {
        TracedWhenWritten(s.graph, t.applied[i]);
      }
    }
  }

  lemma TracedStays(g: Graph, plan: Plan, firstId: nat, a: Applied)
    requires Fits(g, plan, firstId) && Traced(g, a)
    ensures Traced(Written(g, plan), a)
  {
    MemoryIds(g, plan, firstId);
    if Separated(a.plan) {
      DurableStays(g, plan, firstId, a.plan);
    }
  }

  lemma TracedWhenWritten(g: Graph, a: Applied)
    requires Fits(g, a.plan, a.firstId)
    ensures Traced(Written(g, a.plan), a)
  {
    forall i | 0 <= i < |Sources(a.plan)| ensures Sources(a.plan)[i].memory in Written(g, a.plan).memories {
      SourceMemoryExists(g, a.plan, a.firstId, i);
    }
    if Separated(a.plan) {
      DurableWhenWritten(g, a.plan, a.firstId);
    }
  }

  lemma NextKeepsTrace(s: State, a: Step, t: State)
    requires TraceInv(s) && Next(s, a, t)
    ensures TraceInv(t)
  {
    NextKeeps(s, a, t);
    if a.Store? && a.w in s.workers && s.workers[a.w].stage.Planned? {
      StoreKeepsTrace(s, a.w, t);
    }
  }

  lemma {:induction false} RunKeepsTrace(states: seq<State>, steps: seq<Step>, n: nat)
    requires Run(states, steps) && n <= |steps|
    ensures TraceInv(states[n])
  {
    if n > 0 {
      RunKeepsTrace(states, steps, n - 1);
      NextKeepsTrace(states[n - 1], steps[n - 1], states[n]);
    }
  }

  // ----- catching up -----

  lemma SupportedBy(g: Graph, archive: string, plan: Plan, i: nat)
    requires SourcesContribute(plan) && Durable(g, plan) && i < |Sources(plan)| && Settles(plan, i)
    requires forall e :: Plans(plan, e) ==> e.archive == archive
    ensures Sources(plan)[i].memory in Supported(g, archive)
  {
    var e := Sources(plan)[i].contributors[0].evidenceId;
    assert Mentions(Sources(plan)[i], e);
    assert Plans(plan, e) && SettledAt(g, plan, i, e);
  }

  /** An unsettled source is the target of a supersede or conflict; its new memory is. */
  lemma UnsettledHasLink(g: Graph, plan: Plan, firstId: nat, i: nat) returns (k: nat)
    requires WellLinked(plan, firstId) && Durable(g, plan) && i < |Sources(plan)| && !Settles(plan, i)
    ensures k < |plan.linked| && Neighbours(g, plan.linked[k].memoryId, Sources(plan)[i].memory)
  {
    k := LinkFor(plan, firstId, i - |plan.linked| - |plan.keyed|);
    assert LinkEdge(g, plan.linked[k]);
  }

  /** Every memory a separated plan touched is supported by the archive's evidence, or
      next to one that is. A superseded target has no evidence of its own. */
  lemma TouchedIsCovered(g: Graph, a: Applied, i: nat)
    requires Traced(g, a) && Separated(a.plan) && i < |Sources(a.plan)|
    requires forall e :: Plans(a.plan, e) ==> e.archive == a.archive
    ensures Sources(a.plan)[i].memory in Supported(g, a.archive) + Related(g, Supported(g, a.archive))
  {
    if Settles(a.plan, i) {
      SupportedBy(g, a.archive, a.plan, i);
    } else {
      var k := UnsettledHasLink(g, a.plan, a.firstId, i);
      SupportedBy(g, a.archive, a.plan, k);
      RelatedHas(g, Supported(g, a.archive), a.plan.linked[k].memoryId, Sources(a.plan)[i].memory);
    }
  }

  lemma RelatedHas(g: Graph, seeds: set<nat>, x: nat, m: nat)
    requires x in seeds && m in g.memories && Neighbours(g, x, m)
    ensures m in Related(g, seeds)
  {
  }

  lemma SupportedExist(g: Graph, archive: string)
    requires Grounded(g)
    ensures Supported(g, archive) <= g.memories.Keys
  {
  }

  const NOTHING := Plan([], [], [])

  lemma NothingIsPlanned()
    ensures PlannedIds(NOTHING) == {}
  {
  }

  /** Some evidence of the archive supports the memory. */
  ghost predicate HasEvidence(g: Graph, archive: string, m: nat) {
    exists e :: e in g.evidence && e.archive == archive && m in g.evidence[e]
  }

  /** `_repair_empty_replay_index_sync_set`: an empty set is replaced by the memories that the
      archive's evidence supports; nothing if there are none, unless the archive has no
      candidates at all. */
  method RepairSyncSet(g: Graph, archive: string, plan: Plan, hasMemories: bool) returns (r: Option<set<nat>>)
    ensures r == RepairedSeeds(g, archive, plan, hasMemories)
    ensures (exists m :: IsPlanned(plan, m)) || !hasMemories ==> r.Some? && forall m :: m in r.value <==> IsPlanned(plan, m)
    ensures !(exists m :: IsPlanned(plan, m)) && hasMemories ==>
              if exists m :: HasEvidence(g, archive, m) then r.Some? && forall m :: m in r.value <==> HasEvidence(g, archive, m)
              else r == None
  {
    var ids := (set k | 0 <= k < |plan.linked| :: plan.linked[k].memoryId) + (set k | 0 <= k < |plan.keyed| :: plan.keyed[k].memoryId)
               + set i | 0 <= i < |plan.updates| :: plan.updates[i].target;
    forall m ensures m in ids <==> IsPlanned(plan, m) {
    }
    forall m ensures m in PlannedIds(plan) <==> IsPlanned(plan, m) {
      PlannedIdsAre(plan, m);
    }
    assert ids == PlannedIds(plan);
    if ids != {} || !hasMemories {
      assert ids != {} ==> exists m :: m in ids;
      return Some(ids);
    }
    var supported := set e, m | e in g.evidence && e.archive == archive && m in g.evidence[e] :: m;
    assert supported == Supported(g, archive);
    assert forall m :: m in supported <==> HasEvidence(g, archive, m);
    if supported == {} {
      return None;
    }
    ghost var x :| x in supported;
    assert HasEvidence(g, archive, x);
    return Some(supported);
  }

  // ----- plans made from candidates with distinct fingerprints -----

  predicate DistinctViews(views: seq<View>) {
    forall i, j :: 0 <= i < j < |views| ==> views[i].fingerprint != views[j].fingerprint
  }

  ghost predicate DistinctlyComesOut(archive: string, g: Graph, firstId: nat, plan: Plan) {
    exists views, ms :: DistinctViews(views) && Possible(g, views, ms) && Reconciled(archive, g, views, ms, firstId) == Some(plan)
  }

  /** Whenever an attempt of the archive begins, its candidates have distinct fingerprints. */
  ghost predicate DistinctCandidates(states: seq<State>, steps: seq<Step>, archive: string)
    requires |states| == |steps| + 1
  {
    forall k :: 0 <= k < |steps| && steps[k].Begin? && steps[k].archive == archive ==>
      DistinctlyComesOut(archive, states[k].graph, states[k].nextId, steps[k].plan)
  }

  lemma DistinctIsSeparated(archive: string, g: Graph, firstId: nat, plan: Plan)
    requires DistinctlyComesOut(archive, g, firstId, plan)
    ensures Separated(plan)
  {
    var views, ms :| DistinctViews(views) && Possible(g, views, ms) && Reconciled(archive, g, views, ms, firstId) == Some(plan);
    PlanIsSeparated(archive, g, views, ms, firstId);
  }

  ghost predicate AllSeparated(s: State, archive: string) {
    && (forall w :: w in s.workers && s.workers[w].archive == archive ==> Separated(s.workers[w].plan))
    && (forall i :: 0 <= i < |s.applied| && s.applied[i].archive == archive ==> Separated(s.applied[i].plan))
  }

  lemma NextKeepsSeparated(s: State, a: Step, archive: string)
    requires AllSeparated(s, archive) && (a.Begin? && a.archive == archive ==> Separated(a.plan))
    ensures AllSeparated(Apply(s, a), archive)
  {
  }

  lemma {:induction false} RunKeepsSeparated(states: seq<State>, steps: seq<Step>, archive: string, n: nat)
    requires ReconcilingRun(states, steps) && DistinctCandidates(states, steps, archive) && n < |states|
    ensures AllSeparated(states[n], archive)
  {
    if n > 0 {
      var s, a := states[n - 1], steps[n - 1];
      RunKeepsSeparated(states, steps, archive, n - 1);
      assert ReconcilingNext(s, a, states[n]);
      if a.Begin? && a.archive == archive {
        DistinctIsSeparated(archive, s.graph, s.nextId, a.plan);
      }
      NextKeepsSeparated(s, a, archive);
    }
  }

  // ----- what a replay syncs -----

  /** The memories an attempt with this plan syncs; none if it aborts. */
  function Synced(g: Graph, archive: string, plan: Plan, entities: set<string>): set<nat> {
    var seeds := RepairedSeeds(g, archive, plan, true);
    if seeds.None? then {} else Expanded(g, seeds.value, entities)
  }

  /** Planned itself, next to a planned memory, or about an aligned entity. */
  ghost predicate Reached(g: Graph, plan: Plan, entities: set<string>, m: nat) {
    || IsPlanned(plan, m)
    || (exists x :: IsPlanned(plan, x) && IsJoined(g, x, m))
    || (m in g.memories && exists e :: e in entities && NamesEntity(g.memories[m], e))
  }

  /** The plan creates or updates the memory. */
  ghost predicate IsPlanned(plan: Plan, m: nat) {
    || (exists k :: 0 <= k < |plan.linked| && plan.linked[k].memoryId == m)
    || (exists k :: 0 <= k < |plan.keyed| && plan.keyed[k].memoryId == m)
    || (exists i :: 0 <= i < |plan.updates| && plan.updates[i].target == m)
  }

  lemma SourceIsPlanned(plan: Plan, i: nat)
    requires i < |Sources(plan)|
    ensures IsPlanned(plan, Sources(plan)[i].memory)
  {
    var links, before := |plan.linked|, |plan.linked| + |plan.keyed|;
    if i < links {
      assert Sources(plan)[i].memory == plan.linked[i].memoryId;
    } else if i < before {
      var k := i - links;
      assert Sources(plan)[links + k].memory == plan.keyed[k].memoryId;
    } else {
      var k := i - before;
      assert Sources(plan)[before + k].memory == plan.updates[k].target;
    }
  }

  lemma PlannedIsSource(plan: Plan, m: nat) returns (i: nat)
    requires IsPlanned(plan, m)
    ensures i < |Sources(plan)| && Sources(plan)[i].memory == m
  {
    if k :| 0 <= k < |plan.linked| && plan.linked[k].memoryId == m {
      i := k;
    } else if k :| 0 <= k < |plan.keyed| && plan.keyed[k].memoryId == m {
      i := |plan.linked| + k;
    } else {
      var k :| 0 <= k < |plan.updates| && plan.updates[k].target == m;
      i := |plan.linked| + |plan.keyed| + k;
    }
  }

  lemma PlannedIdsAre(plan: Plan, m: nat)
    ensures m in PlannedIds(plan) <==> IsPlanned(plan, m)
  {
    if m in PlannedIds(plan) {
      var i :| 0 <= i < |Sources(plan)| && Sources(plan)[i].memory == m;
      SourceIsPlanned(plan, i);
    }
    if IsPlanned(plan, m) {
      var i := PlannedIsSource(plan, m);
    }
  }

  lemma JoinedAreNeighbours(g: Graph, x: nat, m: nat)
    ensures IsJoined(g, x, m) <==> Neighbours(g, x, m)
  {
    assert (x, m) in g.supersedes + g.conflicts <==> (x, m) in g.supersedes || (x, m) in g.conflicts;
    assert (m, x) in g.supersedes + g.conflicts <==> (m, x) in g.supersedes || (m, x) in g.conflicts;
  }

  lemma ReachedIs(g: Graph, plan: Plan, entities: set<string>, m: nat)
    requires m in g.memories
    ensures Reached(g, plan, entities, m) <==>
            m in PlannedIds(plan) || (exists x :: x in PlannedIds(plan) && Neighbours(g, x, m)) || m in EntityLinked(g, entities)
  {
    PlannedIdsAre(plan, m);
    forall x ensures (IsPlanned(plan, x) <==> x in PlannedIds(plan)) && (IsJoined(g, x, m) <==> Neighbours(g, x, m)) {
      PlannedIdsAre(plan, x);
      JoinedAreNeighbours(g, x, m);
    }
  }

  /** What is in the expanded set, in terms of edges and of the memories' own fields. */
  lemma ExpandedIs(g: Graph, seeds: set<nat>, entities: set<string>)
    ensures forall x, m :: x in seeds && m in g.memories && IsJoined(g, x, m) ==> m in Expanded(g, seeds, entities)
    ensures forall m, e :: m in g.memories && e in entities && NamesEntity(g.memories[m], e) ==> m in Expanded(g, seeds, entities)
    ensures forall m :: m in Expanded(g, seeds, entities) ==> !MayKeep(g, seeds, entities, m)
  {
    forall x, m | x in seeds && m in g.memories ensures IsJoined(g, x, m) <==> Neighbours(g, x, m) {
      JoinedAreNeighbours(g, x, m);
    }
    forall x, m | x in seeds && m in g.memories && IsJoined(g, x, m) ensures m in Related(g, seeds) {
      RelatedHas(g, seeds, x, m);
    }
    forall m | m in EntityLinked(g, entities) ensures exists e :: e in entities && NamesEntity(g.memories[m], e) {
      assert NamesEntity(g.memories[m], g.memories[m].facts.subject);
      assert g.memories[m].facts.objectEntity.Some? ==> NamesEntity(g.memories[m], g.memories[m].facts.objectEntity.value);
    }
  }
  lemma SeparatedIsCovered(s: State, i: nat)
    requires TraceInv(s) && i < |s.applied| && Separated(s.applied[i].plan)
    ensures var a := s.applied[i]; PlannedIds(a.plan) <= Supported(s.graph, a.archive) + Related(s.graph, Supported(s.graph, a.archive))
  {
    var a := s.applied[i];
    assert Traced(s.graph, a) && IsApplied(s.graph, a);
    forall k | 0 <= k < |Sources(a.plan)|
      ensures Sources(a.plan)[k].memory in Supported(s.graph, a.archive) + Related(s.graph, Supported(s.graph, a.archive))
    {
      TouchedIsCovered(s.graph, a, k);
    }
  }

  lemma PlannedExist(s: State, i: nat)
    requires TraceInv(s) && i < |s.applied|
    ensures PlannedIds(s.applied[i].plan) <= s.graph.memories.Keys
  {
    assert Traced(s.graph, s.applied[i]);
  }

  /** Whatever an attempt syncs after its graph write is there to be loaded. */
  lemma SyncedExist(s: State, j: nat, entities: set<string>)
    requires TraceInv(s) && j < |s.applied|
    ensures Synced(s.graph, s.applied[j].archive, s.applied[j].plan, entities) <= s.graph.memories.Keys
  {
    PlannedExist(s, j);
    SupportedExist(s.graph, s.applied[j].archive);
  }

  /** When an archive catches up: at any point of any run, the sync of one attempt covers
      every memory that another attempt of the archive created or updated exactly when it
      planned nothing, or reaches each of them from what it planned. That an attempt that
      plans nothing always catches up needs distinct fingerprints. */
  lemma ReplayCatchesUpExactly(states: seq<State>, steps: seq<Step>, n: nat, i: nat, j: nat, entities: set<string>)
    requires ReconcilingRun(states, steps) && n < |states| && i < |states[n].applied| && j < |states[n].applied|
    requires states[n].applied[i].archive == states[n].applied[j].archive
    requires PlannedIds(states[n].applied[j].plan) == {} ==> DistinctCandidates(states, steps, states[n].applied[i].archive)
    ensures var g, a, b := states[n].graph, states[n].applied[i], states[n].applied[j];
            && Synced(g, b.archive, b.plan, entities) <= g.memories.Keys
            && (PlannedIds(a.plan) <= Synced(g, b.archive, b.plan, entities) <==>
                PlannedIds(b.plan) == {} || forall m :: m in PlannedIds(a.plan) ==> Reached(g, b.plan, entities, m))
  {
    ReconcilingRunIsRun(states, steps);
    RunKeepsTrace(states, steps, n);
    var s := states[n];
    SyncedExist(s, j, entities);
    PlannedExist(s, i);
    if PlannedIds(s.applied[j].plan) == {} {
      RunKeepsSeparated(states, steps, s.applied[i].archive, n);
      SeparatedIsCovered(s, i);
      EmptySyncs(s.graph, s.applied[j].archive, s.applied[j].plan, PlannedIds(s.applied[i].plan), entities);
    } else {
      NonEmptySyncs(s.graph, s.applied[j].archive, s.applied[j].plan, PlannedIds(s.applied[i].plan), entities);
    }
  }

  lemma EmptySyncs(g: Graph, archive: string, plan: Plan, ids: set<nat>, entities: set<string>)
    requires PlannedIds(plan) == {} && ids <= Supported(g, archive) + Related(g, Supported(g, archive))
    ensures ids <= Synced(g, archive, plan, entities)
  {
    if Supported(g, archive) == {} {
      assert Related(g, {}) == {};
    }
  }

  lemma NonEmptySyncs(g: Graph, archive: string, plan: Plan, ids: set<nat>, entities: set<string>)
    requires PlannedIds(plan) != {} && ids <= g.memories.Keys
    ensures ids <= Synced(g, archive, plan, entities) <==> forall m :: m in ids ==> Reached(g, plan, entities, m)
  {
    forall m | m in ids ensures m in Synced(g, archive, plan, entities) <==> Reached(g, plan, entities, m) {
      ReachedIs(g, plan, entities, m);
      if x :| x in PlannedIds(plan) && Neighbours(g, x, m) {
        RelatedHas(g, PlannedIds(plan), x, m);
      }
    }
  }

  /** At any point of a run, an attempt that plans nothing more syncs every memory that the
      archive's earlier plans created or updated, whatever was lost between graph and index. */
  lemma EmptyReplayCatchesUp(states: seq<State>, steps: seq<Step>, n: nat, i: nat, entities: set<string>)
    requires ReconcilingRun(states, steps) && n < |states| && i < |states[n].applied|
    requires DistinctCandidates(states, steps, states[n].applied[i].archive)
    ensures var g, a := states[n].graph, states[n].applied[i];
            PlannedIds(a.plan) <= Synced(g, a.archive, NOTHING, entities) <= g.memories.Keys
  {
    ReconcilingRunIsRun(states, steps);
    RunKeepsTrace(states, steps, n);
    RunKeepsSeparated(states, steps, states[n].applied[i].archive, n);
    var g, a := states[n].graph, states[n].applied[i];
    SeparatedIsCovered(states[n], i);
    NothingIsPlanned();
    SupportedExist(g, a.archive);
    EmptySyncs(g, a.archive, NOTHING, PlannedIds(a.plan), entities);
  }

  ghost predicate NeverApplied(s: State, archive: string) {
    forall i :: 0 <= i < |s.applied| && s.applied[i].archive == archive ==> Sources(s.applied[i].plan) == []
  }

  lemma SupportComesFrom(s: State, archive: string) returns (i: nat)
    requires Inv(s) && Supported(s.graph, archive) != {}
    ensures i < |s.applied| && s.applied[i].archive == archive && Sources(s.applied[i].plan) != []
  {
    var m :| m in Supported(s.graph, archive);
    var e :| e in s.graph.evidence && e.archive == archive && m in s.graph.evidence[e];
    assert Processed(s.graph, e) && ComesFrom(s.applied, e);
    i :| 0 <= i < |s.applied| && Plans(s.applied[i].plan, e);
    assert IsApplied(s.graph, s.applied[i]);
  }

  lemma AppliedIsSupported(s: State, i: nat)
    requires TraceInv(s) && i < |s.applied| && Sources(s.applied[i].plan) != []
    ensures Supported(s.graph, s.applied[i].archive) != {}
  {
    var a := s.applied[i];
    assert Traced(s.graph, a) && IsApplied(s.graph, a);
    var e := Sources(a.plan)[0].contributors[0].evidenceId;
    assert Mentions(Sources(a.plan)[0], e);
    assert Plans(a.plan, e);
    var m :| m in s.graph.evidence[e];
    assert m in Supported(s.graph, a.archive);
  }

  /** An attempt that plans nothing aborts exactly when no plan of the archive with any
      evidence has been applied. An archive whose every candidate the model skips is
      therefore never completed. */
  lemma EmptyPlanAbortsExactly(states: seq<State>, steps: seq<Step>, n: nat, archive: string)
    requires ReconcilingRun(states, steps) && n < |states|
    ensures RepairedSeeds(states[n].graph, archive, NOTHING, true).None? <==> NeverApplied(states[n], archive)
  {
    ReconcilingRunIsRun(states, steps);
    RunKeepsTrace(states, steps, n);
    var s := states[n];
    NothingIsPlanned();
    if !NeverApplied(s, archive) {
      var i :| 0 <= i < |s.applied| && s.applied[i].archive == archive && Sources(s.applied[i].plan) != [];
      AppliedIsSupported(s, i);
    } else if Supported(s.graph, archive) != {} {
      var i := SupportComesFrom(s, archive);
    }
  }
}
