/** What writing one plan changes in the graph, and what it leaves alone. */
module GraphWriteLaws {
  import opened Options
  import opened ReconciliationPlan
  import opened ReconciliationLaws
  import opened EvidenceRows
  import opened EvidenceGraph

  predicate Targeted(us: seq<Update>, n: nat, m: nat)
    requires n <= |us|
  {
    exists i :: 0 <= i < n && us[i].target == m
  }

  /** The plan was made for this graph: its new ids are unused and its targets exist. */
  ghost predicate Fits(g: Graph, plan: Plan, firstId: nat) {
    && WellLinked(plan, firstId)
    && (forall m :: m in g.memories ==> m < firstId || firstId + |plan.Creations()| <= m)
    && (forall i :: 0 <= i < |plan.updates| ==> plan.updates[i].target in g.memories)
    && (forall i :: 0 <= i < |Sources(plan)| ==> Sources(plan)[i].contributors != [])
  }

  lemma CreationIds(plan: Plan, firstId: nat)
    requires WellLinked(plan, firstId)
    ensures forall k :: 0 <= k < |plan.Creations()| ==> plan.Creations()[k].memoryId == firstId + k
  {
  }

  lemma {:induction false} CreatedIs(ms: map<nat, Memory>, xs: seq<Creation>, n: nat, firstId: nat)
    requires n <= |xs| && forall m :: m in ms ==> m < firstId || firstId + |xs| <= m
    requires forall k :: 0 <= k < |xs| ==> xs[k].memoryId == firstId + k
    ensures forall m :: m in CreatedUpTo(ms, xs, n) <==> m in ms || firstId <= m < firstId + n
    ensures forall m :: m in ms ==> CreatedUpTo(ms, xs, n)[m] == ms[m]
    ensures forall k :: 0 <= k < n ==> CreatedUpTo(ms, xs, n)[firstId + k] == MemoryOf(xs[k])
  {
    if n > 0 {
      CreatedIs(ms, xs, n - 1, firstId);
    }
  }

  lemma {:induction false} UpdatedIs(ms: map<nat, Memory>, us: seq<Update>, n: nat, m: nat)
    requires n <= |us| && m in ms && forall i, j :: 0 <= i < j < |us| ==> us[i].target != us[j].target
    ensures m in UpdatedUpTo(ms, us, n)
    ensures !Targeted(us, n, m) ==> UpdatedUpTo(ms, us, n)[m] == ms[m]
    ensures forall i :: 0 <= i < n && us[i].target == m ==> UpdatedUpTo(ms, us, n)[m] == Updated(ms[m], us[i])
  {
    if n > 0 {
      UpdatedIs(ms, us, n - 1, m);
      if Targeted(us, n - 1, m) {
        assert Targeted(us, n, m);
      }
    }
  }

  lemma {:induction false} UpdatedKeys(ms: map<nat, Memory>, us: seq<Update>, n: nat)
    requires n <= |us|
    ensures UpdatedUpTo(ms, us, n).Keys == ms.Keys
  {
    if n > 0 {
      UpdatedKeys(ms, us, n - 1);
    }
  }

  lemma {:induction false} EvidenceIs(ev: map<EvidenceId, set<nat>>, ms: map<nat, Memory>, rows: seq<Row>, n: nat)
    requires n <= |rows| && OneRowEach(rows) && forall k :: 0 <= k < |rows| ==> rows[k].memory in ms
    ensures forall k :: 0 <= k < n ==>
              Supports(EvidenceUpTo(ev, ms, rows, n), rows[k].evidenceId) == Supports(ev, rows[k].evidenceId) + {rows[k].memory}
    ensures forall e :: (forall k :: 0 <= k < n ==> rows[k].evidenceId != e) ==>
              Supports(EvidenceUpTo(ev, ms, rows, n), e) == Supports(ev, e)
  {
    if n > 0 {
      EvidenceIs(ev, ms, rows, n - 1);
    }
  }

  lemma {:induction false} EdgesAre(edges: set<(nat, nat)>, ms: map<nat, Memory>, xs: seq<Creation>, n: nat, superseding: bool)
    requires n <= |xs|
    ensures edges <= EdgesUpTo(edges, ms, xs, n, superseding)
    ensures forall k :: 0 <= k < n && !xs[k].kind.Fresh? && (superseding <==> xs[k].kind.Superseding?)
              && xs[k].memoryId in ms && xs[k].kind.target in ms
              ==> (xs[k].memoryId, xs[k].kind.target) in EdgesUpTo(edges, ms, xs, n, superseding)
  {
    if n > 0 {
      EdgesAre(edges, ms, xs, n - 1, superseding);
    }
  }

  lemma MemoryIds(g: Graph, plan: Plan, firstId: nat)
    requires Fits(g, plan, firstId)
    ensures forall m :: m in Written(g, plan).memories <==> m in g.memories || firstId <= m < firstId + |plan.Creations()|
  {
    var xs := plan.Creations();
    CreationIds(plan, firstId);
    CreatedIs(g.memories, xs, |xs|, firstId);
    UpdatedKeys(CreatedUpTo(g.memories, xs, |xs|), plan.updates, |plan.updates|);
    assert Written(g, plan).memories.Keys == CreatedUpTo(g.memories, xs, |xs|).Keys;
  }

  /** An old memory changes only as an update's target, and then its version grows by one. */
  lemma OldMemoryWritten(g: Graph, plan: Plan, firstId: nat, m: nat)
    requires Fits(g, plan, firstId) && m in g.memories
    ensures m in Written(g, plan).memories
    ensures !Targeted(plan.updates, |plan.updates|, m) ==> Written(g, plan).memories[m] == g.memories[m]
    ensures forall i :: 0 <= i < |plan.updates| && plan.updates[i].target == m ==>
              Written(g, plan).memories[m] == Updated(g.memories[m], plan.updates[i])
  {
    var xs, us := plan.Creations(), plan.updates;
    CreationIds(plan, firstId);
    CreatedIs(g.memories, xs, |xs|, firstId);
    UpdatedIs(CreatedUpTo(g.memories, xs, |xs|), us, |us|, m);
  }

  /** A new memory is as planned, at version 1. */
  lemma NewMemoryWritten(g: Graph, plan: Plan, firstId: nat, k: nat)
    requires Fits(g, plan, firstId) && k < |plan.Creations()|
    ensures firstId + k in Written(g, plan).memories && Written(g, plan).memories[firstId + k] == MemoryOf(plan.Creations()[k])
  {
    var xs, us := plan.Creations(), plan.updates;
    CreationIds(plan, firstId);
    CreatedIs(g.memories, xs, |xs|, firstId);
    UpdatedIs(CreatedUpTo(g.memories, xs, |xs|), us, |us|, firstId + k);
  }

  /** What a target is after the write, field by field. A superseding update supersedes it, a
      conflicting one marks it conflicted, any other leaves its status; text and confidence
      are replaced if the plan has new ones; time is the planned one; the rest stays. */
  lemma TargetWritten(g: Graph, plan: Plan, firstId: nat, i: nat)
    requires Fits(g, plan, firstId) && i < |plan.updates|
    ensures plan.updates[i].target in Written(g, plan).memories
    ensures var u, m := plan.updates[i], g.memories[plan.updates[i].target];
            var after := Written(g, plan).memories[u.target];
            && (after.status.Superseded? <==> u.action.Supersede? || (m.status.Superseded? && !u.action.Conflict?))
            && (after.status.Conflicted? <==> u.action.Conflict? || (m.status.Conflicted? && !u.action.Supersede?))
            && (u.mergedContent.Some? ==> after.content == u.mergedContent.value)
            && (u.mergedContent.None? ==> after.content == m.content)
            && (u.mergedConfidence.Some? ==> after.confidence == u.mergedConfidence.value)
            && (u.mergedConfidence.None? ==> after.confidence == m.confidence)
            && after.latestSourceTime == u.latestSourceTime && after.version == m.version + 1
            && after.facts == m.facts && after.importance == m.importance
  {
    OldMemoryWritten(g, plan, firstId, plan.updates[i].target);
  }

  /** Every other memory of the graph stays as it is. */
  lemma OthersStay(g: Graph, plan: Plan, firstId: nat, m: nat)
    requires Fits(g, plan, firstId) && m in g.memories && forall i :: 0 <= i < |plan.updates| ==> plan.updates[i].target != m
    ensures m in Written(g, plan).memories && Written(g, plan).memories[m] == g.memories[m]
  {
    OldMemoryWritten(g, plan, firstId, m);
  }

  /** A new memory, field by field: conflicted if it is about a conflict, otherwise active;
      what it says about an event is kept for events only. */
  lemma NewMemoryHas(g: Graph, plan: Plan, firstId: nat, k: nat)
    requires Fits(g, plan, firstId) && k < |plan.Creations()|
    ensures firstId + k in Written(g, plan).memories
    ensures var x, m := plan.Creations()[k], Written(g, plan).memories[firstId + k];
            && (m.status.Conflicted? <==> x.kind.ConflictingWith?) && !m.status.Superseded?
            && m.content == x.content && m.confidence == x.confidence && m.importance == x.importance
            && m.latestSourceTime == x.latestSourceTime && m.version == 1
            && m.facts.memoryType == x.facts.memoryType && m.facts.subject == x.facts.subject && m.facts.relation == x.facts.relation
            && m.facts.objectEntity == x.facts.objectEntity && m.facts.objectValue == x.facts.objectValue
            && (x.facts.memoryType.Event? ==>
                  && m.facts.eventStatus == x.facts.eventStatus && m.facts.timeText == x.facts.timeText
                  && m.facts.startTime == x.facts.startTime && m.facts.endTime == x.facts.endTime)
            && (!x.facts.memoryType.Event? ==>
                  && m.facts.eventStatus == None && m.facts.timeText == None
                  && m.facts.startTime == None && m.facts.endTime == None)
  {
    NewMemoryWritten(g, plan, firstId, k);
  }
  lemma RowMemoriesExist(g: Graph, plan: Plan, firstId: nat)
    requires Fits(g, plan, firstId)
    ensures forall k :: 0 <= k < |Rows(plan)| ==> Rows(plan)[k].memory in MemoriesAfter(g, plan)
  {
    var ss, ms := Sources(plan), MemoriesAfter(g, plan);
    RowsAre(ss, |ss|);
    forall k | 0 <= k < |Rows(plan)| ensures Rows(plan)[k].memory in ms {
      assert RowIsFirst(ss, |ss|, k);
      var i :| 0 <= i < |ss| && ss[i].memory == Rows(plan)[k].memory;
      SourceMemoryExists(g, plan, firstId, i);
    }
  }

  lemma SourceMemoryExists(g: Graph, plan: Plan, firstId: nat, i: nat)
    requires Fits(g, plan, firstId) && i < |Sources(plan)|
    ensures Sources(plan)[i].memory in MemoriesAfter(g, plan)
  {
    MemoryIds(g, plan, firstId);
    SourceMemory(plan, firstId, i);
  }

  lemma SourceMemory(plan: Plan, firstId: nat, i: nat)
    requires WellLinked(plan, firstId) && i < |Sources(plan)|
    ensures var before := |plan.Creations()|;
            Sources(plan)[i].memory == if i < before then firstId + i else plan.updates[i - before].target
  {
    CreationIds(plan, firstId);
  }

  /** Every planned evidence id gains exactly one supported memory; no other gains any. */
  lemma EvidenceWritten(g: Graph, plan: Plan, firstId: nat, e: EvidenceId)
    requires Fits(g, plan, firstId)
    ensures !Plans(plan, e) ==> Supports(Written(g, plan).evidence, e) == Supports(g.evidence, e)
    ensures Plans(plan, e) ==> exists m :: Supports(Written(g, plan).evidence, e) == Supports(g.evidence, e) + {m}
    ensures forall k :: 0 <= k < |Rows(plan)| && Rows(plan)[k].evidenceId == e ==>
              Supports(Written(g, plan).evidence, e) == Supports(g.evidence, e) + {Rows(plan)[k].memory}
  {
    var ss, rows := Sources(plan), Rows(plan);
    RowsAre(ss, |ss|);
    RowMemoriesExist(g, plan, firstId);
    EvidenceIs(g.evidence, MemoriesAfter(g, plan), rows, |rows|);
    RowsArePlanned(plan, e);
    if HasRow(rows, e) {
      var k :| 0 <= k < |rows| && rows[k].evidenceId == e;
    }
  }

  lemma RowsArePlanned(plan: Plan, e: EvidenceId)
    ensures Plans(plan, e) <==> HasRow(Rows(plan), e)
  {
    var ss := Sources(plan);
    RowsAre(ss, |ss|);
    if HasRow(Rows(plan), e) {
      var k :| 0 <= k < |Rows(plan)| && Rows(plan)[k].evidenceId == e;
      assert RowIsFirst(ss, |ss|, k);
    }
  }

  /** Evidence of a separated plan is on the memory it settles on. */
  lemma EvidenceSettled(g: Graph, plan: Plan, firstId: nat, i: nat, e: EvidenceId)
    requires Fits(g, plan, firstId) && Separated(plan)
    requires i < |Sources(plan)| && Settles(plan, i) && Mentions(Sources(plan)[i], e)
    ensures Sources(plan)[i].memory in Supports(Written(g, plan).evidence, e)
  {
    EvidencePlacement(plan, i, e);
    EvidenceWritten(g, plan, firstId, e);
  }

  /** A linked memory is connected to the one it supersedes or conflicts with. */
  lemma EdgesWritten(g: Graph, plan: Plan, firstId: nat, k: nat)
    requires Fits(g, plan, firstId) && k < |plan.linked|
    ensures var x := plan.linked[k];
            (x.memoryId, x.kind.target) in (if x.kind.Superseding? then Written(g, plan).supersedes else Written(g, plan).conflicts)
  {
    var xs, ms := plan.Creations(), MemoriesAfter(g, plan);
    var i := UpdateFor(plan, firstId, k);
    assert xs[k] == plan.linked[k];
    MemoryIds(g, plan, firstId);
    EdgesAre(if xs[k].kind.Superseding? then g.supersedes else g.conflicts, ms, xs, |xs|, xs[k].kind.Superseding?);
  }

  lemma {:induction false} EdgesComeFrom(edges: set<(nat, nat)>, ms: map<nat, Memory>, xs: seq<Creation>, n: nat, superseding: bool, a: nat, b: nat)
    requires n <= |xs| && (a, b) in EdgesUpTo(edges, ms, xs, n, superseding) && (a, b) !in edges
    ensures exists k :: 0 <= k < n && xs[k].memoryId == a && xs[k].kind == if superseding then Superseding(b) else ConflictingWith(b)
  {
    if (a, b) in EdgesUpTo(edges, ms, xs, n - 1, superseding) {
      EdgesComeFrom(edges, ms, xs, n - 1, superseding, a, b);
    }
  }

  /** The edges after the write are those before it and one per linked memory, from the new
      memory to the old one, of the kind of the link. */
  lemma EdgesWrittenExactly(g: Graph, plan: Plan, firstId: nat, a: nat, b: nat)
    requires Fits(g, plan, firstId)
    ensures (a, b) in Written(g, plan).supersedes <==>
            (a, b) in g.supersedes || exists k :: 0 <= k < |plan.linked| && plan.linked[k].memoryId == a && plan.linked[k].kind == Superseding(b)
    ensures (a, b) in Written(g, plan).conflicts <==>
            (a, b) in g.conflicts || exists k :: 0 <= k < |plan.linked| && plan.linked[k].memoryId == a && plan.linked[k].kind == ConflictingWith(b)
  {
    var xs, ms := plan.Creations(), MemoriesAfter(g, plan);
    EdgesGrow(g, plan);
    forall k | 0 <= k < |plan.linked|
      ensures (plan.linked[k].memoryId, plan.linked[k].kind.target) in
              (if plan.linked[k].kind.Superseding? then Written(g, plan).supersedes else Written(g, plan).conflicts)
    {
      EdgesWritten(g, plan, firstId, k);
    }
    if (a, b) in Written(g, plan).supersedes && (a, b) !in g.supersedes {
      EdgesComeFrom(g.supersedes, ms, xs, |xs|, true, a, b);
      LinkedOnly(plan, firstId, a, Superseding(b));
    }
    if (a, b) in Written(g, plan).conflicts && (a, b) !in g.conflicts {
      EdgesComeFrom(g.conflicts, ms, xs, |xs|, false, a, b);
      LinkedOnly(plan, firstId, a, ConflictingWith(b));
    }
  }

  /** Only a linked memory supersedes or conflicts. */
  lemma LinkedOnly(plan: Plan, firstId: nat, a: nat, kind: Kind)
    requires WellLinked(plan, firstId) && !kind.Fresh?
    requires exists k :: 0 <= k < |plan.Creations()| && plan.Creations()[k].memoryId == a && plan.Creations()[k].kind == kind
    ensures exists k :: 0 <= k < |plan.linked| && plan.linked[k].memoryId == a && plan.linked[k].kind == kind
  {
    var k :| 0 <= k < |plan.Creations()| && plan.Creations()[k].memoryId == a && plan.Creations()[k].kind == kind;
    if k < |plan.linked| {
      assert plan.Creations()[k] == plan.linked[k];
    }
  }

  lemma EdgesGrow(g: Graph, plan: Plan)
    ensures g.supersedes <= Written(g, plan).supersedes && g.conflicts <= Written(g, plan).conflicts
  {
    var xs, ms := plan.Creations(), MemoriesAfter(g, plan);
    EdgesAre(g.supersedes, ms, xs, |xs|, true);
    EdgesAre(g.conflicts, ms, xs, |xs|, false);
  }
}
