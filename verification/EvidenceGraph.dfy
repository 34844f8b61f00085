/** The memory graph and the one transaction that writes a plan into it
    (`GraphWriteRepository.write`), behind the gate of `GraphWriteService.write`. */
module EvidenceGraph {
  import opened Options
  import opened ReconciliationPlan
  import opened ReconciliationLaws
  import opened EvidenceRows

  datatype Status = Active | Conflicted | Superseded

  datatype Memory = Memory(
    facts: Facts, status: Status, content: string, confidence: int, importance: int,
    latestSourceTime: int, version: nat)

  /** Memory nodes; for each evidence node the memories it supports; and the
      SUPERSEDES and CONFLICTS_WITH edges, from the new memory to the old one. */
  datatype Graph = Graph(
    memories: map<nat, Memory>, evidence: map<EvidenceId, set<nat>>,
    supersedes: set<(nat, nat)>, conflicts: set<(nat, nat)>)

  const EMPTY := Graph(map[], map[], {}, {})

  /** `find_processed_evidence_ids`: the evidence node exists and supports a memory. */
  predicate Processed(g: Graph, e: EvidenceId) { e in g.evidence && g.evidence[e] != {} }

  // ----- the rows of the transaction -----

  /** Event fields are kept for events only (`_event_fields`). */
  function StoredFacts(f: Facts): Facts {
    if f.memoryType.Event? then f else f.(eventStatus := None, startTime := None, endTime := None, timeText := None)
  }

  function MemoryOf(x: Creation): Memory {
    Memory(StoredFacts(x.facts), if x.kind.ConflictingWith? then Conflicted else Active,
           x.content, x.confidence, x.importance, x.latestSourceTime, 1)
  }

  function Updated(m: Memory, u: Update): Memory {
    m.(content := if u.mergedContent.Some? then u.mergedContent.value else m.content,
       confidence := if u.mergedConfidence.Some? then u.mergedConfidence.value else m.confidence,
       latestSourceTime := u.latestSourceTime,
       status := match u.action case Supersede => Superseded case Conflict => Conflicted case _ => m.status,
       version := m.version + 1)
  }

  function CreatedUpTo(ms: map<nat, Memory>, xs: seq<Creation>, n: nat): map<nat, Memory>
    requires n <= |xs|
  {
    if n == 0 then ms
    else
      var before, x := CreatedUpTo(ms, xs, n - 1), xs[n - 1];
      if x.memoryId in before then before else before[x.memoryId := MemoryOf(x)]
  }

  function UpdatedUpTo(ms: map<nat, Memory>, us: seq<Update>, n: nat): map<nat, Memory>
    requires n <= |us|
  {
    if n == 0 then ms
    else
      var before, u := UpdatedUpTo(ms, us, n - 1), us[n - 1];
      if u.target in before then before[u.target := Updated(before[u.target], u)] else before
  }

  function EdgesUpTo(edges: set<(nat, nat)>, ms: map<nat, Memory>, xs: seq<Creation>, n: nat, superseding: bool): set<(nat, nat)>
    requires n <= |xs|
  {
    if n == 0 then edges
    else
      var before, x := EdgesUpTo(edges, ms, xs, n - 1, superseding), xs[n - 1];
      if (if superseding then x.kind.Superseding? else x.kind.ConflictingWith?) && x.memoryId in ms && x.kind.target in ms
      then before + {(x.memoryId, x.kind.target)}
      else before
  }

  function Supports(ev: map<EvidenceId, set<nat>>, e: EvidenceId): set<nat> {
    if e in ev then ev[e] else {}
  }

  function EvidenceUpTo(ev: map<EvidenceId, set<nat>>, ms: map<nat, Memory>, rows: seq<Row>, n: nat): map<EvidenceId, set<nat>>
    requires n <= |rows|
  {
    if n == 0 then ev
    else
      var before, r := EvidenceUpTo(ev, ms, rows, n - 1), rows[n - 1];
      if r.memory in ms then before[r.evidenceId := Supports(before, r.evidenceId) + {r.memory}] else before
  }

  function MemoriesAfter(g: Graph, plan: Plan): map<nat, Memory> {
    var xs := plan.Creations();
    UpdatedUpTo(CreatedUpTo(g.memories, xs, |xs|), plan.updates, |plan.updates|)
  }

  /** The graph after the transaction has written a plan. */
  function Written(g: Graph, plan: Plan): Graph {
    var xs, ms, rows := plan.Creations(), MemoriesAfter(g, plan), Rows(plan);
    Graph(ms, EvidenceUpTo(g.evidence, ms, rows, |rows|),
          EdgesUpTo(g.supersedes, ms, xs, |xs|, true), EdgesUpTo(g.conflicts, ms, xs, |xs|, false))
  }

  /** The gate: the write is skipped when there is planned evidence and all of it is processed. */
  ghost predicate Skipped(g: Graph, plan: Plan) {
    (exists e :: Plans(plan, e)) && forall e :: Plans(plan, e) ==> Processed(g, e)
  }

  ghost function AfterGate(g: Graph, plan: Plan): Graph {
    if Skipped(g, plan) then g else Written(g, plan)
  }

  /** The stored graph. */
  class GraphStore {
    var memories: map<nat, Memory>
    var evidence: map<EvidenceId, set<nat>>
    var supersedes: set<(nat, nat)>
    var conflicts: set<(nat, nat)>

    function Contents(): Graph reads this { Graph(memories, evidence, supersedes, conflicts) }

    constructor ()
      ensures Contents() == EMPTY
    {
      memories, evidence, supersedes, conflicts := map[], map[], {}, {};
    }

    method FindProcessed(ids: set<EvidenceId>) returns (processed: set<EvidenceId>)
      ensures processed == set e | e in ids && Processed(Contents(), e)
    {
      processed := set e | e in ids && e in evidence && evidence[e] != {};
    }

    /** `GraphWriteRepository.write`: the statements of the transaction, in order. */
    method Write(plan: Plan)
      modifies this
      ensures Contents() == Written(old(Contents()), plan)
    {
      var xs := plan.Creations();
      for n := 0 to |xs|
        invariant memories == CreatedUpTo(old(memories), xs, n)
        invariant evidence == old(evidence) && supersedes == old(supersedes) && conflicts == old(conflicts)
      {
        var x := xs[n];
        if x.memoryId !in memories {
          var facts := x.facts;
          if !facts.memoryType.Event? {
            facts := facts.(eventStatus := None, startTime := None, endTime := None, timeText := None);
          }
          var status := if x.kind.ConflictingWith? then Conflicted else Active;
          memories := memories[x.memoryId := Memory(facts, status, x.content, x.confidence, x.importance, x.latestSourceTime, 1)];
        }
      }
      ghost var created := memories;
      for n := 0 to |plan.updates|
        invariant memories == UpdatedUpTo(created, plan.updates, n)
        invariant evidence == old(evidence) && supersedes == old(supersedes) && conflicts == old(conflicts)
      {
        var u := plan.updates[n];
        if u.target in memories {
          var m := memories[u.target];
          if u.mergedContent.Some? {
            m := m.(content := u.mergedContent.value);
          }
          if u.mergedConfidence.Some? {
            m := m.(confidence := u.mergedConfidence.value);
          }
          if u.action.Supersede? {
            m := m.(status := Superseded);
          } else if u.action.Conflict? {
            m := m.(status := Conflicted);
          }
          memories := memories[u.target := m.(latestSourceTime := u.latestSourceTime, version := m.version + 1)];
        }
      }
      WriteEdges(xs);
      WriteEvidence(plan);
    }

    method WriteEdges(xs: seq<Creation>)
      modifies this`supersedes, this`conflicts
      ensures supersedes == EdgesUpTo(old(supersedes), memories, xs, |xs|, true)
      ensures conflicts == EdgesUpTo(old(conflicts), memories, xs, |xs|, false)
    {
      for n := 0 to |xs|
        invariant supersedes == EdgesUpTo(old(supersedes), memories, xs, n, true)
        invariant conflicts == EdgesUpTo(old(conflicts), memories, xs, n, false)
      {
        var x := xs[n];
        if !x.kind.Fresh? && x.memoryId in memories && x.kind.target in memories {
          if x.kind.Superseding? {
            supersedes := supersedes + {(x.memoryId, x.kind.target)};
          } else {
            conflicts := conflicts + {(x.memoryId, x.kind.target)};
          }
        }
      }
    }

    method WriteEvidence(plan: Plan)
      modifies this`evidence
      ensures evidence == EvidenceUpTo(old(evidence), memories, Rows(plan), |Rows(plan)|)
    {
      var rows := BuildEvidenceRows(plan);
      for n := 0 to |rows|
        invariant evidence == EvidenceUpTo(old(evidence), memories, rows, n)
      {
        var r := rows[n];
        if r.memory in memories {
          evidence := evidence[r.evidenceId := Supports(evidence, r.evidenceId) + {r.memory}];
        }
      }
    }

    /** `GraphWriteService.write`: returns whether the write was skipped. */
    method WriteBehindGate(plan: Plan) returns (skipped: bool)
      modifies this
      ensures skipped <==> Skipped(old(Contents()), plan)
      ensures Contents() == AfterGate(old(Contents()), plan)
    {
      skipped := AllProcessed(plan);
      if !skipped {
        Write(plan);
      }
    }

    method AllProcessed(plan: Plan) returns (all: bool)
      ensures all <==> Skipped(Contents(), plan)
    {
      var planned := CollectPlannedEvidenceIds(plan);
      var processed := FindProcessed(planned);
      CountingIsEnough(Contents(), plan, planned, processed);
      all := planned != {} && |processed| == |planned|;
    }
  }

  /** Comparing the two counts decides the gate. */
  lemma CountingIsEnough(g: Graph, plan: Plan, planned: set<EvidenceId>, processed: set<EvidenceId>)
    requires forall e :: e in planned <==> Plans(plan, e)
    requires forall e :: e in processed <==> e in planned && Processed(g, e)
    ensures planned != {} && |processed| == |planned| <==> Skipped(g, plan)
  {
    if |processed| == |planned| {
      SubsetOfSameSize(processed, planned);
    }
    if Skipped(g, plan) {
      assert forall e :: e in planned ==> e in processed;
      assert processed == planned;
    }
  }

  lemma SubsetOfSameSize(a: set<EvidenceId>, b: set<EvidenceId>)
    requires a <= b && |a| == |b|
    ensures a == b
  {
    if a != b {
      var x :| x in b && x !in a;
      assert a <= b - {x};
      SubsetSize(a, b - {x});
    }
  }

  lemma {:induction false} SubsetSize(a: set<EvidenceId>, b: set<EvidenceId>)
    requires a <= b
    ensures |a| <= |b|
  {
    if x :| x in a {
      SubsetSize(a - {x}, b - {x});
    }
  }

  method CollectPlannedEvidenceIds(plan: Plan) returns (ids: set<EvidenceId>)
    ensures forall e :: e in ids <==> Plans(plan, e)
  {
    ids := {};
    var ss := Sources(plan);
    for i := 0 to |ss|
      invariant forall e :: e in ids <==> exists j :: 0 <= j < i && Mentions(ss[j], e)
    {
      ids := ids + set k | 0 <= k < |ss[i].contributors| :: ss[i].contributors[k].evidenceId;
    }
  }
}
