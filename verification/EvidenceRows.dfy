/** Which evidence node a plan writes for which memory (`_build_evidence_rows`,
    `_collect_planned_evidence_ids`). */
module EvidenceRows {
  import opened Options
  import opened ReconciliationPlan
  import opened ReconciliationLaws

  datatype Row = Row(evidenceId: EvidenceId, memory: nat)

  /** One call of `append_rows`: a memory and who contributed to it. */
  datatype Source = Source(memory: nat, contributors: seq<Contributor>)

  /** The calls a plan leads to: the new memories first, then the updated ones. */
  function Sources(plan: Plan): (r: seq<Source>)
    ensures |r| == |plan.linked| + |plan.keyed| + |plan.updates|
    ensures forall i :: 0 <= i < |plan.linked| ==> r[i] == Source(plan.linked[i].memoryId, plan.linked[i].contributors)
    ensures forall i :: 0 <= i < |plan.keyed| ==>
              r[|plan.linked| + i] == Source(plan.keyed[i].memoryId, plan.keyed[i].contributors)
    ensures forall i :: 0 <= i < |plan.updates| ==>
              r[|plan.linked| + |plan.keyed| + i] == Source(plan.updates[i].target, plan.updates[i].contributors)
  {
    var xs := plan.Creations();
    seq(|xs|, i requires 0 <= i < |xs| => Source(xs[i].memoryId, xs[i].contributors))
    + seq(|plan.updates|, i requires 0 <= i < |plan.updates| => Source(plan.updates[i].target, plan.updates[i].contributors))
  }

  predicate Mentions(s: Source, e: EvidenceId) {
    exists k :: 0 <= k < |s.contributors| && s.contributors[k].evidenceId == e
  }

  predicate HasRow(rows: seq<Row>, e: EvidenceId) {
    exists k :: 0 <= k < |rows| && rows[k].evidenceId == e
  }

  /** The evidence ids a plan is about. */
  ghost predicate Plans(plan: Plan, e: EvidenceId) {
    exists i :: 0 <= i < |Sources(plan)| && Mentions(Sources(plan)[i], e)
  }

  /** `rows` extended by the first `n` contributors of `s`, each evidence id only once. */
  function Appended(rows: seq<Row>, s: Source, n: nat): seq<Row>
    requires n <= |s.contributors|
  {
    if n == 0 then rows
    else
      var before, e := Appended(rows, s, n - 1), s.contributors[n - 1].evidenceId;
      if HasRow(before, e) then before else before + [Row(e, s.memory)]
  }

  function RowsOf(ss: seq<Source>, n: nat): seq<Row>
    requires n <= |ss|
  {
    if n == 0 then [] else Appended(RowsOf(ss, n - 1), ss[n - 1], |ss[n - 1].contributors|)
  }

  /** The evidence rows of a plan. */
  function Rows(plan: Plan): seq<Row> { RowsOf(Sources(plan), |Sources(plan)|) }

  /** `_build_evidence_rows`, with its set of ids already seen. */
  method BuildEvidenceRows(plan: Plan) returns (rows: seq<Row>)
    ensures rows == Rows(plan)
  {
    rows := [];
    var seen: set<EvidenceId> := {};
    var sources := Sources(plan);
    for i := 0 to |sources|
      invariant rows == RowsOf(sources, i)
      invariant forall e :: e in seen <==> HasRow(rows, e)
    {
      rows, seen := AppendRows(rows, seen, sources[i]);
    }
  }

  method AppendRows(rows: seq<Row>, seen: set<EvidenceId>, s: Source) returns (rows': seq<Row>, seen': set<EvidenceId>)
    requires forall e :: e in seen <==> HasRow(rows, e)
    ensures rows' == Appended(rows, s, |s.contributors|)
    ensures forall e :: e in seen' <==> HasRow(rows', e)
  {
    rows', seen' := rows, seen;
    for n := 0 to |s.contributors|
      invariant rows' == Appended(rows, s, n)
      invariant forall e :: e in seen' <==> HasRow(rows', e)
    {
      var e := s.contributors[n].evidenceId;
      if e !in seen' {
        ghost var before := rows';
        rows', seen' := rows' + [Row(e, s.memory)], seen' + {e};
        forall x ensures HasRow(rows', x) <==> HasRow(before, x) || x == e {
          HasRowOfAppend(before, Row(e, s.memory), x);
        }
      }
    }
  }

  lemma HasRowOfAppend(rows: seq<Row>, row: Row, e: EvidenceId)
    ensures HasRow(rows + [row], e) <==> HasRow(rows, e) || row.evidenceId == e
  {
    var after := rows + [row];
    assert after[|rows|] == row;
    if k :| 0 <= k < |rows| && rows[k].evidenceId == e {
      assert after[k].evidenceId == e;
    }
  }

  // ----- one row per evidence id, for its first source -----

  /** Memory `m` is that of the first source, among the first `n`, that mentions `e`. */
  ghost predicate FirstFor(ss: seq<Source>, n: nat, e: EvidenceId, m: nat)
    requires n <= |ss|
  {
    exists i :: 0 <= i < n && Mentions(ss[i], e) && ss[i].memory == m && forall j :: 0 <= j < i ==> !Mentions(ss[j], e)
  }

  ghost predicate RowIsFirst(ss: seq<Source>, n: nat, k: nat)
    requires n <= |ss| && k < |RowsOf(ss, n)|
  {
    FirstFor(ss, n, RowsOf(ss, n)[k].evidenceId, RowsOf(ss, n)[k].memory)
  }

  ghost predicate OneRowEach(rows: seq<Row>) {
    forall j, k :: 0 <= j < k < |rows| ==> rows[j].evidenceId != rows[k].evidenceId
  }

  lemma RowKept(rows: seq<Row>, more: seq<Row>, e: EvidenceId)
    requires |rows| <= |more| && rows == more[..|rows|] && HasRow(rows, e)
    ensures HasRow(more, e)
  {
    var k :| 0 <= k < |rows| && rows[k].evidenceId == e;
    assert more[k] == rows[k];
  }

  lemma {:induction false} AppendedIs(rows: seq<Row>, s: Source, n: nat)
    requires n <= |s.contributors| && OneRowEach(rows)
    ensures OneRowEach(Appended(rows, s, n)) && |rows| <= |Appended(rows, s, n)| && rows == Appended(rows, s, n)[..|rows|]
    ensures forall k :: |rows| <= k < |Appended(rows, s, n)| ==>
              var r := Appended(rows, s, n)[k];
              r.memory == s.memory && Mentions(s, r.evidenceId) && !HasRow(rows, r.evidenceId)
    ensures forall k :: 0 <= k < n ==> HasRow(Appended(rows, s, n), s.contributors[k].evidenceId)
  {
    if n > 0 {
      AppendedIs(rows, s, n - 1);
      var before, after := Appended(rows, s, n - 1), Appended(rows, s, n);
      var e := s.contributors[n - 1].evidenceId;
      if HasRow(rows, e) {
        RowKept(rows, before, e);
      }
      if !HasRow(before, e) {
        assert after[|before|] == Row(e, s.memory);
        forall x ensures HasRow(after, x) <==> HasRow(before, x) || x == e {
          HasRowOfAppend(before, Row(e, s.memory), x);
        }
      }
    }
  }

  /** Every planned evidence id gets exactly one row, on the memory of its first source. */
  lemma {:induction false} RowsAre(ss: seq<Source>, n: nat)
    requires n <= |ss|
    ensures OneRowEach(RowsOf(ss, n))
    ensures forall k :: 0 <= k < |RowsOf(ss, n)| ==> RowIsFirst(ss, n, k)
    ensures forall i, e :: 0 <= i < n && Mentions(ss[i], e) ==> HasRow(RowsOf(ss, n), e)
  {
    if n > 0 {
      RowsAre(ss, n - 1);
      var before, after, s := RowsOf(ss, n - 1), RowsOf(ss, n), ss[n - 1];
      AppendedIs(before, s, |s.contributors|);
      forall k | 0 <= k < |after| ensures RowIsFirst(ss, n, k) {
        RowStaysFirst(ss, n, k);
      }
      forall i, e | 0 <= i < n && Mentions(ss[i], e) ensures HasRow(after, e) {
        MentionedHasRow(ss, n, i, e);
      }
    }
  }

  lemma RowStaysFirst(ss: seq<Source>, n: nat, k: nat)
    requires 0 < n <= |ss| && k < |RowsOf(ss, n)|
    requires OneRowEach(RowsOf(ss, n - 1))
    requires k < |RowsOf(ss, n - 1)| ==> RowIsFirst(ss, n - 1, k)
    requires forall i, e :: 0 <= i < n - 1 && Mentions(ss[i], e) ==> HasRow(RowsOf(ss, n - 1), e)
    ensures RowIsFirst(ss, n, k)
  {
    var before, r := RowsOf(ss, n - 1), RowsOf(ss, n)[k];
    AppendedIs(before, ss[n - 1], |ss[n - 1].contributors|);
    if k < |before| {
      assert before[k] == r && RowIsFirst(ss, n - 1, k);
    } else {
      assert Mentions(ss[n - 1], r.evidenceId) && ss[n - 1].memory == r.memory;
    }
  }

  lemma MentionedHasRow(ss: seq<Source>, n: nat, i: nat, e: EvidenceId)
    requires 0 < n <= |ss| && i < n && Mentions(ss[i], e) && OneRowEach(RowsOf(ss, n - 1))
    requires i < n - 1 ==> HasRow(RowsOf(ss, n - 1), e)
    ensures HasRow(RowsOf(ss, n), e)
  {
    var before, after, s := RowsOf(ss, n - 1), RowsOf(ss, n), ss[n - 1];
    AppendedIs(before, s, |s.contributors|);
    if i < n - 1 {
      RowKept(before, after, e);
    }
  }

  // ----- which memory an evidence id ends up on -----

  predicate DistinctEvidence(cs: seq<Candidate>) {
    forall i, j :: 0 <= i < j < |cs| && Aggregates(cs[i]) && Aggregates(cs[j]) ==> cs[i].evidenceId != cs[j].evidenceId
  }

  /** Two sources share an evidence id only as the two halves of a supersede or conflict. */
  ghost predicate Separated(plan: Plan) {
    forall i, j, e :: 0 <= i < j < |Sources(plan)| && Mentions(Sources(plan)[i], e) && Mentions(Sources(plan)[j], e) ==> Halves(plan, i, j)
  }

  predicate Halves(plan: Plan, i: nat, j: nat)
    requires i < j < |Sources(plan)|
  {
    var before := |plan.linked| + |plan.keyed|;
    i < |plan.linked| && before <= j && Linking(plan.updates[j - before], plan.linked[i])
  }

  /** The slot that the i-th source of a plan stands for. */
  function SourceSlot(plan: Plan, i: nat): Slot
    requires i < |Sources(plan)| && ProperKinds(plan)
  {
    var links, keyed := |plan.linked|, |plan.keyed|;
    if i < links then Existing(plan.linked[i].kind.target)
    else if i < links + keyed then Keyed(plan.keyed[i - links].key.value)
    else Existing(plan.updates[i - links - keyed].target)
  }

  predicate ProperKinds(plan: Plan) {
    && (forall i :: 0 <= i < |plan.linked| ==> !plan.linked[i].kind.Fresh?)
    && (forall i :: 0 <= i < |plan.keyed| ==> plan.keyed[i].key.Some? && plan.keyed[i].kind.Fresh?)
  }

  lemma KindsAreProper(cs: seq<Candidate>, firstId: nat)
    requires Plannable(cs)
    ensures ProperKinds(PlanOf(cs, firstId))
  {
    var p := PlanOf(cs, firstId);
    CreationsAreDistinct(cs, firstId);
    forall i | 0 <= i < |p.linked| ensures !p.linked[i].kind.Fresh? {
      UpdateOfLink(cs, firstId, i);
    }
  }

  lemma GroupMentions(cs: seq<Candidate>, s: Slot, memory: nat, e: EvidenceId) returns (p: nat)
    requires Mentions(Source(memory, Contributors(Group(cs, s))), e)
    ensures p < |cs| && InSlot(cs[p], s) && cs[p].evidenceId == e
  {
    var g := Group(cs, s);
    var k :| 0 <= k < |g| && Contributors(g)[k].evidenceId == e;
    GroupMembers(cs, s, |cs|, g[k]);
    assert g[k] in g && cs[..|cs|] == cs;
    p :| 0 <= p < |cs| && cs[p] == g[k];
  }

  /** A source mentions only evidence of candidates in its slot. */
  lemma SourceMentions(cs: seq<Candidate>, firstId: nat, i: nat, e: EvidenceId) returns (p: nat)
    requires Plannable(cs) && i < |Sources(PlanOf(cs, firstId))| && Mentions(Sources(PlanOf(cs, firstId))[i], e)
    requires ProperKinds(PlanOf(cs, firstId))
    ensures p < |cs| && InSlot(cs[p], SourceSlot(PlanOf(cs, firstId), i)) && cs[p].evidenceId == e
  {
    var plan := PlanOf(cs, firstId);
    var links, keyed := |plan.linked|, |plan.keyed|;
    if i < links {
      p := LinkMentions(cs, firstId, i, e);
    } else if i < links + keyed {
      p := KeyedMentions(cs, firstId, i - links, e);
    } else {
      p := UpdateMentions(cs, firstId, i - links - keyed, e);
    }
  }

  lemma LinkMentions(cs: seq<Candidate>, firstId: nat, k: nat, e: EvidenceId) returns (p: nat)
    requires Plannable(cs) && k < |PlanOf(cs, firstId).linked|
    requires Mentions(Source(PlanOf(cs, firstId).linked[k].memoryId, PlanOf(cs, firstId).linked[k].contributors), e)
    ensures !PlanOf(cs, firstId).linked[k].kind.Fresh?
    ensures p < |cs| && InSlot(cs[p], Existing(PlanOf(cs, firstId).linked[k].kind.target)) && cs[p].evidenceId == e
  {
    var ts := Targets(cs);
    var i := LinkedFrom(cs, ts, firstId, |ts|, k);
    UpdateFacts(cs, ts, firstId, i);
    LinkingAt(cs, firstId, i);
    p := GroupMentions(cs, Existing(ts[i]), PlanOf(cs, firstId).linked[k].memoryId, e);
  }

  lemma UpdateMentions(cs: seq<Candidate>, firstId: nat, i: nat, e: EvidenceId) returns (p: nat)
    requires Plannable(cs) && i < |PlanOf(cs, firstId).updates|
    requires Mentions(Source(PlanOf(cs, firstId).updates[i].target, PlanOf(cs, firstId).updates[i].contributors), e)
    ensures p < |cs| && InSlot(cs[p], Existing(PlanOf(cs, firstId).updates[i].target)) && cs[p].evidenceId == e
  {
    UpdateFacts(cs, Targets(cs), firstId, i);
    p := GroupMentions(cs, Existing(Targets(cs)[i]), PlanOf(cs, firstId).updates[i].target, e);
  }

  lemma KeyedMentions(cs: seq<Candidate>, firstId: nat, i: nat, e: EvidenceId) returns (p: nat)
    requires Plannable(cs) && i < |PlanOf(cs, firstId).keyed|
    requires Mentions(Source(PlanOf(cs, firstId).keyed[i].memoryId, PlanOf(cs, firstId).keyed[i].contributors), e)
    requires PlanOf(cs, firstId).keyed[i].key.Some?
    ensures p < |cs| && InSlot(cs[p], Keyed(PlanOf(cs, firstId).keyed[i].key.value)) && cs[p].evidenceId == e
  {
    KeysHaveTheirGroups(cs);
    KeyedCreationsAt(cs, Keys(cs), firstId + LinkCount(cs, Targets(cs), |Targets(cs)|), |Keys(cs)|, i);
    p := GroupMentions(cs, Keyed(Keys(cs)[i]), PlanOf(cs, firstId).keyed[i].memoryId, e);
  }

  /** What the laws of planning say about the sources of a plan. */
  ghost predicate WellLinked(plan: Plan, firstId: nat) {
    && ProperKinds(plan)
    && (forall i, j :: 0 <= i < j < |plan.updates| ==> plan.updates[i].target != plan.updates[j].target)
    && (forall i, j :: 0 <= i < j < |plan.keyed| ==> plan.keyed[i].key != plan.keyed[j].key)
    && (forall k :: 0 <= k < |plan.linked| ==> HasUpdate(plan.linked[k], plan.updates))
    && (forall i :: 0 <= i < |plan.updates| && Links(plan.updates[i].action) ==> HasCreation(plan.updates[i], plan.linked))
    && (forall k :: 0 <= k < |plan.linked| ==> plan.linked[k].memoryId == firstId + k)
    && (forall k :: 0 <= k < |plan.keyed| ==> plan.keyed[k].memoryId == firstId + |plan.linked| + k)
  }

  lemma PlansAreWellLinked(cs: seq<Candidate>, firstId: nat)
    requires Plannable(cs)
    ensures WellLinked(PlanOf(cs, firstId), firstId)
  {
    var p := PlanOf(cs, firstId);
    KindsAreProper(cs, firstId);
    CreationsAreDistinct(cs, firstId);
    UpdatesAndLinks(cs, firstId);
    IdsByPart(p, firstId);
  }

  lemma IdsByPart(p: Plan, firstId: nat)
    requires forall k :: 0 <= k < |p.Creations()| ==> p.Creations()[k].memoryId == firstId + k
    ensures forall k :: 0 <= k < |p.linked| ==> p.linked[k].memoryId == firstId + k
    ensures forall k :: 0 <= k < |p.keyed| ==> p.keyed[k].memoryId == firstId + |p.linked| + k
  {
    forall k | 0 <= k < |p.linked| ensures p.linked[k].memoryId == firstId + k {
      assert p.Creations()[k] == p.linked[k];
    }
    forall k | 0 <= k < |p.keyed| ensures p.keyed[k].memoryId == firstId + |p.linked| + k {
      assert p.Creations()[|p.linked| + k] == p.keyed[k];
    }
  }

  lemma UpdateFor(plan: Plan, firstId: nat, k: nat) returns (i: nat)
    requires WellLinked(plan, firstId) && k < |plan.linked|
    ensures i < |plan.updates| && Linking(plan.updates[i], plan.linked[k]) && plan.linked[k].kind.target == plan.updates[i].target
  {
    assert HasUpdate(plan.linked[k], plan.updates);
    i :| 0 <= i < |plan.updates| && Linking(plan.updates[i], plan.linked[k]);
  }

  lemma LinkFor(plan: Plan, firstId: nat, i: nat) returns (k: nat)
    requires WellLinked(plan, firstId) && i < |plan.updates| && Links(plan.updates[i].action)
    ensures k < |plan.linked| && Linking(plan.updates[i], plan.linked[k])
    ensures !plan.linked[k].kind.Fresh? && plan.linked[k].kind.target == plan.updates[i].target
  {
    assert HasCreation(plan.updates[i], plan.linked);
    k :| 0 <= k < |plan.linked| && Linking(plan.updates[i], plan.linked[k]);
  }

  /** The update that a linked memory belongs to, with the id of that memory. */
  lemma LinkedBy(plan: Plan, firstId: nat, k: nat) returns (i: nat)
    requires WellLinked(plan, firstId) && k < |plan.linked|
    ensures i < |plan.updates| && plan.updates[i].newMemoryId == Some(firstId + k)
    ensures !plan.linked[k].kind.Fresh? && plan.linked[k].kind.target == plan.updates[i].target
  {
    i := UpdateFor(plan, firstId, k);
    assert plan.linked[k].memoryId == firstId + k;
  }

  lemma TargetsDiffer(us: seq<Update>, i: nat, j: nat)
    requires i < |us| && j < |us| && us[i].newMemoryId != us[j].newMemoryId
    requires forall k, l :: 0 <= k < l < |us| ==> us[k].target != us[l].target
    ensures us[i].target != us[j].target
  {
    assert i != j;
    assert i < j ==> us[i].target != us[j].target;
    assert j < i ==> us[j].target != us[i].target;
  }

  lemma LinkedTargetsDiffer(plan: Plan, firstId: nat, k: nat, l: nat)
    requires WellLinked(plan, firstId) && k < l < |plan.linked|
    ensures plan.linked[k].kind.target != plan.linked[l].kind.target
  {
    var i := LinkedBy(plan, firstId, k);
    var j := LinkedBy(plan, firstId, l);
    TargetsDiffer(plan.updates, i, j);
  }

  lemma LaterSlotsDiffer(plan: Plan, firstId: nat, i: nat, j: nat)
    requires WellLinked(plan, firstId) && |plan.linked| <= i < j < |Sources(plan)|
    ensures SourceSlot(plan, i) != SourceSlot(plan, j)
  {
    var links, keyed := |plan.linked|, |plan.keyed|;
    if j < links + keyed {
      assert plan.keyed[i - links].key != plan.keyed[j - links].key;
    } else if links + keyed <= i {
      assert plan.updates[i - links - keyed].target != plan.updates[j - links - keyed].target;
    }
  }

  lemma SameSlotIsHalves(plan: Plan, firstId: nat, i: nat, j: nat)
    requires WellLinked(plan, firstId) && i < j < |Sources(plan)| && SourceSlot(plan, i) == SourceSlot(plan, j)
    ensures Halves(plan, i, j)
  {
    if i < |plan.linked| {
      if j < |plan.linked| {
        LinkedTargetsDiffer(plan, firstId, i, j);
      } else {
        var k := UpdateFor(plan, firstId, i);
      }
    } else {
      LaterSlotsDiffer(plan, firstId, i, j);
    }
  }

  /** With distinct evidence ids, only the two halves of a link share one. */
  lemma DistinctEvidenceSeparates(cs: seq<Candidate>, firstId: nat)
    requires Plannable(cs) && DistinctEvidence(cs)
    ensures Separated(PlanOf(cs, firstId))
  {
    var plan := PlanOf(cs, firstId);
    PlansAreWellLinked(cs, firstId);
    forall i, j, e | 0 <= i < j < |Sources(plan)| && Mentions(Sources(plan)[i], e) && Mentions(Sources(plan)[j], e)
      ensures Halves(plan, i, j)
    {
      var p := SourceMentions(cs, firstId, i, e);
      var q := SourceMentions(cs, firstId, j, e);
      assert p == q;
      SameSlotIsHalves(plan, firstId, i, j);
    }
  }

  /** A source whose row cannot be taken by an earlier one: a new memory, or an update
      that brings none along. */
  predicate Settles(plan: Plan, i: nat)
    requires i < |Sources(plan)|
  {
    var before := |plan.linked| + |plan.keyed|;
    before <= i ==> !Links(plan.updates[i - before].action)
  }

  /** In a separated plan the evidence row is on the new memory if there is one for it,
      and on the updated memory otherwise. */
  lemma EvidencePlacement(plan: Plan, i: nat, e: EvidenceId)
    requires Separated(plan) && i < |Sources(plan)| && Mentions(Sources(plan)[i], e) && Settles(plan, i)
    ensures exists k :: 0 <= k < |Rows(plan)| && Rows(plan)[k] == Row(e, Sources(plan)[i].memory)
  {
    var ss := Sources(plan);
    RowsAre(ss, |ss|);
    assert HasRow(Rows(plan), e);
    var k: nat :| k < |Rows(plan)| && Rows(plan)[k].evidenceId == e;
    assert RowIsFirst(ss, |ss|, k);
    FirstIsSettled(plan, i, e, Rows(plan)[k].memory);
  }

  lemma SharedWith(plan: Plan, i: nat, j: nat, e: EvidenceId)
    requires Separated(plan) && i < |Sources(plan)| && j < |Sources(plan)|
    requires Mentions(Sources(plan)[i], e) && Mentions(Sources(plan)[j], e)
    ensures i < j ==> Halves(plan, i, j)
  {
  }

  lemma HalvesUnsettled(plan: Plan, i: nat, j: nat)
    requires j < |Sources(plan)|
    ensures i < j && Halves(plan, i, j) ==> !Settles(plan, j)
  {
  }

  lemma EarlierUnsettles(plan: Plan, i: nat, j: nat, e: EvidenceId)
    requires Separated(plan) && i < j < |Sources(plan)| && Mentions(Sources(plan)[i], e) && Mentions(Sources(plan)[j], e)
    ensures !Settles(plan, j)
  {
    SharedWith(plan, i, j, e);
    HalvesUnsettled(plan, i, j);
  }

  lemma FirstSource(ss: seq<Source>, i: nat, e: EvidenceId, m: nat) returns (f: nat)
    requires i < |ss| && Mentions(ss[i], e) && FirstFor(ss, |ss|, e, m)
    ensures f <= i && Mentions(ss[f], e) && ss[f].memory == m
  {
    f :| f < |ss| && Mentions(ss[f], e) && ss[f].memory == m && forall j :: 0 <= j < f ==> !Mentions(ss[j], e);
  }

  lemma FirstIsSettled(plan: Plan, i: nat, e: EvidenceId, m: nat)
    requires Separated(plan) && i < |Sources(plan)| && Mentions(Sources(plan)[i], e) && Settles(plan, i)
    requires FirstFor(Sources(plan), |Sources(plan)|, e, m)
    ensures m == Sources(plan)[i].memory
  {
    var f := FirstSource(Sources(plan), i, e, m);
    assert f == i by {
      if f < i {
        EarlierUnsettles(plan, f, i, e);
      }
    }
  }
}
