/** Authoritative recall; stores and reranking answer arbitrarily, no answer is a failure. */
module Recall {
  import opened Options
  import opened Sorting
  import opened MemoryValidator
  import opened GraphExpansion
  import Rrf
  import opened Rerank

  type Fused = Rrf.Fused

  // ----- deduplicating the fused candidates -----

  /** For each memory its first candidate with the smallest rank, among the first `n`. */
  function BestRank(cs: seq<Fused>, n: nat): map<nat, Fused>
    requires n <= |cs|
  {
    if n == 0 then map[]
    else
      var before, c := BestRank(cs, n - 1), cs[n - 1];
      if c.memoryId !in before || c.minRank < before[c.memoryId].minRank then before[c.memoryId := c] else before
  }

  predicate RankLeq(a: Fused, b: Fused) { a.minRank < b.minRank || (a.minRank == b.minRank && a.memoryId <= b.memoryId) }

  predicate DistinctFused(cs: seq<Fused>) { forall i, j :: 0 <= i < j < |cs| ==> cs[i].memoryId != cs[j].memoryId }

  lemma {:induction false} BestRankIs(cs: seq<Fused>, n: nat)
    requires n <= |cs|
    ensures forall id :: id in BestRank(cs, n) ==> BestRank(cs, n)[id].memoryId == id && BestRank(cs, n)[id] in cs
    ensures forall i :: 0 <= i < n ==> cs[i].memoryId in BestRank(cs, n) && BestRank(cs, n)[cs[i].memoryId].minRank <= cs[i].minRank
  {
    if n > 0 {
      BestRankIs(cs, n - 1);
    }
  }

  /** `dedupe_rrf_candidates`: one candidate per memory, with its smallest rank, in order
      of rank. */
  method DedupeFused(cs: seq<Fused>) returns (r: seq<Fused>)
    ensures DistinctFused(r) && SortedBy(r, RankLeq)
    ensures forall i :: 0 <= i < |r| ==> r[i] in cs && forall j :: 0 <= j < |cs| && cs[j].memoryId == r[i].memoryId ==> r[i].minRank <= cs[j].minRank
    ensures forall j :: 0 <= j < |cs| ==> exists i :: 0 <= i < |r| && r[i].memoryId == cs[j].memoryId
  {
    var order: seq<nat>, best: map<nat, Fused> := [], map[];
    for n := 0 to |cs|
      invariant best == BestRank(cs, n) && Distinct(order)
      invariant forall id :: id in best <==> id in order
    {
      BestRankIs(cs, n);
      var c := cs[n];
      if c.memoryId !in best {
        order, best := order + [c.memoryId], best[c.memoryId := c];
      } else if c.minRank < best[c.memoryId].minRank
             || (c.minRank == best[c.memoryId].minRank && c.memoryId < best[c.memoryId].memoryId) {
        best := best[c.memoryId := c];
      }
    }
    BestRankIs(cs, |cs|);
    var values := ValuesOf(order, best);
    r := Sort(values, RankLeq);
    SortedValues(order, best, values);
    forall i | 0 <= i < |r|
      ensures r[i] in cs && forall j :: 0 <= j < |cs| && cs[j].memoryId == r[i].memoryId ==> r[i].minRank <= cs[j].minRank
    {
      assert r[i] in values;
    }
    forall j | 0 <= j < |cs| ensures exists i :: 0 <= i < |r| && r[i].memoryId == cs[j].memoryId {
      assert cs[j].memoryId in best;
      assert best[cs[j].memoryId] in r;
    }
  }

  function ValuesOf(order: seq<nat>, best: map<nat, Fused>): (r: seq<Fused>)
    requires forall id :: id in order ==> id in best
    ensures |r| == |order| && forall i :: 0 <= i < |order| ==> order[i] in best && r[i] == best[order[i]]
  {
    seq(|order|, i requires 0 <= i < |order| => assert order[i] in order; best[order[i]])
  }

  lemma SortedValues(order: seq<nat>, best: map<nat, Fused>, values: seq<Fused>)
    requires Distinct(order) && (forall id :: id in best <==> id in order) && values == ValuesOf(order, best)
    requires forall id :: id in best ==> best[id].memoryId == id
    ensures var r := Sort(values, RankLeq);
            && DistinctFused(r) && SortedBy(r, RankLeq)
            && (forall i :: 0 <= i < |r| ==> r[i].memoryId in best && r[i] == best[r[i].memoryId])
            && (forall id :: id in best ==> best[id] in r)
            && (forall x :: x in r ==> x in values)
  {
    assert Ordering(RankLeq);
    SortIs(values, RankLeq);
    SortMembers(values, RankLeq);
    assert Distinct(values);
    SortDistinct(values, RankLeq);
    var r := Sort(values, RankLeq);
    forall i | 0 <= i < |r| ensures r[i].memoryId in best && r[i] == best[r[i].memoryId] {
      assert r[i] in values;
    }
    forall id | id in best ensures best[id] in r {
      var k :| 0 <= k < |order| && order[k] == id;
      assert values[k] == best[id];
    }
  }

  // ----- direct candidates -----

  function DirectOf(f: Fused, m: Snapshot): Candidate {
    Candidate(f.memoryId, Some(f.minRank), Some(f.normalized), None,
              (if f.bm25Rank.Some? then {Bm25} else {}) + (if f.vectorRank.Some? then {Vector} else {}), m)
  }

  /** The fused memory is read back and may be shown. */
  predicate Readable(id: nat, snapshots: map<nat, Snapshot>, r: Request) {
    id in snapshots && Visible(snapshots[id], r)
  }

  function DirectUpTo(fused: seq<Fused>, snapshots: map<nat, Snapshot>, r: Request, n: nat): seq<Candidate>
    requires n <= |fused|
  {
    if n == 0 then []
    else
      DirectUpTo(fused, snapshots, r, n - 1)
      + if Readable(fused[n - 1].memoryId, snapshots, r) then [DirectOf(fused[n - 1], snapshots[fused[n - 1].memoryId])] else []
  }

  /** `_build_direct_candidates`. */
  method BuildDirect(fused: seq<Fused>, snapshots: map<nat, Snapshot>, r: Request) returns (direct: seq<Candidate>)
    ensures direct == DirectUpTo(fused, snapshots, r, |fused|)
  {
    direct := [];
    for n := 0 to |fused|
      invariant direct == DirectUpTo(fused, snapshots, r, n)
    {
      var id := fused[n].memoryId;
      if id in snapshots {
        ValidIsVisible(snapshots[id], r);
        if Validate(snapshots[id], r).Valid? {
          var f := fused[n];
          var sources: set<Source> := {};
          if f.bm25Rank != None {
            sources := sources + {Bm25};
          }
          if f.vectorRank != None {
            sources := sources + {Vector};
          }
          assert sources == DirectOf(f, snapshots[id]).sources;
          direct := direct + [Candidate(f.memoryId, Some(f.minRank), Some(f.normalized), None, sources, snapshots[id])];
        }
      }
    }
  }

  lemma {:induction false} DirectIs(fused: seq<Fused>, snapshots: map<nat, Snapshot>, r: Request, n: nat)
    requires n <= |fused| && DistinctFused(fused)
    ensures var d := DirectUpTo(fused, snapshots, r, n);
            && DistinctIds(d) && AllVisible(d, r)
            && forall id :: HasId(d, id) <==> exists i :: 0 <= i < n && fused[i].memoryId == id && Readable(id, snapshots, r)
  {
    if n > 0 {
      DirectIs(fused, snapshots, r, n - 1);
      var before, d := DirectUpTo(fused, snapshots, r, n - 1), DirectUpTo(fused, snapshots, r, n);
      var id := fused[n - 1].memoryId;
      assert !HasId(before, id);
      forall x ensures HasId(d, x) <==> HasId(before, x) || (x == id && Readable(id, snapshots, r)) {
        if Readable(id, snapshots, r) {
          assert d[|before|].memoryId == id;
        }
        if i :| 0 <= i < |before| && before[i].memoryId == x {
          assert d[i].memoryId == x;
        }
      }
    }
  }

  /** A direct candidate: a best-ranked fused entry of its memory, as read back. */
  ghost predicate FromBest(c: Candidate, fused: seq<Fused>, snapshots: map<nat, Snapshot>, r: Request) {
    exists j :: 0 <= j < |fused| && IsBestEntry(fused, j) && Readable(fused[j].memoryId, snapshots, r)
                && TakesOver(c, fused[j]) && c.memory == snapshots[fused[j].memoryId]
  }

  /** Id, rank, score and sources of a direct candidate are those of the fused entry. */
  ghost predicate TakesOver(c: Candidate, f: Fused) {
    && c.memoryId == f.memoryId && c.minRank == Some(f.minRank) && c.normalized == Some(f.normalized) && c.graphScore == None
    && (Bm25 in c.sources <==> f.bm25Rank != None) && (Vector in c.sources <==> f.vectorRank != None) && Graph !in c.sources
  }

  ghost predicate IsBestEntry(fused: seq<Fused>, j: nat)
    requires j < |fused|
  {
    forall k :: 0 <= k < |fused| && fused[k].memoryId == fused[j].memoryId ==> fused[j].minRank <= fused[k].minRank
  }

  predicate RanksBefore(a: Candidate, b: Candidate) {
    a.minRank.Some? && b.minRank.Some?
    && (a.minRank.value < b.minRank.value || (a.minRank.value == b.minRank.value && a.memoryId < b.memoryId))
  }

  predicate InRankOrder(cs: seq<Candidate>) { forall i, j :: 0 <= i < j < |cs| ==> RanksBefore(cs[i], cs[j]) }

  /** The direct candidates: one for each fused memory that may be shown, best rank first. */
  ghost predicate IsDirect(built: seq<Candidate>, fused: seq<Fused>, snapshots: map<nat, Snapshot>, r: Request) {
    && (forall i :: 0 <= i < |built| ==> FromBest(built[i], fused, snapshots, r))
    && InRankOrder(built)
    && (forall id :: HasId(built, id) <==> IsFused(fused, id) && Readable(id, snapshots, r))
  }

  /** Which entry a direct candidate comes from. */
  lemma {:induction false} DirectFrom(fused: seq<Fused>, snapshots: map<nat, Snapshot>, r: Request, n: nat, i: nat) returns (j: nat)
    requires n <= |fused| && i < |DirectUpTo(fused, snapshots, r, n)|
    ensures j < n && Readable(fused[j].memoryId, snapshots, r)
    ensures DirectUpTo(fused, snapshots, r, n)[i] == DirectOf(fused[j], snapshots[fused[j].memoryId])
  {
    if i < |DirectUpTo(fused, snapshots, r, n - 1)| {
      j := DirectFrom(fused, snapshots, r, n - 1, i);
    } else {
      j := n - 1;
    }
  }

  lemma {:induction false} DirectIsRanked(fused: seq<Fused>, snapshots: map<nat, Snapshot>, r: Request, n: nat)
    requires n <= |fused| && DistinctFused(fused) && SortedBy(fused, RankLeq)
    ensures InRankOrder(DirectUpTo(fused, snapshots, r, n))
  {
    if n > 0 {
      DirectIsRanked(fused, snapshots, r, n - 1);
      var before, d := DirectUpTo(fused, snapshots, r, n - 1), DirectUpTo(fused, snapshots, r, n);
      forall i | 0 <= i < |before| && d != before ensures RanksBefore(before[i], d[|before|]) {
        var j := DirectFrom(fused, snapshots, r, n - 1, i);
        assert RankLeq(fused[j], fused[n - 1]) && fused[j].memoryId != fused[n - 1].memoryId;
      }
    }
  }

  // ----- expanded candidates -----

  function Pseudo(e: Edge, user: string): Snapshot { Snapshot(e.related, user, e.memoryType, e.status) }

  function FilteredUpTo(edges: seq<Edge>, r: Request, n: nat): seq<Edge>
    requires n <= |edges|
  {
    if n == 0 then [] else FilteredUpTo(edges, r, n - 1) + if Visible(Pseudo(edges[n - 1], r.user), r) then [edges[n - 1]] else []
  }

  method FilterEdges(edges: seq<Edge>, r: Request) returns (filtered: seq<Edge>)
    ensures filtered == FilteredUpTo(edges, r, |edges|)
  {
    filtered := [];
    for n := 0 to |edges|
      invariant filtered == FilteredUpTo(edges, r, n)
    {
      var shown := Snapshot(edges[n].related, r.user, edges[n].memoryType, edges[n].status);
      ValidIsVisible(shown, r);
      if Validate(shown, r).Valid? {
        filtered := filtered + [edges[n]];
      }
    }
  }

  function ExpandedOf(a: Aggregated, m: Snapshot): Candidate { Candidate(a.related, None, None, Some(a.score), {Graph}, m) }

  /** Read back, shown, and present in the index. */
  predicate Confirmed(id: nat, snapshots: map<nat, Snapshot>, found: set<nat>, r: Request) {
    Readable(id, snapshots, r) && id in found
  }

  function ExpandedUpTo(pure: seq<Aggregated>, snapshots: map<nat, Snapshot>, found: set<nat>, r: Request, n: nat): seq<Candidate>
    requires n <= |pure|
  {
    if n == 0 then []
    else
      ExpandedUpTo(pure, snapshots, found, r, n - 1)
      + if Confirmed(pure[n - 1].related, snapshots, found, r) then [ExpandedOf(pure[n - 1], snapshots[pure[n - 1].related])] else []
  }

  predicate DistinctRelated(pure: seq<Aggregated>) { forall i, j :: 0 <= i < j < |pure| ==> pure[i].related != pure[j].related }

  lemma {:induction false} ExpandedIs(pure: seq<Aggregated>, snapshots: map<nat, Snapshot>, found: set<nat>, r: Request, n: nat)
    requires n <= |pure| && DistinctRelated(pure)
    ensures var e := ExpandedUpTo(pure, snapshots, found, r, n);
            && DistinctIds(e) && AllVisible(e, r)
            && forall i :: 0 <= i < |e| ==> exists k :: 0 <= k < n && pure[k].related == e[i].memoryId
  {
    if n > 0 {
      ExpandedIs(pure, snapshots, found, r, n - 1);
    }
  }

  /** The order of expanded candidates. */
  predicate AggregatedLeq(a: Aggregated, b: Aggregated) {
    var ta, tb := if a.time.Some? then a.time.value else 0, if b.time.Some? then b.time.value else 0;
    a.tier < b.tier
    || (a.tier == b.tier
        && (a.importance > b.importance
            || (a.importance == b.importance && (ta > tb || (ta == tb && a.related <= b.related)))))
  }

  lemma AggregatedOrders()
    ensures Ordering(AggregatedLeq)
  {
  }

  // ----- recall -----

  /** What the stores and the reranking service answer; `texts`: the memories with a text. */
  datatype Answers = Answers(
    seeds: Option<map<nat, Snapshot>>, rerank: Option<seq<Result>>, texts: set<nat>, edges: Option<seq<Edge>>,
    expanded: Option<map<nat, Snapshot>>, found: Option<set<nat>>)

  datatype Settings = Settings(rerankEnabled: bool, perSeed: nat, maxGraph: nat, decay: real)

  datatype Outcome = ReadFailed | Recalled(direct: seq<Candidate>, expanded: seq<Candidate>)

  predicate IsFused(fused: seq<Fused>, id: nat) { exists j :: 0 <= j < |fused| && fused[j].memoryId == id }

  /** The reranking service, if it answered, named no document twice. */
  predicate NoRepeats(answer: Option<seq<Result>>) { answer.Some? ==> DistinctIndices(answer.value, |answer.value|) }

  /** Deduplicate and read back. */
  method ReadDirect(fused: seq<Fused>, snapshots: map<nat, Snapshot>, r: Request) returns (built: seq<Candidate>)
    ensures AllVisible(built, r) && DistinctIds(built) && IsDirect(built, fused, snapshots, r)
  {
    var deduped := DedupeFused(fused);
    built := BuildDirect(deduped, snapshots, r);
    DirectIs(deduped, snapshots, r, |deduped|);
    DirectIsRanked(deduped, snapshots, r, |deduped|);
    forall id ensures IsFused(deduped, id) <==> IsFused(fused, id) {
      SameIds(fused, deduped, id);
    }
    forall i | 0 <= i < |built| ensures FromBest(built[i], fused, snapshots, r) {
      var j := DirectFrom(deduped, snapshots, r, |deduped|, i);
      BestInFused(fused, deduped[j], snapshots, r);
    }
  }

  lemma BestInFused(fused: seq<Fused>, f: Fused, snapshots: map<nat, Snapshot>, r: Request)
    requires f in fused && Readable(f.memoryId, snapshots, r)
    requires forall k :: 0 <= k < |fused| && fused[k].memoryId == f.memoryId ==> f.minRank <= fused[k].minRank
    ensures FromBest(DirectOf(f, snapshots[f.memoryId]), fused, snapshots, r)
  {
    var j :| 0 <= j < |fused| && fused[j] == f;
    assert IsBestEntry(fused, j);
  }

  function HasTexts(cs: seq<Candidate>, texts: set<nat>): (r: seq<bool>)
    ensures |r| == |cs| && forall i :: 0 <= i < |cs| ==> r[i] == (cs[i].memoryId in texts)
  {
    seq(|cs|, i requires 0 <= i < |cs| => cs[i].memoryId in texts)
  }

  /** The reranked candidates, or the same ones if reranking is off or its answer unusable. */
  function RerankedBy(built: seq<Candidate>, settings: Settings, answers: Answers): seq<Candidate> {
    var hasText := HasTexts(built, answers.texts);
    var m := |Positions(hasText, |built|)|;
    if settings.rerankEnabled && 0 < m && answers.rerank.Some? && Complete(answers.rerank.value, m)
    then seq(|built|, p requires 0 <= p < |built| => OutputAt(built, hasText, answers.rerank.value, p))
    else built
  }

  /** Rerank what was read back. */
  method RerankBuilt(built: seq<Candidate>, r: Request, settings: Settings, answers: Answers) returns (direct: seq<Candidate>)
    requires AllVisible(built, r) && DistinctIds(built)
    ensures direct == RerankedBy(built, settings, answers)
    ensures AllVisible(direct, r)
    ensures NoRepeats(answers.rerank) ==> DistinctIds(direct) && forall id :: HasId(direct, id) <==> HasId(built, id)
  {
    var hasText := HasTexts(built, answers.texts);
    var failed;
    direct, failed := RerankDirect(built, settings.rerankEnabled, hasText, answers.rerank);
    if answers.rerank.Some? && Complete(answers.rerank.value, |Positions(hasText, |built|)|) && settings.rerankEnabled && 0 < |Positions(hasText, |built|)| {
      RerankKeeps(built, hasText, answers.rerank.value, direct, r);
    }
  }

  lemma SameIds(fused: seq<Fused>, deduped: seq<Fused>, id: nat)
    requires forall i :: 0 <= i < |deduped| ==> deduped[i] in fused
    requires forall j :: 0 <= j < |fused| ==> exists i :: 0 <= i < |deduped| && deduped[i].memoryId == fused[j].memoryId
    ensures IsFused(deduped, id) <==> IsFused(fused, id)
  {
    if i :| 0 <= i < |deduped| && deduped[i].memoryId == id {
      assert deduped[i] in fused;
    }
  }

  lemma RerankKeeps(built: seq<Candidate>, hasText: seq<bool>, results: seq<Result>, direct: seq<Candidate>, r: Request)
    requires |built| == |hasText| == |direct| && Complete(results, |Positions(hasText, |built|)|) && DistinctIds(built) && AllVisible(built, r)
    requires forall p :: 0 <= p < |built| ==> direct[p] == OutputAt(built, hasText, results, p)
    ensures AllVisible(direct, r)
    ensures DistinctIndices(results, |results|) ==> DistinctIds(direct) && forall id :: HasId(direct, id) <==> HasId(built, id)
  {
    forall p | 0 <= p < |direct| ensures Visible(direct[p].memory, r) && HasId(built, direct[p].memoryId) {
      var q := SourceOf(built, hasText, results, p);
      assert direct[p].(normalized := None) == built[q].(normalized := None);
    }
    OutputDistinctExactly(built, hasText, results, direct);
    if DistinctIndices(results, |results|) {
      forall q | 0 <= q < |built| ensures HasId(direct, built[q].memoryId) {
        var p := OutputCovers(built, hasText, results, q);
        assert direct[p].memoryId == built[q].memoryId;
      }
    }
  }

  /** The seed scores, by memory; a dictionary keeps the last. */
  function ScoresUpTo(direct: seq<Candidate>, n: nat): map<nat, Option<real>>
    requires n <= |direct|
  {
    if n == 0 then map[] else ScoresUpTo(direct, n - 1)[direct[n - 1].memoryId := direct[n - 1].normalized]
  }

  /** The neighbours of the direct candidates over the edges the request may see: the top
      ones of each seed, then the top ones of all, with their scores. */
  function Neighbours(direct: seq<Candidate>, edges: seq<Edge>, r: Request, settings: Settings): seq<Aggregated> {
    var perSeed := RankedPerSeed(FilteredUpTo(edges, r, |edges|), settings.perSeed);
    var top := TopRanked(perSeed, settings.maxGraph);
    seq(|top|, i requires 0 <= i < |top| => AggregatedOf(top[i], perSeed, ScoresUpTo(direct, |direct|), settings.decay))
  }

  /** The expanded candidates: the confirmed neighbours that are not direct, in order. */
  function ExpandedBy(direct: seq<Candidate>, r: Request, settings: Settings, answers: Answers): seq<Candidate> {
    if answers.edges.None? || answers.expanded.None? || answers.found.None? then []
    else
      var ns := Neighbours(direct, answers.edges.value, r, settings);
      var pure := Sort(PureUpTo(direct, ns, |ns|), AggregatedLeq);
      ExpandedUpTo(pure, answers.expanded.value, answers.found.value, r, |pure|)
  }

  /** The direct candidates, those that are also neighbours marked as such. */
  function MarkedBy(direct: seq<Candidate>, r: Request, settings: Settings, answers: Answers): seq<Candidate> {
    if answers.edges.None? then direct
    else
      var ns := Neighbours(direct, answers.edges.value, r, settings);
      seq(|direct|, p requires 0 <= p < |direct| =>
        assert HasIdUpTo(direct, direct[p].memoryId, |direct|);
        Marked(LastWith(direct, direct[p].memoryId, |direct|), ns, |ns|))
  }

  lemma {:induction false} PureHas(direct: seq<Candidate>, ns: seq<Aggregated>, n: nat, id: nat)
    requires n <= |ns|
    ensures Reaches(PureUpTo(direct, ns, n), id) <==> ReachedUpTo(ns, id, n) && !HasId(direct, id)
  {
    if n > 0 {
      PureHas(direct, ns, n - 1, id);
      var before, pure := PureUpTo(direct, ns, n - 1), PureUpTo(direct, ns, n);
      assert ReachedUpTo(ns, id, n) <==> ReachedUpTo(ns, id, n - 1) || ns[n - 1].related == id;
      assert pure != before ==> pure[|before|] == ns[n - 1];
      assert forall i :: 0 <= i < |before| ==> pure[i] == before[i];
    }
  }

  predicate Reaches(ns: seq<Aggregated>, id: nat) { exists i :: 0 <= i < |ns| && ns[i].related == id }

  lemma SortReaches(pure: seq<Aggregated>, id: nat)
    ensures Reaches(Sort(pure, AggregatedLeq), id) <==> Reaches(pure, id)
  {
    AggregatedOrders();
    SortMembers(pure, AggregatedLeq);
    var sorted := Sort(pure, AggregatedLeq);
    if i :| 0 <= i < |pure| && pure[i].related == id {
      assert pure[i] in sorted;
    }
    if i :| 0 <= i < |sorted| && sorted[i].related == id {
      assert sorted[i] in pure;
    }
  }

  lemma {:induction false} ExpandedHas(pure: seq<Aggregated>, snapshots: map<nat, Snapshot>, found: set<nat>, r: Request, n: nat, id: nat)
    requires n <= |pure|
    ensures HasId(ExpandedUpTo(pure, snapshots, found, r, n), id) <==> ReachedUpTo(pure, id, n) && Confirmed(id, snapshots, found, r)
  {
    if n > 0 {
      ExpandedHas(pure, snapshots, found, r, n - 1, id);
      var before, es := ExpandedUpTo(pure, snapshots, found, r, n - 1), ExpandedUpTo(pure, snapshots, found, r, n);
      assert ReachedUpTo(pure, id, n) <==> ReachedUpTo(pure, id, n - 1) || pure[n - 1].related == id;
      assert es != before ==> es[|before|].memoryId == pure[n - 1].related;
      assert forall i :: 0 <= i < |before| ==> es[i] == before[i];
    }
  }

  /** Which memories an expansion adds, when its calls succeed: exactly the top neighbours
      that are not direct candidates and are read back, shown and in the index. */
  lemma ExpansionAddsExactly(direct: seq<Candidate>, r: Request, settings: Settings, answers: Answers, id: nat)
    requires answers.edges.Some? && answers.expanded.Some? && answers.found.Some?
    ensures var ns := Neighbours(direct, answers.edges.value, r, settings);
            HasId(ExpandedBy(direct, r, settings, answers), id) <==>
            ReachedUpTo(ns, id, |ns|) && !HasId(direct, id) && Confirmed(id, answers.expanded.value, answers.found.value, r)
  {
    var ns := Neighbours(direct, answers.edges.value, r, settings);
    var pure := PureUpTo(direct, ns, |ns|);
    PureHas(direct, ns, |ns|, id);
    SortReaches(pure, id);
    var sorted := Sort(pure, AggregatedLeq);
    ExpandedHas(sorted, answers.expanded.value, answers.found.value, r, |sorted|, id);
    assert Reaches(sorted, id) <==> ReachedUpTo(sorted, id, |sorted|);
  }

  /** The neighbours come in the order of the edges they were ranked by, so the sort of the
      expanded candidates changes nothing. */
  lemma SecondSortChangesNothing(direct: seq<Candidate>, edges: seq<Edge>, r: Request, settings: Settings)
    ensures var ns := Neighbours(direct, edges, r, settings);
            Sort(PureUpTo(direct, ns, |ns|), AggregatedLeq) == PureUpTo(direct, ns, |ns|)
  {
    var ns := Neighbours(direct, edges, r, settings);
    var perSeed := RankedPerSeed(FilteredUpTo(edges, r, |edges|), settings.perSeed);
    forall i, j | 0 <= i < j < |ns| ensures AggregatedLeq(ns[i], ns[j]) {
      TopRankedOrder(perSeed, settings.maxGraph, i, j);
    }
    PureInOrder(direct, ns, |ns|);
    SortedStays(PureUpTo(direct, ns, |ns|), AggregatedLeq);
  }

  lemma {:induction false} PureInOrder(direct: seq<Candidate>, ns: seq<Aggregated>, n: nat)
    requires n <= |ns| && SortedBy(ns, AggregatedLeq)
    ensures SortedBy(PureUpTo(direct, ns, n), AggregatedLeq)
    ensures forall x :: x in PureUpTo(direct, ns, n) ==> exists k :: 0 <= k < n && ns[k] == x
  {
    if n > 0 {
      PureInOrder(direct, ns, n - 1);
      var before := PureUpTo(direct, ns, n - 1);
      forall i | 0 <= i < |before| ensures AggregatedLeq(before[i], ns[n - 1]) {
        assert before[i] in before;
        var k :| 0 <= k < n - 1 && ns[k] == before[i];
      }
    }
  }

  /** An expanded candidate has the graph as its only source, no rank or retrieval score, the
      memory as read back, and the largest decayed score of the direct candidates that reach it. */
  ghost predicate IsExpanded(c: Candidate, ns: seq<Aggregated>, snapshots: map<nat, Snapshot>) {
    && c.sources == {Graph} && c.minRank == None && c.normalized == None
    && c.memoryId in snapshots && c.memory == snapshots[c.memoryId]
    && exists k :: 0 <= k < |ns| && ns[k].related == c.memoryId && c.graphScore == Some(ns[k].score)
  }

  lemma {:induction false} ExpandedAre(pure: seq<Aggregated>, snapshots: map<nat, Snapshot>, found: set<nat>, r: Request, n: nat)
    requires n <= |pure|
    ensures forall i :: 0 <= i < |ExpandedUpTo(pure, snapshots, found, r, n)| ==>
              IsExpanded(ExpandedUpTo(pure, snapshots, found, r, n)[i], pure, snapshots)
  {
    if n > 0 {
      ExpandedAre(pure, snapshots, found, r, n - 1);
    }
  }

  /** What every candidate an expansion adds is. */
  lemma ExpansionIs(direct: seq<Candidate>, r: Request, settings: Settings, answers: Answers, i: nat)
    requires answers.edges.Some? && answers.expanded.Some? && answers.found.Some? && i < |ExpandedBy(direct, r, settings, answers)|
    ensures IsExpanded(ExpandedBy(direct, r, settings, answers)[i], Neighbours(direct, answers.edges.value, r, settings), answers.expanded.value)
  {
    var ns := Neighbours(direct, answers.edges.value, r, settings);
    var pure := PureUpTo(direct, ns, |ns|);
    SecondSortChangesNothing(direct, answers.edges.value, r, settings);
    ExpandedAre(pure, answers.expanded.value, answers.found.value, r, |pure|);
    var c := ExpandedBy(direct, r, settings, answers)[i];
    assert IsExpanded(c, pure, answers.expanded.value);
    var k :| 0 <= k < |pure| && pure[k].related == c.memoryId && c.graphScore == Some(pure[k].score);
    NeighbourOf(direct, ns, |ns|, pure[k]);
  }

  lemma {:induction false} NeighbourOf(direct: seq<Candidate>, ns: seq<Aggregated>, n: nat, x: Aggregated)
    requires n <= |ns| && x in PureUpTo(direct, ns, n)
    ensures exists k :: 0 <= k < n && ns[k] == x
  {
    if x in PureUpTo(direct, ns, n - 1) {
      NeighbourOf(direct, ns, n - 1, x);
    }
  }

  /** `_expand_candidates`: a failed call leaves the direct candidates without expansion. */
  method Expand(direct: seq<Candidate>, r: Request, settings: Settings, answers: Answers)
    returns (updated: seq<Candidate>, expanded: seq<Candidate>)
    requires AllVisible(direct, r)
    ensures updated == MarkedBy(direct, r, settings, answers) && expanded == ExpandedBy(direct, r, settings, answers)
    ensures |updated| == |direct| && forall i :: 0 <= i < |direct| ==> updated[i].memoryId == direct[i].memoryId
    ensures AllVisible(updated, r) && AllVisible(expanded, r)
    ensures DistinctIds(expanded) && forall i :: 0 <= i < |expanded| ==> !HasId(direct, expanded[i].memoryId)
  {
    updated, expanded := direct, [];
    if answers.edges.None? {
      return;
    }
    var filtered := FilterEdges(answers.edges.value, r);
    var perSeed := RankPerSeedEdges(filtered, settings.perSeed);
    var scores := ScoresOf(direct);
    var aggregated := AggregateExpanded(perSeed, scores, settings.maxGraph, settings.decay);
    assert aggregated == Neighbours(direct, answers.edges.value, r, settings);
    var pure;
    updated, pure := MergeOverlap(direct, aggregated);
    MergeKeeps(direct, aggregated, updated, r);
    PureIs(direct, aggregated, |aggregated|);
    var sorted := Sort(pure, AggregatedLeq);
    SortedPure(direct, pure);
    if answers.expanded.Some? && answers.found.Some? {
      expanded := ConfirmExpanded(sorted, answers.expanded.value, answers.found.value, r);
      ExpandedIs(sorted, answers.expanded.value, answers.found.value, r, |sorted|);
    }
  }

  method ConfirmExpanded(pure: seq<Aggregated>, snapshots: map<nat, Snapshot>, found: set<nat>, r: Request) returns (expanded: seq<Candidate>)
    ensures expanded == ExpandedUpTo(pure, snapshots, found, r, |pure|)
  {
    expanded := [];
    for n := 0 to |pure|
      invariant expanded == ExpandedUpTo(pure, snapshots, found, r, n)
    {
      var id := pure[n].related;
      if id in snapshots {
        ValidIsVisible(snapshots[id], r);
        if Validate(snapshots[id], r).Valid? && id in found {
          expanded := expanded + [Candidate(id, None, None, Some(pure[n].score), {Graph}, snapshots[id])];
        }
      }
    }
  }

  method ScoresOf(direct: seq<Candidate>) returns (scores: map<nat, Option<real>>)
    ensures scores == ScoresUpTo(direct, |direct|)
  {
    scores := map[];
    for i := 0 to |direct|
      invariant scores == ScoresUpTo(direct, i)
    {
      scores := scores[direct[i].memoryId := direct[i].normalized];
    }
  }

  lemma MergeKeeps(direct: seq<Candidate>, aggregated: seq<Aggregated>, updated: seq<Candidate>, r: Request)
    requires AllVisible(direct, r) && |updated| == |direct|
    requires forall i :: 0 <= i < |direct| ==>
               (HasIdUpTo(direct, direct[i].memoryId, |direct|)
                && updated[i] == Marked(LastWith(direct, direct[i].memoryId, |direct|), aggregated, |aggregated|))
    ensures AllVisible(updated, r) && forall i :: 0 <= i < |direct| ==> updated[i].memoryId == direct[i].memoryId
  {
    forall i | 0 <= i < |direct| ensures Visible(updated[i].memory, r) && updated[i].memoryId == direct[i].memoryId {
      LastHasId(direct, direct[i].memoryId, |direct|);
      LastIsVisible(direct, direct[i].memoryId, |direct|, r);
    }
  }

  lemma {:induction false} LastIsVisible(direct: seq<Candidate>, id: nat, n: nat, r: Request)
    requires n <= |direct| && HasIdUpTo(direct, id, n) && AllVisible(direct, r)
    ensures Visible(LastWith(direct, id, n).memory, r)
  {
    if direct[n - 1].memoryId != id {
      LastIsVisible(direct, id, n - 1, r);
    }
  }

  lemma {:induction false} PureIs(direct: seq<Candidate>, aggregated: seq<Aggregated>, n: nat)
    requires n <= |aggregated| && DistinctRelated(aggregated)
    ensures DistinctRelated(PureUpTo(direct, aggregated, n))
    ensures forall x :: x in PureUpTo(direct, aggregated, n) ==> exists k :: 0 <= k < n && aggregated[k] == x
  {
    if n > 0 {
      PureIs(direct, aggregated, n - 1);
      var before := PureUpTo(direct, aggregated, n - 1);
      forall i | 0 <= i < |before| ensures before[i].related != aggregated[n - 1].related {
        assert before[i] in before;
      }
    }
  }

  lemma SortedPure(direct: seq<Candidate>, pure: seq<Aggregated>)
    requires DistinctRelated(pure) && forall i :: 0 <= i < |pure| ==> !HasId(direct, pure[i].related)
    ensures var s := Sort(pure, AggregatedLeq);
            DistinctRelated(s) && forall i :: 0 <= i < |s| ==> !HasId(direct, s[i].related)
  {
    AggregatedOrders();
    SortMembers(pure, AggregatedLeq);
    SortDistinct(pure, AggregatedLeq);
    var s := Sort(pure, AggregatedLeq);
    forall i | 0 <= i < |s| ensures s[i] in pure && !HasId(direct, s[i].related) {
    }
    forall i, j | 0 <= i < j < |s| ensures s[i].related != s[j].related {
      var k :| 0 <= k < |pure| && pure[k] == s[i];
      var l :| 0 <= l < |pure| && pure[l] == s[j];
      assert s[i] != s[j];
    }
  }

  /** The outcome, stage by stage. */
  ghost predicate IsRecall(fused: seq<Fused>, r: Request, expand: bool, settings: Settings, answers: Answers, o: Outcome)
    requires answers.seeds.Some?
  {
    exists built :: IsDirect(built, fused, answers.seeds.value, r) && o == Finished(built, r, expand, settings, answers)
  }

  function Finished(built: seq<Candidate>, r: Request, expand: bool, settings: Settings, answers: Answers): Outcome {
    var direct := RerankedBy(built, settings, answers);
    if expand && direct != [] then Recalled(MarkedBy(direct, r, settings, answers), ExpandedBy(direct, r, settings, answers))
    else Recalled(direct, [])
  }

  /** `recall`: every candidate may be shown to the requester. If the reranking service
      does not repeat itself, no memory is returned twice, neither within the direct or the
      expanded candidates nor across them, and the direct ones are exactly the fused
      memories that can be read back and shown. */
  method RecallMemories(fused: seq<Fused>, r: Request, expand: bool, settings: Settings, answers: Answers) returns (o: Outcome)
    ensures o.ReadFailed? <==> fused != [] && answers.seeds.None?
    ensures o.Recalled? ==> AllVisible(o.direct, r) && AllVisible(o.expanded, r)
    ensures o.Recalled? ==> DistinctIds(o.expanded) && forall i :: 0 <= i < |o.expanded| ==> !HasId(o.direct, o.expanded[i].memoryId)
    ensures o.Recalled? ==> if fused == [] then o == Recalled([], []) else IsRecall(fused, r, expand, settings, answers, o)
    ensures o.Recalled? && NoRepeats(answers.rerank) ==> DistinctIds(o.direct)
    ensures o.Recalled? && NoRepeats(answers.rerank) && fused != [] ==>
              forall id :: HasId(o.direct, id) <==> IsFused(fused, id) && Readable(id, answers.seeds.value, r)
  {
    if fused == [] {
      return Recalled([], []);
    }
    if answers.seeds.None? {
      return ReadFailed;
    }
    var built := ReadDirect(fused, answers.seeds.value, r);
    var direct := RerankBuilt(built, r, settings, answers);
    if !expand || direct == [] {
      return Recalled(direct, []);
    }
    var updated, expanded := Expand(direct, r, settings, answers);
    forall id ensures HasId(updated, id) <==> HasId(direct, id) {
      SameHasId(direct, updated, id);
    }
    return Recalled(updated, expanded);
  }

  lemma SameHasId(direct: seq<Candidate>, updated: seq<Candidate>, id: nat)
    requires |updated| == |direct| && forall i :: 0 <= i < |direct| ==> updated[i].memoryId == direct[i].memoryId
    ensures HasId(updated, id) <==> HasId(direct, id)
  {
    if i :| 0 <= i < |direct| && direct[i].memoryId == id {
      assert updated[i].memoryId == id;
    }
  }
}
