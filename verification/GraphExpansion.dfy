/** Ranking the one-hop neighbours of the direct candidates (`rank_per_seed_edges`,
    `aggregate_expanded_candidates`) and merging the overlap (`merge_overlap_with_direct`). */
module GraphExpansion {
  import opened Options
  import opened Sorting
  import opened MemoryValidator

  datatype Edge = Edge(seed: nat, related: nat, tier: int, importance: real, time: Option<int>, memoryType: MemoryType, status: Status)

  datatype Aggregated = Aggregated(related: nat, score: real, tier: int, importance: real, time: Option<int>)

  function TimeOf(e: Edge): int { if e.time.Some? then e.time.value else 0 }

  /** `_edge_sort_key`: lower tier, then more important, then later, then smaller id. */
  predicate KeyLess(a: Edge, b: Edge) {
    a.tier < b.tier
    || (a.tier == b.tier
        && (a.importance > b.importance
            || (a.importance == b.importance
                && (TimeOf(a) > TimeOf(b) || (TimeOf(a) == TimeOf(b) && a.related < b.related)))))
  }

  predicate KeyLeq(a: Edge, b: Edge) { !KeyLess(b, a) }

  lemma KeyOrders()
    ensures Ordering(KeyLeq)
  {
  }

  // ----- one edge per related memory -----

  /** The related memories of the first `n` edges, in order of first occurrence. */
  function RelatedOrder(edges: seq<Edge>, n: nat): seq<nat>
    requires n <= |edges|
  {
    if n == 0 then []
    else
      var before := RelatedOrder(edges, n - 1);
      if edges[n - 1].related in before then before else before + [edges[n - 1].related]
  }

  /** For each related memory its first edge with the least key among the first `n`. */
  function BestOf(edges: seq<Edge>, n: nat): map<nat, Edge>
    requires n <= |edges|
  {
    if n == 0 then map[]
    else
      var before, e := BestOf(edges, n - 1), edges[n - 1];
      if e.related !in before || KeyLess(e, before[e.related]) then before[e.related := e] else before
  }

  lemma {:induction false} BestKeys(edges: seq<Edge>, n: nat)
    requires n <= |edges|
    ensures forall r :: r in BestOf(edges, n) <==> r in RelatedOrder(edges, n)
    ensures Distinct(RelatedOrder(edges, n))
  {
    if n > 0 {
      BestKeys(edges, n - 1);
    }
  }

  ghost predicate IsBest(edges: seq<Edge>, n: nat, e: Edge)
    requires n <= |edges|
  {
    && (exists i :: 0 <= i < n && edges[i] == e)
    && (forall i :: 0 <= i < n && edges[i].related == e.related ==> KeyLeq(e, edges[i]))
  }

  lemma {:induction false} BestIs(edges: seq<Edge>, n: nat)
    requires n <= |edges|
    ensures forall r :: r in BestOf(edges, n) ==> BestOf(edges, n)[r].related == r && IsBest(edges, n, BestOf(edges, n)[r])
    ensures forall i :: 0 <= i < n ==> edges[i].related in BestOf(edges, n)
  {
    if n > 0 {
      BestIs(edges, n - 1);
      var before, after := BestOf(edges, n - 1), BestOf(edges, n);
      forall r | r in after ensures after[r].related == r && IsBest(edges, n, after[r]) {
        if r in before {
          assert IsBest(edges, n - 1, before[r]);
        }
      }
    }
  }

  function Values(order: seq<nat>, best: map<nat, Edge>): (r: seq<Edge>)
    requires forall i :: 0 <= i < |order| ==> order[i] in best
    ensures |r| == |order| && forall i :: 0 <= i < |order| ==> r[i] == best[order[i]]
  {
    seq(|order|, i requires 0 <= i < |order| => best[order[i]])
  }

  /** The best edge of each related memory, in order of first occurrence. */
  function Deduped(edges: seq<Edge>): seq<Edge> {
    BestKeys(edges, |edges|);
    var order, best := RelatedOrder(edges, |edges|), BestOf(edges, |edges|);
    assert forall i :: 0 <= i < |order| ==> order[i] in order;
    Values(order, best)
  }

  function Cut<T>(s: seq<T>, limit: nat): seq<T> { if limit < |s| then s[..limit] else s }

  function TopRanked(edges: seq<Edge>, limit: nat): seq<Edge> { Cut(Sort(Deduped(edges), KeyLeq), limit) }

  /** The comparison of two edges of one memory and tier: more important, or else later. */
  predicate IsBetter(a: Edge, b: Edge) {
    a.importance > b.importance
    || (a.importance == b.importance && (if a.time == None then 0 else a.time.value) > (if b.time == None then 0 else b.time.value))
  }

  lemma BetterIs(a: Edge, b: Edge)
    requires a.related == b.related
    ensures KeyLess(a, b) <==> a.tier < b.tier || (a.tier == b.tier && IsBetter(a, b))
  {
  }

  /** One more edge replaces the best one of its memory by the two-step comparison. */
  lemma BestGrows(edges: seq<Edge>, n: nat)
    requires n < |edges|
    ensures var e, best := edges[n], BestOf(edges, n);
            BestOf(edges, n + 1) ==
            if e.related !in best || e.tier < best[e.related].tier || (e.tier == best[e.related].tier && IsBetter(e, best[e.related]))
            then best[e.related := e] else best
  {
    BestIs(edges, n);
    if edges[n].related in BestOf(edges, n) {
      BetterIs(edges[n], BestOf(edges, n)[edges[n].related]);
    }
  }

  /** `_dedupe_edges_per_seed`, with its two-step comparison. */
  method DedupeEdges(edges: seq<Edge>) returns (r: seq<Edge>)
    ensures r == Deduped(edges)
  {
    var order: seq<nat>, best: map<nat, Edge> := [], map[];
    BestKeys(edges, 0);
    for n := 0 to |edges|
      invariant order == RelatedOrder(edges, n) && best == BestOf(edges, n)
      invariant forall x :: x in best <==> x in order
    {
      BestKeys(edges, n + 1);
      var e := edges[n];
      BestGrows(edges, n);
      if e.related !in best || e.tier < best[e.related].tier {
        if e.related !in best {
          order := order + [e.related];
        }
        best := best[e.related := e];
      } else if e.tier == best[e.related].tier && IsBetter(e, best[e.related]) {
        best := best[e.related := e];
      }
    }
    assert forall i :: 0 <= i < |order| ==> order[i] in order;
    r := Values(order, best);
  }

  // ----- what the truncated ranking is -----

  /** The first `limit` of the least-key edges per related memory: strictly ascending, each
      best for its memory; a memory left out comes after all that were taken. */
  ghost predicate IsTopRanked(top: seq<Edge>, edges: seq<Edge>, limit: nat) {
    && |top| <= limit
    && (forall i, j :: 0 <= i < j < |top| ==> KeyLess(top[i], top[j]) && top[i].related != top[j].related)
    && (forall i :: 0 <= i < |top| ==> IsBest(edges, |edges|, top[i]))
    && (forall i :: 0 <= i < |edges| ==> Has(top, edges[i].related) || (|top| == limit && AllBefore(top, edges[i])))
  }

  predicate Has(top: seq<Edge>, related: nat) { exists i :: 0 <= i < |top| && top[i].related == related }

  predicate AllBefore(top: seq<Edge>, e: Edge) { forall i :: 0 <= i < |top| ==> KeyLess(top[i], e) }

  lemma DedupedAre(edges: seq<Edge>)
    ensures forall i, j :: 0 <= i < j < |Deduped(edges)| ==> Deduped(edges)[i].related != Deduped(edges)[j].related
    ensures forall e :: e in Deduped(edges) ==> IsBest(edges, |edges|, e)
    ensures forall i :: 0 <= i < |edges| ==> Has(Deduped(edges), edges[i].related)
  {
    BestKeys(edges, |edges|);
    BestIs(edges, |edges|);
    var order, best, ds := RelatedOrder(edges, |edges|), BestOf(edges, |edges|), Deduped(edges);
    forall i | 0 <= i < |ds| ensures ds[i].related == order[i] && IsBest(edges, |edges|, ds[i]) {
      assert order[i] in best;
    }
    forall i | 0 <= i < |edges| ensures Has(ds, edges[i].related) {
      var k :| 0 <= k < |order| && order[k] == edges[i].related;
    }
  }

  lemma SortedDeduped(edges: seq<Edge>)
    ensures var s := Sort(Deduped(edges), KeyLeq);
            && (forall i, j :: 0 <= i < j < |s| ==> KeyLess(s[i], s[j]) && s[i].related != s[j].related)
            && (forall i :: 0 <= i < |s| ==> IsBest(edges, |edges|, s[i]))
            && (forall i :: 0 <= i < |edges| ==> Has(s, edges[i].related))
  {
    var ds := Deduped(edges);
    var s := Sort(ds, KeyLeq);
    DedupedAre(edges);
    KeyOrders();
    SortIs(ds, KeyLeq);
    SortMembers(ds, KeyLeq);
    SortDistinct(ds, KeyLeq);
    forall i | 0 <= i < |s| ensures s[i] in ds && IsBest(edges, |edges|, s[i]) {
    }
    forall i, j | 0 <= i < j < |s| ensures KeyLess(s[i], s[j]) && s[i].related != s[j].related {
      var k :| 0 <= k < |ds| && ds[k] == s[i];
      var l :| 0 <= l < |ds| && ds[l] == s[j];
      assert s[i] != s[j];
    }
    forall i | 0 <= i < |edges| ensures Has(s, edges[i].related) {
      var k :| 0 <= k < |ds| && ds[k].related == edges[i].related;
      assert ds[k] in s;
    }
  }

  /** Dedupe, sort and truncate give the top of the ranking. */
  lemma TopRankedIs(edges: seq<Edge>, limit: nat)
    ensures IsTopRanked(TopRanked(edges, limit), edges, limit)
  {
    SortedDeduped(edges);
    var s := Sort(Deduped(edges), KeyLeq);
    var top := Cut(s, limit);
    forall i | 0 <= i < |edges| && !Has(top, edges[i].related) ensures |top| == limit && AllBefore(top, edges[i]) {
      var k :| 0 <= k < |s| && s[k].related == edges[i].related;
      BehindTheCut(s, limit, k);
      assert IsBest(edges, |edges|, s[k]);
    }
  }

  lemma BehindTheCut(s: seq<Edge>, limit: nat, k: nat)
    requires k < |s| && !Has(Cut(s, limit), s[k].related) && forall i, j :: 0 <= i < j < |s| ==> KeyLess(s[i], s[j])
    ensures |Cut(s, limit)| == limit && AllBefore(Cut(s, limit), s[k])
  {
    TakenHas(s, limit, k);
  }

  lemma TakenHas(s: seq<Edge>, limit: nat, k: nat)
    requires k < |s|
    ensures k < |Cut(s, limit)| ==> Has(Cut(s, limit), s[k].related)
  {
    assert k < |Cut(s, limit)| ==> Cut(s, limit)[k] == s[k];
  }

  /** The order of the ranking, in the edges' own fields: lower tier, then higher importance,
      then later (no time counting as 0), then smaller id; and no two edges about one memory. */
  ghost predicate ComesBefore(a: Edge, b: Edge) {
    && a.tier <= b.tier && (a.tier == b.tier ==> a.importance >= b.importance)
    && (a.tier == b.tier && a.importance == b.importance ==>
          var s, t := if a.time == None then 0 else a.time.value, if b.time == None then 0 else b.time.value;
          s >= t && (s == t ==> a.related < b.related))
  }

  lemma TopRankedOrder(edges: seq<Edge>, limit: nat, i: nat, j: nat)
    requires i < j < |TopRanked(edges, limit)|
    ensures ComesBefore(TopRanked(edges, limit)[i], TopRanked(edges, limit)[j])
    ensures TopRanked(edges, limit)[i].related != TopRanked(edges, limit)[j].related
  {
    TopRankedIs(edges, limit);
  }

  // ----- per seed -----

  function SeedOrder(edges: seq<Edge>, n: nat): seq<nat>
    requires n <= |edges|
  {
    if n == 0 then []
    else
      var before := SeedOrder(edges, n - 1);
      if edges[n - 1].seed in before then before else before + [edges[n - 1].seed]
  }

  function OfSeed(edges: seq<Edge>, seed: nat, n: nat): seq<Edge>
    requires n <= |edges|
  {
    if n == 0 then [] else OfSeed(edges, seed, n - 1) + if edges[n - 1].seed == seed then [edges[n - 1]] else []
  }

  /** The top edges of the first `k` seeds, seed after seed. */
  function PerSeed(edges: seq<Edge>, seeds: seq<nat>, limit: nat, k: nat): seq<Edge>
    requires k <= |seeds|
  {
    if k == 0 then [] else PerSeed(edges, seeds, limit, k - 1) + TopRanked(OfSeed(edges, seeds[k - 1], |edges|), limit)
  }

  function RankedPerSeed(edges: seq<Edge>, limit: nat): seq<Edge> {
    var seeds := SeedOrder(edges, |edges|);
    PerSeed(edges, seeds, limit, |seeds|)
  }

  /** The dictionary of edge lists per seed. */
  method GroupBySeed(edges: seq<Edge>) returns (seeds: seq<nat>, groups: map<nat, seq<Edge>>)
    ensures seeds == SeedOrder(edges, |edges|)
    ensures forall i :: 0 <= i < |seeds| ==> seeds[i] in groups && groups[seeds[i]] == OfSeed(edges, seeds[i], |edges|)
  {
    seeds, groups := [], map[];
    for n := 0 to |edges|
      invariant seeds == SeedOrder(edges, n)
      invariant forall s :: s in groups <==> s in seeds
      invariant forall s :: s in groups ==> groups[s] == OfSeed(edges, s, n)
    {
      var s := edges[n].seed;
      if s !in groups {
        NoEdgeOfSeed(edges, s, n);
        seeds, groups := seeds + [s], groups[s := []];
      }
      groups := groups[s := groups[s] + [edges[n]]];
    }
    assert forall i :: 0 <= i < |seeds| ==> seeds[i] in seeds;
  }

  lemma {:induction false} NoEdgeOfSeed(edges: seq<Edge>, seed: nat, n: nat)
    requires n <= |edges| && seed !in SeedOrder(edges, n)
    ensures OfSeed(edges, seed, n) == []
  {
    if n > 0 {
      NoEdgeOfSeed(edges, seed, n - 1);
    }
  }

  method RankEdges(edges: seq<Edge>, limit: nat) returns (top: seq<Edge>)
    ensures top == TopRanked(edges, limit)
  {
    var deduped := DedupeEdges(edges);
    top := Cut(Sort(deduped, KeyLeq), limit);
  }

  /** `rank_per_seed_edges`. */
  method RankPerSeedEdges(edges: seq<Edge>, limit: nat) returns (selected: seq<Edge>)
    ensures selected == RankedPerSeed(edges, limit)
  {
    var seeds, groups := GroupBySeed(edges);
    selected := [];
    for k := 0 to |seeds|
      invariant selected == PerSeed(edges, seeds, limit, k)
    {
      var top := RankEdges(groups[seeds[k]], limit);
      selected := selected + top;
    }
  }

  /** An edge survives the per-seed ranking only as one of its seed's top edges. */
  lemma {:induction false} SelectedFrom(edges: seq<Edge>, seeds: seq<nat>, limit: nat, k: nat, e: Edge) returns (i: nat)
    requires k <= |seeds| && e in PerSeed(edges, seeds, limit, k)
    ensures i < k && e in TopRanked(OfSeed(edges, seeds[i], |edges|), limit)
  {
    if e in PerSeed(edges, seeds, limit, k - 1) {
      i := SelectedFrom(edges, seeds, limit, k - 1, e);
    } else {
      i := k - 1;
    }
  }

  lemma {:induction false} OfSeedFrom(edges: seq<Edge>, seed: nat, n: nat)
    requires n <= |edges|
    ensures forall e :: e in OfSeed(edges, seed, n) ==> e in edges && e.seed == seed
  {
    if n > 0 {
      OfSeedFrom(edges, seed, n - 1);
    }
  }

  /** Every selected edge is one of the input edges, and among the top of its own seed. */
  lemma SelectedAreTop(edges: seq<Edge>, limit: nat, e: Edge)
    requires e in RankedPerSeed(edges, limit)
    ensures e in edges && e in TopRanked(OfSeed(edges, e.seed, |edges|), limit)
  {
    var seeds := SeedOrder(edges, |edges|);
    var i := SelectedFrom(edges, seeds, limit, |seeds|, e);
    var mine := OfSeed(edges, seeds[i], |edges|);
    TopRankedIs(mine, limit);
    var k :| 0 <= k < |TopRanked(mine, limit)| && TopRanked(mine, limit)[k] == e;
    assert IsBest(mine, |mine|, TopRanked(mine, limit)[k]);
    OfSeedFrom(edges, seeds[i], |edges|);
  }

  // ----- scores over the seeds -----

  /** `compute_graph_retrieval_score` over the first `n` edges. */
  function ScoreUpTo(edges: seq<Edge>, related: nat, scores: map<nat, Option<real>>, decay: real, n: nat): real
    requires n <= |edges|
  {
    if n == 0 then 0.0
    else
      var before, e := ScoreUpTo(edges, related, scores, decay, n - 1), edges[n - 1];
      if e.related == related && e.seed in scores && scores[e.seed].Some? && before < scores[e.seed].value * decay
      then scores[e.seed].value * decay
      else before
  }

  /** The edge brings a known seed score to the memory. */
  predicate Brings(e: Edge, related: nat, scores: map<nat, Option<real>>) {
    e.related == related && e.seed in scores && scores[e.seed].Some?
  }

  /** The score is the largest decayed score of the seeds that retain the memory, and 0 if
      none is known or all are negative. */
  lemma {:induction false} ScoreIsLargest(edges: seq<Edge>, related: nat, scores: map<nat, Option<real>>, decay: real, n: nat)
    requires n <= |edges|
    ensures var r := ScoreUpTo(edges, related, scores, decay, n);
            && 0.0 <= r
            && (forall i :: 0 <= i < n && Brings(edges[i], related, scores) ==> scores[edges[i].seed].value * decay <= r)
            && (r == 0.0 || exists i :: 0 <= i < n && Brings(edges[i], related, scores) && r == scores[edges[i].seed].value * decay)
  {
    if n > 0 {
      ScoreIsLargest(edges, related, scores, decay, n - 1);
      assert Brings(edges[n - 1], related, scores) || !Brings(edges[n - 1], related, scores);
    }
  }

  method ComputeGraphScore(edges: seq<Edge>, related: nat, scores: map<nat, Option<real>>, decay: real) returns (score: real)
    ensures score == ScoreUpTo(edges, related, scores, decay, |edges|)
  {
    score := 0.0;
    for n := 0 to |edges|
      invariant score == ScoreUpTo(edges, related, scores, decay, n)
    {
      if edges[n].related != related || edges[n].seed !in scores || scores[edges[n].seed].None? {
        continue;
      }
      var decayed := scores[edges[n].seed].value * decay;
      if score < decayed {
        score := decayed;
      }
    }
  }

  // ----- over all seeds -----

  function AggregatedOf(e: Edge, edges: seq<Edge>, scores: map<nat, Option<real>>, decay: real): Aggregated {
    Aggregated(e.related, ScoreUpTo(edges, e.related, scores, decay, |edges|), e.tier, e.importance, e.time)
  }

  /** `aggregate_expanded_candidates`: the top related memories over all seeds, each scored. */
  method AggregateExpanded(perSeed: seq<Edge>, scores: map<nat, Option<real>>, max: nat, decay: real) returns (r: seq<Aggregated>)
    ensures var top := TopRanked(perSeed, max);
            |r| == |top| && forall i :: 0 <= i < |r| ==> r[i] == AggregatedOf(top[i], perSeed, scores, decay)
    ensures forall i, j :: 0 <= i < j < |r| ==> r[i].related != r[j].related
  {
    var top := RankEdges(perSeed, max);
    TopRankedIs(perSeed, max);
    r := [];
    for n := 0 to |top|
      invariant |r| == n && forall i :: 0 <= i < n ==> r[i] == AggregatedOf(top[i], perSeed, scores, decay)
    {
      var score := ComputeGraphScore(perSeed, top[n].related, scores, decay);
      r := r + [Aggregated(top[n].related, score, top[n].tier, top[n].importance, top[n].time)];
    }
  }

  // ----- overlap with the direct candidates -----

  function WithGraph(c: Candidate): Candidate { c.(sources := c.sources + {Graph}) }

  /** The aggregated memories that are not direct candidates, in order. */
  function PureUpTo(direct: seq<Candidate>, aggregated: seq<Aggregated>, n: nat): (r: seq<Aggregated>)
    requires n <= |aggregated|
    ensures forall i :: 0 <= i < |r| ==> !HasId(direct, r[i].related)
  {
    if n == 0 then []
    else PureUpTo(direct, aggregated, n - 1) + if HasId(direct, aggregated[n - 1].related) then [] else [aggregated[n - 1]]
  }

  predicate HasIdUpTo(direct: seq<Candidate>, id: nat, n: nat)
    requires n <= |direct|
  {
    exists i :: 0 <= i < n && direct[i].memoryId == id
  }

  /** The last direct candidate with an id: a dictionary keeps that one. */
  function LastWith(direct: seq<Candidate>, id: nat, n: nat): Candidate
    requires n <= |direct| && HasIdUpTo(direct, id, n)
  {
    if direct[n - 1].memoryId == id then direct[n - 1] else LastWith(direct, id, n - 1)
  }

  lemma {:induction false} LastIsTheOne(direct: seq<Candidate>, i: nat, n: nat)
    requires i < n <= |direct| && DistinctIds(direct)
    ensures HasIdUpTo(direct, direct[i].memoryId, n) && LastWith(direct, direct[i].memoryId, n) == direct[i]
  {
    if i < n - 1 {
      LastIsTheOne(direct, i, n - 1);
    }
  }

  function Marked(c: Candidate, aggregated: seq<Aggregated>, n: nat): Candidate
    requires n <= |aggregated|
  {
    if ReachedUpTo(aggregated, c.memoryId, n) then WithGraph(c) else c
  }

  predicate ReachedUpTo(aggregated: seq<Aggregated>, id: nat, n: nat)
    requires n <= |aggregated|
  {
    exists i :: 0 <= i < n && aggregated[i].related == id
  }

  /** A mark adds the graph to the sources, exactly if the graph reached the memory, and
      changes nothing else. */
  lemma MarkedExactly(c: Candidate, aggregated: seq<Aggregated>)
    ensures var m := Marked(c, aggregated, |aggregated|);
            && m.memoryId == c.memoryId && m.minRank == c.minRank && m.normalized == c.normalized && m.graphScore == c.graphScore && m.memory == c.memory
            && (forall s :: s in m.sources <==> s in c.sources || (s == Graph && exists k :: 0 <= k < |aggregated| && aggregated[k].related == c.memoryId))
  {
  }

  /** `merge_overlap_with_direct`: direct candidates stay in place and are marked if the
      graph reached them; the others are expanded candidates. */
  method MergeOverlap(direct: seq<Candidate>, aggregated: seq<Aggregated>) returns (updated: seq<Candidate>, pure: seq<Aggregated>)
    ensures |updated| == |direct|
    ensures forall i :: 0 <= i < |direct| ==>
              (HasIdUpTo(direct, direct[i].memoryId, |direct|)
               && updated[i] == Marked(LastWith(direct, direct[i].memoryId, |direct|), aggregated, |aggregated|))
    ensures DistinctIds(direct) ==> forall i :: 0 <= i < |direct| ==> updated[i] == Marked(direct[i], aggregated, |aggregated|)
    ensures pure == PureUpTo(direct, aggregated, |aggregated|)
  {
    var byId := IndexById(direct);
    pure := [];
    for n := 0 to |aggregated|
      invariant pure == PureUpTo(direct, aggregated, n)
      invariant forall id: nat :: id in byId <==> HasIdUpTo(direct, id, |direct|)
      invariant forall id: nat :: id in byId ==> byId[id] == Marked(LastWith(direct, id, |direct|), aggregated, n)
    {
      var id := aggregated[n].related;
      if id in byId {
        byId := byId[id := WithGraph(byId[id])];
      } else {
        pure := pure + [aggregated[n]];
      }
      assert HasId(direct, id) <==> HasIdUpTo(direct, id, |direct|);
      MarkedStep(direct, aggregated, n);
    }
    updated := [];
    for i := 0 to |direct|
      invariant |updated| == i && forall k :: 0 <= k < i ==> direct[k].memoryId in byId && updated[k] == byId[direct[k].memoryId]
    {
      assert HasIdUpTo(direct, direct[i].memoryId, |direct|);
      updated := updated + [byId[direct[i].memoryId]];
    }
    if DistinctIds(direct) {
      forall i | 0 <= i < |direct| ensures updated[i] == Marked(direct[i], aggregated, |aggregated|) {
        LastIsTheOne(direct, i, |direct|);
      }
    }
  }

  method IndexById(direct: seq<Candidate>) returns (byId: map<nat, Candidate>)
    ensures forall id: nat :: id in byId <==> HasIdUpTo(direct, id, |direct|)
    ensures forall id: nat :: id in byId ==> byId[id] == LastWith(direct, id, |direct|)
  {
    byId := map[];
    for i := 0 to |direct|
      invariant forall id: nat :: id in byId <==> HasIdUpTo(direct, id, i)
      invariant forall id: nat :: id in byId ==> byId[id] == LastWith(direct, id, i)
    {
      byId := byId[direct[i].memoryId := direct[i]];
    }
  }

  lemma {:induction false} LastHasId(direct: seq<Candidate>, id: nat, n: nat)
    requires n <= |direct| && HasIdUpTo(direct, id, n)
    ensures LastWith(direct, id, n).memoryId == id
  {
    if direct[n - 1].memoryId != id {
      LastHasId(direct, id, n - 1);
    }
  }

  lemma MarkedStep(direct: seq<Candidate>, aggregated: seq<Aggregated>, n: nat)
    requires n < |aggregated|
    ensures forall id: nat :: HasIdUpTo(direct, id, |direct|) ==>
              var c := LastWith(direct, id, |direct|);
              Marked(c, aggregated, n + 1) == if aggregated[n].related == id then WithGraph(Marked(c, aggregated, n)) else Marked(c, aggregated, n)
  {
    forall id: nat | HasIdUpTo(direct, id, |direct|)
      ensures var c := LastWith(direct, id, |direct|);
              Marked(c, aggregated, n + 1) == if aggregated[n].related == id then WithGraph(Marked(c, aggregated, n)) else Marked(c, aggregated, n)
    {
      LastHasId(direct, id, |direct|);
    }
  }
}
