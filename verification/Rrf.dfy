/** Reciprocal rank fusion of the two retrieval channels (`fuse_rrf`), over rationals.
    Memory ids are numbered in their string order. */
module Rrf {
  import opened Options
  import opened Sorting

  /** Ranks count from 1. */
  datatype Hit = Hit(memoryId: nat, rank: nat, score: real)

  datatype Channel =
    | Hits(hits: seq<Hit>)
    | ChannelFailure
    | QueryTooLong
    | UnknownFailure
    | OtherFailure

  datatype Mode = Hybrid | Bm25Only | VectorOnly | NoChannel

  datatype Fused = Fused(
    memoryId: nat, bm25Rank: Option<nat>, vectorRank: Option<nat>, score: real, minRank: nat, normalized: real)

  datatype Outcome = BothUnavailable | Success(mode: Mode, candidates: seq<Fused>)

  predicate IsChannelFailure(c: Channel) { c.ChannelFailure? || c.QueryTooLong? || c.UnknownFailure? }

  predicate DistinctHits(hits: seq<Hit>) { forall i, j :: 0 <= i < j < |hits| ==> hits[i].memoryId != hits[j].memoryId }

  /** A channel counts if it found something and lists no memory twice. */
  predicate Effective(c: Channel) { c.Hits? && c.hits != [] && DistinctHits(c.hits) }

  predicate RanksPositive(c: Channel) { c.Hits? ==> forall i :: 0 <= i < |c.hits| ==> 0 < c.hits[i].rank }

  predicate Lists(c: Channel, id: nat) { Effective(c) && exists i :: 0 <= i < |c.hits| && c.hits[i].memoryId == id }

  /** The rank map of a channel agrees with its hits. */
  ghost predicate RanksOf(c: Channel, ranks: map<nat, nat>) {
    && (forall id :: id in ranks <==> Lists(c, id))
    && (Effective(c) ==> forall i :: 0 <= i < |c.hits| ==> c.hits[i].memoryId in ranks && ranks[c.hits[i].memoryId] == c.hits[i].rank)
  }

  /** `_effective_channel_maps`. */
  method EffectiveChannelMap(c: Channel) returns (effective: bool, ranks: map<nat, nat>)
    ensures effective <==> Effective(c)
    ensures RanksOf(c, ranks)
  {
    if !c.Hits? || c.hits == [] {
      return false, map[];
    }
    ranks := map[];
    for n := 0 to |c.hits|
      invariant forall i, j :: 0 <= i < j < n ==> c.hits[i].memoryId != c.hits[j].memoryId
      invariant forall i :: 0 <= i < n ==> c.hits[i].memoryId in ranks && ranks[c.hits[i].memoryId] == c.hits[i].rank
      invariant forall id :: id in ranks ==> exists i :: 0 <= i < n && c.hits[i].memoryId == id
    {
      if c.hits[n].memoryId in ranks {
        return false, map[];
      }
      ranks := ranks[c.hits[n].memoryId := c.hits[n].rank];
    }
    effective := true;
  }

  // ----- scores -----

  function Reciprocal(rank: nat, k: nat): real
    requires 0 < k + rank
  {
    1.0 / (k + rank) as real
  }

  function Share(rank: Option<nat>, k: nat): real {
    if rank.Some? && 0 < k + rank.value then Reciprocal(rank.value, k) else 0.0
  }

  /** `_compute_rrf_score`. */
  function Score(bm25: Option<nat>, vector: Option<nat>, k: nat): real { Share(bm25, k) + Share(vector, k) }

  /** The largest score the effective channels can give. */
  function MaxScore(channels: nat, k: nat): real { channels as real / (k + 1) as real }

  predicate Positive(rank: Option<nat>) { rank.Some? ==> 0 < rank.value }

  lemma Sign(u: real, m: real)
    requires m > 0.0
    ensures u * m > 0.0 <==> u > 0.0
    ensures u * m == 0.0 <==> u == 0.0
  {
  }

  lemma ReciprocalOrder(a: real, b: real)
    requires 0.0 < a <= b
    ensures 0.0 < 1.0 / b <= 1.0 / a
    ensures 1.0 / b == 1.0 / a <==> a == b
  {
    var x := 1.0 / (a * b);
    Sign(a, b);
    Sign(x, a * b);
    assert b * x == 1.0 / a && a * x == 1.0 / b;
    Sign(b - a, x);
    assert (b - a) * x == b * x - a * x;
    Sign(a, x);
  }

  lemma ReciprocalBounds(rank: nat, k: nat)
    requires 0 < rank
    ensures 0.0 < Reciprocal(rank, k) <= Reciprocal(1, k)
    ensures Reciprocal(rank, k) == Reciprocal(1, k) <==> rank == 1
  {
    ReciprocalOrder((k + 1) as real, (k + rank) as real);
  }

  lemma Quotient(x: real, channels: nat, k: nat)
    requires 0 < channels
    ensures MaxScore(channels, k) > 0.0
    ensures x / MaxScore(channels, k) <= 1.0 <==> x <= MaxScore(channels, k)
    ensures x / MaxScore(channels, k) == 1.0 <==> x == MaxScore(channels, k)
    ensures x > 0.0 ==> x / MaxScore(channels, k) > 0.0
  {
    var m := MaxScore(channels, k);
    assert m > 0.0;
    var q := x / m;
    assert q * m == x;
    Sign(q - 1.0, m);
    assert (q - 1.0) * m == x - m;
    Sign(q, m);
  }

  /** The normalised score lies in (0, 1] without the cap, and is 1 exactly for a memory
      that is first in every effective channel. */
  lemma NormalizedScore(bm25On: bool, vectorOn: bool, bm25: Option<nat>, vector: Option<nat>, k: nat)
    requires Positive(bm25) && Positive(vector) && (bm25.Some? || vector.Some?)
    requires (bm25.Some? ==> bm25On) && (vector.Some? ==> vectorOn)
    ensures var channels := (if bm25On then 1 else 0) + if vectorOn then 1 else 0;
            var q := Score(bm25, vector, k) / MaxScore(channels, k);
            0.0 < q <= 1.0 && (q == 1.0 <==> (bm25On ==> bm25 == Some(1)) && (vectorOn ==> vector == Some(1)))
  {
    var channels := (if bm25On then 1 else 0) + if vectorOn then 1 else 0;
    assert MaxScore(channels, k) == channels as real * Reciprocal(1, k);
    if bm25.Some? {
      ReciprocalBounds(bm25.value, k);
    }
    if vector.Some? {
      ReciprocalBounds(vector.value, k);
    }
    ReciprocalBounds(1, k);
    Quotient(Score(bm25, vector, k), channels, k);
  }

  /** `a` is at least as good a rank as `b`; not being ranked is the worst. */
  predicate AtLeastAsGood(a: Option<nat>, b: Option<nat>) { b.Some? ==> a.Some? && a.value <= b.value }

  lemma ShareIsMonotone(a: Option<nat>, b: Option<nat>, k: nat)
    requires Positive(a) && Positive(b) && AtLeastAsGood(a, b)
    ensures Share(b, k) <= Share(a, k)
  {
    if a.Some? {
      ReciprocalBounds(a.value, k);
    }
    if b.Some? {
      ReciprocalOrder((k + a.value) as real, (k + b.value) as real);
    }
  }

  /** A memory ranked at least as well in every channel never scores lower. */
  lemma BetterRanksScoreNoLower(bm25: Option<nat>, vector: Option<nat>, bm25': Option<nat>, vector': Option<nat>, k: nat)
    requires Positive(bm25) && Positive(vector) && Positive(bm25') && Positive(vector')
    requires AtLeastAsGood(bm25, bm25') && AtLeastAsGood(vector, vector')
    ensures Score(bm25', vector', k) <= Score(bm25, vector, k)
  {
    ShareIsMonotone(bm25, bm25', k);
    ShareIsMonotone(vector, vector', k);
  }

  // ----- fusion -----

  function Lookup(ranks: map<nat, nat>, id: nat): Option<nat> { if id in ranks then Some(ranks[id]) else None }

  /** A score as a share of the best possible one. */
  function OfMax(score: real, channels: nat, k: nat): real
    requires 0 < channels
  {
    Quotient(score, channels, k);
    score / MaxScore(channels, k)
  }

  function FusedOf(id: nat, bm25: map<nat, nat>, vector: map<nat, nat>, k: nat, channels: nat): Fused
    requires id in bm25 || id in vector
    requires 0 < channels
  {
    var b, v := Lookup(bm25, id), Lookup(vector, id);
    var score := Score(b, v, k);
    var q := OfMax(score, channels, k);
    Fused(id, b, v, score,
          if b.None? then v.value else if v.None? || b.value <= v.value then b.value else v.value,
          if q < 1.0 then q else 1.0)
  }

  /** The final order: higher score, then better rank, then id. */
  predicate Precedes(a: Fused, b: Fused) {
    a.score > b.score || (a.score == b.score && (a.minRank < b.minRank || (a.minRank == b.minRank && a.memoryId <= b.memoryId)))
  }

  /** The best `topN` of the fused memories, in order. */
  ghost predicate IsTop(cs: seq<Fused>, ids: set<nat>, bm25: map<nat, nat>, vector: map<nat, nat>, k: nat, channels: nat, topN: nat)
    requires 0 < channels && forall id :: id in ids ==> id in bm25 || id in vector
  {
    && |cs| == (if topN < |ids| then topN else |ids|)
    && (forall i :: 0 <= i < |cs| ==> cs[i].memoryId in ids && cs[i] == FusedOf(cs[i].memoryId, bm25, vector, k, channels))
    && (forall i, j :: 0 <= i < j < |cs| ==> Precedes(cs[i], cs[j]) && cs[i].memoryId != cs[j].memoryId)
    && (forall id, i :: id in ids && (forall j :: 0 <= j < |cs| ==> cs[j].memoryId != id) && 0 <= i < |cs| ==>
          Precedes(cs[i], FusedOf(id, bm25, vector, k, channels)))
  }

  ghost predicate IsFusion(r: Outcome, bm25: Channel, vector: Channel, k: nat, topN: nat)
    requires r.Success? && !r.mode.NoChannel?
  {
    exists b, v :: RanksOf(bm25, b) && RanksOf(vector, v)
                   && IsTop(r.candidates, b.Keys + v.Keys, b, v, k, if r.mode.Hybrid? then 2 else 1, topN)
  }

  lemma PrecedesOrders()
    ensures Ordering(Precedes)
  {
  }

  /** Every memory of either channel, once. */
  ghost predicate IsAll(all: seq<Fused>, ids: set<nat>, bm25: map<nat, nat>, vector: map<nat, nat>, k: nat, channels: nat)
    requires 0 < channels && forall id :: id in ids ==> id in bm25 || id in vector
  {
    && |all| == |ids| && Distinct(all)
    && (forall i :: 0 <= i < |all| ==> all[i].memoryId in ids && all[i] == FusedOf(all[i].memoryId, bm25, vector, k, channels))
    && (forall id :: id in ids ==> FusedOf(id, bm25, vector, k, channels) in all)
  }

  lemma SortedIsAll(all: seq<Fused>, ids: set<nat>, bm25: map<nat, nat>, vector: map<nat, nat>, k: nat, channels: nat)
    requires 0 < channels && (forall id :: id in ids ==> id in bm25 || id in vector) && IsAll(all, ids, bm25, vector, k, channels)
    ensures IsAll(Sort(all, Precedes), ids, bm25, vector, k, channels) && SortedBy(Sort(all, Precedes), Precedes)
  {
    PrecedesOrders();
    SortIs(all, Precedes);
    SortMembers(all, Precedes);
    SortDistinct(all, Precedes);
    var sorted := Sort(all, Precedes);
    forall i | 0 <= i < |sorted| ensures sorted[i].memoryId in ids && sorted[i] == FusedOf(sorted[i].memoryId, bm25, vector, k, channels) {
      assert sorted[i] in all;
    }
  }

  lemma CutComesLater(sorted: seq<Fused>, n: nat, f: Fused, i: nat)
    requires i < n <= |sorted| && SortedBy(sorted, Precedes) && f in sorted
    requires forall j :: 0 <= j < n ==> sorted[j].memoryId != f.memoryId
    ensures Precedes(sorted[i], f)
  {
    var l :| 0 <= l < |sorted| && sorted[l] == f;
    assert n <= l;
  }

  /** Cutting the sorted memories after `topN` keeps the best ones. */
  lemma CutIsTop(sorted: seq<Fused>, ids: set<nat>, bm25: map<nat, nat>, vector: map<nat, nat>, k: nat, channels: nat, topN: nat)
    requires 0 < channels && (forall id :: id in ids ==> id in bm25 || id in vector)
    requires IsAll(sorted, ids, bm25, vector, k, channels) && SortedBy(sorted, Precedes)
    ensures IsTop(if topN < |sorted| then sorted[..topN] else sorted, ids, bm25, vector, k, channels, topN)
  {
    var cut := if topN < |sorted| then sorted[..topN] else sorted;
    forall i, j | 0 <= i < j < |cut| ensures Precedes(cut[i], cut[j]) && cut[i].memoryId != cut[j].memoryId {
      assert sorted[i] != sorted[j];
    }
    forall id, i | id in ids && (forall j :: 0 <= j < |cut| ==> cut[j].memoryId != id) && 0 <= i < |cut|
      ensures Precedes(cut[i], FusedOf(id, bm25, vector, k, channels))
    {
      CutComesLater(sorted, |cut|, FusedOf(id, bm25, vector, k, channels), i);
    }
  }

  function ChannelCount(bm25: Channel, vector: Channel): nat {
    (if Effective(bm25) then 1 else 0) + if Effective(vector) then 1 else 0
  }

  /** In every fusion of channels that count ranks from 1, each candidate's normalised score
      is its score over the best possible one, never capped, in (0, 1], and 1 exactly for a
      memory that every effective channel ranks first. */
  lemma FusionIsNormalized(r: Outcome, bm25: Channel, vector: Channel, k: nat, topN: nat, i: nat)
    requires r.Success? && !r.mode.NoChannel? && IsFusion(r, bm25, vector, k, topN) && i < |r.candidates|
    requires 0 < ChannelCount(bm25, vector) && (r.mode.Hybrid? <==> ChannelCount(bm25, vector) == 2)
    requires RanksPositive(bm25) && RanksPositive(vector)
    ensures var c := r.candidates[i];
            && c.normalized == OfMax(c.score, ChannelCount(bm25, vector), k)
            && 0.0 < c.normalized <= 1.0
            && (c.normalized == 1.0 <==>
                (Effective(bm25) ==> c.bm25Rank == Some(1)) && (Effective(vector) ==> c.vectorRank == Some(1)))
  {
    var c, channels := r.candidates[i], ChannelCount(bm25, vector);
    var b, v :| RanksOf(bm25, b) && RanksOf(vector, v) && IsTop(r.candidates, b.Keys + v.Keys, b, v, k, channels, topN);
    assert c == FusedOf(c.memoryId, b, v, k, channels);
    RankIsPositive(bm25, b, c.memoryId);
    RankIsPositive(vector, v, c.memoryId);
    NormalizedScore(Effective(bm25), Effective(vector), c.bm25Rank, c.vectorRank, k);
  }

  /** The score is the sum of the reciprocals of k plus the ranks, the minimum rank the better
      of them. */
  ghost predicate IsReciprocalSum(c: Fused, k: nat) {
    && (c.bm25Rank.Some? ==> 0 < c.bm25Rank.value) && (c.vectorRank.Some? ==> 0 < c.vectorRank.value)
    && c.score == (if c.bm25Rank.Some? then 1.0 / (k + c.bm25Rank.value) as real else 0.0)
                  + (if c.vectorRank.Some? then 1.0 / (k + c.vectorRank.value) as real else 0.0)
    && (Some(c.minRank) == c.bm25Rank || Some(c.minRank) == c.vectorRank)
    && (c.bm25Rank.Some? ==> c.minRank <= c.bm25Rank.value) && (c.vectorRank.Some? ==> c.minRank <= c.vectorRank.value)
  }

  lemma FusedOfIs(id: nat, bm25: map<nat, nat>, vector: map<nat, nat>, k: nat, channels: nat)
    requires (id in bm25 || id in vector) && 0 < channels
    requires Positive(Lookup(bm25, id)) && Positive(Lookup(vector, id))
    ensures IsReciprocalSum(FusedOf(id, bm25, vector, k, channels), k)
  {
  }

  /** What the fusion says of a memory: its rank in each effective channel that lists it, and
      its score. */
  lemma FusedIs(r: Outcome, bm25: Channel, vector: Channel, k: nat, topN: nat, i: nat)
    requires r.Success? && !r.mode.NoChannel? && IsFusion(r, bm25, vector, k, topN) && i < |r.candidates|
    requires RanksPositive(bm25) && RanksPositive(vector)
    ensures var c := r.candidates[i];
            IsRank(bm25, c.memoryId, c.bm25Rank) && IsRank(vector, c.memoryId, c.vectorRank) && IsReciprocalSum(c, k)
  {
    var id, channels := r.candidates[i].memoryId, if r.mode.Hybrid? then 2 else 1;
    var b, v :| RanksOf(bm25, b) && RanksOf(vector, v) && IsTop(r.candidates, b.Keys + v.Keys, b, v, k, channels, topN);
    RankIsPositive(bm25, b, id);
    RankIsPositive(vector, v, id);
    LookedUp(bm25, b, id);
    LookedUp(vector, v, id);
    FusedOfIs(id, b, v, k, channels);
  }

  /** The rank under which an effective channel lists the memory, if it does. */
  ghost predicate IsRank(c: Channel, id: nat, rank: Option<nat>) {
    if rank.None? then Effective(c) ==> forall i :: 0 <= i < |c.hits| ==> c.hits[i].memoryId != id
    else Effective(c) && exists i :: 0 <= i < |c.hits| && c.hits[i].memoryId == id && c.hits[i].rank == rank.value
  }

  lemma LookedUp(c: Channel, ranks: map<nat, nat>, id: nat)
    requires RanksOf(c, ranks)
    ensures IsRank(c, id, Lookup(ranks, id))
  {
    if id in ranks {
      assert Lists(c, id);
      var i :| 0 <= i < |c.hits| && c.hits[i].memoryId == id;
      assert ranks[c.hits[i].memoryId] == c.hits[i].rank;
    } else if Effective(c) {
      assert !Lists(c, id);
    }
  }

  /** The order of the fusion: a higher score first, among equal scores the better rank, among
      equal ranks the smaller id; no memory twice; and every memory of an effective channel is
      there unless the limit is reached. */
  lemma FusionIsOrdered(r: Outcome, bm25: Channel, vector: Channel, k: nat, topN: nat)
    requires r.Success? && !r.mode.NoChannel? && IsFusion(r, bm25, vector, k, topN)
    ensures |r.candidates| <= topN
    ensures forall i, j :: 0 <= i < j < |r.candidates| ==>
              var a, b := r.candidates[i], r.candidates[j];
              && a.score >= b.score && (a.score == b.score ==> a.minRank <= b.minRank)
              && (a.score == b.score && a.minRank == b.minRank ==> a.memoryId < b.memoryId) && a.memoryId != b.memoryId
    ensures |r.candidates| < topN ==>
              forall id :: Lists(bm25, id) || Lists(vector, id) ==> exists i :: 0 <= i < |r.candidates| && r.candidates[i].memoryId == id
  {
    var b, v :| RanksOf(bm25, b) && RanksOf(vector, v) && IsTop(r.candidates, b.Keys + v.Keys, b, v, k, if r.mode.Hybrid? then 2 else 1, topN);
    if |r.candidates| < topN {
      AllFound(r.candidates, b.Keys + v.Keys);
    }
  }

  lemma {:induction false} FoundSize(cs: seq<Fused>, n: nat)
    requires n <= |cs| && forall i, j :: 0 <= i < j < |cs| ==> cs[i].memoryId != cs[j].memoryId
    ensures |set i | 0 <= i < n :: cs[i].memoryId| == n
  {
    if n > 0 {
      FoundSize(cs, n - 1);
      assert (set i | 0 <= i < n :: cs[i].memoryId) == (set i | 0 <= i < n - 1 :: cs[i].memoryId) + {cs[n - 1].memoryId};
    }
  }

  lemma AllFound(cs: seq<Fused>, ids: set<nat>)
    requires |cs| == |ids| && (forall i :: 0 <= i < |cs| ==> cs[i].memoryId in ids)
    requires forall i, j :: 0 <= i < j < |cs| ==> cs[i].memoryId != cs[j].memoryId
    ensures forall id :: id in ids ==> exists i :: 0 <= i < |cs| && cs[i].memoryId == id
  {
    var found := set i | 0 <= i < |cs| :: cs[i].memoryId;
    FoundSize(cs, |cs|);
    SubsetOfSameSize(found, ids);
  }

  lemma SubsetOfSameSize(a: set<nat>, b: set<nat>)
    requires a <= b && |a| == |b|
    ensures a == b
  {
    assert |b| == |a| + |b - a| by {
      assert b == a + (b - a);
    }
  }
  lemma RankIsPositive(c: Channel, ranks: map<nat, nat>, id: nat)
    requires RanksOf(c, ranks) && RanksPositive(c)
    ensures Positive(Lookup(ranks, id)) && (Lookup(ranks, id).Some? ==> Effective(c))
  {
    if id in ranks {
      var i :| 0 <= i < |c.hits| && c.hits[i].memoryId == id;
      assert ranks[c.hits[i].memoryId] == c.hits[i].rank;
    }
  }

  /** One candidate for every memory of either channel, in some order. */
  method FuseAll(ids: set<nat>, bm25: map<nat, nat>, vector: map<nat, nat>, k: nat, channels: nat) returns (all: seq<Fused>)
    requires 0 < channels && forall id :: id in ids ==> id in bm25 || id in vector
    ensures IsAll(all, ids, bm25, vector, k, channels)
  {
    all := [];
    var left := ids;
    while left != {}
      invariant left <= ids && |all| + |left| == |ids| && Distinct(all)
      invariant forall i :: 0 <= i < |all| ==> all[i].memoryId in ids - left && all[i] == FusedOf(all[i].memoryId, bm25, vector, k, channels)
      invariant forall id :: id in ids && id !in left ==> FusedOf(id, bm25, vector, k, channels) in all
      decreases left
    {
      var id :| id in left;
      ghost var before := all;
      all, left := all + [FusedOf(id, bm25, vector, k, channels)], left - {id};
      assert all[|before|] == FusedOf(id, bm25, vector, k, channels);
      assert forall x :: x in before ==> x in all;
    }
  }

  method TopFused(ids: set<nat>, bm25: map<nat, nat>, vector: map<nat, nat>, k: nat, channels: nat, topN: nat) returns (top: seq<Fused>)
    requires 0 < channels && forall id :: id in ids ==> id in bm25 || id in vector
    ensures IsTop(top, ids, bm25, vector, k, channels, topN)
  {
    var all := FuseAll(ids, bm25, vector, k, channels);
    SortedIsAll(all, ids, bm25, vector, k, channels);
    var sorted := Sort(all, Precedes);
    CutIsTop(sorted, ids, bm25, vector, k, channels, topN);
    top := if topN < |sorted| then sorted[..topN] else sorted;
  }

  /** `fuse_rrf`. */
  method FuseRrf(bm25: Channel, vector: Channel, k: nat, topN: nat) returns (r: Outcome)
    ensures r.BothUnavailable? <==> IsChannelFailure(bm25) && IsChannelFailure(vector)
    ensures r.BothUnavailable? <==>
              && (bm25 == ChannelFailure || bm25 == QueryTooLong || bm25 == UnknownFailure)
              && (vector == ChannelFailure || vector == QueryTooLong || vector == UnknownFailure)
    ensures r.Success? ==> r.mode == if Effective(bm25) && Effective(vector) then Hybrid else if Effective(bm25) then Bm25Only
                                     else if Effective(vector) then VectorOnly else NoChannel
    ensures r.Success? && r.mode.NoChannel? ==> r.candidates == []
    ensures r.Success? && !r.mode.NoChannel? ==> IsFusion(r, bm25, vector, k, topN)
  {
    var bm25On, b := EffectiveChannelMap(bm25);
    var vectorOn, v := EffectiveChannelMap(vector);
    var channels := (if bm25On then 1 else 0) + if vectorOn then 1 else 0;
    if channels == 0 {
      if IsChannelFailure(bm25) && IsChannelFailure(vector) {
        return BothUnavailable;
      }
      return Success(NoChannel, []);
    }
    var mode := if bm25On && vectorOn then Hybrid else if bm25On then Bm25Only else VectorOnly;
    var ids := b.Keys + v.Keys;
    var candidates := TopFused(ids, b, v, k, channels, topN);
    r := Success(mode, candidates);
  }
}
