/** Putting the direct candidates in the order a reranking service returns
    (`rerank_direct_candidates`). Candidates without text keep their places. */
module Rerank {
  import opened Options
  import opened MemoryValidator

  datatype Result = Result(index: int, score: real)

  /** The positions below `n` that have a text to rerank, in order. */
  function Positions(hasText: seq<bool>, n: nat): (r: seq<nat>)
    requires n <= |hasText|
    ensures forall k :: 0 <= k < |r| ==> r[k] < n && hasText[r[k]]
  {
    if n == 0 then [] else Positions(hasText, n - 1) + if hasText[n - 1] then [n - 1] else []
  }

  lemma {:induction false} PositionsOrder(hasText: seq<bool>, n: nat, p: nat)
    requires p < n <= |hasText| && hasText[p]
    ensures |Positions(hasText, p)| < |Positions(hasText, n)| && Positions(hasText, n)[|Positions(hasText, p)|] == p
  {
    if p < n - 1 {
      PositionsOrder(hasText, n - 1, p);
    }
  }

  function Indices(results: seq<Result>): set<int> { set k | 0 <= k < |results| :: results[k].index }

  function Range(m: nat): (r: set<int>)
    ensures forall i :: i in r <==> 0 <= i < m
  {
    if m == 0 then {} else Range(m - 1) + {m - 1}
  }

  /** The service's answer names every document, as a set. */
  predicate Complete(results: seq<Result>, m: nat) { results != [] && Indices(results) == Range(m) }

  predicate DistinctIndices(results: seq<Result>, n: nat)
    requires n <= |results|
  {
    forall i, j :: 0 <= i < j < n ==> results[i].index != results[j].index
  }

  lemma {:induction false} RangeSize(m: nat)
    ensures |Range(m)| == m
  {
    if m > 0 {
      RangeSize(m - 1);
    }
  }

  lemma {:induction false} IndicesSize(results: seq<Result>)
    ensures |Indices(results)| <= |results|
    ensures |Indices(results)| == |results| ==> DistinctIndices(results, |results|)
    decreases |results|
  {
    if results == [] {
      assert Indices(results) == {};
    } else {
      var n := |results| - 1;
      var before := results[..n];
      IndicesSize(before);
      assert Indices(results) == Indices(before) + {results[n].index} by {
        forall i | i in Indices(results) ensures i in Indices(before) + {results[n].index} {
          var k :| 0 <= k < |results| && results[k].index == i;
          assert k < n ==> before[k] == results[k];
        }
        assert forall k :: 0 <= k < n ==> before[k] == results[k];
      }
      if |Indices(results)| == |results| {
        forall i, j | 0 <= i < j < |results| ensures results[i].index != results[j].index {
          assert before[i].index in Indices(before);
          assert j < n ==> before[j] == results[j];
        }
      }
    }
  }

  /** A complete answer is long enough: the output never runs out of it. */
  lemma CompleteIsLongEnough(results: seq<Result>, m: nat)
    requires Complete(results, m)
    ensures m <= |results|
    ensures |results| == m ==> DistinctIndices(results, m)
  {
    RangeSize(m);
    IndicesSize(results);
  }

  /** The answer that names every document once. */
  function PlainAnswer(m: nat): (r: seq<Result>)
    ensures |r| == m && forall k :: 0 <= k < m ==> r[k].index == k
  {
    if m == 0 then [] else PlainAnswer(m - 1) + [Result(m - 1, 0.0)]
  }

  /** A service that returns no more than the `limit` it was asked for can give a usable
      answer exactly when there are documents and all of them fit the limit: beyond it,
      reranking always falls back. */
  lemma RerankingIsPossibleExactly(m: nat, limit: nat)
    ensures (exists results: seq<Result> :: |results| <= limit && Complete(results, m)) <==> 0 < m <= limit
  {
    if results: seq<Result> :| |results| <= limit && Complete(results, m) {
      CompleteIsLongEnough(results, m);
      assert results[0].index in Range(m);
    }
    if 0 < m <= limit {
      var r := PlainAnswer(m);
      forall i | i in Range(m) ensures i in Indices(r) {
        assert r[i].index == i;
      }
      assert Complete(r, m);
    }
  }

  /** The last score given to a document. */
  function ScoreOf(results: seq<Result>, index: int, n: nat): Option<real>
    requires n <= |results|
  {
    if n == 0 then None
    else if results[n - 1].index == index then Some(results[n - 1].score)
    else ScoreOf(results, index, n - 1)
  }

  /** The score of a document is the one the answer gives it last. */
  lemma {:induction false} ScoreIsLast(results: seq<Result>, index: int, n: nat)
    requires n <= |results|
    ensures ScoreOf(results, index, n).None? <==> forall k :: 0 <= k < n ==> results[k].index != index
    ensures ScoreOf(results, index, n).Some? ==>
              exists k :: 0 <= k < n && results[k].index == index && ScoreOf(results, index, n) == Some(results[k].score)
                          && forall l :: k < l < n ==> results[l].index != index
  {
    if n > 0 && results[n - 1].index != index {
      ScoreIsLast(results, index, n - 1);
    }
  }

  /** What comes to position `p` of the output. */
  function OutputAt(cs: seq<Candidate>, hasText: seq<bool>, results: seq<Result>, p: nat): Candidate
    requires |cs| == |hasText| && p < |cs| && Complete(results, |Positions(hasText, |cs|)|)
  {
    if !hasText[p] then cs[p]
    else
      PositionsOrder(hasText, |cs|, p);
      CompleteIsLongEnough(results, |Positions(hasText, |cs|)|);
      var index := results[|Positions(hasText, p)|].index;
      assert index in Indices(results);
      cs[Positions(hasText, |cs|)[index]].(normalized := ScoreOf(results, index, |results|))
  }

  /** `rerank_direct_candidates`; no answer means that the service failed. */
  method RerankDirect(cs: seq<Candidate>, enabled: bool, hasText: seq<bool>, answer: Option<seq<Result>>)
    returns (output: seq<Candidate>, failed: bool)
    requires |cs| == |hasText|
    ensures var m := |Positions(hasText, |cs|)|;
            var applied := enabled && 0 < m && answer.Some? && Complete(answer.value, m);
            && (failed <==> enabled && 0 < m && !applied)
            && (!applied ==> output == cs)
            && (applied ==> |output| == |cs| && forall p :: 0 <= p < |cs| ==> output[p] == OutputAt(cs, hasText, answer.value, p))
  {
    var positions := Positions(hasText, |cs|);
    if !enabled || cs == [] || positions == [] {
      return cs, false;
    }
    if answer.None? || answer.value == [] || Indices(answer.value) != Range(|positions|) {
      return cs, true;
    }
    var results := answer.value;
    CompleteIsLongEnough(results, |positions|);
    output, failed := [], false;
    var scores: map<int, real> := map[];
    for n := 0 to |results|
      invariant forall index: int :: index in scores <==> ScoreOf(results, index, n).Some?
      invariant forall index: int :: index in scores ==> Some(scores[index]) == ScoreOf(results, index, n)
    {
      scores := scores[results[n].index := results[n].score];
    }
    var next := 0;
    for p := 0 to |cs|
      invariant next == |Positions(hasText, p)|
      invariant |output| == p && forall q :: 0 <= q < p ==> output[q] == OutputAt(cs, hasText, results, q)
    {
      if !hasText[p] {
        output := output + [cs[p]];
        continue;
      }
      PositionsOrder(hasText, |cs|, p);
      var index := results[next].index;
      assert index in Indices(results);
      ScoreIsLast(results, index, |results|);
      output := output + [cs[positions[index]].(normalized := Some(scores[index]))];
      next := next + 1;
    }
  }

  // ----- the output is a permutation -----

  /** Where the candidate at an output position comes from. */
  function SourceOf(cs: seq<Candidate>, hasText: seq<bool>, results: seq<Result>, p: nat): (q: nat)
    requires |cs| == |hasText| && p < |cs| && Complete(results, |Positions(hasText, |cs|)|)
    ensures q < |cs| && (hasText[p] <==> hasText[q])
    ensures OutputAt(cs, hasText, results, p).(normalized := None) == cs[q].(normalized := None)
    ensures !hasText[p] ==> q == p
  {
    if !hasText[p] then p
    else
      PositionsOrder(hasText, |cs|, p);
      CompleteIsLongEnough(results, |Positions(hasText, |cs|)|);
      var index := results[|Positions(hasText, p)|].index;
      assert index in Indices(results);
      Positions(hasText, |cs|)[index]
  }

  lemma {:induction false} PositionsIncrease(hasText: seq<bool>, n: nat)
    requires n <= |hasText|
    ensures forall i, j :: 0 <= i < j < |Positions(hasText, n)| ==> Positions(hasText, n)[i] < Positions(hasText, n)[j]
  {
    if n > 0 {
      PositionsIncrease(hasText, n - 1);
    }
  }

  /** Two output positions take the same candidate only if the service repeated itself. */
  lemma SourcesDiffer(cs: seq<Candidate>, hasText: seq<bool>, results: seq<Result>, p: nat, q: nat)
    requires |cs| == |hasText| && p < q < |cs| && Complete(results, |Positions(hasText, |cs|)|)
    requires |Positions(hasText, |cs|)| <= |results| && DistinctIndices(results, |Positions(hasText, |cs|)|)
    ensures SourceOf(cs, hasText, results, p) != SourceOf(cs, hasText, results, q)
  {
    if hasText[p] && hasText[q] {
      var all := Positions(hasText, |cs|);
      PositionsOrder(hasText, |cs|, p);
      PositionsOrder(hasText, |cs|, q);
      PositionsIncrease(hasText, |cs|);
      var i, j := |Positions(hasText, p)|, |Positions(hasText, q)|;
      assert i != j;
      var a, b := results[i].index, results[j].index;
      assert a in Indices(results) && b in Indices(results) && a != b;
    }
  }

  /** With distinct candidates the output has distinct candidates exactly when the first
      answers, one per document, are distinct. */
  lemma OutputDistinctExactly(cs: seq<Candidate>, hasText: seq<bool>, results: seq<Result>, output: seq<Candidate>)
    requires |cs| == |hasText| == |output| && Complete(results, |Positions(hasText, |cs|)|) && DistinctIds(cs)
    requires forall p :: 0 <= p < |cs| ==> output[p] == OutputAt(cs, hasText, results, p)
    ensures |Positions(hasText, |cs|)| <= |results|
    ensures DistinctIds(output) <==> DistinctIndices(results, |Positions(hasText, |cs|)|)
  {
    var all := Positions(hasText, |cs|);
    CompleteIsLongEnough(results, |all|);
    if DistinctIndices(results, |all|) {
      forall p, q | 0 <= p < q < |output| ensures output[p].memoryId != output[q].memoryId {
        SourcesDiffer(cs, hasText, results, p, q);
        assert output[p].memoryId == cs[SourceOf(cs, hasText, results, p)].memoryId;
        assert output[q].memoryId == cs[SourceOf(cs, hasText, results, q)].memoryId;
      }
    } else {
      var i, j :| 0 <= i < j < |all| && results[i].index == results[j].index;
      var p, q := all[i], all[j];
      PositionsIncrease(hasText, |cs|);
      PositionRank(hasText, |cs|, i);
      PositionRank(hasText, |cs|, j);
      assert output[p].memoryId == output[q].memoryId && p < q;
    }
  }

  lemma {:induction false} PositionRank(hasText: seq<bool>, n: nat, i: nat)
    requires n <= |hasText| && i < |Positions(hasText, n)|
    ensures |Positions(hasText, Positions(hasText, n)[i])| == i
  {
    if i < |Positions(hasText, n - 1)| {
      PositionRank(hasText, n - 1, i);
    }
  }

  lemma {:induction false} DistinctSize(results: seq<Result>)
    requires DistinctIndices(results, |results|)
    ensures |Indices(results)| == |results|
    decreases |results|
  {
    if results == [] {
      assert Indices(results) == {};
    } else {
      var n := |results| - 1;
      var before := results[..n];
      DistinctSize(before);
      assert results[n].index !in Indices(before);
      assert Indices(results) == Indices(before) + {results[n].index} by {
        forall i | i in Indices(results) ensures i in Indices(before) + {results[n].index} {
          var k :| 0 <= k < |results| && results[k].index == i;
          assert k < n ==> before[k] == results[k];
        }
        assert forall k :: 0 <= k < n ==> before[k] == results[k];
      }
    }
  }

  /** If the service does not repeat itself, every candidate comes to some position. */
  lemma OutputCovers(cs: seq<Candidate>, hasText: seq<bool>, results: seq<Result>, q: nat) returns (p: nat)
    requires |cs| == |hasText| && q < |cs| && Complete(results, |Positions(hasText, |cs|)|) && DistinctIndices(results, |results|)
    ensures p < |cs| && SourceOf(cs, hasText, results, p) == q
  {
    if !hasText[q] {
      return q;
    }
    var all := Positions(hasText, |cs|);
    PositionsOrder(hasText, |cs|, q);
    var x := |Positions(hasText, q)|;
    assert x in Indices(results);
    var k :| 0 <= k < |results| && results[k].index == x;
    DistinctSize(results);
    RangeSize(|all|);
    p := all[k];
    PositionRank(hasText, |cs|, k);
  }

  /** Two documents and an answer that names the first one twice before the second: the first
      memory is returned twice and the second not at all. */
  lemma RepeatedAnswerRepeatsAMemory(a: Candidate, b: Candidate)
    ensures var cs, hasText := [a, b], [true, true];
            var answer := [Result(0, 1.0), Result(0, 1.0), Result(1, 0.5)];
            && Complete(answer, |Positions(hasText, 2)|)
            && OutputAt(cs, hasText, answer, 0).memoryId == a.memoryId
            && OutputAt(cs, hasText, answer, 1).memoryId == a.memoryId
  {
    var hasText := [true, true];
    var answer := [Result(0, 1.0), Result(0, 1.0), Result(1, 0.5)];
    assert Positions(hasText, 1) == [0] && Positions(hasText, 2) == [0, 1];
    assert Range(2) == {0, 1} && answer[0].index == 0 && answer[2].index == 1;
    assert Indices(answer) == {0, 1};
  }
}
