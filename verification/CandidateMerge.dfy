/** Merging equal candidates of one extraction (`_merge_duplicate_memories`), and when two
    of the merged ones still share a fingerprint, and with it an evidence id. */
module CandidateMerge {

  /** A candidate: what it states, how confident, from which messages, and how late. */
  datatype Memory = Memory(statement: string, confidence: real, sources: set<string>, time: int)

  /** `_memory_equivalence_key`: everything but sources and time. */
  datatype Key = Key(statement: string, confidence: real)

  /** The fingerprint is a digest of statement and sources, taken as injective; it leaves
      out the confidence. */
  datatype Fingerprint = Fingerprint(statement: string, sources: set<string>)

  function KeyOf(m: Memory): Key { Key(m.statement, m.confidence) }

  function FingerprintOf(m: Memory): Fingerprint { Fingerprint(m.statement, m.sources) }

  /** All sources, and the latest time, of the first `n` candidates with a key. */
  function SourcesOf(ms: seq<Memory>, k: Key, n: nat): set<string>
    requires n <= |ms|
  {
    if n == 0 then {} else SourcesOf(ms, k, n - 1) + if KeyOf(ms[n - 1]) == k then ms[n - 1].sources else {}
  }

  predicate HasKey(ms: seq<Memory>, k: Key, n: nat)
    requires n <= |ms|
  {
    exists i :: 0 <= i < n && KeyOf(ms[i]) == k
  }

  function LatestOf(ms: seq<Memory>, k: Key, n: nat): int
    requires n <= |ms| && HasKey(ms, k, n)
  {
    if KeyOf(ms[n - 1]) != k then LatestOf(ms, k, n - 1)
    else if !HasKey(ms, k, n - 1) then ms[n - 1].time
    else
      var before := LatestOf(ms, k, n - 1);
      if before < ms[n - 1].time then ms[n - 1].time else before
  }

  lemma {:induction false} NoSources(ms: seq<Memory>, k: Key, n: nat)
    requires n <= |ms| && !HasKey(ms, k, n)
    ensures SourcesOf(ms, k, n) == {}
  {
    if n > 0 {
      NoSources(ms, k, n - 1);
    }
  }

  /** One entry per key, with all sources of the key and its latest time. */
  ghost predicate IsMerged(ms: seq<Memory>, n: nat, merged: seq<Memory>)
    requires n <= |ms|
  {
    && (forall i, j :: 0 <= i < j < |merged| ==> KeyOf(merged[i]) != KeyOf(merged[j]))
    && (forall i :: 0 <= i < |merged| ==>
          (HasKey(ms, KeyOf(merged[i]), n) && merged[i].sources == SourcesOf(ms, KeyOf(merged[i]), n)
           && merged[i].time == LatestOf(ms, KeyOf(merged[i]), n)))
    && (forall i :: 0 <= i < n ==> Listed(merged, KeyOf(ms[i])))
  }

  predicate Listed(merged: seq<Memory>, k: Key) { exists i :: 0 <= i < |merged| && KeyOf(merged[i]) == k }

  /** `a` with the sources of `b`, and the later time. */
  function Combined(a: Memory, b: Memory): Memory {
    a.(sources := a.sources + b.sources, time := if a.time < b.time then b.time else a.time)
  }

  /** The dictionary from keys to places in the list. */
  ghost predicate Indexed(merged: seq<Memory>, indexByKey: map<Key, nat>) {
    && (forall k :: k in indexByKey ==> indexByKey[k] < |merged| && KeyOf(merged[indexByKey[k]]) == k)
    && (forall i :: 0 <= i < |merged| ==> KeyOf(merged[i]) in indexByKey)
  }

  /** `_merge_duplicate_memories`: the list is extended, or its entry replaced in place. */
  method MergeDuplicates(ms: seq<Memory>) returns (merged: seq<Memory>)
    ensures IsMerged(ms, |ms|, merged)
  {
    merged := [];
    var indexByKey: map<Key, nat> := map[];
    for n := 0 to |ms|
      invariant IsMerged(ms, n, merged) && Indexed(merged, indexByKey)
    {
      ghost var before := merged;
      merged, indexByKey := Merge(merged, indexByKey, ms[n]);
      MergeStep(ms, n, before, merged);
    }
  }

  ghost predicate IsStep(before: seq<Memory>, m: Memory, merged: seq<Memory>) {
    if Listed(before, KeyOf(m)) then exists i :: 0 <= i < |before| && KeyOf(before[i]) == KeyOf(m) && merged == before[i := Combined(before[i], m)]
    else merged == before + [m]
  }

  method Merge(merged: seq<Memory>, indexByKey: map<Key, nat>, m: Memory) returns (merged': seq<Memory>, indexByKey': map<Key, nat>)
    requires Indexed(merged, indexByKey)
    ensures Indexed(merged', indexByKey') && IsStep(merged, m, merged')
  {
    var k := KeyOf(m);
    if k !in indexByKey {
      merged', indexByKey' := merged + [m], indexByKey[k := |merged|];
    } else {
      var i := indexByKey[k];
      merged', indexByKey' := merged[i := Combined(merged[i], m)], indexByKey;
    }
  }

  lemma KeyListed(ms: seq<Memory>, n: nat, merged: seq<Memory>, k: Key)
    requires n <= |ms| && IsMerged(ms, n, merged)
    ensures HasKey(ms, k, n) <==> Listed(merged, k)
  {
    if HasKey(ms, k, n) {
      var i :| 0 <= i < n && KeyOf(ms[i]) == k;
      assert Listed(merged, KeyOf(ms[i]));
    }
  }

  lemma StaysListed(m: Memory, before: seq<Memory>, merged: seq<Memory>, k: Key)
    requires IsStep(before, m, merged) && (Listed(before, k) || k == KeyOf(m))
    ensures Listed(merged, k)
  {
    if Listed(before, k) {
      var j :| 0 <= j < |before| && KeyOf(before[j]) == k;
      assert KeyOf(merged[j]) == k;
    } else {
      assert merged[|before|] == m;
    }
  }

  lemma MergeStep(ms: seq<Memory>, n: nat, before: seq<Memory>, merged: seq<Memory>)
    requires n < |ms| && IsMerged(ms, n, before) && IsStep(before, ms[n], merged)
    ensures IsMerged(ms, n + 1, merged)
  {
    var k := KeyOf(ms[n]);
    KeyListed(ms, n, before, k);
    if !Listed(before, k) {
      assert merged[|before|] == ms[n];
      NoSources(ms, k, n);
    }
    forall i | 0 <= i < n + 1 ensures Listed(merged, KeyOf(ms[i])) {
      StaysListed(ms[n], before, merged, KeyOf(ms[i]));
    }
  }

  predicate DistinctFingerprints(merged: seq<Memory>) {
    forall i, j :: 0 <= i < j < |merged| ==> FingerprintOf(merged[i]) != FingerprintOf(merged[j])
  }

  /** Two candidates that state the same with different confidence, from the same messages
      once equal ones are put together. */
  ghost predicate OnlyConfidenceDiffers(ms: seq<Memory>, i: nat, j: nat)
    requires i < |ms| && j < |ms|
  {
    && ms[i].statement == ms[j].statement && ms[i].confidence != ms[j].confidence
    && SourcesOf(ms, KeyOf(ms[i]), |ms|) == SourcesOf(ms, KeyOf(ms[j]), |ms|)
  }

  /** The merged candidates have distinct fingerprints, and so distinct evidence ids, unless
      two differ in nothing but their confidence. */
  lemma FingerprintsDistinctExactly(ms: seq<Memory>, merged: seq<Memory>)
    requires IsMerged(ms, |ms|, merged)
    ensures DistinctFingerprints(merged) <==> forall i, j :: 0 <= i < |ms| && 0 <= j < |ms| ==> !OnlyConfidenceDiffers(ms, i, j)
  {
    if !DistinctFingerprints(merged) {
      var i, j :| 0 <= i < j < |merged| && FingerprintOf(merged[i]) == FingerprintOf(merged[j]);
      assert HasKey(ms, KeyOf(merged[i]), |ms|) && HasKey(ms, KeyOf(merged[j]), |ms|);
      var k :| 0 <= k < |ms| && KeyOf(ms[k]) == KeyOf(merged[i]);
      var l :| 0 <= l < |ms| && KeyOf(ms[l]) == KeyOf(merged[j]);
      assert OnlyConfidenceDiffers(ms, k, l);
    } else if k, l :| 0 <= k < |ms| && 0 <= l < |ms| && OnlyConfidenceDiffers(ms, k, l) {
      SharedFingerprint(ms, merged, k, l);
    }
  }

  lemma SharedFingerprint(ms: seq<Memory>, merged: seq<Memory>, k: nat, l: nat)
    requires IsMerged(ms, |ms|, merged) && k < |ms| && l < |ms| && OnlyConfidenceDiffers(ms, k, l)
    ensures !DistinctFingerprints(merged)
  {
    assert Listed(merged, KeyOf(ms[k])) && Listed(merged, KeyOf(ms[l]));
    var i :| 0 <= i < |merged| && KeyOf(merged[i]) == KeyOf(ms[k]);
    var j :| 0 <= j < |merged| && KeyOf(merged[j]) == KeyOf(ms[l]);
    assert i != j && FingerprintOf(merged[i]) == FingerprintOf(merged[j]);
  }

  /** Two candidates that differ in nothing but their confidence are kept apart, and share
      their fingerprint. */
  lemma ConfidenceAloneSharesFingerprint()
    ensures var ms := [Memory("likes tea", 0.5, {"m1"}, 0), Memory("likes tea", 0.9, {"m1"}, 0)];
            IsMerged(ms, 2, ms) && !DistinctFingerprints(ms)
  {
    var ms := [Memory("likes tea", 0.5, {"m1"}, 0), Memory("likes tea", 0.9, {"m1"}, 0)];
    var k, l := KeyOf(ms[0]), KeyOf(ms[1]);
    assert HasKey(ms, k, 1) && !HasKey(ms, l, 1) && !HasKey(ms, k, 0);
    assert SourcesOf(ms, k, 0) == {} && SourcesOf(ms, k, 1) == {"m1"} && SourcesOf(ms, k, 2) == {"m1"};
    assert SourcesOf(ms, l, 0) == {} && SourcesOf(ms, l, 1) == {} && SourcesOf(ms, l, 2) == {"m1"};
    assert LatestOf(ms, k, 1) == 0 && HasKey(ms, l, 2) && LatestOf(ms, l, 2) == 0;
    assert FingerprintOf(ms[0]) == FingerprintOf(ms[1]);
  }

  /** The two say the same with the same confidence. */
  predicate SaysTheSame(a: Memory, b: Memory) { a.statement == b.statement && a.confidence == b.confidence }

  /** What merging does, candidate by candidate: everything said is said once, with exactly the
      sources of all candidates that say it and the latest of their times. */
  lemma MergedIs(ms: seq<Memory>, merged: seq<Memory>)
    requires IsMerged(ms, |ms|, merged)
    ensures forall i, j :: 0 <= i < j < |merged| ==> !SaysTheSame(merged[i], merged[j])
    ensures forall m :: m in ms ==> exists x :: x in merged && SaysTheSame(x, m) && m.sources <= x.sources && m.time <= x.time
    ensures forall x, source :: x in merged && source in x.sources ==> exists m :: m in ms && SaysTheSame(m, x) && source in m.sources
    ensures forall x :: x in merged ==> exists m :: m in ms && SaysTheSame(m, x) && m.time == x.time
  {
    forall m | m in ms ensures exists x :: x in merged && SaysTheSame(x, m) && m.sources <= x.sources && m.time <= x.time {
      var n :| 0 <= n < |ms| && ms[n] == m;
      assert Listed(merged, KeyOf(ms[n]));
      var i :| 0 <= i < |merged| && KeyOf(merged[i]) == KeyOf(m);
      KeyGathers(ms, KeyOf(m), |ms|, n);
      assert merged[i] in merged && SaysTheSame(merged[i], m);
    }
    forall x, source | x in merged && source in x.sources ensures exists m :: m in ms && SaysTheSame(m, x) && source in m.sources {
      var i :| 0 <= i < |merged| && merged[i] == x;
      var n := SourceFrom(ms, KeyOf(x), |ms|, source);
      assert ms[n] in ms && SaysTheSame(ms[n], x);
    }
    forall x | x in merged ensures exists m :: m in ms && SaysTheSame(m, x) && m.time == x.time {
      var i :| 0 <= i < |merged| && merged[i] == x;
      var n := TimeFrom(ms, KeyOf(x), |ms|);
      assert ms[n] in ms && SaysTheSame(ms[n], x);
    }
  }

  lemma {:induction false} KeyGathers(ms: seq<Memory>, k: Key, n: nat, i: nat)
    requires i < n <= |ms| && KeyOf(ms[i]) == k
    ensures HasKey(ms, k, n) && ms[i].sources <= SourcesOf(ms, k, n) && ms[i].time <= LatestOf(ms, k, n)
  {
    if i < n - 1 {
      KeyGathers(ms, k, n - 1, i);
    }
  }

  lemma {:induction false} SourceFrom(ms: seq<Memory>, k: Key, n: nat, source: string) returns (i: nat)
    requires n <= |ms| && source in SourcesOf(ms, k, n)
    ensures i < n && KeyOf(ms[i]) == k && source in ms[i].sources
  {
    if source in SourcesOf(ms, k, n - 1) {
      i := SourceFrom(ms, k, n - 1, source);
    } else {
      i := n - 1;
    }
  }

  lemma {:induction false} TimeFrom(ms: seq<Memory>, k: Key, n: nat) returns (i: nat)
    requires n <= |ms| && HasKey(ms, k, n)
    ensures i < n && KeyOf(ms[i]) == k && ms[i].time == LatestOf(ms, k, n)
  {
    if KeyOf(ms[n - 1]) == k && ms[n - 1].time == LatestOf(ms, k, n) {
      i := n - 1;
    } else {
      i := TimeFrom(ms, k, n - 1);
    }
  }
}
