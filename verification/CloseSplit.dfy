/** Splitting the live messages of a session into archive batches (`split_close_suffix_batches`). */
module CloseSplit {

  /** A working-memory message; role and timestamp travel with the body. */
  datatype Message = Message(id: string, body: string, tokens: nat)

  datatype SplitResult =
    | Batches(batches: seq<seq<Message>>)
    | TooLarge(message: Message)

  function Tokens(ms: seq<Message>): nat {
    if ms == [] then 0 else ms[0].tokens + Tokens(ms[1..])
  }

  function Flatten(bs: seq<seq<Message>>): seq<Message> {
    if bs == [] then [] else bs[0] + Flatten(bs[1..])
  }

  predicate AllFit(ms: seq<Message>, cap: nat) {
    forall i :: 0 <= i < |ms| ==> ms[i].tokens <= cap
  }

  /** A partition of `ms` into contiguous, non-empty batches within the cap. */
  predicate IsPartition(bs: seq<seq<Message>>, ms: seq<Message>, cap: nat) {
    && Flatten(bs) == ms
    && forall i :: 0 <= i < |bs| ==> bs[i] != [] && Tokens(bs[i]) <= cap
  }

  /** Length of the longest prefix whose tokens stay within the cap. */
  function Fill(ms: seq<Message>, cap: nat): (k: nat)
    ensures k <= |ms|
  {
    if ms == [] || cap < ms[0].tokens then 0
    else 1 + Fill(ms[1..], cap - ms[0].tokens)
  }

  /** The reference split: repeatedly cut off the longest prefix within the cap. */
  function Split(ms: seq<Message>, cap: nat): seq<seq<Message>>
    requires AllFit(ms, cap)
  {
    if ms == [] then []
    else
      var k := Fill(ms, cap);
      [ms[..k]] + Split(ms[k..], cap)
  }

  // ----- tokens, fill, flatten -----

  lemma {:induction false} TokensConcat(a: seq<Message>, b: seq<Message>)
    ensures Tokens(a + b) == Tokens(a) + Tokens(b)
  {
    if a == [] {
      assert a + b == b;
    } else {
      TokensConcat(a[1..], b);
      assert (a + b)[1..] == a[1..] + b;
    }
  }

  lemma TokensSlice(ms: seq<Message>, i: nat, j: nat)
    requires i <= j <= |ms|
    ensures Tokens(ms[..j]) == Tokens(ms[..i]) + Tokens(ms[i..j])
  {
    assert ms[..j] == ms[..i] + ms[i..j];
    TokensConcat(ms[..i], ms[i..j]);
  }

  /** `Fill` is the exact boundary: everything up to it fits, one more does not. */
  lemma {:induction false} FillExact(ms: seq<Message>, cap: nat, j: nat)
    requires j <= |ms|
    ensures Tokens(ms[..j]) <= cap <==> j <= Fill(ms, cap)
  {
    if j > 0 {
      assert ms[..j][1..] == ms[1..][..j - 1];
      if ms[0].tokens <= cap {
        FillExact(ms[1..], cap - ms[0].tokens, j - 1);
      }
    }
  }

  lemma {:induction false} FlattenConcat(a: seq<seq<Message>>, b: seq<seq<Message>>)
    ensures Flatten(a + b) == Flatten(a) + Flatten(b)
  {
    if a == [] {
      assert a + b == b;
    } else {
      FlattenConcat(a[1..], b);
      assert (a + b)[1..] == a[1..] + b && (a + b)[0] == a[0];
      assert a[0] + (Flatten(a[1..]) + Flatten(b)) == Flatten(a) + Flatten(b);
    }
  }

  // ----- the split loses nothing, is optimal, and is online -----

  lemma {:induction false} SplitIsPartition(ms: seq<Message>, cap: nat)
    requires AllFit(ms, cap)
    ensures IsPartition(Split(ms, cap), ms, cap)
    decreases |ms|
  {
    if ms != [] {
      var k := Fill(ms, cap);
      FillExact(ms, cap, k);
      SplitIsPartition(ms[k..], cap);
      assert Split(ms, cap)[1..] == Split(ms[k..], cap);
    }
  }

  /** A batch within the cap that begins no later than `i` ends no later than the greedy
      batch from `i`. */
  lemma GreedyReaches(ms: seq<Message>, cap: nat, j: nat, i: nat, e: nat)
    requires j <= i <= e <= |ms| && Tokens(ms[j..e]) <= cap
    ensures e - i <= Fill(ms[i..], cap)
  {
    assert ms[j..e] == ms[j..i] + ms[i..e];
    TokensConcat(ms[j..i], ms[i..e]);
    assert ms[i..][..e - i] == ms[i..e];
    FillExact(ms[i..], cap, e - i);
  }

  lemma FirstBatch(ms: seq<Message>, cap: nat, other: seq<seq<Message>>, j: nat)
    requires j < |ms| && IsPartition(other, ms[j..], cap)
    ensures other != [] && j + |other[0]| <= |ms|
    ensures other[0] == ms[j..j + |other[0]|] && Tokens(other[0]) <= cap
    ensures IsPartition(other[1..], ms[j + |other[0]|..], cap)
  {
    assert ms[j..] == other[0] + Flatten(other[1..]);
    assert ms[j + |other[0]|..] == Flatten(other[1..]);
  }

  lemma SplitOnce(ms: seq<Message>, cap: nat, i: nat)
    requires AllFit(ms, cap) && i < |ms|
    ensures |Split(ms[i..], cap)| == 1 + |Split(ms[i + Fill(ms[i..], cap)..], cap)|
  {
    var k := Fill(ms[i..], cap);
    assert ms[i..][k..] == ms[i + k..];
  }

  /** From any later start, the greedy split needs no more batches than a given
      partition of an earlier start. */
  lemma {:induction false} GreedyStaysAhead(ms: seq<Message>, cap: nat, other: seq<seq<Message>>, i: nat, j: nat)
    requires AllFit(ms, cap) && j <= i <= |ms|
    requires IsPartition(other, ms[j..], cap)
    ensures |Split(ms[i..], cap)| <= |other|
    decreases |other|
  {
    if i < |ms| {
      var e := j + |other[0]|;
      FirstBatch(ms, cap, other, j);
      if e <= i {
        GreedyStaysAhead(ms, cap, other[1..], i, e);
      } else {
        GreedyReaches(ms, cap, j, i, e);
        GreedyStaysAhead(ms, cap, other[1..], i + Fill(ms[i..], cap), e);
        SplitOnce(ms, cap, i);
      }
    }
  }

  /** No partition of the list into contiguous in-cap batches uses fewer batches. */
  lemma SplitIsOptimal(ms: seq<Message>, cap: nat, other: seq<seq<Message>>)
    requires AllFit(ms, cap) && IsPartition(other, ms, cap)
    ensures |Split(ms, cap)| <= |other|
  {
    assert ms[0..] == ms;
    GreedyStaysAhead(ms, cap, other, 0, 0);
  }

  /** Appended messages do not change a batch that was already closed. */
  lemma FillIgnoresAppended(ms: seq<Message>, more: seq<Message>, cap: nat)
    requires Fill(ms, cap) < |ms|
    ensures Fill(ms + more, cap) == Fill(ms, cap)
  {
    var k := Fill(ms, cap);
    var all := ms + more;
    assert all[..k] == ms[..k] && all[..k + 1] == ms[..k + 1];
    FillExact(ms, cap, k);
    FillExact(ms, cap, k + 1);
    FillExact(all, cap, k);
    FillExact(all, cap, k + 1);
  }

  ghost predicate OnlyLastBatchChanges(before: seq<seq<Message>>, after: seq<seq<Message>>) {
    && 1 <= |before| <= |after|
    && after[..|before| - 1] == before[..|before| - 1]
    && before[|before| - 1] <= after[|before| - 1]
  }

  /** Appending messages changes only the last batch of the split, which can only grow. */
  lemma {:induction false} SplitIsOnline(ms: seq<Message>, more: seq<Message>, cap: nat)
    requires AllFit(ms, cap) && AllFit(ms + more, cap) && ms != []
    ensures OnlyLastBatchChanges(Split(ms, cap), Split(ms + more, cap))
    decreases |ms|
  {
    var k, all := Fill(ms, cap), ms + more;
    if k < |ms| {
      FillIgnoresAppended(ms, more, cap);
      assert all[k..] == ms[k..] + more && all[..k] == ms[..k];
      SplitIsOnline(ms[k..], more, cap);
      ConsKeepsOnline(ms[..k], Split(ms[k..], cap), Split(all[k..], cap));
    } else {
      assert ms[..k] == ms;
      FillExact(ms, cap, k);
      assert all[..k] == ms;
      FillExact(all, cap, k);
      assert Split(ms, cap) == [ms];
      assert ms <= all[..Fill(all, cap)];
    }
  }

  lemma ConsKeepsOnline(b: seq<Message>, before: seq<seq<Message>>, after: seq<seq<Message>>)
    requires OnlyLastBatchChanges(before, after)
    ensures OnlyLastBatchChanges([b] + before, [b] + after)
  {
    var n := |before|;
    assert ([b] + after)[..n] == [b] + after[..n - 1];
    assert ([b] + before)[..n] == [b] + before[..n - 1];
  }

  // ----- the loop of the source -----

  /** What the loop has settled: the closed batches, then a split of the open batch
      followed by the messages still to come. */
  ghost predicate Progress(all: seq<Message>, cap: nat, batches: seq<seq<Message>>, current: seq<Message>, rest: seq<Message>)
    requires AllFit(all, cap)
  {
    && AllFit(current + rest, cap)
    && Split(all, cap) == batches + Split(current + rest, cap)
  }

  lemma FullBatchIsCut(current: seq<Message>, rest: seq<Message>, cap: nat)
    requires current != [] && AllFit(current + rest, cap)
    requires Tokens(current) <= cap
    requires rest == [] || cap < Tokens(current) + rest[0].tokens
    ensures AllFit(rest, cap) && Split(current + rest, cap) == [current] + Split(rest, cap)
  {
    var all := current + rest;
    assert all[..|current|] == current && all[|current|..] == rest;
    FillExact(all, cap, |current|);
    if rest != [] {
      assert all[..|current| + 1] == current + [rest[0]];
      TokensConcat(current, [rest[0]]);
      FillExact(all, cap, |current| + 1);
    }
    forall i | 0 <= i < |rest| ensures rest[i].tokens <= cap {
      assert all[|current| + i] == rest[i];
    }
  }

  lemma Regrouped(a: seq<seq<Message>>, b: seq<seq<Message>>, c: seq<seq<Message>>)
    ensures a + (b + c) == (a + b) + c
  {
  }

  lemma CloseBatchStep(all: seq<Message>, cap: nat, batches: seq<seq<Message>>, current: seq<Message>, rest: seq<Message>)
    requires AllFit(all, cap) && Progress(all, cap, batches, current, rest)
    requires current != [] && Tokens(current) <= cap
    requires rest == [] || cap < Tokens(current) + rest[0].tokens
    ensures Progress(all, cap, batches + [current], [], rest)
  {
    FullBatchIsCut(current, rest, cap);
    assert [] + rest == rest;
    Regrouped(batches, [current], Split(rest, cap));
  }

  lemma ExtendBatchStep(all: seq<Message>, cap: nat, batches: seq<seq<Message>>, current: seq<Message>, rest: seq<Message>)
    requires AllFit(all, cap) && rest != [] && Progress(all, cap, batches, current, rest)
    ensures Progress(all, cap, batches, current + [rest[0]], rest[1..])
  {
    assert current + rest == (current + [rest[0]]) + rest[1..];
  }

  lemma LastBatch(all: seq<Message>, cap: nat, batches: seq<seq<Message>>, current: seq<Message>)
    requires AllFit(all, cap) && Progress(all, cap, batches, current, all[|all|..])
    requires current != [] && Tokens(current) <= cap
    ensures batches + [current] == Split(all, cap)
  {
    CloseBatchStep(all, cap, batches, current, []);
  }

  predicate FitUpTo(ms: seq<Message>, cap: nat, n: nat) {
    forall i :: 0 <= i < n && i < |ms| ==> ms[i].tokens <= cap
  }

  predicate FirstTooLarge(messages: seq<Message>, cap: nat, i: nat, m: Message) {
    i < |messages| && messages[i] == m && cap < m.tokens && FitUpTo(messages, cap, i)
  }

  lemma Start(all: seq<Message>, cap: nat)
    ensures AllFit(all, cap) ==> Progress(all, cap, [], [], all[0..])
  {
    assert [] + all[0..] == all;
  }

  /** `split_close_suffix_batches`: fails with the first message above the cap,
      and otherwise returns the greedy split. */
  method SplitCloseSuffixBatches(messages: seq<Message>, cap: nat) returns (r: SplitResult)
    ensures r.Batches? <==> AllFit(messages, cap)
    ensures r.Batches? ==> r.batches == Split(messages, cap)
    ensures r.TooLarge? ==> exists i :: FirstTooLarge(messages, cap, i, r.message)
  {
    if messages == [] {
      return Batches([]);
    }
    var batches: seq<seq<Message>> := [];
    var current: seq<Message> := [];
    var currentTokens := 0;
    Start(messages, cap);
    for i := 0 to |messages|
      invariant FitUpTo(messages, cap, i)
      invariant currentTokens == Tokens(current) <= cap
      invariant current == [] ==> i == 0
      invariant AllFit(messages, cap) ==> Progress(messages, cap, batches, current, messages[i..])
    {
      var message := messages[i];
      var tokenCount := message.tokens;
      if cap < tokenCount {
        assert FirstTooLarge(messages, cap, i, message);
        return TooLarge(message);
      }
      MessageStep(messages, cap, batches, current, i);
      if current != [] && cap < currentTokens + tokenCount {
        batches := batches + [current];
        current := [message];
        currentTokens := tokenCount;
      } else {
        current := current + [message];
        currentTokens := currentTokens + tokenCount;
      }
    }
    if current != [] {
      LastBatch(messages, cap, batches, current);
      batches := batches + [current];
    }
    return Batches(batches);
  }

  /** One more message: into a new batch if the open one is full, else into the open one. */
  lemma MessageStep(all: seq<Message>, cap: nat, batches: seq<seq<Message>>, current: seq<Message>, i: nat)
    requires i < |all| && Tokens(current) <= cap && (AllFit(all, cap) ==> Progress(all, cap, batches, current, all[i..]))
    ensures Tokens(current + [all[i]]) == Tokens(current) + all[i].tokens && Tokens([all[i]]) == all[i].tokens
    ensures var full := current != [] && cap < Tokens(current) + all[i].tokens;
            AllFit(all, cap) ==> if full then Progress(all, cap, batches + [current], [all[i]], all[i + 1..])
                                 else Progress(all, cap, batches, current + [all[i]], all[i + 1..])
  {
    var rest := all[i..];
    assert rest[0] == all[i] && rest[1..] == all[i + 1..];
    TokensConcat(current, [all[i]]);
    if !AllFit(all, cap) {
      return;
    }
    if current != [] && cap < Tokens(current) + all[i].tokens {
      CloseBatchStep(all, cap, batches, current, rest);
      ExtendBatchStep(all, cap, batches + [current], [], rest);
      assert [] + [all[i]] == [all[i]];
    } else {
      ExtendBatchStep(all, cap, batches, current, rest);
    }
  }
}
