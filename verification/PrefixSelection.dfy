/** Choosing the head prefix that a compression round archives (`select_archive_prefix`). */
module PrefixSelection {
  import opened Options
  import opened CloseSplit

  datatype Selection = Selection(prefix: seq<Message>, prefixTokens: nat, remaining: int)

  /** The settings the selection reads. */
  datatype Context = Context(preferredRecent: nat, absoluteMin: nat, cap: nat, target: int)

  const PENALTY := 1_000_000_000

  // ----- comparing two candidates -----

  /** First component of `_candidate_score`; the second is minus the prefix length. */
  function Score(remaining: int, target: int): int {
    if remaining <= target then target - remaining else remaining - target + PENALTY
  }

  predicate ScoreLess(a: Selection, b: Selection, target: int) {
    var sa, sb := Score(a.remaining, target), Score(b.remaining, target);
    sa < sb || (sa == sb && |a.prefix| > |b.prefix|)
  }

  /** What the score is for: reaching the target comes first; then archive as little as
      reaches it, or as much as possible if nothing does; ties go to the longer prefix. */
  predicate Preferred(a: Selection, b: Selection, target: int) {
    var ra, rb := a.remaining <= target, b.remaining <= target;
    if ra != rb then ra
    else if a.remaining != b.remaining then (if ra then a.remaining > b.remaining else a.remaining < b.remaining)
    else |a.prefix| > |b.prefix|
  }

  /** Two prefixes of one list: the longer leaves no more tokens. */
  predicate Comparable(a: Selection, b: Selection) {
    && 0 <= a.remaining && 0 <= b.remaining
    && (|a.prefix| < |b.prefix| ==> b.remaining <= a.remaining)
    && (|b.prefix| < |a.prefix| ==> a.remaining <= b.remaining)
    && (|a.prefix| == |b.prefix| ==> a.remaining == b.remaining)
  }

  /** `r` need not give way to `x`: if `x` reaches the target then so does `r`, archiving no
      more; if `r` misses it then `r` archives at least as much. */
  predicate AtLeastAsGood(r: Selection, x: Selection, target: int) {
    && !Preferred(x, r, target)
    && (x.remaining <= target ==> r.remaining <= target && r.prefixTokens <= x.prefixTokens)
    && (r.remaining > target ==> x.prefixTokens <= r.prefixTokens)
  }

  ghost predicate PenaltyWorks(target: int) {
    forall a, b :: Comparable(a, b) ==> (ScoreLess(a, b, target) <==> Preferred(a, b, target))
  }

  /** The constant penalty gives the intended order exactly for targets up to 10^9 + 1. */
  lemma PenaltyIsEnoughExactly(target: int)
    ensures PenaltyWorks(target) <==> target <= 1_000_000_001
  {
    if target > PENALTY + 1 {
      var m := Message("", "", 0);
      var reaching, missing := Selection([m, m], 0, 0), Selection([m], 0, target + 1);
      assert Comparable(reaching, missing) && Preferred(reaching, missing, target);
      assert !ScoreLess(reaching, missing, target);
    }
  }

  // ----- the candidates -----

  /** Length of the candidate for one choice of the tail to keep. */
  function CandidateLength(ms: seq<Message>, cap: nat, tailKeep: nat): (k: nat)
    requires ms != []
    ensures k <= |ms|
  {
    var kept := if tailKeep <= |ms| - 1 then tailKeep else |ms| - 1;
    Fill(ms[..|ms| - kept], cap)
  }

  function SelectionOf(ms: seq<Message>, meta: int, k: nat): Selection
    requires k <= |ms|
  {
    Selection(ms[..k], Tokens(ms[..k]), meta - Tokens(ms[..k]))
  }

  function Candidate(ms: seq<Message>, meta: int, cap: nat, tailKeep: nat): Selection
    requires ms != []
  {
    SelectionOf(ms, meta, CandidateLength(ms, cap, tailKeep))
  }

  /** The candidate of this tail choice is not discarded. */
  predicate Admissible(ms: seq<Message>, meta: int, c: Context, tailKeep: nat)
    requires ms != []
  {
    var k := CandidateLength(ms, c.cap, tailKeep);
    c.absoluteMin <= tailKeep <= c.preferredRecent && 0 < k && c.absoluteMin <= |ms| - k && 0 <= meta - Tokens(ms[..k])
  }

  /** `r` is the best candidate among the tail choices from `low` up. */
  ghost predicate IsBest(ms: seq<Message>, meta: int, c: Context, low: int, r: Option<Selection>)
    requires ms != []
  {
    && (r.None? ==> forall t: nat :: low <= t ==> !Admissible(ms, meta, c, t))
    && (r.Some? ==>
          && (exists t: nat :: low <= t && Admissible(ms, meta, c, t) && r.value == Candidate(ms, meta, c.cap, t))
          && forall t: nat :: low <= t && Admissible(ms, meta, c, t) ==> !ScoreLess(Candidate(ms, meta, c.cap, t), r.value, c.target))
  }

  /** `_shrink_prefix_to_cap` drops messages from the end until the prefix fits. */
  method ShrinkPrefixToCap(prefix: seq<Message>, maxTokens: nat) returns (r: seq<Message>)
    ensures r == prefix[..Fill(prefix, maxTokens)]
  {
    r := prefix;
    FillExact(prefix, maxTokens, 0);
    while r != []
      invariant Fill(prefix, maxTokens) <= |r| <= |prefix|
      invariant r == prefix[..|r|]
    {
      var total := SumTokens(r);
      FillExact(prefix, maxTokens, |r|);
      if total <= maxTokens {
        return;
      }
      r := r[..|r| - 1];
    }
  }

  method SumTokens(ms: seq<Message>) returns (total: nat)
    ensures total == Tokens(ms)
  {
    total := 0;
    for i := 0 to |ms|
      invariant total == Tokens(ms[..i])
    {
      assert ms[..i + 1] == ms[..i] + [ms[i]];
      TokensConcat(ms[..i], [ms[i]]);
      total := total + ms[i].tokens;
    }
    assert ms[..|ms|] == ms;
  }

  /** `_pick_better`. */
  function Winner(best: Option<Selection>, candidate: Selection, target: int): Selection {
    if best.None? || ScoreLess(candidate, best.value, target) then candidate else best.value
  }

  lemma BestStep(ms: seq<Message>, meta: int, c: Context, t: nat, best: Option<Selection>, r: Option<Selection>)
    requires ms != [] && IsBest(ms, meta, c, t + 1, best)
    requires !Admissible(ms, meta, c, t) ==> r == best
    requires Admissible(ms, meta, c, t) ==> r == Some(Winner(best, Candidate(ms, meta, c.cap, t), c.target))
    ensures IsBest(ms, meta, c, t, r)
  {
    forall u: nat | t <= u && Admissible(ms, meta, c, u)
      ensures r.Some? && !ScoreLess(Candidate(ms, meta, c.cap, u), r.value, c.target)
    {
      assert u == t || t + 1 <= u;
    }
  }

  /** `select_archive_prefix`: the best candidate over every allowed tail. */
  method SelectArchivePrefix(messages: seq<Message>, metaTokens: int, c: Context) returns (best: Option<Selection>)
    ensures |messages| <= c.absoluteMin ==> best.None?
    ensures c.absoluteMin < |messages| ==> IsBest(messages, metaTokens, c, 0, best)
  {
    best := None;
    var n := |messages|;
    if n <= c.absoluteMin {
      return;
    }
    var tailKeep: int := c.preferredRecent;
    while tailKeep >= c.absoluteMin
      invariant tailKeep >= -1
      invariant IsBest(messages, metaTokens, c, tailKeep + 1, best)
      decreases tailKeep
    {
      var before := best;
      best := ConsiderTail(messages, metaTokens, c, tailKeep, best);
      BestStep(messages, metaTokens, c, tailKeep, before, best);
      tailKeep := tailKeep - 1;
    }
    forall t: nat | t <= tailKeep ensures !Admissible(messages, metaTokens, c, t) {
    }
  }

  /** The body of the loop for one tail choice. */
  method ConsiderTail(messages: seq<Message>, metaTokens: int, c: Context, tailKeep: nat, best: Option<Selection>)
    returns (r: Option<Selection>)
    requires messages != [] && c.absoluteMin <= tailKeep <= c.preferredRecent
    ensures !Admissible(messages, metaTokens, c, tailKeep) ==> r == best
    ensures Admissible(messages, metaTokens, c, tailKeep) ==>
              r == Some(Winner(best, Candidate(messages, metaTokens, c.cap, tailKeep), c.target))
  {
    var n := |messages|;
    var kept := if tailKeep <= n - 1 then tailKeep else n - 1;
    var prefix := messages[..n - kept];
    var prefixTokens := SumTokens(prefix);
    FillExact(prefix, c.cap, |prefix|);
    assert prefix[..|prefix|] == prefix;
    if c.cap < prefixTokens {
      prefix := ShrinkPrefixToCap(prefix, c.cap);
      assert prefix == messages[..|prefix|];
      if prefix == [] {
        return best;
      }
      prefixTokens := SumTokens(prefix);
    }
    assert prefix == messages[..CandidateLength(messages, c.cap, tailKeep)];
    if n - |prefix| < c.absoluteMin || metaTokens - prefixTokens < 0 {
      return best;
    }
    return Some(Winner(best, Selection(prefix, prefixTokens, metaTokens - prefixTokens), c.target));
  }

  // ----- what the selection means -----

  lemma CandidatesComparable(ms: seq<Message>, meta: int, c: Context, t: nat, u: nat)
    requires ms != [] && Admissible(ms, meta, c, t) && Admissible(ms, meta, c, u)
    ensures Comparable(Candidate(ms, meta, c.cap, t), Candidate(ms, meta, c.cap, u))
  {
    var i, j := CandidateLength(ms, c.cap, t), CandidateLength(ms, c.cap, u);
    if i <= j {
      TokensSlice(ms, i, j);
    } else {
      TokensSlice(ms, j, i);
    }
  }

  /** The result, for targets the penalty can carry: an in-cap head prefix that keeps the
      minimum tail and that no other tail choice beats. */
  lemma SelectionIsPreferred(ms: seq<Message>, meta: int, c: Context, r: Selection)
    requires ms != [] && IsBest(ms, meta, c, 0, Some(r)) && c.target <= 1_000_000_001
    ensures r.prefix != [] && r.prefix == ms[..|r.prefix|] && Tokens(r.prefix) <= c.cap
    ensures c.absoluteMin <= |ms| - |r.prefix| && r.remaining == meta - Tokens(r.prefix) >= 0
    ensures forall t: nat :: Admissible(ms, meta, c, t) ==> AtLeastAsGood(r, Candidate(ms, meta, c.cap, t), c.target)
  {
    var t0: nat :| Admissible(ms, meta, c, t0) && r == Candidate(ms, meta, c.cap, t0);
    var kept := if t0 <= |ms| - 1 then t0 else |ms| - 1;
    FillExact(ms[..|ms| - kept], c.cap, |r.prefix|);
    assert ms[..|ms| - kept][..|r.prefix|] == r.prefix;
    PenaltyIsEnoughExactly(c.target);
    forall t: nat | Admissible(ms, meta, c, t)
      ensures Comparable(Candidate(ms, meta, c.cap, t), r)
    {
      CandidatesComparable(ms, meta, c, t, t0);
    }
  }

  /** The first `k` messages are what the choice of keeping `t` recent messages archives: the
      longest head prefix that leaves them, or all but the first message, and fits the cap;
      it is not empty, leaves the minimum, and holds no more tokens than are recorded. */
  ghost predicate Archives(ms: seq<Message>, meta: int, c: Context, t: nat, k: nat) {
    && c.absoluteMin <= t <= c.preferredRecent
    && 0 < k <= |ms| - c.absoluteMin && (k == 1 || k <= |ms| - t)
    && Tokens(ms[..k]) <= c.cap && Tokens(ms[..k]) <= meta
    && (k + t < |ms| && k < |ms| ==> c.cap < Tokens(ms[..k + 1]))
  }

  lemma AdmissibleExactly(ms: seq<Message>, meta: int, c: Context, t: nat, k: nat)
    requires ms != []
    ensures Archives(ms, meta, c, t, k) <==> Admissible(ms, meta, c, t) && k == CandidateLength(ms, c.cap, t)
  {
    var kept := if t <= |ms| - 1 then t else |ms| - 1;
    var prefix := ms[..|ms| - kept];
    if k <= |prefix| {
      FillExact(prefix, c.cap, k);
      assert prefix[..k] == ms[..k];
    }
    if k < |prefix| {
      FillExact(prefix, c.cap, k + 1);
      assert prefix[..k + 1] == ms[..k + 1];
    }
  }

  /** The search looks at every tail from the minimum to the preferred one: the selection is
      what one of them archives; no other that reaches the target archives less, nor, if the
      target is missed, does any archive more; and there is none only if no tail archives any. */
  lemma EveryTailCounts(ms: seq<Message>, meta: int, c: Context, r: Option<Selection>, t: nat, k: nat)
    requires ms != [] && IsBest(ms, meta, c, 0, r) && c.target <= 1_000_000_001
    ensures r.Some? ==> exists u: nat :: Archives(ms, meta, c, u, |r.value.prefix|) && r.value.prefix == ms[..|r.value.prefix|]
    ensures Archives(ms, meta, c, t, k) ==>
              && r.Some?
              && (meta - Tokens(ms[..k]) <= c.target ==> r.value.remaining <= c.target && r.value.prefixTokens <= Tokens(ms[..k]))
              && (r.value.remaining > c.target ==> Tokens(ms[..k]) <= r.value.prefixTokens)
  {
    AdmissibleExactly(ms, meta, c, t, k);
    if r.Some? {
      var u: nat :| Admissible(ms, meta, c, u) && r.value == Candidate(ms, meta, c.cap, u);
      AdmissibleExactly(ms, meta, c, u, |r.value.prefix|);
      SelectionIsPreferred(ms, meta, c, r.value);
    }
  }
  ghost predicate IsPreferred(ms: seq<Message>, meta: int, c: Context, r: Selection)
    requires ms != []
  {
    forall t: nat :: Admissible(ms, meta, c, t) ==> AtLeastAsGood(r, Candidate(ms, meta, c.cap, t), c.target)
  }

  /** Every selection with this target is preferred. */
  ghost predicate SelectsPreferred(target: int) {
    forall ms: seq<Message>, meta: int, c: Context, r: Selection ::
      ms != [] && c.target == target && IsBest(ms, meta, c, 0, Some(r)) ==> IsPreferred(ms, meta, c, r)
  }

  /** The penalty decides the outcome of the search: it selects what is preferred, whatever
      the messages and the other settings, exactly for targets up to 10^9 + 1. */
  lemma SelectsPreferredExactly(target: int)
    ensures SelectsPreferred(target) <==> target <= 1_000_000_001
  {
    if target <= PENALTY + 1 {
      forall ms: seq<Message>, meta: int, c: Context, r: Selection | ms != [] && c.target == target && IsBest(ms, meta, c, 0, Some(r))
        ensures IsPreferred(ms, meta, c, r)
      {
        SelectionIsPreferred(ms, meta, c, r);
      }
    } else {
      MissedTarget(target);
      var ms, c := MissMessages(target), MissContext(target);
      var r := Candidate(ms, target + 2, c.cap, 2);
      assert IsBest(ms, target + 2, c, 0, Some(r)) && !IsPreferred(ms, target + 2, c, r);
    }
  }

  /** Three messages: archiving two of them reaches the target by all of it, archiving one
      misses it by one token. */
  function MissMessages(target: nat): seq<Message> {
    [Message("a", "", 1), Message("b", "", target + 1), Message("c", "", 0)]
  }

  function MissContext(target: nat): Context { Context(2, 1, target + 2, target) }

  lemma MissCandidates(target: nat)
    ensures CandidateLength(MissMessages(target), target + 2, 1) == 2 && CandidateLength(MissMessages(target), target + 2, 2) == 1
    ensures Tokens(MissMessages(target)[..2]) == target + 2 && Tokens(MissMessages(target)[..1]) == 1
  {
    var ms := MissMessages(target);
    assert ms[..1] == [ms[0]] && ms[..2] == [ms[0], ms[1]];
    assert [ms[0], ms[1]][1..] == [ms[1]] && [ms[1]][1..] == [] && [ms[0]][1..] == [];
    assert Tokens([ms[1]]) == target + 1 && Tokens([ms[0], ms[1]]) == 1 + Tokens([ms[1]]);
    assert Fill([ms[1]], target + 1) == 1;
  }

  /** Above the bound the search takes the candidate that misses the target. */
  lemma MissedTarget(target: nat)
    requires PENALTY + 1 < target
    ensures var ms, c := MissMessages(target), MissContext(target);
            var r := Candidate(ms, target + 2, c.cap, 2);
            IsBest(ms, target + 2, c, 0, Some(r)) && !IsPreferred(ms, target + 2, c, r)
  {
    var ms, meta, c := MissMessages(target), target + 2, MissContext(target);
    MissCandidates(target);
    assert Admissible(ms, meta, c, 1) && Admissible(ms, meta, c, 2);
    var one, two := Candidate(ms, meta, c.cap, 1), Candidate(ms, meta, c.cap, 2);
    assert one.remaining == 0 && two.remaining == target + 1;
    forall t: nat | Admissible(ms, meta, c, t) ensures !ScoreLess(Candidate(ms, meta, c.cap, t), two, target) {
      assert t == 1 || t == 2;
    }
  }

  /** With messages within the cap and a token total at least the message sum, there is no
      selection exactly when no more than the minimum tail is there. */
  lemma NoneExactlyWhenTooFew(ms: seq<Message>, meta: int, c: Context, r: Option<Selection>)
    requires c.absoluteMin <= c.preferredRecent
    requires AllFit(ms, c.cap) && Tokens(ms) <= meta
    requires |ms| <= c.absoluteMin ==> r.None?
    requires c.absoluteMin < |ms| ==> IsBest(ms, meta, c, 0, r)
    ensures r.None? <==> |ms| <= c.absoluteMin
  {
    if c.absoluteMin < |ms| {
      var k := CandidateLength(ms, c.cap, c.preferredRecent);
      TokensSlice(ms, k, |ms|);
      assert ms[..|ms|] == ms;
      assert Admissible(ms, meta, c, c.preferredRecent);
    }
  }
}
