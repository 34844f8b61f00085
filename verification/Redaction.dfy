/** Merging secret spans and replacing them in a text (`_merge_spans`, `redact_content`).
    The spans are what the patterns found: non-empty stretches of the text. */
module Redaction {
  import opened Sorting

  datatype Span = Span(start: nat, end: nat, precedence: nat)

  /** A stretch to replace. */
  datatype Cut = Cut(start: nat, end: nat)

  const MARKER := "[REDACTED_SECRET]"

  predicate Found(spans: seq<Span>, length: nat) {
    forall i :: 0 <= i < |spans| ==> spans[i].start < spans[i].end <= length
  }

  predicate Covered(spans: seq<Span>, p: int) {
    exists i :: 0 <= i < |spans| && spans[i].start <= p < spans[i].end
  }

  predicate Within(cuts: seq<Cut>, p: int) {
    exists i :: 0 <= i < |cuts| && cuts[i].start <= p < cuts[i].end
  }

  /** Sorted, non-empty, and with at least one position between neighbours. */
  predicate Separated(cuts: seq<Cut>, length: nat) {
    && (forall i :: 0 <= i < |cuts| ==> cuts[i].start < cuts[i].end <= length)
    && (forall i, j :: 0 <= i < j < |cuts| ==> cuts[i].end < cuts[j].start)
  }

  // ----- merging -----

  /** The sort key: start, then longest, then precedence. */
  predicate KeyLeq(a: Span, b: Span) {
    a.start < b.start
    || (a.start == b.start
        && (a.end - a.start > b.end - b.start || (a.end - a.start == b.end - b.start && a.precedence <= b.precedence)))
  }

  /** `_merge_spans`: one pass over the sorted spans, growing the current cut while the
      next span starts inside it or right after it. */
  method MergeSpans(spans: seq<Span>, ghost length: nat) returns (merged: seq<Cut>)
    requires Found(spans, length)
    ensures Separated(merged, length)
    ensures forall p :: Within(merged, p) <==> Covered(spans, p)
  {
    if spans == [] {
      return [];
    }
    SortIs(spans, KeyLeq);
    SortMembers(spans, KeyLeq);
    var sorted := Sort(spans, KeyLeq);
    SortedSpans(spans, sorted, length);
    merged := [];
    var current := Cut(sorted[0].start, sorted[0].end);
    FirstCut(sorted);
    for n := 1 to |sorted|
      invariant current.end <= length && current.start <= sorted[n - 1].start && sorted[n - 1].end <= current.end
      invariant Separated(merged + [current], length)
      invariant forall p :: Within(merged + [current], p) <==> CoveredUpTo(sorted, n, p)
    {
      var before, cut := merged, current;
      if sorted[n].start <= current.end {
        current := Cut(current.start, if current.end < sorted[n].end then sorted[n].end else current.end);
      } else {
        merged := merged + [current];
        current := Cut(sorted[n].start, sorted[n].end);
      }
      MergeStep(sorted, n, length, before, cut, merged, current);
    }
    merged := merged + [current];
    forall p ensures CoveredUpTo(sorted, |sorted|, p) <==> Covered(spans, p) {
      SameCover(spans, sorted, p);
    }
  }

  predicate CoveredUpTo(spans: seq<Span>, n: nat, p: int)
    requires n <= |spans|
  {
    exists i :: 0 <= i < n && spans[i].start <= p < spans[i].end
  }

  lemma SortedSpans(spans: seq<Span>, sorted: seq<Span>, length: nat)
    requires Found(spans, length) && SortedBy(sorted, KeyLeq) && (forall x :: x in sorted <==> x in spans)
    ensures Found(sorted, length) && forall i, j :: 0 <= i < j < |sorted| ==> sorted[i].start <= sorted[j].start
  {
    forall i | 0 <= i < |sorted| ensures sorted[i].start < sorted[i].end <= length {
      assert sorted[i] in spans;
    }
  }

  lemma FirstCut(sorted: seq<Span>)
    requires sorted != []
    ensures forall p :: Within([] + [Cut(sorted[0].start, sorted[0].end)], p) <==> CoveredUpTo(sorted, 1, p)
  {
    forall p ensures Within([] + [Cut(sorted[0].start, sorted[0].end)], p) <==> CoveredUpTo(sorted, 1, p) {
      WithinAppend([], Cut(sorted[0].start, sorted[0].end), p);
    }
  }

  lemma SameCover(spans: seq<Span>, sorted: seq<Span>, p: int)
    requires forall x :: x in sorted <==> x in spans
    ensures CoveredUpTo(sorted, |sorted|, p) <==> Covered(spans, p)
  {
    if i :| 0 <= i < |spans| && spans[i].start <= p < spans[i].end {
      assert spans[i] in sorted;
    }
    if i :| 0 <= i < |sorted| && sorted[i].start <= p < sorted[i].end {
      assert sorted[i] in spans;
    }
  }

  lemma WithinAppend(cuts: seq<Cut>, c: Cut, p: int)
    ensures Within(cuts + [c], p) <==> Within(cuts, p) || c.start <= p < c.end
  {
    var more := cuts + [c];
    assert more[|cuts|] == c;
    if i :| 0 <= i < |cuts| && cuts[i].start <= p < cuts[i].end {
      assert more[i] == cuts[i];
    }
  }

  /** One more span keeps the cuts separated and covering the same positions. */
  lemma MergeStep(sorted: seq<Span>, n: nat, length: nat, before: seq<Cut>, cut: Cut, merged: seq<Cut>, current: Cut)
    requires 0 < n < |sorted| && Found(sorted, length) && cut.end <= length
    requires cut.start <= sorted[n - 1].start <= sorted[n].start && sorted[n - 1].end <= cut.end
    requires Separated(before + [cut], length)
    requires forall p :: Within(before + [cut], p) <==> CoveredUpTo(sorted, n, p)
    requires if sorted[n].start <= cut.end
             then merged == before && current == Cut(cut.start, if cut.end < sorted[n].end then sorted[n].end else cut.end)
             else merged == before + [cut] && current == Cut(sorted[n].start, sorted[n].end)
    ensures Separated(merged + [current], length)
    ensures forall p :: Within(merged + [current], p) <==> CoveredUpTo(sorted, n + 1, p)
  {
    var earlier, later := before + [cut], merged + [current];
    assert earlier[|before|] == cut;
    forall i | 0 <= i < |before| ensures earlier[i] == before[i] && before[i].end < cut.start {
    }
    forall p ensures Within(later, p) <==> CoveredUpTo(sorted, n + 1, p) {
      WithinAppend(before, cut, p);
      WithinAppend(merged, current, p);
      assert CoveredUpTo(sorted, n + 1, p) <==> CoveredUpTo(sorted, n, p) || sorted[n].start <= p < sorted[n].end;
    }
  }

  // ----- replacing -----

  /** The text from position `at` on, with the cuts from the k-th on replaced. */
  function Replaced(text: string, cuts: seq<Cut>, k: nat, at: nat): string
    requires Separated(cuts, |text|) && k <= |cuts| && at <= |text| && (k < |cuts| ==> at <= cuts[k].start)
    decreases |cuts| - k
  {
    if k == |cuts| then text[at..]
    else text[at..cuts[k].start] + MARKER + Replaced(text, cuts, k + 1, cuts[k].end)
  }

  /** `redact_content`: the cuts are replaced in place from the last to the first. */
  method Redact(content: string, spans: seq<Span>) returns (text: string)
    requires Found(spans, |content|)
    ensures text == Redacted(content, spans, 0)
    ensures |text| + CoveredCount(spans, |content|) == |content| + |MARKER| * RunCount(spans, |content|)
  {
    var cuts := MergeSpans(spans, |content|);
    text := content;
    var k := |cuts|;
    while k > 0
      invariant 0 <= k <= |cuts|
      invariant text == Replaced(content, cuts, k, 0)
    {
      k := k - 1;
      ReplaceOne(content, cuts, k);
      text := text[..cuts[k].start] + "[REDACTED_SECRET]" + text[cuts[k].end..];
    }
    ReplacedIsRedacted(content, spans, cuts, 0, 0);
    RedactedLength(content, spans, 0);
  }

  lemma SliceSplit(text: string, a: nat, b: nat, c: nat)
    requires a <= b <= c <= |text|
    ensures text[a..c] == text[a..b] + text[b..c]
  {
  }

  lemma Regrouped(a: string, b: string, c: string)
    ensures (a + b) + c == a + (b + c)
  {
  }

  lemma {:induction false} ReplacedFrom(text: string, cuts: seq<Cut>, k: nat, at: nat, from: nat)
    requires Separated(cuts, |text|) && k <= |cuts| && at <= from <= |text| && (k < |cuts| ==> from <= cuts[k].start)
    ensures Replaced(text, cuts, k, at) == text[at..from] + Replaced(text, cuts, k, from)
  {
    if k == |cuts| {
      SliceSplit(text, at, from, |text|);
      assert text[at..] == text[at..|text|] && text[from..] == text[from..|text|];
    } else {
      SliceSplit(text, at, from, cuts[k].start);
      var x, y, tail := text[at..from], text[from..cuts[k].start], MARKER + Replaced(text, cuts, k + 1, cuts[k].end);
      Regrouped(text[at..cuts[k].start], MARKER, Replaced(text, cuts, k + 1, cuts[k].end));
      Regrouped(y, MARKER, Replaced(text, cuts, k + 1, cuts[k].end));
      Regrouped(x, y, tail);
    }
  }

  /** Replacing one more cut, in the text whose later cuts are already replaced. */
  lemma ReplaceOne(text: string, cuts: seq<Cut>, k: nat)
    requires Separated(cuts, |text|) && k < |cuts|
    ensures var later := Replaced(text, cuts, k + 1, 0);
            && cuts[k].end <= |later|
            && Replaced(text, cuts, k, 0) == later[..cuts[k].start] + MARKER + later[cuts[k].end..]
  {
    var c := cuts[k];
    ReplacedFrom(text, cuts, k + 1, 0, c.end);
    var rest := Replaced(text, cuts, k + 1, c.end);
    var later := text[..c.end] + rest;
    assert Replaced(text, cuts, k + 1, 0) == later;
    assert later[..c.start] == text[..c.start] && later[c.end..] == rest;
  }

  // ----- what redaction means -----

  /** One marker for every covered run, at its first position; every uncovered character
      as it is, in order. From position `p` on. */
  function Redacted(text: string, spans: seq<Span>, p: nat): string
    requires p <= |text|
    decreases |text| - p
  {
    if p == |text| then ""
    else (if !Covered(spans, p) then [text[p]] else if StartsRun(spans, p) then MARKER else "") + Redacted(text, spans, p + 1)
  }

  predicate StartsRun(spans: seq<Span>, p: int) { Covered(spans, p) && !Covered(spans, p - 1) }

  function CoveredCount(spans: seq<Span>, n: nat): nat {
    if n == 0 then 0 else CoveredCount(spans, n - 1) + if Covered(spans, n - 1) then 1 else 0
  }

  function RunCount(spans: seq<Span>, n: nat): nat {
    if n == 0 then 0 else RunCount(spans, n - 1) + if StartsRun(spans, n - 1) then 1 else 0
  }

  lemma {:induction false} RedactedLength(text: string, spans: seq<Span>, p: nat)
    requires p <= |text|
    ensures |Redacted(text, spans, p)| + CoveredCount(spans, |text|) - CoveredCount(spans, p)
         == |text| - p + |MARKER| * (RunCount(spans, |text|) - RunCount(spans, p))
    decreases |text| - p
  {
    if p < |text| {
      RedactedLength(text, spans, p + 1);
    }
  }

  lemma {:induction false} RedactedGap(text: string, spans: seq<Span>, p: nat, q: nat)
    requires p <= q <= |text| && forall i :: p <= i < q ==> !Covered(spans, i)
    ensures Redacted(text, spans, p) == text[p..q] + Redacted(text, spans, q)
    decreases q - p
  {
    if p < q {
      RedactedGap(text, spans, p + 1, q);
      assert !Covered(spans, p);
      var head, middle, rest := [text[p]], text[p + 1..q], Redacted(text, spans, q);
      assert text[p..q] == head + middle;
      assert Redacted(text, spans, p) == head + (middle + rest) == (head + middle) + rest;
    }
  }

  lemma {:induction false} RedactedInside(text: string, spans: seq<Span>, p: nat, q: nat)
    requires 0 < p <= q <= |text| && forall i :: p - 1 <= i < q ==> Covered(spans, i)
    ensures Redacted(text, spans, p) == Redacted(text, spans, q)
    decreases q - p
  {
    if p < q {
      RedactedInside(text, spans, p + 1, q);
    }
  }

  /** Replacing the merged cuts, in whatever order the spans came and however they
      overlap, is replacing the covered runs. */
  lemma {:induction false} ReplacedIsRedacted(text: string, spans: seq<Span>, cuts: seq<Cut>, k: nat, at: nat)
    requires Separated(cuts, |text|) && (forall p :: Within(cuts, p) <==> Covered(spans, p))
    requires k <= |cuts| && at <= |text| && at == if k == 0 then 0 else cuts[k - 1].end
    ensures Replaced(text, cuts, k, at) == Redacted(text, spans, at)
    decreases |cuts| - k
  {
    var next := if k == |cuts| then |text| else cuts[k].start;
    forall i | at <= i < next ensures !Covered(spans, i) {
      NotWithin(text, cuts, k, i);
    }
    RedactedGap(text, spans, at, next);
    if k < |cuts| {
      ReplacedIsRedacted(text, spans, cuts, k + 1, cuts[k].end);
      CutIsRun(text, spans, cuts, k);
      assert Redacted(text, spans, next) == MARKER + Redacted(text, spans, cuts[k].end);
    }
  }

  lemma NotWithin(text: string, cuts: seq<Cut>, k: nat, i: int)
    requires Separated(cuts, |text|) && k <= |cuts| && (0 < k ==> cuts[k - 1].end <= i) && (k < |cuts| ==> i < cuts[k].start)
    ensures !Within(cuts, i)
  {
  }

  lemma CutIsRun(text: string, spans: seq<Span>, cuts: seq<Cut>, k: nat)
    requires Separated(cuts, |text|) && (forall p :: Within(cuts, p) <==> Covered(spans, p)) && k < |cuts|
    ensures Redacted(text, spans, cuts[k].start) == MARKER + Redacted(text, spans, cuts[k].end)
  {
    var c := cuts[k];
    forall i | c.start <= i < c.end ensures Covered(spans, i) {
      assert Within(cuts, i);
    }
    NotWithin(text, cuts, k, c.start - 1);
    RedactedInside(text, spans, c.start + 1, c.end);
  }
}
