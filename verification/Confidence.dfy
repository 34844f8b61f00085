/** Merging confidences (`_round_confidence`, `_merge_confidence`). Stored confidences are
    multiples of 0.0001 and are held here as the number of such units. */
module Confidence {

  const UNITS := 10000

  /** Nearest integer, ties to even. */
  function Nearest(x: real): int {
    var below := x.Floor;
    var rest := x - below as real;
    if rest < 0.5 || (rest == 0.5 && below % 2 == 0) then below else below + 1
  }

  /** Python's `round(x, 4)`, in units. */
  function RoundToUnits(x: real): int { Nearest(x * 10000.0) }

  function AsReal(units: int): real { units as real / 10000.0 }

  /** The unrounded merge, before the cap at 1. */
  function Raised(base: int, candidate: int): real {
    AsReal(base) + (1.0 - AsReal(base)) * AsReal(candidate) * 0.25
  }

  /** `_merge_confidence`. */
  function Merge(base: int, candidate: int): int {
    var raised := Raised(base, candidate);
    RoundToUnits(if raised < 1.0 then raised else 1.0)
  }

  /** The confidence after one merge per element of `candidates`. */
  function MergeAll(base: int, candidates: seq<int>): int {
    if candidates == [] then base
    else Merge(MergeAll(base, candidates[..|candidates| - 1]), candidates[|candidates| - 1])
  }

  predicate InUnits(units: int) { 0 <= units <= UNITS }

  // ----- rounding -----

  lemma NearestIsMonotone(x: real, y: real)
    requires x <= y
    ensures Nearest(x) <= Nearest(y)
  {
    assert x.Floor <= y.Floor;
  }

  /** Rounding gives the nearest unit; of two equally near ones, the even one. */
  lemma RoundsToNearest(x: real, units: int)
    ensures RoundToUnits(x) == units <==>
            && -0.5 <= x * 10000.0 - units as real <= 0.5
            && (x * 10000.0 - units as real == 0.5 || x * 10000.0 - units as real == -0.5 ==> units % 2 == 0)
  {
  }
  lemma NearestAbove(base: int, gain: int)
    requires 0 <= gain
    ensures base <= Nearest(base as real + gain as real / 40000.0)
    ensures Nearest(base as real + gain as real / 40000.0) > base <==> 20000 < gain || (20000 == gain && base % 2 == 1)
  {
    var x := base as real + gain as real / 40000.0;
    if gain < 40000 {
      assert x.Floor == base;
    } else {
      assert x.Floor >= base + 1;
    }
  }

  /** How far a merge may go, in steps of a quarter of a unit times 10000. */
  function Gain(base: int, candidate: int): int { (UNITS - base) * candidate }

  lemma GainBounds(base: int, candidate: int)
    requires InUnits(base) && InUnits(candidate)
    ensures 0 <= Gain(base, candidate) <= (UNITS - base) * UNITS
  {
  }

  /** The merge in units: a quarter of the remaining distance times the candidate is
      added, and the cap at 1 never takes effect. */
  lemma MergeInUnits(base: int, candidate: int)
    requires InUnits(base) && InUnits(candidate)
    ensures Raised(base, candidate) <= 1.0
    ensures Merge(base, candidate) == Nearest(base as real + Gain(base, candidate) as real / 40000.0)
  {
    var b, c := base as real, candidate as real;
    var room := 10000.0 - b;
    assert Gain(base, candidate) as real == room * c;
    assert Raised(base, candidate) == (b + room * c / 40000.0) / 10000.0 by {
      assert 1.0 - b / 10000.0 == room / 10000.0;
      assert (room / 10000.0) * (c / 10000.0) == room * c / 100000000.0;
    }
    GainBounds(base, candidate);
  }

  // ----- one merge -----

  /** The result is no smaller than before and never above 1, and it is 1 only when the
      old confidence was. */
  lemma MergeStaysBelowOne(base: int, candidate: int)
    requires InUnits(base) && InUnits(candidate)
    ensures base <= Merge(base, candidate) <= UNITS
    ensures Merge(base, candidate) == UNITS <==> base == UNITS
    ensures base <= 9998 ==> Merge(base, candidate) <= 9998
  {
    MergeInUnits(base, candidate);
    GainBounds(base, candidate);
    var gain := Gain(base, candidate);
    NearestAbove(base, gain);
    var x := base as real + gain as real / 40000.0;
    assert x <= 2500.0 + 0.75 * base as real;
    NearestIsMonotone(x, if base == UNITS then 10000.0 else if base == 9999 then 9999.25 else 9998.5);
    assert (9998.5).Floor == 9998 && (9999.25).Floor == 9999 && (10000.0).Floor == 10000;
  }

  lemma GainGrows(base: int, base': int, candidate: int, candidate': int)
    requires InUnits(base) && InUnits(base') && InUnits(candidate) && InUnits(candidate')
    requires base <= base' && candidate <= candidate'
    ensures base * UNITS + Gain(base, candidate) <= base' * UNITS + Gain(base', candidate')
  {
    var step, room := base' - base, UNITS - base';
    assert Gain(base, candidate) == room * candidate + step * candidate;
    assert room * candidate <= room * candidate' && step * candidate <= step * UNITS;
  }

  lemma MergeIsMonotone(base: int, base': int, candidate: int, candidate': int)
    requires InUnits(base) && InUnits(base') && InUnits(candidate) && InUnits(candidate')
    requires base <= base' && candidate <= candidate'
    ensures Merge(base, candidate) <= Merge(base', candidate')
  {
    MergeInUnits(base, candidate);
    MergeInUnits(base', candidate');
    GainGrows(base, base', candidate, candidate');
    var g, g' := Gain(base, candidate), Gain(base', candidate');
    NearestIsMonotone(base as real + g as real / 40000.0, base' as real + g' as real / 40000.0);
  }

  /** A merge moves the stored confidence exactly when the raise is more than half a unit,
      or half a unit from an odd value. From 0.9998 on no candidate can move it. */
  lemma MergeMovesExactly(base: int, candidate: int)
    requires InUnits(base) && InUnits(candidate)
    ensures Merge(base, candidate) > base <==>
            20000 < Gain(base, candidate) || (20000 == Gain(base, candidate) && base % 2 == 1)
    ensures 9998 <= base ==> Merge(base, candidate) == base
  {
    MergeStaysBelowOne(base, candidate);
    MergeInUnits(base, candidate);
    GainBounds(base, candidate);
    NearestAbove(base, Gain(base, candidate));
  }

  // ----- any number of merges -----

  /** Whatever candidates arrive, a confidence never falls, stays within [0, 1], and
      reaches 1 only by starting there; from 0.9998 or less it never passes 0.9998. */
  lemma {:induction false} MergesNeverReachOne(base: int, candidates: seq<int>)
    requires InUnits(base) && forall c :: c in candidates ==> InUnits(c)
    ensures base <= MergeAll(base, candidates) <= UNITS
    ensures MergeAll(base, candidates) == UNITS <==> base == UNITS
    ensures base <= 9998 ==> MergeAll(base, candidates) <= 9998
  {
    if candidates != [] {
      var n := |candidates| - 1;
      MergesNeverReachOne(base, candidates[..n]);
      MergeStaysBelowOne(MergeAll(base, candidates[..n]), candidates[n]);
    }
  }

  /** More confident candidates and a more confident start never give less. */
  lemma {:induction false} MergesAreMonotone(base: int, base': int, candidates: seq<int>, candidates': seq<int>)
    requires InUnits(base) && InUnits(base') && base <= base' && |candidates| <= |candidates'|
    requires forall c :: c in candidates' ==> InUnits(c)
    requires forall i :: 0 <= i < |candidates| ==> 0 <= candidates[i] <= candidates'[i]
    ensures MergeAll(base, candidates) <= MergeAll(base', candidates')
    decreases |candidates'|
  {
    if |candidates| < |candidates'| {
      var n := |candidates'| - 1;
      MergesAreMonotone(base, base', candidates, candidates'[..n]);
      MergesNeverReachOne(base', candidates'[..n]);
      assert InUnits(candidates'[n]);
      MergeStaysBelowOne(MergeAll(base', candidates'[..n]), candidates'[n]);
    } else if candidates != [] {
      var n := |candidates| - 1;
      forall c | c in candidates ensures InUnits(c) {
        var i :| 0 <= i < |candidates| && candidates[i] == c;
        assert candidates'[i] in candidates';
      }
      MergesAreMonotone(base, base', candidates[..n], candidates'[..n]);
      MergesNeverReachOne(base, candidates[..n]);
      MergesNeverReachOne(base', candidates'[..n]);
      MergeIsMonotone(MergeAll(base, candidates[..n]), MergeAll(base', candidates'[..n]), candidates[n], candidates'[n]);
    }
  }
}
