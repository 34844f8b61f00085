/** The Luhn check of card-number candidates (Annex B of ISO/IEC 7812-1). */
module Luhn {
  import opened Options

  predicate AllDigits(ds: seq<nat>) { forall i :: 0 <= i < |ds| ==> ds[i] <= 9 }

  /** Twice a digit, with the digits of the result added up. */
  function Doubled(d: nat): (r: nat)
    requires d <= 9
    ensures r <= 9
  {
    if 2 * d > 9 then 2 * d - 9 else 2 * d
  }

  /** The contribution of the digit at position `p` from the right. */
  function Weighted(d: nat, p: nat): (r: nat)
    requires d <= 9
    ensures r <= 9
  {
    if p % 2 == 1 then Doubled(d) else d
  }

  /** The definition, from the right: the check digit counts as it is, and every second
      digit to its left is doubled. Sum over the positions from `p` on. */
  function SumFromRight(ds: seq<nat>, p: nat): nat
    requires AllDigits(ds) && p <= |ds|
    decreases |ds| - p
  {
    if p == |ds| then 0 else Weighted(ds[|ds| - 1 - p], p) + SumFromRight(ds, p + 1)
  }

  predicate Valid(ds: seq<nat>)
    requires AllDigits(ds)
  {
    13 <= |ds| <= 19 && SumFromRight(ds, 0) % 10 == 0
  }

  /** Reading a character as a decimal digit, in any script; other characters have none. */
  ghost predicate ReadsDigits(digitOf: char -> Option<nat>) { forall c :: digitOf(c).Some? ==> digitOf(c).value <= 9 }

  /** The digits of a candidate, separators dropped. */
  function DigitsUpTo(text: string, digitOf: char -> Option<nat>, n: nat): (r: seq<nat>)
    requires ReadsDigits(digitOf) && n <= |text|
    ensures AllDigits(r)
  {
    if n == 0 then []
    else DigitsUpTo(text, digitOf, n - 1) + if digitOf(text[n - 1]).Some? then [digitOf(text[n - 1]).value] else []
  }

  /** Counting from the left, positions with the parity of the length are those to double. */
  lemma ParityFromRight(length: nat, index: nat)
    requires index < length
    ensures index % 2 == length % 2 <==> (length - 1 - index) % 2 == 1
  {
  }

  /** `_luhn_valid`: one pass from the left, doubling by the parity of the length. */
  method LuhnValid(candidate: string, digitOf: char -> Option<nat>) returns (valid: bool)
    requires ReadsDigits(digitOf)
    ensures valid <==> Valid(DigitsUpTo(candidate, digitOf, |candidate|))
  {
    var digits := DigitsUpTo(candidate, digitOf, |candidate|);
    if !(13 <= |digits| <= 19) {
      return false;
    }
    var checksum, parity := 0, |digits| % 2;
    for index := 0 to |digits|
      invariant checksum == SumFromRight(digits, |digits| - index)
    {
      var digit := digits[index];
      ParityFromRight(|digits|, index);
      if index % 2 == parity {
        digit := digit * 2;
        if digit > 9 {
          digit := digit - 9;
        }
      }
      checksum := checksum + digit;
    }
    return checksum % 10 == 0;
  }

  // ----- what the check detects -----

  lemma {:induction false} OneChangedDigit(ds: seq<nat>, es: seq<nat>, i: nat, p: nat)
    requires AllDigits(ds) && AllDigits(es) && |ds| == |es| && i < |ds| && p <= |ds|
    requires forall k :: 0 <= k < |ds| && k != i ==> ds[k] == es[k]
    ensures var q := |ds| - 1 - i;
            SumFromRight(es, p) - SumFromRight(ds, p) == if p <= q then Weighted(es[i], q) - Weighted(ds[i], q) else 0
    decreases |ds| - p
  {
    if p < |ds| {
      OneChangedDigit(ds, es, i, p + 1);
    }
  }

  /** Weights tell any two digits apart, even modulo 10. */
  lemma WeightsDiffer(a: nat, b: nat, p: nat)
    requires a <= 9 && b <= 9
    ensures (Weighted(a, p) - Weighted(b, p)) % 10 == 0 <==> a == b
  {
    assert -9 <= Weighted(a, p) - Weighted(b, p) <= 9;
  }

  lemma ShiftedSum(sum: nat, shifted: nat, change: int)
    requires sum % 10 == 0 && shifted == sum + change
    ensures shifted % 10 == 0 <==> change % 10 == 0
  {
  }

  /** Changing one digit of a valid number makes it invalid, whatever the change. */
  lemma SingleDigitErrorIsDetected(ds: seq<nat>, i: nat, d: nat)
    requires AllDigits(ds) && Valid(ds) && i < |ds| && d <= 9
    ensures AllDigits(ds[i := d])
    ensures Valid(ds[i := d]) <==> d == ds[i]
  {
    var es, q := ds[i := d], |ds| - 1 - i;
    OneChangedDigit(ds, es, i, 0);
    WeightsDiffer(d, ds[i], q);
    ShiftedSum(SumFromRight(ds, 0), SumFromRight(es, 0), Weighted(d, q) - Weighted(ds[i], q));
  }

  function Swapped(ds: seq<nat>, i: nat): seq<nat>
    requires i + 1 < |ds|
  {
    ds[i := ds[i + 1]][i + 1 := ds[i]]
  }

  /** Exchanging two adjacent digits of a valid number makes it invalid, unless they are
      equal or 0 and 9: those exchanges, and only those, go unnoticed. */
  lemma AdjacentSwapIsDetected(ds: seq<nat>, i: nat)
    requires AllDigits(ds) && Valid(ds) && i + 1 < |ds|
    ensures AllDigits(Swapped(ds, i))
    ensures Valid(Swapped(ds, i)) <==> ds[i] == ds[i + 1] || {ds[i], ds[i + 1]} == {0, 9}
  {
    var a, b, q := ds[i], ds[i + 1], |ds| - 1 - i;
    var half := ds[i := b];
    OneChangedDigit(ds, half, i, 0);
    OneChangedDigit(half, Swapped(ds, i), i + 1, 0);
    var change := Weighted(b, q) - Weighted(a, q) + Weighted(a, q - 1) - Weighted(b, q - 1);
    ShiftedSum(SumFromRight(ds, 0), SumFromRight(Swapped(ds, i), 0), change);
    SwapChange(a, b, q);
  }

  /** Doubling shifts a digit by less than 10, and only 0 and 9 by the same amount. */
  lemma SwapChange(a: nat, b: nat, q: nat)
    requires a <= 9 && b <= 9 && 0 < q
    ensures (Weighted(b, q) - Weighted(a, q) + Weighted(a, q - 1) - Weighted(b, q - 1)) % 10 == 0
            <==> a == b || {a, b} == {0, 9}
  {
    var shiftA, shiftB := Doubled(a) - a, Doubled(b) - b;
    assert {a, b} == {0, 9} <==> (a == 0 && b == 9) || (a == 9 && b == 0) by {
      if {a, b} == {0, 9} {
        assert 0 in {a, b} && 9 in {a, b};
      }
    }
    assert -9 <= shiftA - shiftB <= 9;
    if q % 2 == 1 {
      assert (q - 1) % 2 == 0;
    } else {
      assert (q - 1) % 2 == 1;
    }
  }

  // ----- the check digit -----

  /** The digits of `x`, at most 18, added up. */
  function DigitSum(x: nat): nat { x / 10 + x % 10 }

  /** The sum of the standard over a number still without its check digit, from the left:
      every second digit is doubled, the last one always. */
  function PayloadSum(ds: seq<nat>, n: nat): nat
    requires n <= |ds|
  {
    if n == 0 then 0
    else PayloadSum(ds, n - 1) + if (|ds| - n) % 2 == 0 then DigitSum(2 * ds[n - 1]) else ds[n - 1]
  }

  lemma {:induction false} SumOfPayload(ds: seq<nat>, d: nat, n: nat)
    requires AllDigits(ds) && d <= 9 && n <= |ds|
    ensures AllDigits(ds + [d]) && SumFromRight(ds + [d], |ds| + 1 - n) == PayloadSum(ds, n)
  {
    if n > 0 {
      SumOfPayload(ds, d, n - 1);
      var p := |ds| + 1 - n;
      assert (ds + [d])[|ds| - p] == ds[n - 1];
      WeightIs(ds[n - 1], |ds| - n);
    }
  }

  lemma WeightIs(d: nat, behind: nat)
    requires d <= 9
    ensures Weighted(d, behind + 1) == if behind % 2 == 0 then DigitSum(2 * d) else d
  {
    assert (behind + 1) % 2 == 1 <==> behind % 2 == 0;
  }

  /** Of the ten check digits exactly one makes a number valid: the one that fills the sum of
      the standard up to a multiple of 10. */
  lemma CheckDigitIs(ds: seq<nat>, d: nat)
    requires AllDigits(ds) && d <= 9
    ensures AllDigits(ds + [d])
    ensures Valid(ds + [d]) <==> 12 <= |ds| <= 18 && d == (10 - PayloadSum(ds, |ds|) % 10) % 10
  {
    SumWithCheckDigit(ds, d);
    FillsUp(PayloadSum(ds, |ds|), d);
  }

  lemma SumWithCheckDigit(ds: seq<nat>, d: nat)
    requires AllDigits(ds) && d <= 9
    ensures AllDigits(ds + [d]) && SumFromRight(ds + [d], 0) == d + PayloadSum(ds, |ds|)
  {
    SumOfPayload(ds, d, |ds|);
    assert (ds + [d])[|ds|] == d;
  }

  lemma FillsUp(sum: nat, d: nat)
    requires d <= 9
    ensures (d + sum) % 10 == 0 <==> d == (10 - sum % 10) % 10
  {
  }
}
