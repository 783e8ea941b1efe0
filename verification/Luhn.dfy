/** The check-digit test for card numbers, against the definition in Annex B of ISO/IEC 7812-1. */
module Luhn {
  import opened Strings

  /** A digit's contribution: itself, or the digits of its double added up. */
  function Weight(d: nat, doubled: bool): nat
    requires d < 10
  {
    if doubled then (2 * d) / 10 + (2 * d) % 10 else d
  }

  /** The weights added from the right, every second one doubled; doubled says whether the last digit is. */
  function WeightSum(s: string, doubled: bool): nat
    requires AllDigits(s)
  {
    if s == [] then 0
    else
      var n := |s| - 1;
      Weight(DigitValue(s[n]), doubled) + WeightSum(s[..n], !doubled)
  }

  predicate Valid(s: string) {
    13 <= |s| <= 19 && AllDigits(s) && WeightSum(s, false) % 10 == 0
  }

  // ---------------------------------------------------------------- the loop

  method IsValidLuhn(digits: string) returns (valid: bool)
    ensures valid == Valid(digits)
  {
    hide WeightSum, Weight;
    if !(13 <= |digits| <= 19 && AllDigits(digits)) {
      return false;
    }
    var sum, shouldDouble, index := 0, false, |digits| - 1;
    assert digits[..|digits|] == digits;
    while index >= 0
      invariant -1 <= index < |digits|
      invariant WeightSum(digits, false) == sum + WeightSum(digits[..index + 1], shouldDouble)
    {
      var digit := DigitValue(digits[index]);
      SumStep(digits, index, shouldDouble);
      if shouldDouble {
        digit := digit * 2;
        if digit > 9 {
          digit := digit - 9;
        }
      }
      sum := sum + digit;
      shouldDouble := !shouldDouble;
      index := index - 1;
    }
    NoDigits();
    return sum % 10 == 0;
  }

  lemma NoDigits()
    ensures WeightSum([], true) == WeightSum([], false) == 0
  {
  }

  /** The loop's subtraction of 9 adds up the digits of the double. */
  lemma SumStep(s: string, i: nat, doubled: bool)
    requires AllDigits(s) && i < |s|
    ensures WeightSum(s[..i + 1], doubled) ==
              WeightSum(s[..i], !doubled)
              + var d := DigitValue(s[i]); if !doubled then d else if 2 * d > 9 then 2 * d - 9 else 2 * d
  {
    assert s[..i + 1][..i] == s[..i];
    DoubledDigit(DigitValue(s[i]));
  }

  lemma DoubledDigit(d: nat)
    requires d < 10
    ensures Weight(d, false) == d && Weight(d, true) == if 2 * d > 9 then 2 * d - 9 else 2 * d
  {
  }

  // ---------------------------------------------------------------- what it catches

  /** Whether the digit at i is doubled. */
  predicate DoubledAt(s: string, i: nat, doubled: bool)
    requires i < |s|
  {
    ((|s| - 1 - i) % 2 == 1) != doubled
  }

  lemma {:induction false} ChangeOne(s: string, i: nat, c: char, doubled: bool)
    requires AllDigits(s) && i < |s| && IsDigit(c)
    ensures AllDigits(s[i := c])
    ensures WeightSum(s[i := c], doubled) + Weight(DigitValue(s[i]), DoubledAt(s, i, doubled))
            == WeightSum(s, doubled) + Weight(DigitValue(c), DoubledAt(s, i, doubled))
    decreases |s|
  {
    var n := |s| - 1;
    if i < n {
      assert s[i := c][..n] == s[..n][i := c];
      assert DoubledAt(s[..n], i, !doubled) == DoubledAt(s, i, doubled);
      ChangeOne(s[..n], i, c, !doubled);
    } else {
      assert s[i := c][..n] == s[..n];
    }
  }

  /** Doubling and adding up the digits permutes 0 to 9. */
  lemma WeightDistinct(d: nat, e: nat, doubled: bool)
    requires d < 10 && e < 10
    ensures Weight(d, doubled) < 10
    ensures Weight(d, doubled) == Weight(e, doubled) <==> d == e
  {
    if doubled {
      assert Weight(d, true) == if d < 5 then 2 * d else 2 * d - 9;
      assert Weight(e, true) == if e < 5 then 2 * e else 2 * e - 9;
    }
  }

  /** Changing any one digit of a valid number makes it invalid. */
  lemma SingleErrorCaught(s: string, i: nat, c: char)
    requires Valid(s) && i < |s| && IsDigit(c) && c != s[i]
    ensures !Valid(s[i := c])
  {
    hide WeightSum, Weight;
    ChangeOne(s, i, c, false);
    WeightDistinct(DigitValue(c), DigitValue(s[i]), DoubledAt(s, i, false));
    WeightDistinct(DigitValue(s[i]), DigitValue(c), DoubledAt(s, i, false));
  }

  function Swap(s: string, i: nat): string
    requires i + 1 < |s|
  {
    s[i := s[i + 1]][i + 1 := s[i]]
  }

  /** Swapping two different adjacent digits of a valid number makes it invalid, unless they are 0 and 9. */
  lemma AdjacentSwapCaughtIff(s: string, i: nat)
    requires Valid(s) && i + 1 < |s| && s[i] != s[i + 1]
    ensures Valid(Swap(s, i)) <==> (s[i] == '0' && s[i + 1] == '9') || (s[i] == '9' && s[i + 1] == '0')
  {
    hide WeightSum, Weight;
    var t := s[i := s[i + 1]];
    ChangeOne(s, i, s[i + 1], false);
    ChangeOne(t, i + 1, s[i], false);
    var a, b := DigitValue(s[i]), DigitValue(s[i + 1]);
    assert DoubledAt(t, i + 1, false) == !DoubledAt(s, i, false) && t[i + 1] == s[i + 1];
    assert AllDigits(Swap(s, i));
    SwapWeights(a, b, DoubledAt(s, i, false));
  }

  /** The change a swap makes, in tens: none exactly for 0 and 9. */
  lemma SwapWeights(a: nat, b: nat, doubled: bool)
    requires a < 10 && b < 10 && a != b
    ensures (Weight(b, doubled) + Weight(a, !doubled) - Weight(a, doubled) - Weight(b, !doubled)) % 10 == 0
            <==> (a == 0 && b == 9) || (a == 9 && b == 0)
    ensures -18 <= Weight(b, doubled) + Weight(a, !doubled) - Weight(a, doubled) - Weight(b, !doubled) <= 18
  {
    assert Weight(a, true) == if a < 5 then 2 * a else 2 * a - 9;
    assert Weight(b, true) == if b < 5 then 2 * b else 2 * b - 9;
  }

  /** Every payload of 12 to 18 digits has exactly one check digit. */
  lemma CheckDigitIsUnique(payload: string)
    requires 12 <= |payload| <= 18 && AllDigits(payload)
    ensures exists c :: IsDigit(c) && Valid(payload + [c])
    ensures forall c, d :: IsDigit(c) && IsDigit(d) && Valid(payload + [c]) && Valid(payload + [d]) ==> c == d
  {
    hide WeightSum;
    var rest := WeightSum(payload, true);
    forall c | IsDigit(c) ensures AllDigits(payload + [c]) && WeightSum(payload + [c], false) == DigitValue(c) + rest {
      LastDigit(payload, c);
    }
    var check := DigitChar((10 - rest % 10) % 10);
    assert IsDigit(check) && DigitValue(check) == (10 - rest % 10) % 10;
    forall c | IsDigit(c) ensures Valid(payload + [c]) <==> c == check {
      CompletesIff(DigitValue(c), rest);
    }
  }

  lemma CompletesIff(d: nat, rest: nat)
    requires d < 10
    ensures (d + rest) % 10 == 0 <==> d == (10 - rest % 10) % 10
  {
  }

  lemma LastDigit(payload: string, c: char)
    requires AllDigits(payload) && IsDigit(c)
    ensures AllDigits(payload + [c]) && WeightSum(payload + [c], false) == DigitValue(c) + WeightSum(payload, true)
  {
    assert (payload + [c])[..|payload|] == payload;
  }
}
