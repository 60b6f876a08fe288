/**
 Decimal arithmetic as Python's `decimal` performs it, on non-negative numbers.
 Money is an integer number of quanta, one quantum being 10^-12 USD, so a
 quantity in quanta with `places` fractional digits is coefficient / 10^places.
 */
module Decimals {
  import opened Wrappers

  datatype DecimalError = InvalidOperation

  datatype Scaled = Scaled(coefficient: nat, places: nat)

  function Pow10(k: nat): (p: nat)
    ensures p > 0
  {
    if k == 0 then 1 else 10 * Pow10(k - 1)
  }

  /** The rational n/d rounded to an integer, ties to the even neighbour. */
  function RoundHalfEven(n: nat, d: nat): nat
    requires d > 0
  {
    var q, r := n / d, n % d;
    if 2 * r < d || (2 * r == d && q % 2 == 0) then q else q + 1
  }

  /** roundTiesToEven, section 4.3.1 of IEEE 754-2019, without a formula:
      q is within half a unit of n/d, and even when it is exactly half a unit away. */
  ghost predicate NearestEven(n: int, d: int, q: int) {
    && -d <= 2 * (q * d - n) <= d
    && (2 * (q * d - n) == d || 2 * (q * d - n) == -d ==> q % 2 == 0)
  }

  /** Number of low digits that do not fit in `precision` digits. */
  function ExcessDigits(precision: nat, s: nat): nat
    decreases s
  {
    if s < Pow10(precision) then 0 else 1 + ExcessDigits(precision, s / 10)
  }

  /** An integer result rounded to `precision` significant digits. */
  function RoundSignificant(precision: nat, s: nat): nat {
    var unit := Pow10(ExcessDigits(precision, s));
    RoundHalfEven(s, unit) * unit
  }

  /** Fractional digits that a quotient n/d keeps at `precision` significant digits. */
  function QuotientPlaces(precision: nat, n: nat, d: nat): (places: nat)
    requires n > 0 && d > 0 && precision > 0
    decreases d * Pow10(precision - 1) - n
  {
    if n >= d * Pow10(precision - 1) then 0 else 1 + QuotientPlaces(precision, 10 * n, d)
  }

  function Divide(precision: nat, n: nat, d: nat): Scaled
    requires n > 0 && d > 0 && precision > 0
  {
    var places := QuotientPlaces(precision, n, d);
    Scaled(RoundHalfEven(n * Pow10(places), d), places)
  }

  /** `(n / d).quantize(quantum, ROUND_HALF_EVEN)` in a context of `precision` digits.
      A result that needs more digits than the context has is an invalid operation. */
  function QuantizedQuotient(precision: nat, n: nat, d: nat): Result<nat, DecimalError>
    requires d > 0 && precision > 0
  {
    if n == 0 then Success(0)
    else if n >= d * Pow10(precision) then Failure(InvalidOperation)
    else
      var quotient := Divide(precision, n, d);
      var quantized := RoundHalfEven(quotient.coefficient, Pow10(quotient.places));
      if quantized >= Pow10(precision) then Failure(InvalidOperation) else Success(quantized)
  }

  // Rounding is nearest-even, and nearest-even is unique

  lemma RoundHalfEvenIsNearest(n: nat, d: nat)
    requires d > 0
    ensures NearestEven(n, d, RoundHalfEven(n, d))
  {
    var q, r := n / d, n % d;
    assert n == q * d + r;
    assert (q + 1) * d == q * d + d;
  }

  lemma NearestEvenIsUnique(n: nat, d: nat, p: nat, q: nat)
    requires d > 0
    requires NearestEven(n, d, p) && NearestEven(n, d, q)
    ensures p == q
  {
    if p < q {
      NearestNeighbours(n, d, p, q);
    } else if q < p {
      NearestNeighbours(n, d, q, p);
    }
  }

  /** Two integers both within half a unit of n/d are neighbours, with n/d midway. */
  lemma NearestNeighbours(n: nat, d: nat, p: nat, q: nat)
    requires d > 0 && p < q
    requires 2 * (q * d - n) <= d && -1 * d <= 2 * (p * d - n)
    ensures q == p + 1 && 2 * (q * d - n) == d && 2 * (p * d - n) == -1 * d
  {
    MulLe(1, q - p, d);
    assert (q - p) * d == q * d - p * d;
    if q - p >= 2 {
      MulLe(2, q - p, d);
    }
  }

  lemma MulLe(a: int, b: int, c: nat)
    requires a <= b
    ensures a * c <= b * c
  {
  }

  lemma RoundHalfEvenExact(q: nat, d: nat)
    requires d > 0
    ensures RoundHalfEven(q * d, d) == q
  {
    RoundHalfEvenIsNearest(q * d, d);
    NearestEvenIsUnique(q * d, d, q, RoundHalfEven(q * d, d));
  }

  lemma RoundHalfEvenMonotone(m: nat, n: nat, d: nat)
    requires d > 0 && m <= n
    ensures RoundHalfEven(m, d) <= RoundHalfEven(n, d)
  {
    RoundHalfEvenIsNearest(m, d);
    RoundHalfEvenIsNearest(n, d);
    var p, q := RoundHalfEven(m, d), RoundHalfEven(n, d);
    if p > q {
      NearestNeighbours(n, d, q, p);
    }
  }

  // Powers of ten

  lemma Pow10Add(a: nat, b: nat)
    ensures Pow10(a + b) == Pow10(a) * Pow10(b)
  {
    if a > 0 {
      Pow10Add(a - 1, b);
      assert Pow10(a + b) == 10 * Pow10(a - 1 + b);
      assert 10 * (Pow10(a - 1) * Pow10(b)) == (10 * Pow10(a - 1)) * Pow10(b);
    }
  }

  lemma Pow10Monotone(a: nat, b: nat)
    requires a <= b
    ensures Pow10(a) <= Pow10(b)
  {
    Pow10Add(a, b - a);
    MulLe(1, Pow10(b - a), Pow10(a));
  }

  lemma Pow10Increasing(a: nat, b: nat)
    requires a < b
    ensures Pow10(a) < Pow10(b)
  {
    Pow10Monotone(a + 1, b);
  }

  // Two roundings against one

  lemma {:induction false} QuotientPlacesBound(precision: nat, n: nat, d: nat)
    requires n > 0 && d > 0 && precision > 0
    ensures n * Pow10(QuotientPlaces(precision, n, d)) >= d * Pow10(precision - 1)
    decreases d * Pow10(precision - 1) - n
  {
    if n < d * Pow10(precision - 1) {
      QuotientPlacesBound(precision, 10 * n, d);
      var rest := QuotientPlaces(precision, 10 * n, d);
      assert n * Pow10(1 + rest) == (10 * n) * Pow10(rest);
    }
  }

  /** Rounding n/d first to a fine grid of t = 2 * half steps and then to an integer loses
      nothing when t exceeds the divisor: a non-tie is at least 1/(2d) away from every tie. */
  lemma RoundingTwiceIsRoundingOnce(n: nat, d: nat, t: nat, half: nat)
    requires 0 < d < t == 2 * half
    ensures RoundHalfEven(RoundHalfEven(n * t, d), t) == RoundHalfEven(n, d)
  {
    var m := n * t;
    var c := RoundHalfEven(m, d);
    var q := RoundHalfEven(n, d);
    RoundHalfEvenIsNearest(n, d);
    RoundHalfEvenIsNearest(m, d);
    RoundHalfEvenIsNearest(c, t);
    NearestOnFineGrid(n, d, t, half, q, c);
    NearestEvenIsUnique(c, t, q, RoundHalfEven(c, t));
  }

  lemma NearestOnFineGrid(n: nat, d: nat, t: nat, half: nat, q: nat, c: nat)
    requires 0 < d < t == 2 * half
    requires NearestEven(n, d, q) && NearestEven(n * t, d, c)
    ensures NearestEven(c, t, q)
  {
    if 2 * (q * d - n) == d {
      TieSurvives(n, d, t, half, q, c, -1);
    } else if 2 * (q * d - n) == -1 * d {
      TieSurvives(n, d, t, half, q, c, 1);
    } else {
      NonTieSurvives(n, d, t, q, c);
    }
  }

  /** A tie n/d = q + sign/2 lies on the fine grid, so the first rounding is exact. */
  lemma TieSurvives(n: nat, d: nat, t: nat, half: nat, q: nat, c: nat, sign: int)
    requires 0 < d && t == 2 * half && half > 0 && (sign == 1 || sign == -1)
    requires 2 * n == 2 * (q * d) + sign * d
    requires NearestEven(n * t, d, c)
    ensures c == q * t + sign * half
  {
    var k := q * t + sign * half;
    calc {
      n * t;
      (2 * n) * half;
      (2 * (q * d) + sign * d) * half;
      { Distribute(2 * (q * d), sign * d, half); }
      2 * (q * d) * half + sign * d * half;
      { assert 2 * (q * d) * half == (q * (2 * half)) * d; }
      (q * t) * d + (sign * half) * d;
      { Distribute(q * t, sign * half, d); }
      k * d;
    }
    if k < 0 {
      MulLe(k, -1, d);
    }
    NearestEvenIsUnique(n * t, d, k, c);
  }

  lemma Distribute(a: int, b: int, c: int)
    ensures (a + b) * c == a * c + b * c
  {
  }

  lemma NonTieSurvives(n: nat, d: nat, t: nat, q: nat, c: nat)
    requires 0 < d < t
    requires -1 * d < 2 * (q * d - n) < d
    requires NearestEven(n * t, d, c)
    ensures -1 * t < 2 * (q * t - c) < t
  {
    var e, f, gap := 2 * (q * d - n), 2 * (c * d - n * t), 2 * (q * t - c);
    FineGridGap(n, d, t, q, c);
    GapBelowHalf(d, t, e, f, gap);
  }

  lemma FineGridGap(n: nat, d: nat, t: nat, q: nat, c: nat)
    ensures 2 * (q * t - c) * d == 2 * (q * d - n) * t - 2 * (c * d - n * t)
  {
    Distribute(q * t, -1 * c, d);
    Distribute(q * d, -1 * n, t);
    assert (q * t) * d == (q * d) * t;
  }

  lemma GapBelowHalf(d: nat, t: nat, e: int, f: int, gap: int)
    requires 0 < d < t
    requires gap * d == e * t - f
    requires -1 * d < e < d && -1 * d <= f <= d
    ensures -1 * t < gap < t
  {
    GapBelow(d, t, e, f, gap);
    GapBelow(d, t, -e, -f, -gap);
  }

  lemma GapBelow(d: nat, t: nat, e: int, f: int, gap: int)
    requires 0 < d < t
    requires gap * d == e * t - f
    requires e < d && -1 * d <= f
    ensures gap < t
  {
    MulLe(e, d - 1, t);
    Distribute(d, -1, t);
    if gap >= t {
      MulLe(t, gap, d);
    }
  }

  lemma MulAssociates(a: int, b: int, c: int)
    ensures a * (b * c) == a * b * c
  {
  }

  lemma LargerFactor(n: nat, p: nat, m: nat, f: nat)
    requires n < m && f > 0 && n * p >= m * f
    ensures p > f
  {
    if p <= f {
      MulLe(p, f, n);
      MulLe(n + 1, m, f);
      Distribute(n, 1, f);
    }
  }

  /** A quotient with at most `whole` integer digits keeps `fraction` fractional digits. */
  lemma QuotientPlacesAtLeast(whole: nat, fraction: nat, n: nat, d: nat)
    requires d > 0 && fraction > 0 && 0 < n < d * Pow10(whole)
    ensures QuotientPlaces(whole + fraction, n, d) >= fraction
  {
    var p := whole + fraction;
    var places := QuotientPlaces(p, n, d);
    var w, f := Pow10(whole), Pow10(fraction - 1);
    assert n * Pow10(places) >= d * w * f by {
      QuotientPlacesBound(p, n, d);
      Pow10Add(whole, fraction - 1);
      MulAssociates(d, w, f);
    }
    LargerFactor(n, Pow10(places), d * w, f);
    if places < fraction {
      Pow10Monotone(places, fraction - 1);
    }
  }

  /** The integer bound carries over: a value below `bound` rounds to at most `bound`. */
  lemma RoundHalfEvenAtMost(n: nat, d: nat, bound: nat)
    requires d > 0 && n < d * bound
    ensures RoundHalfEven(n, d) <= bound
  {
    RoundHalfEvenMonotone(n, bound * d, d);
    RoundHalfEvenExact(bound, d);
  }

  lemma DivideIsExactAfterQuantizing(precision: nat, n: nat, d: nat)
    requires n > 0 && precision > 0 && QuotientPlaces.requires(precision, n, d)
    requires 0 < d < Pow10(QuotientPlaces(precision, n, d))
    ensures var quotient := Divide(precision, n, d);
            RoundHalfEven(quotient.coefficient, Pow10(quotient.places)) == RoundHalfEven(n, d)
  {
    var places := QuotientPlaces(precision, n, d);
    assert places > 0;
    var half := 5 * Pow10(places - 1);
    assert Pow10(places) == 2 * half;
    hide RoundHalfEven, QuotientPlaces, Pow10;
    RoundingTwiceIsRoundingOnce(n, d, Pow10(places), half);
  }

  lemma BelowLargerPower(n: nat, d: nat, j: nat, k: nat)
    requires j <= k && n < d * Pow10(j)
    ensures n < d * Pow10(k)
  {
    Pow10Monotone(j, k);
    MulLe(Pow10(j), Pow10(k), d);
  }

  /** Division and quantization at whole + fraction digits are together one exact rounding,
      for every value below 10^whole and every divisor below 10^fraction. */
  lemma QuantizedQuotientIsExact(whole: nat, fraction: nat, n: nat, d: nat)
    requires fraction > 0
    requires 0 < d < Pow10(fraction) && n < d * Pow10(whole)
    ensures QuantizedQuotient(whole + fraction, n, d) == Success(RoundHalfEven(n, d))
    ensures RoundHalfEven(n, d) <= Pow10(whole)
  {
    hide RoundHalfEven, Pow10, Divide, QuotientPlaces;
    var p := whole + fraction;
    if n == 0 {
      RoundHalfEvenExact(0, d);
    } else {
      QuotientPlacesAtLeast(whole, fraction, n, d);
      Pow10Monotone(fraction, QuotientPlaces(p, n, d));
      DivideIsExactAfterQuantizing(p, n, d);
      RoundHalfEvenAtMost(n, d, Pow10(whole));
      Pow10Increasing(whole, p);
      BelowLargerPower(n, d, whole, p);
    }
  }

  // Sums in the default context of 28 digits

  lemma {:induction false} ExcessDigitsBound(precision: nat, s: nat)
    requires precision > 0
    ensures s < Pow10(precision + ExcessDigits(precision, s))
    ensures ExcessDigits(precision, s) > 0 ==> s >= Pow10(precision + ExcessDigits(precision, s) - 1)
    decreases s
  {
    if s >= Pow10(precision) {
      ExcessDigitsBound(precision, s / 10);
    }
  }

  lemma RoundSignificantSmall(precision: nat, s: nat)
    requires s < Pow10(precision)
    ensures RoundSignificant(precision, s) == s
  {
    RoundHalfEvenExact(s, 1);
  }

  /** A rounded value stays in the decade of the value it rounds. */
  lemma RoundSignificantDecade(precision: nat, s: nat)
    requires precision > 0
    ensures RoundSignificant(precision, s) <= Pow10(precision + ExcessDigits(precision, s))
    ensures ExcessDigits(precision, s) > 0 ==>
              RoundSignificant(precision, s) >= Pow10(precision + ExcessDigits(precision, s) - 1)
  {
    var k := ExcessDigits(precision, s);
    var unit := Pow10(k);
    ExcessDigitsBound(precision, s);
    Pow10Add(precision, k);
    RoundHalfEvenMonotone(s, Pow10(precision) * unit, unit);
    RoundHalfEvenExact(Pow10(precision), unit);
    MulLe(RoundHalfEven(s, unit), Pow10(precision), unit);
    if k > 0 {
      Pow10Add(precision - 1, k);
      RoundHalfEvenMonotone(Pow10(precision - 1) * unit, s, unit);
      RoundHalfEvenExact(Pow10(precision - 1), unit);
      MulLe(Pow10(precision - 1), RoundHalfEven(s, unit), unit);
    }
  }

  lemma RoundSignificantMonotone(precision: nat, s: nat, t: nat)
    requires precision > 0 && s <= t
    ensures RoundSignificant(precision, s) <= RoundSignificant(precision, t)
  {
    var j, k := ExcessDigits(precision, s), ExcessDigits(precision, t);
    RoundSignificantDecade(precision, s);
    RoundSignificantDecade(precision, t);
    if j == k {
      RoundHalfEvenMonotone(s, t, Pow10(k));
      MulLe(RoundHalfEven(s, Pow10(k)), RoundHalfEven(t, Pow10(k)), Pow10(k));
    } else if j < k {
      Pow10Monotone(precision + j, precision + k - 1);
    } else {
      ExcessDigitsBound(precision, s);
      ExcessDigitsBound(precision, t);
      Pow10Monotone(precision + k, precision + j - 1);
      assert false;
    }
  }
}
