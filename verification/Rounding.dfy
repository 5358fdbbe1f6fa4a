/**
 The two roundings between a trained median and a served cell: ten significant decimal digits in the manifest's text
 (tools/ml/train.py), and single precision in the feature matrices (binary32 of IEEE 754, round to nearest, ties to
 even).
 */
module Rounding {

  /** The nearest integer, ties to even. */
  function Nearest(x: real): int {
    var f := x.Floor;
    if x - f as real < 0.5 || (x - f as real == 0.5 && f % 2 == 0) then f else f + 1
  }

  /** No integer is nearer, and of two that are equally near it is the even one. */
  lemma NearestIsNearest(x: real, m: int)
    ensures var n := Nearest(x);
            && (m as real <= n as real <= x || x <= n as real <= m as real
                || (m < n && 2.0 * x >= (m + n) as real) || (m > n && 2.0 * x <= (m + n) as real))
            && (m != n && 2.0 * x == (m + n) as real ==> n % 2 == 0)
  {
    var f := x.Floor;
    assert f as real <= x < f as real + 1.0;
    assert m <= f || m >= f + 1;
  }

  // ---- ten significant digits ----

  function RoundScaled(x: real): real
    requires x > 0.0
    decreases x < 1_000_000_000.0, if x < 1_000_000_000.0 then (1_000_000_000.0 / x).Floor else x.Floor
  {
    if x >= 10_000_000_000.0 then 10.0 * RoundScaled(x / 10.0)
    else if x < 1_000_000_000.0 then
      ScaleUp(x);
      RoundScaled(10.0 * x) / 10.0
    else Nearest(x) as real
  }

  lemma ScaleUp(x: real)
    requires 0.0 < x < 1_000_000_000.0
    ensures 10.0 * x < 1_000_000_000.0 ==> (1_000_000_000.0 / (10.0 * x)).Floor < (1_000_000_000.0 / x).Floor
    ensures (1_000_000_000.0 / x).Floor >= 0
  {
    var q := 1_000_000_000.0 / x;
    assert q * x == 1_000_000_000.0;
    assert q > 1.0;
    assert 1_000_000_000.0 / (10.0 * x) == q / 10.0;
  }

  /** What is left of a number printed with ten significant digits. */
  function RoundTo10Digits(x: real): real {
    if x == 0.0 then 0.0 else if x > 0.0 then RoundScaled(x) else -RoundScaled(-x)
  }

  // ---- single precision ----

  datatype Single = Finite(value: real) | Infinite(positive: bool)

  const MANTISSA_LOW := 8_388_608.0
  const MANTISSA_HIGH := 16_777_216.0
  /** Two to the 128th. */
  const TOO_LARGE := 340_282_366_920_938_463_463_374_607_431_768_211_456.0
  /** The last bit of the smallest numbers counts two to the power of minus 149. */
  const PLACES := 149

  /** The nearest number with a mantissa of 24 bits, of which at most `places` stand behind the binary point. */
  function RoundBinary(x: real, places: nat): real
    requires x > 0.0
    decreases x < MANTISSA_LOW, if x < MANTISSA_LOW then places else x.Floor
  {
    if x >= MANTISSA_HIGH then 2.0 * RoundBinary(x / 2.0, places)
    else if x < MANTISSA_LOW && places > 0 then RoundBinary(2.0 * x, places - 1) / 2.0
    else Nearest(x) as real
  }

  /** The cast to single precision. */
  function Narrow(x: real): Single {
    if x == 0.0 then Finite(0.0)
    else
      var size := RoundBinary(if x > 0.0 then x else -x, PLACES);
      if size >= TOO_LARGE then Infinite(x > 0.0) else Finite(if x > 0.0 then size else -size)
  }

  // ---- a number that the decimal rounding moves to another single ----

  function Pow2(k: nat): (p: real)
    ensures p >= 1.0
  {
    if k == 0 then 1.0 else 2.0 * Pow2(k - 1)
  }

  /** Below 2 to the 24th, shifting k places left and k places right again rounds the same. */
  lemma {:induction false} ShiftBinary(x: real, places: nat, k: nat, scaled: real)
    requires x > 0.0 && k <= places && scaled == x * Pow2(k) && scaled < MANTISSA_HIGH
    ensures scaled > 0.0 && RoundBinary(x, places) == RoundBinary(scaled, places - k) / Pow2(k)
    decreases k
  {
    hide RoundBinary;
    AtLeast(x, Pow2(k));
    if k > 0 {
      var half := Pow2(k - 1);
      Regroup(x, half);
      AtLeast(2.0 * x, half);
      ShiftBinary(2.0 * x, places - 1, k - 1, scaled);
      HalvedQuotient(RoundBinary(scaled, places - k), half);
      OneShift(x, places);
    } else {
      Unscaled(x);
    }
  }

  lemma OneShift(x: real, places: nat)
    requires 0.0 < x < MANTISSA_LOW && places > 0
    ensures RoundBinary(x, places) == RoundBinary(2.0 * x, places - 1) / 2.0
  {
  }

  lemma Regroup(x: real, p: real)
    ensures x * (2.0 * p) == (2.0 * x) * p
  {
  }

  lemma Unscaled(x: real)
    ensures x * Pow2(0) == x
  {
  }

  lemma AtLeast(x: real, p: real)
    requires x > 0.0 && p >= 1.0
    ensures x * p >= x
  {
    assert x * p - x == x * (p - 1.0);
  }

  lemma HalvedQuotient(x: real, p: real)
    requires p >= 1.0
    ensures (x / p) / 2.0 == x / (2.0 * p)
  {
    var q := x / p;
    assert q * p == x;
    assert (q / 2.0) * (2.0 * p) == x;
  }

  lemma Pow2Of23()
    ensures Pow2(23) == MANTISSA_LOW
  {
    assert Pow2(6) == 64.0;
    assert Pow2(12) == 4096.0;
    assert Pow2(18) == 262144.0;
  }

  /** Between one and two the last bit of a single counts two to the power of minus 23. */
  lemma NarrowNearOne(x: real)
    requires 1.0 <= x < 2.0
    ensures Narrow(x) == Finite(Nearest(x * MANTISSA_LOW) as real / MANTISSA_LOW)
  {
    Pow2Of23();
    ShiftBinary(x, PLACES, 23, x * MANTISSA_LOW);
  }

  lemma DigitsNearOne(x: real)
    requires 1.0 <= x < 10.0
    ensures RoundTo10Digits(x) == Nearest(x * 1_000_000_000.0) as real / 1_000_000_000.0
  {
    var r := RoundScaled(x * 1_000_000_000.0);
    assert RoundScaled(x * 100_000_000.0) == r / 10.0;
    assert RoundScaled(x * 10_000_000.0) == r / 100.0;
    assert RoundScaled(x * 1_000_000.0) == r / 1_000.0;
    assert RoundScaled(x * 100_000.0) == r / 10_000.0;
    assert RoundScaled(x * 10_000.0) == r / 100_000.0;
    assert RoundScaled(x * 1_000.0) == r / 1_000_000.0;
    assert RoundScaled(x * 100.0) == r / 10_000_000.0;
    assert RoundScaled(x * 10.0) == r / 100_000_000.0;
    assert RoundScaled(x) == r / 1_000_000_000.0;
  }

  /** 1.0000000596 is nearer to 1, its ten digits 1.000000060 are nearer to the next single. */
  lemma TenDigitsDrift()
    ensures RoundTo10Digits(1.0000000596) == 1.00000006
    ensures Narrow(1.0000000596) == Finite(1.0)
    ensures Narrow(1.00000006) == Finite(8_388_609.0 / 8_388_608.0)
    ensures Narrow(RoundTo10Digits(1.0000000596)) != Narrow(1.0000000596)
  {
    DigitsNearOne(1.0000000596);
    NarrowNearOne(1.0000000596);
    NarrowNearOne(1.00000006);
    assert Nearest(1.0000000596 * 1_000_000_000.0) == 1_000_000_060;
    assert Nearest(1.0000000596 * MANTISSA_LOW) == 8_388_608;
    assert Nearest(1.00000006 * MANTISSA_LOW) == 8_388_609;
  }
}
