/** Integer arithmetic as the C sources perform it. */
module CArithmetic {

  /** C's `/` on signed integers: the quotient is truncated toward zero. */
  function TruncDiv(a: int, b: int): int
    requires b > 0
  {
    if a >= 0 then a / b else -((-a) / b)
  }

  lemma DivisionBounds(a: int, b: int)
    requires a >= 0 && b > 0
    ensures (a / b) * b <= a < (a / b + 1) * b
  {
    assert a == (a / b) * b + a % b;
    SplitSuccessor(a / b, b);
  }

  lemma SplitSuccessor(q: int, b: int)
    ensures (q + 1) * b == q * b + b && (-q) * b == -(q * b)
  {
  }

  /** The quotient lies within any integers whose products with the divisor enclose `a`. */
  lemma QuotientWithin(a: int, b: int, q: int, lo: int, hi: int)
    requires b > 0 && q * b <= a < (q + 1) * b
    requires lo * b <= a <= hi * b
    ensures lo <= q <= hi
  {
    CancelFactor(lo, q + 1, b);
    SplitSuccessor(hi, b);
    CancelFactor(q, hi + 1, b);
  }

  /** Truncation never leaves an integer interval that contains the exact quotient. */
  lemma TruncDivWithin(a: int, b: int, lo: int, hi: int)
    requires b > 0
    requires lo * b <= a <= hi * b
    ensures lo <= TruncDiv(a, b) <= hi
  {
    if a >= 0 {
      DivisionBounds(a, b);
      QuotientWithin(a, b, a / b, lo, hi);
    } else {
      DivisionBounds(-a, b);
      SplitSuccessor(lo, b);
      SplitSuccessor(hi, b);
      QuotientWithin(-a, b, (-a) / b, -hi, -lo);
    }
  }

  lemma CancelFactor(x: int, y: int, b: int)
    requires b > 0 && x * b < y * b
    ensures x < y
  {
  }

  /** `q` is `t / n` truncated toward zero: its multiple of `n` is the nearest one to `t` that
      lies between 0 and `t`. */
  predicate IsTruncated(t: int, n: int, q: int) {
    if t >= 0 then q >= 0 && q * n <= t < (q + 1) * n
    else q <= 0 && (q - 1) * n < t <= q * n
  }

  lemma TruncDivIsTruncated(t: int, n: int)
    requires n > 0
    ensures IsTruncated(t, n, TruncDiv(t, n))
  {
    if t >= 0 {
      DivisionBounds(t, n);
    } else {
      DivisionBounds(-t, n);
      MirrorBounds(t, n, (-t) / n);
    }
  }

  lemma MirrorBounds(t: int, n: int, p: int)
    requires t < 0 < n && p * n <= -t < (p + 1) * n
    ensures (-p - 1) * n < t <= (-p) * n && p >= 0
  {
    SplitSuccessor(p, n);
    SplitSuccessor(p + 1, n);
    assert -(p + 1) == -p - 1;
    CancelFactor(0, p + 1, n);
  }

  /** No other integer qualifies. */
  lemma TruncatedIsUnique(t: int, n: int, p: int, q: int)
    requires n > 0 && IsTruncated(t, n, p) && IsTruncated(t, n, q)
    ensures p == q
  {
    if t >= 0 {
      CancelFactor(p, q + 1, n);
      CancelFactor(q, p + 1, n);
    } else {
      CancelFactor(p - 1, q, n);
      CancelFactor(q - 1, p, n);
    }
  }

  /** The cast `(int)` on a real value: truncation toward zero. */
  function TruncReal(x: real): int {
    if x >= 0.0 then x.Floor else -((-x).Floor)
  }

  /** What IEEE 754 single-precision rounding to nearest guarantees about the rounded
      value `f` of `q`: relative error at most half a unit in the last place, and
      monotone with every integer of up to 24 bits represented exactly. */
  ghost predicate RoundedToFloat(q: real, f: real) {
    && (q >= 0.0 ==> q - q / 16777216.0 <= f <= q + q / 16777216.0)
    && (q < 0.0 ==> q + q / 16777216.0 <= f <= q - q / 16777216.0)
    && (forall n: int {:trigger n as real} | -16777216 <= n <= 16777216 ::
          (n as real <= q ==> n as real <= f) && (q <= n as real ==> f <= n as real))
  }

  /** An integer of up to 24 bits is a rounding of itself. */
  lemma ExactIsRounded(n: int)
    requires -16777216 <= n <= 16777216
    ensures RoundedToFloat(n as real, n as real)
  {
  }

  /** The quotient lies in a unit interval, at least one divisor-th below its upper end. */
  ghost predicate QuotientBounds(a: int, b: int, q: real) {
    b > 0 && (a / b) as real <= q <= (a / b + 1) as real - 1.0 / b as real
  }

  /** For 12-bit counts scaled by 600 and divided by one of the three divisors of the
      conversion, a single-precision division followed by the cast to int is the
      truncating integer division, whichever way the float was rounded. */
  lemma FloatConversionTruncates(count: int, divisor: int, f: real)
    requires -4096 <= count <= 4095
    requires divisor in {895, 607, 12285}
    requires RoundedToFloat((count * 600) as real / divisor as real, f)
    ensures TruncReal(f) == TruncDiv(count * 600, divisor)
  {
    if count >= 0 {
      NonNegativeQuotientTruncates(count * 600, divisor, f);
    } else {
      NegativeQuotientTruncates(-count * 600, divisor, f);
    }
  }

  lemma NonNegativeQuotientTruncates(a: int, b: int, f: real)
    requires 0 <= a <= 4096 * 600 && b in {895, 607, 12285}
    requires RoundedToFloat(a as real / b as real, f)
    ensures TruncReal(f) == a / b
  {
    QuotientOfConversion(a, b);
    assert (a / b) as real <= f;
    RoundingKeepsFloor(a, b, a as real / b as real, f);
  }

  lemma NegativeQuotientTruncates(a: int, b: int, f: real)
    requires 0 < a <= 4096 * 600 && b in {895, 607, 12285}
    requires RoundedToFloat((-a) as real / b as real, f)
    ensures TruncReal(f) == -(a / b)
  {
    var q := a as real / b as real;
    assert (-a) as real / b as real == -q;
    QuotientOfConversion(a, b);
    assert f <= (-(a / b)) as real;
    RoundingKeepsFloor(a, b, q, -f);
  }

  lemma QuotientOfConversion(a: int, b: int)
    requires 0 <= a && b in {895, 607, 12285}
    ensures QuotientBounds(a, b, a as real / b as real)
  {
    var n := a / b;
    assert n * b <= a <= n * b + (b - 1);
    if b == 895 {
      assert a as real / 895.0 >= n as real;
    } else if b == 607 {
      assert a as real / 607.0 >= n as real;
    } else {
      assert a as real / 12285.0 >= n as real;
    }
  }

  lemma RoundingKeepsFloor(a: int, b: int, q: real, f: real)
    requires 0 <= a <= 4096 * 600 && b in {895, 607, 12285}
    requires QuotientBounds(a, b, q)
    requires q - q / 16777216.0 <= f <= q + q / 16777216.0
    requires (a / b) as real <= f
    ensures f >= 0.0 && f.Floor == a / b
  {
    assert a / b <= 4096;
    assert q / 16777216.0 < 1.0 / b as real;
  }
}
