/** Rounding to binary64 (section 4.3.1 of IEEE 754-2019) and Go's conversion back to int64. */
module Float64 {
  import opened Decimal

  const TWO_53: int := 0x20_0000_0000_0000

  function Pow2(k: nat): (p: int)
    ensures p >= 1
  {
    if k == 0 then 1 else 2 * Pow2(k - 1)
  }

  function Abs(x: real): real {
    if x < 0.0 then -x else x
  }

  /** `f` is the finite binary64 value `m * 2^k` or `m / 2^k`. */
  predicate IsScaled(f: real, m: int, k: nat) {
    && -TWO_53 < m < TWO_53
    && (|| (k <= 971 && f == (m * Pow2(k)) as real)
        || (k <= 1074 && f * Pow2(k) as real == m as real))
  }

  ghost predicate Representable(f: real) {
    exists m, k: nat :: IsScaled(f, m, k)
  }

  /** `f` is `x` rounded to a nearest binary64 value; how ties are broken is left open. */
  ghost predicate RoundsTo(x: real, f: real) {
    && Representable(f)
    && (forall g :: Representable(g) ==> Abs(x - f) <= Abs(x - g))
  }

  function Truncate(f: real): int {
    if f < 0.0 then -((-f).Floor) else f.Floor
  }

  /** `int64(f)`; out of range the language leaves the result to the implementation. */
  function ToInt64(f: real, outOfRange: real -> int): int {
    if IsInt64(Truncate(f)) then Truncate(f) else outOfRange(f)
  }

  /** The conversion drops the fraction: towards zero, on both sides of it. */
  lemma TruncatesTowardZero(f: real, outOfRange: real -> int)
    requires IsInt64(Truncate(f))
    ensures var n := ToInt64(f, outOfRange) as real;
            Abs(n) <= Abs(f) < Abs(n) + 1.0 && (n != 0.0 ==> (n < 0.0 <==> f < 0.0))
  {}

  // ---- Powers of two ----

  lemma {:induction false} Pow2Add(a: nat, b: nat)
    ensures Pow2(a + b) == Pow2(a) * Pow2(b)
  {
    if b > 0 {
      Pow2Add(a, b - 1);
      assert Pow2(a + b) == 2 * Pow2(a + b - 1) == 2 * (Pow2(a) * Pow2(b - 1));
    }
  }

  lemma Pow2From53(e: nat)
    ensures Pow2(53 + e) == TWO_53 * Pow2(e)
  {
    assert Pow2(3) == 8 && Pow2(5) == 32;
    Pow2Add(5, 5);
    Pow2Add(10, 10);
    Pow2Add(20, 20);
    Pow2Add(40, 10);
    Pow2Add(50, 3);
    Pow2Add(53, e);
  }

  // ---- Rounding ----

  lemma RepresentableIsExact(x: real, f: real)
    requires RoundsTo(x, f) && Representable(x)
    ensures f == x
  {
    assert Abs(x - f) <= Abs(x - x);
  }

  lemma HalveSignificand(q: int, e: nat)
    requires q % 2 == 0
    ensures q * Pow2(e) == q / 2 * Pow2(e + 1)
  {
    assert q / 2 * (2 * Pow2(e)) == (q / 2 * 2) * Pow2(e);
  }

  /** Every integer multiple of 2^e with a significand of at most 53 bits is a binary64 value. */
  lemma MultipleRepresentable(q: int, e: nat)
    requires -TWO_53 <= q <= TWO_53 && e <= 970
    ensures Representable((q * Pow2(e)) as real)
  {
    var n := q * Pow2(e);
    if -TWO_53 < q < TWO_53 {
      assert IsScaled(n as real, q, e);
    } else {
      HalveSignificand(q, e);
      assert IsScaled(n as real, q / 2, e + 1);
    }
  }

  lemma SmallIntegersRepresentable(n: int)
    requires -TWO_53 <= n <= TWO_53
    ensures Representable(n as real)
  {
    MultipleRepresentable(n, 0);
  }

  lemma FractionBelowSignificand(f: real, m: int, k: nat)
    requires f >= 0.0 && f * Pow2(k) as real == m as real
    ensures f <= m as real
  {
    assert f * (Pow2(k) - 1) as real >= 0.0;
  }

  /** Binary64 values of 2^53 or more are integers. */
  lemma LargeValuesAreIntegers(f: real)
    requires Representable(f) && f >= TWO_53 as real
    ensures f == f.Floor as real
  {
    var m, k: nat :| IsScaled(f, m, k);
    if f * Pow2(k) as real == m as real {
      FractionBelowSignificand(f, m, k);
    }
  }

  lemma MulMonotone(a: int, b: int, p: int)
    requires a <= b && p >= 0
    ensures a * p <= b * p
  {}

  /** A multiple of `p` within half of `p`, not above `bound * p` if `n` is not. */
  lemma NearestMultiple(n: nat, p: int, bound: int) returns (q: int)
    requires p >= 1 && n <= bound * p
    ensures 0 <= q <= bound
    ensures -p <= 2 * (n - q * p) <= p
  {
    var r := n % p;
    q := n / p;
    assert n == q * p + r;
    if q > bound {
      MulMonotone(bound + 1, q, p);
    }
    if 2 * r > p {
      assert q != bound;
      assert (q + 1) * p == q * p + p;
      q := q + 1;
    }
  }

  /** A binary64 value among the multiples of 2^e within half of 2^e of `n`. */
  lemma NearRepresentable(n: nat, e: nat) returns (g: int)
    requires n <= Pow2(53 + e) && e <= 970
    ensures Representable(g as real)
    ensures -Pow2(e) <= 2 * (n - g) <= Pow2(e)
  {
    Pow2From53(e);
    var q := NearestMultiple(n, Pow2(e), TWO_53);
    MultipleRepresentable(q, e);
    g := q * Pow2(e);
  }

  lemma NegateRepresentable(f: real)
    requires Representable(f)
    ensures Representable(-f)
  {
    var m, k: nat :| IsScaled(f, m, k);
    assert (-m) * Pow2(k) == -(m * Pow2(k));
    assert (-f) * Pow2(k) as real == -(f * Pow2(k) as real);
    assert IsScaled(-f, -m, k);
  }

  lemma NegateRounding(x: real, f: real)
    requires RoundsTo(x, f)
    ensures RoundsTo(-x, -f)
  {
    NegateRepresentable(f);
    forall g | Representable(g)
      ensures Abs(-x - -f) <= Abs(-x - g)
    {
      NegateRepresentable(g);
      assert Abs(x - f) <= Abs(x - -g);
    }
  }

  /** Rounding a non-negative integer below 2^(53 + e): an integer, at most half of 2^e away. */
  lemma RoundNonNegative(n: nat, f: real, e: nat)
    requires RoundsTo(n as real, f)
    requires n < Pow2(53 + e) && e <= 970
    ensures f == f.Floor as real
    ensures 2.0 * Abs(n as real - f) <= Pow2(e) as real
    ensures f >= 0.0
  {
    var g := NearRepresentable(n, e);
    assert Abs(n as real - f) <= Abs(n as real - g as real);
    if n <= TWO_53 {
      SmallIntegersRepresentable(n);
      RepresentableIsExact(n as real, f);
    } else {
      SmallIntegersRepresentable(TWO_53);
      assert Abs(n as real - f) <= Abs(n as real - TWO_53 as real);
      LargeValuesAreIntegers(f);
    }
  }

  lemma RoundInteger(n: int, f: real, e: nat)
    requires RoundsTo(n as real, f)
    requires -Pow2(53 + e) < n < Pow2(53 + e) && e <= 970
    ensures Truncate(f) as real == f
    ensures 2.0 * Abs(n as real - f) <= Pow2(e) as real
  {
    if n >= 0 {
      RoundNonNegative(n, f, e);
    } else {
      NegateRounding(n as real, f);
      RoundNonNegative(-n, -f, e);
    }
  }

  /**
   * A JSON integer of magnitude below 2^(53 + e), read as a float64 and converted back, is off
   * by at most half of 2^e, its unit in the last place, as long as the rounded value is an
   * int64; and it comes back exactly when it is a binary64 value itself.
   */
  lemma IntegerThroughFloat(n: int, f: real, e: nat, outOfRange: real -> int)
    requires RoundsTo(n as real, f)
    requires -Pow2(53 + e) < n < Pow2(53 + e) && e <= 970
    requires IsInt64(Truncate(f))
    ensures -Pow2(e) <= 2 * (ToInt64(f, outOfRange) - n) <= Pow2(e)
    ensures ToInt64(f, outOfRange) == n <==> Representable(n as real)
  {
    RoundInteger(n, f, e);
    if Representable(n as real) {
      RepresentableIsExact(n as real, f);
    }
  }

  /** In particular every integer of magnitude at most 2^53 comes back exactly. */
  lemma SmallIntegerThroughFloat(n: int, f: real, outOfRange: real -> int)
    requires RoundsTo(n as real, f) && -TWO_53 <= n <= TWO_53
    ensures ToInt64(f, outOfRange) == n
  {
    SmallIntegersRepresentable(n);
    RepresentableIsExact(n as real, f);
  }

  lemma EvenMultiple(m: int, k: nat)
    requires k > 0
    ensures (m * Pow2(k)) % 2 == 0
  {
    assert m * (2 * Pow2(k - 1)) == 2 * (m * Pow2(k - 1));
  }

  lemma OddAboveTwo53(n: int)
    requires n > TWO_53 && n % 2 == 1
    ensures !Representable(n as real)
  {
    if Representable(n as real) {
      var m, k: nat :| IsScaled(n as real, m, k);
      if k > 0 {
        EvenMultiple(m, k);
      }
      if n as real * Pow2(k) as real == m as real {
        FractionBelowSignificand(n as real, m, k);
      }
    }
  }

  lemma OddBeyondTwo53(n: int)
    requires n % 2 == 1 && (n > TWO_53 || n < -TWO_53)
    ensures !Representable(n as real)
  {
    if n > TWO_53 {
      OddAboveTwo53(n);
    } else if Representable(n as real) {
      NegateRepresentable(n as real);
      assert -(n as real) == (-n) as real;
      OddAboveTwo53(-n);
    }
  }

  /**
   * 2^53 is the best bound: every odd integer of greater magnitude is lost, whichever way it is
   * rounded, as long as the rounded value is an int64.
   */
  lemma OddIntegerIsLost(n: int, f: real, e: nat, outOfRange: real -> int)
    requires RoundsTo(n as real, f) && n % 2 == 1 && (n > TWO_53 || n < -TWO_53)
    requires -Pow2(53 + e) < n < Pow2(53 + e) && e <= 970
    requires IsInt64(Truncate(f))
    ensures ToInt64(f, outOfRange) != n
  {
    OddBeyondTwo53(n);
    IntegerThroughFloat(n, f, e, outOfRange);
  }
}
