/**
 * Fixed-point decimals of the SQL parser: an `IntermediateDecimal` wraps an
 * arbitrary-precision decimal, here the pair (unscaled integer, scale) whose
 * value is unscaled * 10^(-scale). The scale may be negative, as in the
 * big-decimal library.
 */
module Decimals {
  import opened Wrappers

  datatype DecimalError = ParseError | OutOfRange | LossyCast | ConversionFailure

  /** `u8`, `i8`, `i64` and `i128` as integer ranges. */
  type U8 = x: int | 0 <= x < 0x100
  type I8 = x: int | -0x80 <= x < 0x80

  const I64_MIN: int := -0x8000_0000_0000_0000
  const I64_MAX: int := 0x7fff_ffff_ffff_ffff
  const I128_MIN: int := -0x8000_0000_0000_0000_0000_0000_0000_0000
  const I128_MAX: int := 0x7fff_ffff_ffff_ffff_ffff_ffff_ffff_ffff

  type I64 = x: int | I64_MIN <= x <= I64_MAX
  type I128 = x: int | I128_MIN <= x <= I128_MAX

  /** The library's decimal: `intVal * 10^(-scale)`. */
  datatype BigDecimal = BigDecimal(intVal: int, scale: int)

  datatype IntermediateDecimal = IntermediateDecimal(value: BigDecimal)

  function Pow10(e: nat): (r: nat)
    ensures r >= 1
  {
    if e == 0 then 1 else 10 * Pow10(e - 1)
  }

  function Abs(x: int): nat
  {
    if x < 0 then -x else x
  }

  /** Decimal digits of a natural number; zero has one digit. */
  function DigitCount(a: nat): (d: nat)
    ensures d >= 1
  {
    if a < 10 then 1 else 1 + DigitCount(a / 10)
  }

  /** `BigDecimal::digits`: the digits of the unscaled integer, sign ignored. */
  function Digits(x: int): nat
  {
    DigitCount(Abs(x))
  }

  /** An integer fits in `p` digits exactly when its magnitude is below 10^p (and p is not zero). */
  lemma {:induction false} DigitCountBound(a: nat, p: nat)
    ensures DigitCount(a) <= p <==> (p >= 1 && a < Pow10(p))
  {
    if a >= 10 {
      if p >= 1 {
        DigitCountBound(a / 10, p - 1);
        assert Pow10(p) == 10 * Pow10(p - 1);
        assert a / 10 < Pow10(p - 1) <==> a < 10 * Pow10(p - 1);
        if p == 1 {
          assert Pow10(0) == 1;
        }
      }
    } else if p >= 1 {
      assert Pow10(p) == 10 * Pow10(p - 1);
    }
  }

  /** The rational value of a decimal. */
  function Value(d: BigDecimal): real
  {
    if d.scale >= 0 then d.intVal as real / Pow10(d.scale) as real
    else (d.intVal * Pow10(-d.scale)) as real
  }

  /** Rust's integer division, which truncates toward zero. */
  function TruncDiv(x: int, m: nat): int
    requires m > 0
  {
    if x >= 0 then x / m else -((-x) / m)
  }

  /**
   * `BigDecimal::with_scale`: the same value at another scale. Raising the scale
   * multiplies the unscaled integer by a power of ten; lowering it divides,
   * truncating toward zero.
   */
  function WithScale(d: BigDecimal, newScale: int): (r: BigDecimal)
    ensures r.scale == newScale
  {
    if d.intVal == 0 then BigDecimal(0, newScale)
    else if newScale >= d.scale then BigDecimal(d.intVal * Pow10(newScale - d.scale), newScale)
    else BigDecimal(TruncDiv(d.intVal, Pow10(d.scale - newScale)), newScale)
  }

  /** Raising the scale never changes the value. */
  lemma WithScaleKeepsValue(d: BigDecimal, newScale: int)
    requires newScale >= d.scale
    ensures Value(WithScale(d, newScale)) == Value(d)
  {
    if d.intVal != 0 {
      var k: nat := newScale - d.scale;
      var up := BigDecimal(d.intVal * Pow10(k), newScale);
      ScaleUpKeepsValue(d.intVal, k, newScale, d.scale);
      assert d == BigDecimal(d.intVal, d.scale);
      assert WithScale(d, newScale) == up;
    } else {
      ZeroValue(newScale);
      ZeroValue(d.scale);
      assert d == BigDecimal(0, d.scale);
    }
  }

  lemma ZeroValue(s: int)
    ensures Value(BigDecimal(0, s)) == 0.0
  {
  }

  /** x at scale s and x * 10^(t - s) at scale t have the same value. */
  lemma ScaleUpKeepsValue(x: int, k: nat, t: int, s: int)
    requires k == t - s
    ensures Value(BigDecimal(x * Pow10(k), t)) == Value(BigDecimal(x, s))
  {
    PowSplit(k, t, s);
    if s >= 0 {
      ScaleUpNonneg(x, k, t, s);
    } else if t >= 0 {
      ScaleUpAcrossZero(x, k, t, s);
    } else {
      ScaleUpBelowZero(x, k, t, s);
    }
  }

  lemma ScaleUpNonneg(x: int, k: nat, t: int, s: int)
    requires s >= 0 && k == t - s && Pow10(t) == Pow10(k) * Pow10(s)
    ensures Value(BigDecimal(x * Pow10(k), t)) == Value(BigDecimal(x, s))
  {
    CancelPower(x, Pow10(k), Pow10(s), Pow10(t));
  }

  lemma CancelPower(x: int, a: int, b: int, p: int)
    requires a >= 1 && b >= 1 && p == a * b
    ensures (x * a) as real / p as real == x as real / b as real
  {
    MulCast(x, a);
    MulCast(a, b);
    CancelCommon(x as real, a as real, b as real);
  }

  lemma MulCast(x: int, y: int)
    ensures (x * y) as real == x as real * y as real
  {
  }

  lemma ScaleUpAcrossZero(x: int, k: nat, t: int, s: int)
    requires s < 0 <= t && k == t - s && Pow10(k) == Pow10(t) * Pow10(-s)
    ensures Value(BigDecimal(x * Pow10(k), t)) == Value(BigDecimal(x, s))
  {
    var t': nat, s': nat := t, -s;
    assert Value(BigDecimal(x * Pow10(k), t)) == (x * Pow10(k)) as real / Pow10(t') as real;
    assert Value(BigDecimal(x, s)) == (x * Pow10(s')) as real;
    CancelFactor(x, Pow10(t'), Pow10(s'), Pow10(k));
  }

  /** (x * (a * b)) / a == x * b, in the rationals, for a positive a. */
  lemma CancelFactor(x: int, a: int, b: int, p: int)
    requires a >= 1 && p == a * b
    ensures (x * p) as real / a as real == (x * b) as real
  {
    assert x * p == (x * b) * a;
    MulCast(x * b, a);
    CancelCommon((x * b) as real, a as real, 1.0);
  }

  /** (X * A) / (A * B) == X / B off zero. */
  lemma CancelCommon(x: real, a: real, b: real)
    requires a != 0.0 && b != 0.0
    ensures (x * a) / (a * b) == x / b
  {
    var q := x / b;
    assert q * b == x;
    assert x * a == q * (a * b);
  }

  lemma ScaleUpBelowZero(x: int, k: nat, t: int, s: int)
    requires t < 0 && k == t - s && Pow10(-s) == Pow10(k) * Pow10(-t)
    ensures Value(BigDecimal(x * Pow10(k), t)) == Value(BigDecimal(x, s))
  {
    assert x * Pow10(k) * Pow10(-t) == x * (Pow10(k) * Pow10(-t));
  }

  /** 10^(x - z) splits as a product of powers, whichever way the signs fall. */
  lemma PowSplit(k: nat, x: int, z: int)
    requires k == x - z
    ensures x >= 0 && z >= 0 ==> Pow10(x) == Pow10(k) * Pow10(z)
    ensures x >= 0 && z < 0 ==> Pow10(k) == Pow10(x) * Pow10(-z)
    ensures x < 0 ==> Pow10(-z) == Pow10(k) * Pow10(-x)
  {
    if x >= 0 && z >= 0 {
      PowAdd(k, z);
    } else if x >= 0 {
      PowAdd(x, -z);
    } else {
      PowAdd(k, -x);
    }
  }

  lemma {:induction false} PowAdd(a: nat, b: nat)
    ensures Pow10(a + b) == Pow10(a) * Pow10(b)
  {
    if a > 0 {
      PowAdd(a - 1, b);
    }
  }

  /**
   * `BigDecimal::normalized`: the same value with trailing zeros of the
   * unscaled integer removed (zero becomes zero at scale 0).
   */
  function Normalized(d: BigDecimal): BigDecimal
    decreases Abs(d.intVal)
  {
    if d.intVal == 0 then BigDecimal(0, 0)
    else if d.intVal % 10 == 0 then Normalized(BigDecimal(d.intVal / 10, d.scale - 1))
    else d
  }

  /** Normalizing keeps the value and leaves no trailing zero to strip. */
  lemma {:induction false} NormalizedSpec(d: BigDecimal)
    ensures Value(Normalized(d)) == Value(d)
    ensures Normalized(d).intVal == 0 ==> Normalized(d) == BigDecimal(0, 0)
    ensures Normalized(d).intVal != 0 ==> Normalized(d).intVal % 10 != 0
    decreases Abs(d.intVal)
  {
    if d.intVal == 0 {
      assert Value(d) == 0.0 by {
        if d.scale >= 0 { assert d.intVal as real == 0.0; } else { assert d.intVal * Pow10(-d.scale) == 0; }
      }
    } else if d.intVal % 10 == 0 {
      var e := BigDecimal(d.intVal / 10, d.scale - 1);
      NormalizedSpec(e);
      assert d.intVal == 10 * e.intVal;
      WithScaleKeepsValue(e, d.scale);
      assert WithScale(e, d.scale) == d by {
        assert Pow10(d.scale - e.scale) == 10 by { assert Pow10(1) == 10 * Pow10(0); }
      }
    }
  }

  /** `IntermediateDecimal::from_str`: the parsed value, normalized. Parsing itself is the library's. */
  function FromParsed(parsed: BigDecimal): IntermediateDecimal
  {
    IntermediateDecimal(Normalized(parsed))
  }

  /** `precision()`: the digit count, truncated to `u8` by the cast. */
  function Precision(x: IntermediateDecimal): (p: U8)
    ensures Digits(x.value.intVal) < 0x100 ==> p == Digits(x.value.intVal)
  {
    Digits(x.value.intVal) % 0x100
  }

  /** An `i64` truncated to `i8` (two's complement wrap-around). */
  function WrapI8(v: int): I8
  {
    (v + 0x80) % 0x100 - 0x80
  }

  /** `scale()`: the fractional-digit count, truncated to `i8` by the cast. */
  function Scale(x: IntermediateDecimal): (s: I8)
    ensures -0x80 <= x.value.scale < 0x80 ==> s == x.value.scale
  {
    WrapI8(x.value.scale)
  }

  /**
   * `try_into_bigint_with_precision_and_scale`: the unscaled integer of this
   * value at `scale`, or `LossyCast` when that integer has more digits than
   * `precision`.
   */
  function TryIntoBigintWithPrecisionAndScale(x: IntermediateDecimal, precision: U8, scale: I8): (r: Result<int, DecimalError>)
    ensures r.Err? ==> r.error == LossyCast
    ensures r.Ok? <==> Digits(WithScale(x.value, scale).intVal) <= precision
  {
    var scaled := WithScale(x.value, scale);
    if Digits(scaled.intVal) > precision then Err(LossyCast) else Ok(scaled.intVal)
  }

  /**
   * At a scale no smaller than the value's own, rescaling succeeds exactly when
   * the value, written with `scale` fractional digits, fits in `precision`
   * digits; the integer returned then denotes the same value at that scale.
   */
  lemma RescaleSpec(x: IntermediateDecimal, precision: U8, scale: I8)
    requires scale >= x.value.scale
    ensures var r := TryIntoBigintWithPrecisionAndScale(x, precision, scale);
            && (r.Ok? <==> precision >= 1 && Abs(WithScale(x.value, scale).intVal) < Pow10(precision))
            && (r.Ok? ==> Value(BigDecimal(r.value, scale)) == Value(x.value))
  {
    DigitCountBound(Abs(WithScale(x.value, scale).intVal), precision);
    WithScaleKeepsValue(x.value, scale);
  }

  /** `BigDecimal::is_integer`: no nonzero fractional digit. */
  predicate IsInteger(d: BigDecimal)
  {
    d.scale <= 0 || d.intVal % Pow10(d.scale) == 0
  }

  /** The integer denoted by a decimal with no fractional part. */
  function IntegerValue(d: BigDecimal): int
  {
    if d.scale <= 0 then d.intVal * Pow10(-d.scale) else d.intVal / Pow10(d.scale)
  }

  /** `is_integer` holds exactly when the value is a whole number, which `IntegerValue` then is. */
  lemma IsIntegerSpec(d: BigDecimal)
    ensures IsInteger(d) <==> Value(d) == Value(d).Floor as real
    ensures IsInteger(d) ==> IntegerValue(d) as real == Value(d)
  {
    if d.scale > 0 {
      var m := Pow10(d.scale);
      var q := d.intVal / m;
      if d.intVal % m == 0 {
        assert d.intVal == q * m;
        assert d.intVal as real == q as real * m as real;
        assert Value(d) == q as real;
      } else {
        if Value(d) == Value(d).Floor as real {
          var k := Value(d).Floor;
          assert d.intVal as real == k as real * m as real;
          assert d.intVal == k * m;
          MultipleMod(d.intVal, k, m);
        }
      }
    }
  }

  lemma MultipleMod(x: int, k: int, m: nat)
    requires m > 0 && x == k * m
    ensures x % m == 0
  {
    var q, r := x / m, x % m;
    assert x == m * q + r;
    var t := k - q;
    assert m * t == r;
    if t >= 1 {
      assert m * t == m * (t - 1) + m;
      MulNonneg(m, t - 1);
    }
  }

  lemma MulNonneg(a: nat, b: nat)
    ensures a * b >= 0
  {
  }

  /** `From<i64>` (and `From<i128>`): an integer at scale zero. */
  function FromInt(v: int): IntermediateDecimal
  {
    IntermediateDecimal(BigDecimal(v, 0))
  }

  /** `TryFrom<IntermediateDecimal> for i128`. */
  function TryIntoI128(x: IntermediateDecimal): (r: Result<I128, DecimalError>)
    ensures r.Ok? ==> r.value as real == Value(x.value)
  {
    if !IsInteger(x.value) then Err(LossyCast)
    else
      IsIntegerSpec(x.value);
      var v := IntegerValue(x.value);
      if I128_MIN <= v <= I128_MAX then Ok(v) else Err(OutOfRange)
  }

  /** `TryFrom<IntermediateDecimal> for i64`. */
  function TryIntoI64(x: IntermediateDecimal): (r: Result<I64, DecimalError>)
    ensures r.Ok? ==> r.value as real == Value(x.value)
  {
    if !IsInteger(x.value) then Err(LossyCast)
    else
      IsIntegerSpec(x.value);
      var v := IntegerValue(x.value);
      if I64_MIN <= v <= I64_MAX then Ok(v) else Err(OutOfRange)
  }

  /**
   * Conversion to i128 fails with LossyCast exactly when the value has a nonzero
   * fractional part, and with OutOfRange exactly when it is a whole number
   * outside [-2^127, 2^127 - 1].
   */
  lemma TryIntoI128Spec(x: IntermediateDecimal)
    ensures TryIntoI128(x) == Err(LossyCast) <==> Value(x.value) != Value(x.value).Floor as real
    ensures TryIntoI128(x) == Err(OutOfRange)
        <==> Value(x.value) == Value(x.value).Floor as real
             && (Value(x.value) < I128_MIN as real || Value(x.value) > I128_MAX as real)
  {
    IsIntegerSpec(x.value);
  }

  /** The same for i64, with the range [-2^63, 2^63 - 1]. */
  lemma TryIntoI64Spec(x: IntermediateDecimal)
    ensures TryIntoI64(x) == Err(LossyCast) <==> Value(x.value) != Value(x.value).Floor as real
    ensures TryIntoI64(x) == Err(OutOfRange)
        <==> Value(x.value) == Value(x.value).Floor as real
             && (Value(x.value) < I64_MIN as real || Value(x.value) > I64_MAX as real)
  {
    IsIntegerSpec(x.value);
  }

  /** `From<i128>` then `TryFrom` back to i128 gives the original integer. */
  lemma I128RoundTrip(v: I128)
    ensures TryIntoI128(FromInt(v)) == Ok(v)
  {
  }

  /** `From<i64>` then `TryFrom` back to i64 gives the original integer. */
  lemma I64RoundTrip(v: I64)
    ensures TryIntoI64(FromInt(v)) == Ok(v)
  {
  }

  /** "123.45" and "000123.45000" both normalize to 123.45, precision 5, scale 2; "123.456" has precision 6, scale 3. */
  lemma ParsedAccessorExamples()
    ensures FromParsed(BigDecimal(12345, 2)) == IntermediateDecimal(BigDecimal(12345, 2))
    ensures FromParsed(BigDecimal(12345000, 5)) == IntermediateDecimal(BigDecimal(12345, 2))
    ensures Precision(FromParsed(BigDecimal(12345000, 5))) == 5
    ensures Scale(FromParsed(BigDecimal(12345000, 5))) == 2
    ensures Precision(FromParsed(BigDecimal(123456, 3))) == 6
    ensures Scale(FromParsed(BigDecimal(123456, 3))) == 3
  {
  }

  /** The boundary and failure cases of conversion to i128 and i64. */
  lemma ConversionExamples()
    ensures TryIntoI128(IntermediateDecimal(BigDecimal(I128_MAX, 0))) == Ok(I128_MAX)
    ensures TryIntoI128(IntermediateDecimal(BigDecimal(I128_MIN, 0))) == Ok(I128_MIN)
    ensures TryIntoI128(IntermediateDecimal(BigDecimal(I128_MAX + 1, 0))) == Err(OutOfRange)
    ensures TryIntoI128(IntermediateDecimal(BigDecimal(123000, 3))) == Ok(123)
    ensures TryIntoI128(IntermediateDecimal(BigDecimal(1005, 1))) == Err(LossyCast)
    ensures TryIntoI64(IntermediateDecimal(BigDecimal(I64_MAX, 0))) == Ok(I64_MAX)
    ensures TryIntoI64(IntermediateDecimal(BigDecimal(I64_MIN, 0))) == Ok(I64_MIN)
    ensures TryIntoI64(IntermediateDecimal(BigDecimal(I64_MAX + 1, 0))) == Err(OutOfRange)
    ensures TryIntoI64(IntermediateDecimal(BigDecimal(123000, 3))) == Ok(123)
    ensures TryIntoI64(IntermediateDecimal(BigDecimal(1005, 1))) == Err(LossyCast)
  {
  }
}
