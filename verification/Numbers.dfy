/**
 JSON numbers as serde_json holds them, and the folding done by `canonical_number`.

 A finite 64-bit float is an integer times a power of two. `Dyadic(m, e)` with m odd (or
 zero) is the unique such form of every finite float but minus zero. Its spelling is a
 parameter of the printer; see Printing.
 */
module Numbers {

  const TWO_63: int := 0x8000_0000_0000_0000
  const TWO_64: int := 0x1_0000_0000_0000_0000

  datatype Float = NegativeZero | Dyadic(mantissa: int, exponent: int) {
    predicate Valid() {
      Dyadic? ==>
        && (mantissa == 0 ==> exponent == 0)
        && (mantissa != 0 ==> mantissa % 2 == 1)
        && -0x20_0000_0000_0000 < mantissa < 0x20_0000_0000_0000
        && -1074 <= exponent <= 1023
    }

    /** `value.fract() == 0.0` */
    predicate Integral() { NegativeZero? || exponent >= 0 }

    function Whole(): int
      requires Integral()
    {
      if NegativeZero? then 0 else mantissa * Pow2(exponent)
    }
  }

  /** serde_json's three representations: u64, negative i64, finite f64. */
  datatype Number = PosInt(n: nat) | NegInt(i: int) | FloatNum(f: Float) {
    predicate Valid() {
      match this
      case PosInt(n) => n < TWO_64
      case NegInt(i) => -TWO_63 <= i < 0
      case FloatNum(f) => f.Valid()
    }
  }

  function Pow2(k: nat): (p: nat)
    ensures p > 0
  {
    if k == 0 then 1 else 2 * Pow2(k - 1)
  }

  function FromInt(i: int): Number {
    if i < 0 then NegInt(i) else PosInt(i)
  }

  /** `value as i64`: saturating. */
  function AsI64(whole: int): int {
    if whole >= TWO_63 then TWO_63 - 1
    else if whole < -TWO_63 then -TWO_63
    else whole
  }

  /**
   `canonical_number`. The upper guard compares with `i64::MAX as f64`, which is 2^63,
   so the float 2^63 passes it and then saturates to 2^63 - 1.
   */
  function CanonicalNumber(n: Number): Number {
    match n
    case PosInt(_) => n
    case NegInt(_) => n
    case FloatNum(f) =>
      if f.Integral() && -TWO_63 <= f.Whole() <= TWO_63 then FromInt(AsI64(f.Whole()))
      else n
  }

  /* ----- numeric value, as a fraction ----- */

  function Numerator(n: Number): int {
    match n
    case PosInt(k) => k
    case NegInt(i) => i
    case FloatNum(NegativeZero) => 0
    case FloatNum(Dyadic(m, e)) => if e >= 0 then m * Pow2(e) else m
  }

  function Denominator(n: Number): (d: int)
    ensures d > 0
  {
    match n
    case FloatNum(Dyadic(m, e)) => if e >= 0 then 1 else Pow2(-e)
    case _ => 1
  }

  /** The two numbers denote the same rational. */
  predicate SameValue(a: Number, b: Number) {
    Numerator(a) * Denominator(b) == Numerator(b) * Denominator(a)
  }

  /** The float that passes the range guard without being an i64. */
  predicate IsFloatTwo63(n: Number) {
    n.FloatNum? && n.f.Integral() && n.f.Whole() == TWO_63
  }

  lemma CanonicalNumberValid(n: Number)
    requires n.Valid()
    ensures CanonicalNumber(n).Valid()
  {}

  /** Folding is idempotent and keeps the numeric value of every number but the float 2^63. */
  lemma CanonicalNumberPreservesValue(n: Number)
    requires n.Valid()
    ensures CanonicalNumber(CanonicalNumber(n)) == CanonicalNumber(n)
    ensures SameValue(CanonicalNumber(n), n) <==> !IsFloatTwo63(n)
  {
    if n.FloatNum? && n.f.Integral() && -TWO_63 <= n.f.Whole() <= TWO_63 {
      assert Denominator(n) == 1 && Numerator(n) == n.f.Whole();
      assert Denominator(CanonicalNumber(n)) == 1;
    }
  }

  /** The exception is a real float: 1 * 2^63, folded to the integer 2^63 - 1. */
  lemma FloatTwo63LosesOne()
    ensures FloatNum(Dyadic(1, 63)).Valid() && IsFloatTwo63(FloatNum(Dyadic(1, 63)))
    ensures CanonicalNumber(FloatNum(Dyadic(1, 63))) == PosInt(0x7FFF_FFFF_FFFF_FFFF)
  {
    assert Pow2(63) == TWO_63 by {
      assert Pow2(4) == 16;
      Pow2Double(4, 16);
      Pow2Double(8, 256);
      Pow2Double(16, 0x1_0000);
      Pow2Double(32, 0x1_0000_0000);
      assert Pow2(64) == 2 * Pow2(63);
    }
  }

  lemma Pow2Double(k: nat, p: nat)
    requires Pow2(k) == p
    ensures Pow2(2 * k) == p * p
  {
    Pow2Sum(k, k);
  }

  lemma {:induction false} Pow2Sum(a: nat, b: nat)
    ensures Pow2(a + b) == Pow2(a) * Pow2(b)
  {
    if a > 0 {
      Pow2Sum(a - 1, b);
      MulAssociative(2, Pow2(a - 1), Pow2(b));
    }
  }

  /* ----- which numbers share a form ----- */

  /** Folding leaves this number a float. */
  predicate StaysFloat(n: Number) {
    n.FloatNum? && !(n.f.Integral() && -TWO_63 <= n.f.Whole() <= TWO_63)
  }

  /** The number whose value the form of n carries: n, but 2^63 - 1 for the float 2^63. */
  function Carried(n: Number): Number {
    if IsFloatTwo63(n) then PosInt(TWO_63 - 1) else n
  }

  /** Same carried value, and both folded to integers or both left floats. */
  predicate NumberEquivalent(a: Number, b: Number) {
    SameValue(Carried(a), Carried(b)) && StaysFloat(a) == StaysFloat(b)
  }

  /** Two numbers fold to one form exactly when they are equivalent. */
  lemma CanonicalNumberEqual(a: Number, b: Number)
    requires a.Valid() && b.Valid()
    ensures CanonicalNumber(a) == CanonicalNumber(b) <==> NumberEquivalent(a, b)
  {
    if !StaysFloat(a) && !StaysFloat(b) {
      FoldedInteger(a);
      FoldedInteger(b);
    } else if StaysFloat(a) && StaysFloat(b) {
      if SameValue(a, b) { FloatsInjective(a.f, b.f); }
    }
  }

  /** Every integer and float spelling of an integer below 2^63 in magnitude has one form. */
  lemma OneFormPerInteger(a: Number, k: int)
    requires a.Valid() && -TWO_63 < k < TWO_63
    requires SameValue(a, FromInt(k))
    ensures CanonicalNumber(a) == FromInt(k)
  {
    if a.FloatNum? && a.f.Dyadic? && a.f.exponent < 0 {
      OddIsNotEven(a.f.mantissa, k, -a.f.exponent);
    }
  }

  lemma FoldedInteger(n: Number)
    requires n.Valid() && !StaysFloat(n)
    ensures Denominator(Carried(n)) == 1
    ensures CanonicalNumber(n) == FromInt(Numerator(Carried(n)))
  {}

  lemma OddIsNotEven(m: int, k: int, q: nat)
    requires m % 2 == 1 && q > 0
    ensures m != k * Pow2(q)
  {
    assert k * Pow2(q) == 2 * (k * Pow2(q - 1));
  }

  lemma {:induction false} OddFactorUnique(m1: int, q1: nat, m2: int, q2: nat)
    requires m1 % 2 == 1 && m2 % 2 == 1
    requires m1 * Pow2(q1) == m2 * Pow2(q2)
    ensures m1 == m2 && q1 == q2
  {
    if q1 == 0 {
      if q2 > 0 { OddIsNotEven(m1, m2, q2); }
    } else if q2 == 0 {
      OddIsNotEven(m2, m1, q1);
    } else {
      assert m1 * Pow2(q1) == 2 * (m1 * Pow2(q1 - 1));
      assert m2 * Pow2(q2) == 2 * (m2 * Pow2(q2 - 1));
      OddFactorUnique(m1, q1 - 1, m2, q2 - 1);
    }
  }

  /** No two distinct floats but the zeros have the same value. */
  lemma FloatsInjective(f: Float, g: Float)
    requires f.Valid() && g.Valid() && SameValue(FloatNum(f), FloatNum(g))
    ensures f == g || (f.Integral() && g.Integral() && f.Whole() == g.Whole() == 0)
  {
    if f.Dyadic? && g.Dyadic? && f.mantissa != 0 && g.mantissa != 0 {
      var a, b := f.exponent, g.exponent;
      if a >= 0 && b >= 0 {
        OddFactorUnique(f.mantissa, a, g.mantissa, b);
      } else if a >= 0 {
        Pow2Sum(a, -b);
        assert f.mantissa * Pow2(a) * Pow2(-b) == f.mantissa * Pow2(a - b) by { MulAssociative(f.mantissa, Pow2(a), Pow2(-b)); }
        OddIsNotEven(g.mantissa, f.mantissa, a - b);
      } else if b >= 0 {
        Pow2Sum(b, -a);
        assert g.mantissa * Pow2(b) * Pow2(-a) == g.mantissa * Pow2(b - a) by { MulAssociative(g.mantissa, Pow2(b), Pow2(-a)); }
        OddIsNotEven(f.mantissa, g.mantissa, b - a);
      } else {
        OddFactorUnique(f.mantissa, -b, g.mantissa, -a);
      }
    } else {
      ZeroNumerator(f);
      ZeroNumerator(g);
    }
  }

  lemma MulAssociative(x: int, y: int, z: int)
    ensures x * y * z == x * (y * z)
  {}

  lemma ZeroNumerator(f: Float)
    requires f.Valid()
    ensures Numerator(FloatNum(f)) == 0 <==> f.NegativeZero? || f.mantissa == 0
  {
    if f.Dyadic? && f.exponent >= 0 && f.mantissa != 0 {
      if f.mantissa * Pow2(f.exponent) == 0 { OddIsNotEven(f.mantissa, 0, f.exponent + 1); }
    }
  }
}
