/**
 * Rust's `f64`, kept as its IEEE-754 binary64 bit pattern.  Sign, NaN,
 * negation and the comparison operators are defined here exactly from the
 * bits; rounding arithmetic, the `i64 as f64` conversion and the decimal
 * rendering belong to the host's floating-point implementation and are
 * parameters (`HostFloat`).
 */
module Floats {

  datatype F64 = F64(bits: bv64)

  const SIGN_BIT: bv64 := 0x8000_0000_0000_0000
  const EXPONENT_BITS: bv64 := 0x7FF0_0000_0000_0000
  const MANTISSA_BITS: bv64 := 0x000F_FFFF_FFFF_FFFF

  /** The host's IEEE operations that the model does not define. */
  datatype HostFloat = HostFloat(
    text: F64 -> string,          // `f64::to_string`
    fromInt: int -> F64,          // `i64 as f64` (round to nearest)
    add: (F64, F64) -> F64,
    sub: (F64, F64) -> F64,
    mul: (F64, F64) -> F64,
    div: (F64, F64) -> F64,
    rem: (F64, F64) -> F64)

  predicate IsNaN(x: F64) {
    x.bits & EXPONENT_BITS == EXPONENT_BITS && x.bits & MANTISSA_BITS != 0
  }

  predicate SignSet(x: F64) {
    x.bits & SIGN_BIT != 0
  }

  /**
   * For a number that is not NaN: an integer that orders like the value
   * (the encoding of the magnitude is monotonic; both zeros map to 0).
   */
  function OrderKey(x: F64): int {
    var magnitude: int := Magnitude(x.bits & !SIGN_BIT);
    if SignSet(x) then -magnitude else magnitude
  }

  function Magnitude(b: bv64): nat {
    b as nat
  }

  /** `a == b` on f64: false whenever a NaN is involved, and -0.0 == 0.0. */
  predicate Eq(a: F64, b: F64) {
    !IsNaN(a) && !IsNaN(b) && OrderKey(a) == OrderKey(b)
  }

  predicate Lt(a: F64, b: F64) {
    !IsNaN(a) && !IsNaN(b) && OrderKey(a) < OrderKey(b)
  }

  predicate Le(a: F64, b: F64) {
    !IsNaN(a) && !IsNaN(b) && OrderKey(a) <= OrderKey(b)
  }

  /** `x > 0.0`. */
  predicate Positive(x: F64) {
    !IsNaN(x) && OrderKey(x) > 0
  }

  /** Unary `-` on f64 flips the sign bit and nothing else. */
  function Negate(x: F64): F64 {
    F64(x.bits ^ SIGN_BIT)
  }

  /** Negation keeps NaN-ness, mirrors the order, and undoes itself. */
  lemma NegateMirrors(x: F64)
    ensures Negate(Negate(x)) == x
    ensures IsNaN(Negate(x)) <==> IsNaN(x)
    ensures OrderKey(Negate(x)) == -OrderKey(x)
  {
    FlipTwice(x.bits);
    NegateKeepsNaN(x);
    NegateMirrorsKey(x);
  }

  lemma NegateKeepsNaN(x: F64)
    ensures IsNaN(Negate(x)) <==> IsNaN(x)
  {
    FlipKeepsExponent(x.bits);
    FlipKeepsMantissa(x.bits);
  }

  lemma NegateMirrorsKey(x: F64)
    ensures OrderKey(Negate(x)) == -OrderKey(x)
  {
    FlipKeepsMagnitude(x.bits);
    FlipTogglesSign(x.bits);
  }

  lemma FlipTwice(b: bv64) ensures (b ^ SIGN_BIT) ^ SIGN_BIT == b {}
  lemma FlipKeepsExponent(b: bv64) ensures (b ^ SIGN_BIT) & EXPONENT_BITS == b & EXPONENT_BITS {}
  lemma FlipKeepsMantissa(b: bv64) ensures (b ^ SIGN_BIT) & MANTISSA_BITS == b & MANTISSA_BITS {}
  lemma FlipKeepsMagnitude(b: bv64) ensures (b ^ SIGN_BIT) & !SIGN_BIT == b & !SIGN_BIT {}
  lemma FlipTogglesSign(b: bv64) ensures ((b ^ SIGN_BIT) & SIGN_BIT != 0) <==> (b & SIGN_BIT == 0) {}

  /**
   * The comparisons are IEEE's: a NaN is equal to nothing, itself included,
   * and ordered with nothing; every other number equals itself, and exactly
   * one of `<`, `==`, `>` holds between two of them, with `<=` being `<` or `==`.
   */
  lemma ComparisonLaws(a: F64, b: F64)
    ensures IsNaN(a) ==> !Eq(a, b) && !Eq(b, a) && !Lt(a, b) && !Lt(b, a) && !Le(a, b) && !Le(b, a)
    ensures Eq(a, a) <==> !IsNaN(a)
    ensures !IsNaN(a) && !IsNaN(b) ==> (Le(a, b) <==> Lt(a, b) || Eq(a, b))
    ensures !IsNaN(a) && !IsNaN(b) ==> (Lt(a, b) || Eq(a, b) || Lt(b, a))
    ensures !(Lt(a, b) && Eq(a, b)) && !(Lt(a, b) && Lt(b, a))
    ensures Positive(a) <==> Lt(POSITIVE_ZERO, a)
  {
    ZerosAreNumbers();
  }

  const POSITIVE_ZERO: F64 := F64(0)
  const NEGATIVE_ZERO: F64 := F64(SIGN_BIT)

  /** Both zeros are numbers with order key 0, so -0.0 == 0.0. */
  lemma ZerosAreNumbers()
    ensures !IsNaN(POSITIVE_ZERO) && !IsNaN(NEGATIVE_ZERO)
    ensures OrderKey(POSITIVE_ZERO) == 0 && OrderKey(NEGATIVE_ZERO) == 0
    ensures Eq(NEGATIVE_ZERO, POSITIVE_ZERO)
  {
    assert NEGATIVE_ZERO.bits & !SIGN_BIT == 0;
  }

  /** A positive number is never positive once negated. */
  lemma NegatedPositiveIsNotPositive(x: F64)
    requires Positive(x)
    ensures !Positive(Negate(x))
  {
    NegateMirrors(x);
  }
}
