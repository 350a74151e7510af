/**
 Exact decimal quantities, coefficient * 10^exponent in one unit: their canonical
 form and their order.
*/
module Quantities {
  import opened Wrappers
  import opened DecimalDigits

  const I64_MIN: int := -0x8000_0000_0000_0000
  const I64_MAX: int := 0x7FFF_FFFF_FFFF_FFFF
  const I128_MIN: int := -0x8000_0000_0000_0000_0000_0000_0000_0000
  const I128_MAX: int := 0x7FFF_FFFF_FFFF_FFFF_FFFF_FFFF_FFFF_FFFF

  type I8 = i: int | -128 <= i < 128
  type I32 = i: int | -0x8000_0000 <= i < 0x8000_0000
  type I64 = i: int | I64_MIN <= i <= I64_MAX
  type I128 = i: int | I128_MIN <= i <= I128_MAX

  const MIN_EXPONENT: int := -18
  const MAX_EXPONENT: int := 18

  datatype Unit = Ohm | Volt | Ampere | Farad | Henry | Hertz | Second | Degree | Dimensionless

  datatype Quantity = Quantity(coefficient: I64, exponent: I8, unit: Unit)

  datatype NormalizationError = ExponentError(exponent: int) | CoefficientError

  // --- What a pair denotes ----------------------------------------------------

  function Min(a: int, b: int): (m: int) {
    if a < b then a else b
  }

  /** coefficient * 10^exponent, counted in units of 10^base. */
  function At(coefficient: int, exponent: int, base: int): int
    requires base <= exponent
  {
    Shift(coefficient, exponent - base)
  }

  /** The order of two decimals, read off at their finer exponent. */
  function TrueOrder(c1: int, e1: int, c2: int, e2: int): Ordering {
    var base := Min(e1, e2);
    Order(At(c1, e1, base), At(c2, e2, base))
  }

  ghost predicate SameValue(c1: int, e1: int, c2: int, e2: int) {
    TrueOrder(c1, e1, c2, e2) == Equal
  }

  lemma Rebase(c: int, e: int, base: int, lower: int)
    requires lower <= base <= e
    ensures At(c, e, lower) == Shift(At(c, e, base), base - lower)
  {
    ShiftSum(c, e - base, base - lower);
  }

  /** `TrueOrder` does not depend on the unit in which the two decimals are counted. */
  lemma OrderAtAnyBase(c1: int, e1: int, c2: int, e2: int, base: int)
    requires base <= e1 && base <= e2
    ensures TrueOrder(c1, e1, c2, e2) == Order(At(c1, e1, base), At(c2, e2, base))
  {
    var m := Min(e1, e2);
    Rebase(c1, e1, m, base);
    Rebase(c2, e2, m, base);
    ShiftKeepsOrder(At(c1, e1, m), At(c2, e2, m), m - base);
  }

  lemma SameValueIsTransitive(c1: int, e1: int, c2: int, e2: int, c3: int, e3: int)
    requires SameValue(c1, e1, c2, e2) && SameValue(c2, e2, c3, e3)
    ensures SameValue(c1, e1, c3, e3)
  {
    var base := Min(e1, Min(e2, e3));
    OrderAtAnyBase(c1, e1, c2, e2, base);
    OrderAtAnyBase(c2, e2, c3, e3, base);
    OrderAtAnyBase(c1, e1, c3, e3, base);
  }

  lemma SameValueIsSymmetric(c1: int, e1: int, c2: int, e2: int)
    requires SameValue(c1, e1, c2, e2)
    ensures SameValue(c2, e2, c1, e1)
  {
  }

  // --- Canonical form ---------------------------------------------------------

  /** No trailing zero can be moved into the exponent without passing 10^18. */
  ghost predicate IsCanonicalForm(c: int, e: int) {
    if c == 0 then e == 0 else e <= 18 && (e == 18 || c % 10 != 0)
  }

  /** Moves trailing zeros of the coefficient into the exponent, up to 10^18. */
  function Reduce(c: int, e: int): (r: (int, int))
    requires c != 0
    decreases MAX_EXPONENT - e
  {
    if c % 10 == 0 && e < MAX_EXPONENT then Reduce(c / 10, e + 1) else (c, e)
  }

  function CanonicalForm(c: int, e: int): (int, int) {
    if c == 0 then (0, 0)
    else if e > MAX_EXPONENT then (Shift(c, e - MAX_EXPONENT), MAX_EXPONENT)
    else Reduce(c, e)
  }

  /** The outcome of normalisation: the canonical form, when it is representable. */
  function Normalized(c: int, e: int, unit: Unit): Result<Quantity, NormalizationError> {
    var (coefficient, exponent) := CanonicalForm(c, e);
    if exponent < MIN_EXPONENT then Failure(ExponentError(exponent))
    else if !(I64_MIN <= coefficient <= I64_MAX) then Failure(CoefficientError)
    else
      CanonicalFormIsCanonical(c, e);
      Success(Quantity(coefficient, exponent, unit))
  }

  lemma {:induction false} ReduceIsCanonical(c: int, e: int)
    requires c != 0 && e <= MAX_EXPONENT
    ensures var (rc, re) := Reduce(c, e);
            rc != 0 && IsCanonicalForm(rc, re) && e <= re && c == At(rc, re, e)
    decreases MAX_EXPONENT - e
  {
    if c % 10 == 0 && e < MAX_EXPONENT {
      ReduceIsCanonical(c / 10, e + 1);
      var (rc, re) := Reduce(c, e);
      Rebase(rc, re, e + 1, e);
    }
  }

  lemma CanonicalFormIsCanonical(c: int, e: int)
    ensures var (rc, re) := CanonicalForm(c, e);
            IsCanonicalForm(rc, re) && SameValue(c, e, rc, re) && (c != 0 ==> rc != 0)
  {
    if c == 0 {
      ShiftZero(e - Min(e, 0));
      ShiftZero(0 - Min(e, 0));
    } else if e > MAX_EXPONENT {
      ShiftKeepsOrder(c, 0, e - MAX_EXPONENT);
      ShiftZero(e - MAX_EXPONENT);
    } else {
      ReduceIsCanonical(c, e);
    }
  }

  lemma ZeroOnlyFromZero(c: int, k: nat)
    ensures Shift(c, k) == 0 <==> c == 0
  {
    ShiftKeepsOrder(c, 0, k);
    ShiftZero(k);
  }

  /** A value has at most one canonical form. */
  lemma CanonicalFormIsUnique(c1: int, e1: int, c2: int, e2: int)
    requires IsCanonicalForm(c1, e1) && IsCanonicalForm(c2, e2) && SameValue(c1, e1, c2, e2)
    ensures c1 == c2 && e1 == e2
  {
    var base := Min(e1, e2);
    ZeroOnlyFromZero(c1, e1 - base);
    ZeroOnlyFromZero(c2, e2 - base);
    if c1 != 0 && e1 < e2 {
      EndsInZero(c2, e2 - e1);
    } else if c1 != 0 && e2 < e1 {
      EndsInZero(c1, e1 - e2);
    }
  }

  lemma EndsInZero(c: int, k: nat)
    requires k > 0
    ensures Shift(c, k) % 10 == 0
  {
    assert Shift(c, k) == 10 * Shift(c, k - 1);
  }

  /** Normalisation keeps the exact value and lands on the canonical form. */
  lemma NormalizationIsExact(c: int, e: int, unit: Unit)
    ensures match Normalized(c, e, unit)
            case Success(q) =>
              && SameValue(c, e, q.coefficient, q.exponent)
              && IsCanonicalForm(q.coefficient, q.exponent)
              && -18 <= q.exponent <= 18
              && q.unit == unit
            case Failure(_) => true
  {
    CanonicalFormIsCanonical(c, e);
  }

  /** It succeeds exactly when some representable canonical form has the value. */
  lemma NormalizationSucceedsIff(c: int, e: int, unit: Unit)
    ensures Normalized(c, e, unit).Success? <==>
            exists rc: I64, re: int :: -18 <= re && IsCanonicalForm(rc, re) && SameValue(c, e, rc, re)
  {
    CanonicalFormIsCanonical(c, e);
    var (fc, fe) := CanonicalForm(c, e);
    forall rc: I64, re: int | -18 <= re && IsCanonicalForm(rc, re) && SameValue(c, e, rc, re)
      ensures rc == fc && re == fe
    {
      SameValueIsSymmetric(c, e, fc, fe);
      SameValueIsTransitive(fc, fe, c, e, rc, re);
      CanonicalFormIsUnique(fc, fe, rc, re);
    }
    if Normalized(c, e, unit).Success? {
      var rc: I64 := fc;
      assert -18 <= fe && IsCanonicalForm(rc, fe) && SameValue(c, e, rc, fe);
    }
  }

  /** What becomes of a value depends on its one canonical form alone. */
  lemma NormalizedIs(c: int, e: int, unit: Unit, rc: int, re: int)
    requires IsCanonicalForm(rc, re) && SameValue(c, e, rc, re)
    ensures re < -18 ==> Normalized(c, e, unit) == Failure(ExponentError(re))
    ensures re >= -18 && -0x8000_0000_0000_0000 <= rc <= 0x7FFF_FFFF_FFFF_FFFF ==>
              Normalized(c, e, unit) == Success(Quantity(rc, re, unit))
    ensures re >= -18 && !(-0x8000_0000_0000_0000 <= rc <= 0x7FFF_FFFF_FFFF_FFFF) ==>
              Normalized(c, e, unit) == Failure(CoefficientError)
  {
    CanonicalFormIsCanonical(c, e);
    var (fc, fe) := CanonicalForm(c, e);
    SameValueIsSymmetric(c, e, fc, fe);
    SameValueIsTransitive(fc, fe, c, e, rc, re);
    CanonicalFormIsUnique(fc, fe, rc, re);
  }

  /** Equal values normalise to the same quantity, or fail the same way. */
  lemma EqualValuesNormalizeAlike(c1: int, e1: int, c2: int, e2: int, unit: Unit)
    requires SameValue(c1, e1, c2, e2)
    ensures Normalized(c1, e1, unit) == Normalized(c2, e2, unit)
  {
    CanonicalFormIsCanonical(c1, e1);
    CanonicalFormIsCanonical(c2, e2);
    var (f1, g1) := CanonicalForm(c1, e1);
    var (f2, g2) := CanonicalForm(c2, e2);
    SameValueIsSymmetric(c1, e1, f1, g1);
    SameValueIsTransitive(f1, g1, c1, e1, c2, e2);
    SameValueIsTransitive(f1, g1, c2, e2, f2, g2);
    CanonicalFormIsUnique(f1, g1, f2, g2);
  }

  lemma NormalizationIsIdempotent(c: int, e: int, unit: Unit)
    requires Normalized(c, e, unit).Success?
    ensures var q := Normalized(c, e, unit).value;
            Normalized(q.coefficient, q.exponent, unit) == Success(q)
  {
    CanonicalFormIsCanonical(c, e);
    var q := Normalized(c, e, unit).value;
    EqualValuesNormalizeAlike(c, e, q.coefficient, q.exponent, unit);
  }

  /**
   The normalisation loop over 128-bit coefficients.  A product that leaves 128
   bits is reported as the coefficient error that its size deserves anyway.
  */
  method NormalizeDecimal(coefficient: I128, exponent: I32, unit: Unit)
    returns (r: Result<Quantity, NormalizationError>)
    ensures r == Normalized(coefficient, exponent, unit)
  {
    if coefficient == 0 {
      return Success(Quantity(0, 0, unit));
    }
    var c, e := coefficient, exponent;
    while c % 10 == 0 && e < MAX_EXPONENT
      invariant c != 0 && I128_MIN <= c <= I128_MAX
      invariant e > MAX_EXPONENT ==> c == coefficient && e == exponent
      invariant exponent > MAX_EXPONENT ==> e == exponent
      invariant Reduce(c, e) == Reduce(coefficient, exponent)
      decreases MAX_EXPONENT - e
    {
      c := c / 10;
      e := e + 1;
    }
    if e < MIN_EXPONENT {
      return Failure(ExponentError(e));
    }
    var targetExponent := Min(e, MAX_EXPONENT);
    var shift := e - targetExponent;
    CheckedScale(c, shift);
    if shift > 38 || !(I128_MIN <= Shift(c, shift) <= I128_MAX) {
      return Failure(CoefficientError);
    }
    var scaled := Shift(c, shift);
    if !(I64_MIN <= scaled <= I64_MAX) {
      return Failure(CoefficientError);
    }
    r := Success(Quantity(scaled, targetExponent, unit));
  }

  /** 10^39 leaves 128 bits, so a power that does not fit makes a product that does not fit. */
  lemma CheckedScale(c: int, shift: nat)
    requires c != 0
    ensures shift > 38 ==> !(I64_MIN <= Shift(c, shift) <= I64_MAX)
    ensures shift <= 38 ==> Pow10(shift) <= I128_MAX
  {
    Power38();
    if shift > 38 {
      ShiftSum(c, shift - 38, 38);
      ShiftKeepsOrder(c, 0, shift - 38);
      ShiftZero(shift - 38);
      var d := Shift(c, shift - 38);
      ShiftIsProduct(d, 38);
    } else {
      Pow10Monotone(shift, 38);
    }
  }

  lemma Power38()
    ensures Pow10(38) == 100_000_000_000_000_000_000_000_000_000_000_000_000
  {
    assert Pow10(9) == 1_000_000_000;
    Pow10Sum(9, 9);
    Pow10Sum(18, 18);
    Pow10Sum(36, 2);
  }

  // --- Quantities -------------------------------------------------------------

  function Canonicalized(q: Quantity): Quantity {
    match Normalized(q.coefficient, q.exponent, q.unit)
    case Success(n) => n
    case Failure(_) => q
  }

  predicate IsCanonical(q: Quantity) {
    q == Canonicalized(q)
  }

  predicate ExponentIsValid(q: Quantity) {
    MIN_EXPONENT <= q.exponent <= MAX_EXPONENT
  }

  predicate ExactQuantityIs(q: Quantity, unit: Unit) {
    q.unit == unit && ExponentIsValid(q) && IsCanonical(q)
  }

  /**
   An accepted quantity is in canonical form: within the exponent range the
   canonicality test cannot pass merely because normalisation failed.
  */
  lemma AcceptedMeansCanonicalForm(q: Quantity, unit: Unit)
    ensures ExactQuantityIs(q, unit) <==>
            && q.unit == unit && -18 <= q.exponent <= 18
            && if q.coefficient == 0 then q.exponent == 0 else q.exponent == 18 || q.coefficient % 10 != 0
  {
    var (c, e) := CanonicalForm(q.coefficient, q.exponent);
    CanonicalFormIsCanonical(q.coefficient, q.exponent);
    if ExponentIsValid(q) {
      if q.coefficient != 0 {
        ReduceIsCanonical(q.coefficient, q.exponent);
        ShiftGrows(c, e - q.exponent);
        assert Normalized(q.coefficient, q.exponent, q.unit).Success?;
      }
      if IsCanonicalForm(q.coefficient, q.exponent) {
        CanonicalFormIsUnique(q.coefficient, q.exponent, c, e);
      }
    }
  }

  lemma {:induction false} ShiftGrows(c: int, k: nat)
    ensures c >= 0 ==> c <= Shift(c, k)
    ensures c <= 0 ==> Shift(c, k) <= c
  {
    if k > 0 {
      ShiftGrows(c, k - 1);
    }
  }

  /** On accepted quantities structural equality is equality of value. */
  lemma AcceptedQuantitiesEqualIffSameValue(p: Quantity, q: Quantity, unit: Unit)
    requires ExactQuantityIs(p, unit) && ExactQuantityIs(q, unit)
    ensures p == q <==> SameValue(p.coefficient, p.exponent, q.coefficient, q.exponent)
  {
    AcceptedMeansCanonicalForm(p, unit);
    AcceptedMeansCanonicalForm(q, unit);
    if SameValue(p.coefficient, p.exponent, q.coefficient, q.exponent) {
      CanonicalFormIsUnique(p.coefficient, p.exponent, q.coefficient, q.exponent);
    }
  }

  // --- Exact comparison -------------------------------------------------------

  /**
   Compares two positive decimals by the position of their leading digit, then
   digit by digit with the shorter string padded on the right.
  */
  method CompareMagnitude(left: nat, leftExponent: I8, right: nat, rightExponent: I8) returns (o: Ordering)
    requires left > 0 && right > 0
    ensures o == TrueOrder(left, leftExponent, right, rightExponent)
  {
    var leftDigits := Print(left);
    var rightDigits := Print(right);
    var leftOrder := |leftDigits| + leftExponent;
    var rightOrder := |rightDigits| + rightExponent;
    if leftOrder != rightOrder {
      DigitCount(left);
      DigitCount(right);
      if leftOrder < rightOrder {
        LeadingPositionDecides(left, leftExponent, |leftDigits|, right, rightExponent, |rightDigits|);
      } else {
        LeadingPositionDecides(right, rightExponent, |rightDigits|, left, leftExponent, |leftDigits|);
      }
      return if leftOrder < rightOrder then Less else Greater;
    }
    PaddedOrder(left, leftExponent, right, rightExponent);
    o := ComparePadded(leftDigits, rightDigits);
  }

  /** The digit loop: a missing digit on the right counts as zero. */
  method ComparePadded(left: Digits, right: Digits) returns (o: Ordering)
    ensures o == Order(Value(Padded(left, Max(|left|, |right|))), Value(Padded(right, Max(|left|, |right|))))
  {
    var width := Max(|left|, |right|);
    ghost var a, b := Padded(left, width), Padded(right, width);
    for index := 0 to width
      invariant a[..index] == b[..index]
    {
      var l := if index < |left| then left[index] else 0;
      var r := if index < |right| then right[index] else 0;
      if l != r {
        FirstDifference(a, b, index);
        return if l < r then Less else Greater;
      }
    }
    assert a[..width] == a && b[..width] == b;
    o := Equal;
  }

  function Padded(ds: Digits, width: nat): (r: Digits)
    requires |ds| <= width
    ensures |r| == width
    ensures Value(r) == Shift(Value(ds), width - |ds|)
  {
    ValueShift(ds, width - |ds|);
    ds + seq(width - |ds|, _ => 0)
  }

  lemma {:induction false} FirstDifference(a: Digits, b: Digits, index: nat)
    requires |a| == |b| && index < |a| && a[..index] == b[..index] && a[index] != b[index]
    ensures Order(Value(a), Value(b)) == Order(a[index], b[index])
  {
    assert CompareBytes(a, b) == Order(Value(a), Value(b));
    if index > 0 {
      assert a[0] == a[..index][0] == b[0];
      assert a[1..][..index - 1] == a[..index][1..];
      assert b[1..][..index - 1] == b[..index][1..];
      FirstDifference(a[1..], b[1..], index - 1);
    }
  }

  /** A positive number with m digits lies in the m-th decade. */
  lemma DigitCount(n: nat)
    requires n > 0
    ensures |Print(n)| >= 1 && Pow10(|Print(n)| - 1) <= n < Pow10(|Print(n)|)
  {
    ValueBounds(Print(n));
    TrimmedZero(Print(n));
  }

  lemma LeadingPositionDecides(left: nat, leftExponent: int, m: nat, right: nat, rightExponent: int, n: nat)
    requires left < Pow10(m) && n >= 1 && Pow10(n - 1) <= right
    requires m + leftExponent < n + rightExponent
    ensures TrueOrder(left, leftExponent, right, rightExponent) == Less
    ensures TrueOrder(right, rightExponent, left, leftExponent) == Greater
  {
    var base := Min(leftExponent, rightExponent);
    var a, b := leftExponent - base, rightExponent - base;
    Pow10Monotone(m + a, n - 1 + b);
    Pow10Sum(m, a);
    Pow10Sum(n - 1, b);
    ShiftIsProduct(left, a);
    ShiftIsProduct(right, b);
    Separated(left, Pow10(m), Pow10(a), Pow10(n - 1), right, Pow10(b));
  }

  lemma Separated(left: int, above: int, a: int, below: int, right: int, b: int)
    requires left < above && below <= right && a >= 1 && b >= 1 && above * a <= below * b
    ensures left * a < right * b
  {
    MultiplyMonotone(left + 1, above, a);
    Distribute(left, 1, a);
    MultiplyMonotone(below, right, b);
  }

  lemma PaddedOrder(left: nat, leftExponent: int, right: nat, rightExponent: int)
    requires |Print(left)| + leftExponent == |Print(right)| + rightExponent
    ensures TrueOrder(left, leftExponent, right, rightExponent)
         == Order(Value(Padded(Print(left), Max(|Print(left)|, |Print(right)|))),
                  Value(Padded(Print(right), Max(|Print(left)|, |Print(right)|))))
  {
  }

  function Signum(c: int): int {
    if c < 0 then -1 else if c == 0 then 0 else 1
  }

  /** The comparison of `exact_cmp` agrees with the order of the denoted values, on every input. */
  method CompareDecimal(left: I64, leftExponent: I8, right: I64, rightExponent: I8) returns (o: Ordering)
    ensures o == TrueOrder(left, leftExponent, right, rightExponent)
  {
    SignIsKept(left, leftExponent - Min(leftExponent, rightExponent));
    SignIsKept(right, rightExponent - Min(leftExponent, rightExponent));
    if Signum(left) != Signum(right) {
      return Order(Signum(left), Signum(right));
    }
    if left == 0 {
      return Equal;
    }
    if left < 0 {
      o := CompareMagnitude(UnsignedAbs(left), leftExponent, UnsignedAbs(right), rightExponent);
      NegationReverses(left, leftExponent, right, rightExponent);
      o := Reversed(o);
    } else {
      o := CompareMagnitude(UnsignedAbs(left), leftExponent, UnsignedAbs(right), rightExponent);
    }
  }

  function UnsignedAbs(c: int): nat {
    if c < 0 then -c else c
  }

  function Reversed(o: Ordering): Ordering {
    match o
    case Less => Greater
    case Equal => Equal
    case Greater => Less
  }

  lemma SignIsKept(c: int, k: nat)
    ensures Signum(Shift(c, k)) == Signum(c)
  {
    ShiftKeepsOrder(c, 0, k);
    ShiftZero(k);
  }

  lemma NegationReverses(c1: int, e1: int, c2: int, e2: int)
    ensures TrueOrder(c1, e1, c2, e2) == Reversed(TrueOrder(-c1, e1, -c2, e2))
  {
    var base := Min(e1, e2);
    ShiftNegates(c1, e1 - base);
    ShiftNegates(c2, e2 - base);
  }

  /** `Quantity::exact_cmp`: no answer across units. */
  method ExactCompare(left: Quantity, right: Quantity) returns (o: Option<Ordering>)
    ensures o == if left.unit != right.unit then None
                 else Some(TrueOrder(left.coefficient, left.exponent, right.coefficient, right.exponent))
  {
    if left.unit != right.unit {
      return None;
    }
    var ordering := CompareDecimal(left.coefficient, left.exponent, right.coefficient, right.exponent);
    o := Some(ordering);
  }
}
