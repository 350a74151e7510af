/**
 Decimal literals of the source language, and the millimetre printer that must
 invert them.  `DecimalText` and `Render` say what a literal is without reference to
 the parser.
*/
module Literals {
  import opened Wrappers
  import opened DecimalDigits
  import opened Quantities
  import opened Reading

  const I32_MAX: int := 0x7FFF_FFFF
  const MAX_ABS_COORDINATE_NM: int := 1_000_000_000_000

  /** Diagnostic codes CC-LANG-QUANTITY-001 to -006. */
  datatype Code = InvalidLiteral | UnsupportedUnit | TooPrecise | OutOfRange | WrongDimension | ExponentOutOfRange

  function WithSign(negative: bool, magnitude: int): int {
    if negative then -magnitude else magnitude
  }

  datatype DecimalText = DecimalText(negative: bool, whole: Digits, fractional: Option<Digits>) {
    predicate WellFormed() {
      whole != [] && (fractional.Some? ==> fractional.value != [])
    }

    function Fraction(): Digits {
      match fractional
      case Some(ds) => ds
      case None => []
    }

    function AllDigits(): Digits {
      whole + Fraction()
    }

    function Signed(): int {
      WithSign(negative, Value(AllDigits()))
    }
  }

  // --- Text -------------------------------------------------------------------

  predicate IsDigit(c: char) {
    '0' <= c <= '9'
  }

  function DigitChar(d: Digit): (c: char)
    ensures IsDigit(c)
  {
    '0' + d as char
  }

  function DigitText(ds: Digits): (s: string)
    ensures |s| == |ds| && forall i :: 0 <= i < |s| ==> s[i] == DigitChar(ds[i])
  {
    seq(|ds|, i requires 0 <= i < |ds| => DigitChar(ds[i]))
  }

  /** Different numbers print differently. */
  lemma PrintedTextIsInjective(i: nat, j: nat)
    requires DigitText(Print(i)) == DigitText(Print(j))
    ensures i == j
  {
    var a, b := DigitText(Print(i)), DigitText(Print(j));
    assert forall k | 0 <= k < |a| :: a[k] == b[k] && Print(i)[k] == Print(j)[k];
    assert Print(i) == Print(j);
  }

  predicate AllAsciiDigits(s: string) {
    forall i :: 0 <= i < |s| ==> IsDigit(s[i])
  }

  function ToDigits(s: string): (ds: Digits)
    requires AllAsciiDigits(s)
    ensures |ds| == |s| && DigitText(ds) == s
  {
    seq(|s|, i requires 0 <= i < |s| => (s[i] as int - '0' as int))
  }

  lemma DigitTextIsInjective(a: Digits, b: Digits)
    requires DigitText(a) == DigitText(b)
    ensures a == b
  {
    forall i | 0 <= i < |a| ensures a[i] == b[i] {
      assert DigitText(a)[i] == DigitText(b)[i];
      assert DigitText(a)[i] as int - '0' as int == a[i];
      assert DigitText(b)[i] as int - '0' as int == b[i];
    }
  }

  function Render(t: DecimalText): string {
    if t.negative then "-" + UnsignedText(t.whole, t.fractional) else UnsignedText(t.whole, t.fractional)
  }

  /** Position of the first '.', or the length. */
  function FindPoint(s: string): (n: nat)
    ensures n <= |s| && (forall i :: 0 <= i < n ==> s[i] != '.')
    ensures n < |s| ==> s[n] == '.'
  {
    if s == "" || s[0] == '.' then 0 else FindPoint(s[1..]) + 1
  }

  /** `split_once('.')`, keeping whether there was a point. */
  function SplitOnce(unsigned: string): (string, Option<string>) {
    var point := FindPoint(unsigned);
    (unsigned[..point], if point < |unsigned| then Some(unsigned[point + 1..]) else None)
  }

  /** Digits, and digits after an optional point. */
  function ScanUnsigned(unsigned: string): Option<(Digits, Option<Digits>)> {
    match SplitOnce(unsigned)
    case (whole, None) =>
      if whole == "" || !AllAsciiDigits(whole) then None else Some((ToDigits(whole), None))
    case (whole, Some(fractional)) =>
      if whole == "" || fractional == "" || !AllAsciiDigits(whole) || !AllAsciiDigits(fractional) then None
      else Some((ToDigits(whole), Some(ToDigits(fractional))))
  }

  /** The shape check of a literal. */
  function Scan(raw: string): Option<DecimalText> {
    var negative := raw != "" && raw[0] == '-';
    match ScanUnsigned(if negative then raw[1..] else raw)
    case None => None
    case Some((whole, fractional)) => Some(DecimalText(negative, whole, fractional))
  }

  function PointAndFraction(fractional: Option<Digits>): string {
    if fractional.Some? then "." + DigitText(fractional.value) else ""
  }

  function UnsignedText(whole: Digits, fractional: Option<Digits>): string {
    DigitText(whole) + PointAndFraction(fractional)
  }

  lemma ScanUnsignedText(whole: Digits, fractional: Option<Digits>)
    requires whole != [] && (fractional.Some? ==> fractional.value != [])
    ensures ScanUnsigned(UnsignedText(whole, fractional)) == Some((whole, fractional))
  {
    var w, rest := DigitText(whole), PointAndFraction(fractional);
    PointAfter(w, rest);
    assert (w + rest)[..|w|] == w;
    DigitTextIsInjective(whole, ToDigits(w));
    if fractional.Some? {
      var f := DigitText(fractional.value);
      assert (w + rest)[|w| + 1..] == f;
      DigitTextIsInjective(fractional.value, ToDigits(f));
    }
  }

  lemma UnsignedTextScanned(unsigned: string, whole: Digits, fractional: Option<Digits>)
    requires ScanUnsigned(unsigned) == Some((whole, fractional))
    ensures whole != [] && (fractional.Some? ==> fractional.value != [])
    ensures unsigned == UnsignedText(whole, fractional)
  {
    var point := FindPoint(unsigned);
    assert unsigned == unsigned[..point] + unsigned[point..];
    assert point < |unsigned| ==> unsigned[point..] == "." + unsigned[point + 1..];
  }

  /** The shape check accepts exactly the rendered literals, and recovers their parts. */
  lemma ScanInvertsRender(raw: string, t: DecimalText)
    ensures Scan(raw) == Some(t) <==> t.WellFormed() && raw == Render(t)
  {
    var unsigned := if raw != "" && raw[0] == '-' then raw[1..] else raw;
    if t.WellFormed() && raw == Render(t) {
      assert UnsignedText(t.whole, t.fractional)[0] == DigitChar(t.whole[0]);
      assert unsigned == UnsignedText(t.whole, t.fractional);
      ScanUnsignedText(t.whole, t.fractional);
    }
    if Scan(raw) == Some(t) {
      UnsignedTextScanned(unsigned, t.whole, t.fractional);
      assert t.negative ==> raw == "-" + unsigned;
    }
  }

  lemma {:induction false} PointAfter(whole: string, rest: string)
    requires AllAsciiDigits(whole) && (rest == "" || rest[0] == '.')
    ensures FindPoint(whole + rest) == |whole|
  {
    if whole == "" {
      assert whole + rest == rest;
    } else {
      assert (whole + rest)[1..] == whole[1..] + rest;
      PointAfter(whole[1..], rest);
    }
  }

  // --- What a literal says, character by character -----------------------------

  lemma {:induction false} DigitTextReads(ds: Digits)
    ensures Natural(DigitText(ds)) == Value(ds)
    ensures ds != [] ==> IsNatural(DigitText(ds))
  {
    if ds != [] {
      var front, s := ds[..|ds| - 1], DigitText(ds);
      DigitTextReads(front);
      assert s[..|s| - 1] == DigitText(front);
    }
  }

  lemma SignedReads(negative: bool, s: string)
    requires IsNatural(s)
    ensures var text := Sign(negative) + s;
            IsInteger(text) && Integer(text) == WithSign(negative, Natural(s))
  {
    var text := Sign(negative) + s;
    if negative {
      assert text[1..] == s;
    } else {
      assert text == s;
    }
  }

  function Sign(negative: bool): string {
    if negative then "-" else ""
  }

  /** Characters in front of a point, and characters behind it. */
  lemma PointedReads(front: string, fraction: string)
    requires IsInteger(front) && IsNatural(fraction) && forall i | 0 <= i < |front| :: front[i] != '.'
    ensures var s := front + "." + fraction;
            IsFixed(s) && Fixed(s) == Decimal(Integer(front + fraction), -|fraction|)
  {
    var s := front + "." + fraction;
    PlaceIs(front, '.', fraction);
    assert s[..|front|] == front && s[|front| + 1..] == fraction;
  }

  lemma PlainReads(front: string)
    requires IsInteger(front) && forall i | 0 <= i < |front| :: front[i] != '.'
    ensures IsFixed(front) && Fixed(front) == Decimal(Integer(front), 0)
  {
    assert Place(front, '.') == |front|;
    assert front[..|front|] == front;
  }

  lemma SignedDigitsHaveNoPoint(negative: bool, s: string)
    requires AllAsciiDigits(s)
    ensures forall i | 0 <= i < |Sign(negative) + s| :: (Sign(negative) + s)[i] != '.'
  {
  }

  /** A rendered literal reads as the number that its parts make up. */
  lemma RenderReads(t: DecimalText)
    requires t.WellFormed()
    ensures IsFixed(Render(t)) && Fixed(Render(t)) == Decimal(t.Signed(), -|t.Fraction()|)
  {
    hide IsFixed, Fixed, IsInteger, Integer, IsNatural, Natural, Place, Value, Sign, Render, DigitText;
    var whole, fraction := DigitText(t.whole), DigitText(t.Fraction());
    var front := Sign(t.negative) + whole;
    SignedDigitsHaveNoPoint(t.negative, whole) by {
      assert AllAsciiDigits(whole);
    }
    DigitTextReads(t.whole);
    SignedReads(t.negative, whole);
    RenderParts(t);
    DigitTextReads(t.Fraction());
    DigitTextReads(t.AllDigits());
    DigitTextJoins(t.whole, t.Fraction());
    if t.fractional.Some? {
      SignedReads(t.negative, whole + fraction);
      PointedReads(front, fraction);
      assert Sign(t.negative) + (whole + fraction) == front + fraction;
    } else {
      PlainReads(front);
      assert t.AllDigits() == t.whole;
    }
  }

  lemma DigitTextJoins(a: Digits, b: Digits)
    ensures DigitText(a + b) == DigitText(a) + DigitText(b)
  {
  }

  lemma RenderParts(t: DecimalText)
    ensures var front := Sign(t.negative) + DigitText(t.whole);
            Render(t) == if t.fractional.Some? then front + "." + DigitText(t.fractional.value) else front
  {
    var sign, whole := Sign(t.negative), DigitText(t.whole);
    assert Render(t) == sign + (whole + PointAndFraction(t.fractional));
    if t.fractional.Some? {
      var f := DigitText(t.fractional.value);
      assert sign + (whole + ("." + f)) == sign + whole + "." + f;
    }
  }

  /** What reads as a decimal is what the shape check accepts, and it means the same. */
  lemma ScanReads(raw: string)
    ensures IsFixed(raw) <==> Scan(raw).Some?
    ensures Scan(raw).Some? ==>
              Fixed(raw) == Decimal(Scan(raw).value.Signed(), -|Scan(raw).value.Fraction()|)
  {
    hide Scan, Render, Fixed;
    if Scan(raw).Some? {
      ScanInvertsRender(raw, Scan(raw).value);
      RenderReads(Scan(raw).value);
    }
    if IsFixed(raw) {
      var t := FixedIsRendered(raw);
      ScanInvertsRender(raw, t);
    }
  }

  lemma FixedIsRendered(raw: string) returns (t: DecimalText)
    requires IsFixed(raw)
    ensures t.WellFormed() && raw == Render(t)
  {
    var point := Place(raw, '.');
    var front := raw[..point];
    var negative := front != [] && front[0] == '-';
    var whole := if negative then front[1..] else front;
    assert IsNatural(whole);
    assert front == Sign(negative) + whole;
    assert raw == front + raw[point..];
    if point < |raw| {
      assert IsNatural(raw[point + 1..]);
      assert raw[point..] == "." + raw[point + 1..];
      t := DecimalText(negative, ToDigits(whole), Some(ToDigits(raw[point + 1..])));
      assert raw == Sign(negative) + (whole + ("." + raw[point + 1..]));
    } else {
      t := DecimalText(negative, ToDigits(whole), None);
      assert UnsignedText(t.whole, None) == whole;
    }
  }

  // --- Significant digits -----------------------------------------------------

  function TrimStart(ds: Digits): (r: Digits)
    ensures Value(r) == Value(ds)
    ensures r != [] ==> r[0] != 0
  {
    if ds == [] || ds[0] != 0 then ds
    else
      ValueFront(ds);
      ShiftZero(|ds| - 1);
      TrimStart(ds[1..])
  }

  function TrimEnd(ds: Digits): (r: Digits)
    ensures |r| <= |ds| && Value(ds) == Shift(Value(r), |ds| - |r|)
    ensures r != [] ==> r[|r| - 1] != 0 && Value(r) % 10 != 0
    ensures r <= ds
  {
    if ds == [] || ds[|ds| - 1] != 0 then ds else TrimEnd(ds[..|ds| - 1])
  }

  lemma NothingSignificant(ds: Digits)
    ensures TrimStart(ds) == [] <==> Value(ds) == 0
    ensures TrimStart(ds) != [] ==> TrimEnd(TrimStart(ds)) != [] && Value(TrimEnd(TrimStart(ds))) > 0
  {
    var r := TrimStart(ds);
    if r != [] {
      ValueBounds(r);
      ZeroOnlyFromZero(Value(TrimEnd(r)), |r| - |TrimEnd(r)|);
    }
  }

  function TrailingZeros(ds: Digits): nat {
    |TrimStart(ds)| - |TrimEnd(TrimStart(ds))|
  }

  /**
   Exponents are 32-bit: a non-zero literal whose fraction, or whose run of
   trailing zeros, is longer than that is refused.
  */
  predicate CountsFit(t: DecimalText) {
    || Value(t.AllDigits()) == 0
    || (|t.Fraction()| <= I32_MAX && TrailingZeros(t.AllDigits()) <= I32_MAX)
  }

  lemma ShortLiteralsFit(t: DecimalText)
    requires |Render(t)| <= I32_MAX
    ensures CountsFit(t)
  {
    TrimStartShortens(t.AllDigits());
  }

  lemma {:induction false} TrimStartShortens(ds: Digits)
    ensures |TrimStart(ds)| <= |ds|
  {
    if ds != [] && ds[0] == 0 {
      TrimStartShortens(ds[1..]);
    }
  }

  datatype ExactDecimal = ExactDecimal(coefficient: I128, fractionalDigits: I32)

  /** The bounded integer reading of a well-shaped literal. */
  function ParseText(t: DecimalText): Result<ExactDecimal, Code> {
    var significant := TrimStart(t.AllDigits());
    if significant == [] then Success(ExactDecimal(0, 0))
    else
      var withoutTrailingZeros := TrimEnd(significant);
      var trailingZeros := |significant| - |withoutTrailingZeros|;
      var magnitude := Value(withoutTrailingZeros);
      if magnitude > I128_MAX then Failure(OutOfRange)
      else if |t.Fraction()| > I32_MAX || trailingZeros > I32_MAX then Failure(OutOfRange)
      else Success(ExactDecimal(WithSign(t.negative, magnitude), |t.Fraction()| - trailingZeros))
  }

  /** 32-bit wrap-around. */
  function Wrap32(i: int): (w: int)
    ensures -0x8000_0000 <= w <= I32_MAX
    ensures -0x8000_0000 <= i <= I32_MAX ==> w == i
  {
    var low := i % 0x1_0000_0000;
    if low > I32_MAX then low - 0x1_0000_0000 else low
  }

  function PowerOfTen(exponent: nat): (p: Option<I128>)
    ensures p.Some? <==> exponent <= 38
    ensures p.Some? ==> p.value == Pow10(exponent)
  {
    Power38();
    if exponent <= 38 then Pow10Monotone(exponent, 38); Some(Pow10(exponent)) else None
  }

  // --- Lengths ----------------------------------------------------------------

  function LengthUnit(unit: string): Option<nat> {
    if unit == "nm" then Some(0) else if unit == "um" then Some(3) else if unit == "mm" then Some(6) else None
  }

  function CheckedLength(value: int): Result<int, Code> {
    if !(I128_MIN <= value <= I128_MAX) then Failure(OutOfRange)
    else if !(I64_MIN <= value <= I64_MAX) then Failure(OutOfRange)
    else if UnsignedAbs(value) > MAX_ABS_COORDINATE_NM then Failure(OutOfRange)
    else Success(value)
  }

  /** `coefficient.checked_mul(10^exponent)`, then the range checks. */
  function RaiseLength(coefficient: I128, exponent: nat): Result<int, Code> {
    match PowerOfTen(exponent)
    case None => Failure(OutOfRange)
    case Some(_) => CheckedLength(Shift(coefficient, exponent))
  }

  /** Division by 10^exponent, which must leave no remainder. */
  function DivideLength(coefficient: I128, exponent: nat): Result<int, Code> {
    match PowerOfTen(exponent)
    case None => Failure(OutOfRange)
    case Some(divisor) =>
      if coefficient % divisor != 0 then Failure(TooPrecise) else CheckedLength(coefficient / divisor)
  }

  function ScaleLength(coefficient: I128, exponent: int): Result<int, Code> {
    if exponent >= 0 then RaiseLength(coefficient, exponent) else DivideLength(coefficient, -exponent)
  }

  function LowerLength(raw: string, unit: string): Result<int, Code> {
    match LengthUnit(unit)
    case None => Failure(UnsupportedUnit)
    case Some(unitExponent) => LowerScaled(raw, unitExponent)
  }

  function LowerScaled(raw: string, unitExponent: nat): Result<int, Code> {
    match Scan(raw)
    case None => Failure(InvalidLiteral)
    case Some(t) => LowerText(t, unitExponent)
  }

  function LowerText(t: DecimalText, unitExponent: nat): Result<int, Code> {
    match ParseText(t)
    case Failure(code) => Failure(code)
    case Success(decimal) =>
      ScaleLength(decimal.coefficient, Wrap32(unitExponent - decimal.fractionalDigits))
  }

  /** The literal t, read in units of 10^scale nanometres, is exactly n nanometres. */
  ghost predicate DenotesNanometres(t: DecimalText, scale: nat, n: int) {
    Shift(t.Signed(), scale) == Shift(n, |t.Fraction()|)
  }

  ghost predicate IsLength(raw: string, scale: nat, n: int) {
    && -MAX_ABS_COORDINATE_NM <= n <= MAX_ABS_COORDINATE_NM
    && exists t: DecimalText :: t.WellFormed() && raw == Render(t) && CountsFit(t) && DenotesNanometres(t, scale, n)
  }

  /** A length lowers to n exactly when its text denotes n nanometres inside the envelope. */
  lemma LowerLengthMeans(raw: string, unit: string, n: int)
    ensures LowerLength(raw, unit) == Success(n) <==>
            LengthUnit(unit).Some? && IsLength(raw, LengthUnit(unit).value, n)
  {
    match LengthUnit(unit) {
      case None =>
      case Some(scale) => LowerScaledMeans(raw, scale, n);
    }
  }

  /**
   The same from the characters: what the text says, in its unit, is n nanometres.
   The counting condition is met by every text shorter than 2^31 characters.
  */
  lemma LowerLengthReads(raw: string, unit: string, n: int)
    ensures LowerLength(raw, unit) == Success(n) <==>
              && unit in LENGTH_SCALES && IsFixed(raw) && FixedFits(raw)
              && -1_000_000_000_000 <= n <= 1_000_000_000_000
              && SameValue(Fixed(raw).coefficient, Fixed(raw).exponent + LENGTH_SCALES[unit], n, 0)
    ensures LowerLength(raw, unit) == Failure(UnsupportedUnit) <==> unit !in LENGTH_SCALES
    ensures LowerLength(raw, unit) == Failure(InvalidLiteral) <==> unit in LENGTH_SCALES && !IsFixed(raw)
  {
    hide IsFixed, Fixed, Scan, Render, IsLength, ParseText, ScaleLength, CountsFit, SameValue;
    ScanReads(raw);
    LengthUnitIs(unit);
    LowerLengthMeans(raw, unit, n);
    if unit in LENGTH_SCALES && IsFixed(raw) {
      LengthRead(raw, LENGTH_SCALES[unit], n);
    }
    if unit in LENGTH_SCALES {
      ScannedLengths(raw, LENGTH_SCALES[unit], n);
      LengthsAreNotInvalid(raw, LENGTH_SCALES[unit]);
    }
  }

  /** The units of length and their power of ten in nanometres. */
  const LENGTH_SCALES: map<string, nat> := map["nm" := 0, "um" := 3, "mm" := 6]

  lemma LengthUnitIs(unit: string)
    ensures LengthUnit(unit) == if unit in LENGTH_SCALES then Some(LENGTH_SCALES[unit]) else None
  {
  }

  /** A text that is too long for 32-bit counts is refused. */
  ghost predicate FixedFits(raw: string) {
    forall t | Scan(raw) == Some(t) :: CountsFit(t)
  }

  lemma ShortTextsFit(raw: string)
    requires |raw| < 0x8000_0000
    ensures FixedFits(raw)
  {
    forall t | Scan(raw) == Some(t) ensures CountsFit(t) {
      ScanInvertsRender(raw, t);
      ShortLiteralsFit(t);
    }
  }

  lemma LengthsAreNotInvalid(raw: string, scale: nat)
    ensures LowerScaled(raw, scale) == Failure(InvalidLiteral) <==> Scan(raw).None?
    ensures LowerScaled(raw, scale) != Failure(UnsupportedUnit)
  {
    hide Scan;
  }

  lemma ScannedLengths(raw: string, scale: nat, n: int)
    ensures IsLength(raw, scale, n) ==> Scan(raw).Some?
  {
    if IsLength(raw, scale, n) {
      var t: DecimalText :| t.WellFormed() && raw == Render(t) && CountsFit(t) && DenotesNanometres(t, scale, n);
      ScanInvertsRender(raw, t);
    }
  }

  lemma LengthRead(raw: string, scale: nat, n: int)
    requires IsFixed(raw)
    ensures IsLength(raw, scale, n) <==>
            && FixedFits(raw) && -1_000_000_000_000 <= n <= 1_000_000_000_000
            && SameValue(Fixed(raw).coefficient, Fixed(raw).exponent + scale, n, 0)
  {
    hide IsFixed, Fixed, Scan, Render, CountsFit;
    ScanReads(raw);
    var t := Scan(raw).value;
    forall u: DecimalText ensures Scan(raw) == Some(u) <==> u.WellFormed() && raw == Render(u) {
      ScanInvertsRender(raw, u);
    }
    var digits := |t.Fraction()|;
    OrderAtAnyBase(t.Signed(), scale - digits, n, 0, -digits);
  }

  lemma LowerScaledMeans(raw: string, scale: nat, n: int)
    requires scale <= 6
    ensures LowerScaled(raw, scale) == Success(n) <==> IsLength(raw, scale, n)
  {
    forall t: DecimalText ensures Scan(raw) == Some(t) <==> t.WellFormed() && raw == Render(t) {
      ScanInvertsRender(raw, t);
    }
    if Scan(raw).Some? {
      LowerTextMeans(scale, Scan(raw).value, n);
    }
  }

  lemma LowerTextMeans(scale: nat, t: DecimalText, n: int)
    requires scale <= 6
    ensures LowerText(t, scale) == Success(n) <==>
            -MAX_ABS_COORDINATE_NM <= n <= MAX_ABS_COORDINATE_NM && CountsFit(t) && DenotesNanometres(t, scale, n)
  {
    NothingSignificant(t.AllDigits());
    if Value(t.AllDigits()) == 0 {
      ShiftZero(scale);
      ZeroOnlyFromZero(n, |t.Fraction()|);
    } else {
      var c, zeros := SignificantPart(t);
      ParsedText(t, c, zeros);
      ShiftSum(c, zeros, scale);
      DenotesCore(c, zeros + scale, n, |t.Fraction()|);
      if UnsignedAbs(c) > I128_MAX {
        TooBig(c, zeros + scale, |t.Fraction()|, n);
      } else if CountsFit(t) {
        LowerCore(c, zeros + scale, |t.Fraction()|, n);
      }
    }
  }

  lemma ParsedText(t: DecimalText, c: int, zeros: nat)
    requires Value(t.AllDigits()) != 0
    requires c == WithSign(t.negative, Value(TrimEnd(TrimStart(t.AllDigits()))))
    requires zeros == TrailingZeros(t.AllDigits())
    ensures ParseText(t) ==
            if UnsignedAbs(c) <= I128_MAX && CountsFit(t) then Success(ExactDecimal(c, |t.Fraction()| - zeros))
            else Failure(OutOfRange)
  {
    NothingSignificant(t.AllDigits());
  }

  /** The coefficient that parsing keeps: the literal without its trailing zeros. */
  lemma SignificantPart(t: DecimalText) returns (c: int, zeros: nat)
    requires Value(t.AllDigits()) != 0
    ensures var core := TrimEnd(TrimStart(t.AllDigits()));
            c == WithSign(t.negative, Value(core)) && Value(core) == UnsignedAbs(c)
    ensures zeros == TrailingZeros(t.AllDigits())
    ensures c % 10 != 0 && t.Signed() == Shift(c, zeros)
  {
    NothingSignificant(t.AllDigits());
    var core := TrimEnd(TrimStart(t.AllDigits()));
    c := WithSign(t.negative, Value(core));
    zeros := TrailingZeros(t.AllDigits());
    ShiftNegates(Value(core), zeros);
    LastDigit(Value(core));
  }

  lemma LastDigit(v: int)
    ensures v % 10 != 0 ==> (-v) % 10 != 0
  {
  }

  /** Cancelling the common decades of c * 10^up = n * 10^down. */
  lemma DenotesCore(c: int, up: nat, n: int, down: nat)
    requires c % 10 != 0
    ensures Shift(c, up) == Shift(n, down) <==> up >= down && n == Shift(c, up - down)
  {
    if up >= down {
      ShiftSum(c, up - down, down);
      ShiftKeepsOrder(Shift(c, up - down), n, down);
    } else {
      ShiftSum(n, down - up, up);
      ShiftKeepsOrder(c, Shift(n, down - up), up);
      assert Shift(n, down - up) == 10 * Shift(n, down - up - 1);
    }
  }

  lemma MultiplesEndInZero(c: int, k: nat)
    requires k >= 1 && c % Pow10(k) == 0
    ensures c % 10 == 0
  {
    var q := WholePart(c, Pow10(k));
    ShiftIsProduct(q, k);
    EndsInZero(q, k);
  }

  lemma WholePart(c: int, p: int) returns (q: int)
    requires p >= 1 && c % p == 0
    ensures c == q * p
  {
    q := c / p;
  }

  lemma TooBig(c: int, up: nat, down: nat, n: int)
    requires c % 10 != 0 && UnsignedAbs(c) > I128_MAX
    ensures up >= down && n == Shift(c, up - down) ==> UnsignedAbs(n) > MAX_ABS_COORDINATE_NM
  {
    if up >= down {
      ShiftGrows(c, up - down);
    }
  }

  /** The arithmetic of `lower_length` on a coefficient without trailing zeros. */
  lemma LowerCore(c: int, up: nat, down: nat, n: int)
    requires c % 10 != 0 && UnsignedAbs(c) <= I128_MAX && up <= I32_MAX + 6 && down <= I32_MAX
    ensures ScaleLength(c, Wrap32(up - down)) == Success(n) <==>
            -MAX_ABS_COORDINATE_NM <= n <= MAX_ABS_COORDINATE_NM && up >= down && n == Shift(c, up - down)
  {
    var exponent := Wrap32(up - down);
    if up - down > I32_MAX {
      Overflowed(c, up - down);
      assert exponent == up - down - 0x1_0000_0000;
    } else if exponent >= 0 {
      if exponent > 38 {
        Overflowed(c, exponent);
      }
    } else if c % Pow10(-exponent) == 0 {
      MultiplesEndInZero(c, -exponent);
    }
  }

  lemma Overflowed(c: int, k: nat)
    requires c % 10 != 0 && k > 38
    ensures UnsignedAbs(Shift(c, k)) > MAX_ABS_COORDINATE_NM
  {
    CheckedScale(c, k);
  }

  // --- Electrical quantities --------------------------------------------------

  function ElectricalUnit(unit: string): Option<(Unit, int)> {
    if unit == "ohm" then Some((Ohm, 0))
    else if unit == "kohm" then Some((Ohm, 3))
    else if unit == "V" then Some((Volt, 0))
    else if unit == "Hz" then Some((Hertz, 0))
    else if unit == "kHz" then Some((Hertz, 3))
    else if unit == "s" then Some((Second, 0))
    else if unit == "ms" then Some((Second, -3))
    else if unit == "us" then Some((Second, -6))
    else if unit == "deg" then Some((Degree, 0))
    else if unit == "ratio" then Some((Dimensionless, 0))
    else None
  }

  function LowerElectrical(raw: string, unit: string, expected: Unit): Result<Quantity, Code> {
    match ElectricalUnit(unit)
    case None => Failure(UnsupportedUnit)
    case Some((dimension, prefixExponent)) =>
      if dimension != expected then Failure(WrongDimension)
      else LowerPrefixed(raw, prefixExponent, dimension)
  }

  function LowerPrefixed(raw: string, prefixExponent: int, dimension: Unit): Result<Quantity, Code> {
    match Scan(raw)
    case None => Failure(InvalidLiteral)
    case Some(t) => LowerQuantity(t, prefixExponent, dimension)
  }

  function LowerQuantity(t: DecimalText, prefixExponent: int, dimension: Unit): Result<Quantity, Code> {
    match ParseText(t)
    case Failure(code) => Failure(code)
    case Success(decimal) => NormalizeParsed(decimal.coefficient, prefixExponent - decimal.fractionalDigits, dimension)
  }

  function NormalizeParsed(coefficient: I128, exponent: int, dimension: Unit): Result<Quantity, Code> {
    match Normalized(coefficient, Wrap32(exponent), dimension)
    case Success(q) => Success(q)
    case Failure(ExponentError(_)) => Failure(ExponentOutOfRange)
    case Failure(CoefficientError) => Failure(OutOfRange)
  }

  /** The literal t, scaled by 10^prefix, has q as its normal form. */
  ghost predicate DenotesQuantity(t: DecimalText, prefix: int, unit: Unit, q: Quantity) {
    Normalized(t.Signed(), prefix - |t.Fraction()|, unit) == Success(q)
  }

  ghost predicate IsQuantity(raw: string, prefix: int, unit: Unit, q: Quantity) {
    exists t: DecimalText ::
      t.WellFormed() && raw == Render(t) && CountsFit(t) && DenotesQuantity(t, prefix, unit, q)
  }

  /**
   An electrical literal lowers to q exactly when its dimension is the expected one
   and q is the normal form of the value that the text denotes.
  */
  lemma LowerElectricalMeans(raw: string, unit: string, expected: Unit, q: Quantity)
    ensures LowerElectrical(raw, unit, expected) == Success(q) <==>
            && ElectricalUnit(unit).Some? && ElectricalUnit(unit).value.0 == expected
            && IsQuantity(raw, ElectricalUnit(unit).value.1, expected, q)
  {
    match ElectricalUnit(unit) {
      case None =>
      case Some((dimension, prefix)) => LowerPrefixedMeans(raw, prefix, dimension, q);
    }
  }

  /** The same from the characters, with the units written out. */
  lemma LowerElectricalReads(raw: string, unit: string, expected: Unit, q: Quantity)
    ensures LowerElectrical(raw, unit, expected) == Success(q) <==>
              && unit in ELECTRICAL_UNITS && ELECTRICAL_UNITS[unit].0 == expected
              && IsFixed(raw) && FixedFits(raw)
              && Normalized(Fixed(raw).coefficient, Fixed(raw).exponent + ELECTRICAL_UNITS[unit].1, expected) == Success(q)
    ensures LowerElectrical(raw, unit, expected) == Failure(UnsupportedUnit) <==> unit !in ELECTRICAL_UNITS
    ensures LowerElectrical(raw, unit, expected) == Failure(WrongDimension) <==>
              unit in ELECTRICAL_UNITS && ELECTRICAL_UNITS[unit].0 != expected
    ensures LowerElectrical(raw, unit, expected) == Failure(InvalidLiteral) <==>
              unit in ELECTRICAL_UNITS && ELECTRICAL_UNITS[unit].0 == expected && !IsFixed(raw)
  {
    hide IsFixed, Fixed, Scan, Render, IsQuantity, ParseText, CountsFit, Normalized;
    ScanReads(raw);
    ElectricalUnitIs(unit);
    LowerElectricalMeans(raw, unit, expected, q);
    if unit in ELECTRICAL_UNITS {
      var prefix := ELECTRICAL_UNITS[unit].1;
      QuantityRead(raw, prefix, expected, q);
      QuantitiesAreNotInvalid(raw, prefix, expected);
    }
  }

  /** The electrical units, their dimension and their power of ten. */
  const ELECTRICAL_UNITS: map<string, (Unit, int)> :=
    map["ohm" := (Ohm, 0), "kohm" := (Ohm, 3), "V" := (Volt, 0), "Hz" := (Hertz, 0), "kHz" := (Hertz, 3),
        "s" := (Second, 0), "ms" := (Second, -3), "us" := (Second, -6), "deg" := (Degree, 0),
        "ratio" := (Dimensionless, 0)]

  lemma ElectricalUnitIs(unit: string)
    ensures ElectricalUnit(unit) == if unit in ELECTRICAL_UNITS then Some(ELECTRICAL_UNITS[unit]) else None
  {
  }

  lemma QuantitiesAreNotInvalid(raw: string, prefix: int, unit: Unit)
    ensures LowerPrefixed(raw, prefix, unit) == Failure(InvalidLiteral) <==> Scan(raw).None?
    ensures LowerPrefixed(raw, prefix, unit) != Failure(UnsupportedUnit)
    ensures LowerPrefixed(raw, prefix, unit) != Failure(WrongDimension)
  {
    hide Scan;
  }

  lemma QuantityRead(raw: string, prefix: int, unit: Unit, q: Quantity)
    ensures IsQuantity(raw, prefix, unit, q) <==>
            && IsFixed(raw) && FixedFits(raw)
            && Normalized(Fixed(raw).coefficient, Fixed(raw).exponent + prefix, unit) == Success(q)
  {
    hide IsFixed, Fixed, Scan, Render, CountsFit, Normalized;
    ScanReads(raw);
    forall u: DecimalText ensures Scan(raw) == Some(u) <==> u.WellFormed() && raw == Render(u) {
      ScanInvertsRender(raw, u);
    }
    if IsFixed(raw) {
      var t := Scan(raw).value;
      assert prefix - |t.Fraction()| == Fixed(raw).exponent + prefix;
    }
  }

  lemma LowerPrefixedMeans(raw: string, prefix: int, unit: Unit, q: Quantity)
    requires -6 <= prefix <= 3
    ensures LowerPrefixed(raw, prefix, unit) == Success(q) <==> IsQuantity(raw, prefix, unit, q)
  {
    forall t: DecimalText ensures Scan(raw) == Some(t) <==> t.WellFormed() && raw == Render(t) {
      ScanInvertsRender(raw, t);
    }
    if Scan(raw).Some? {
      LowerQuantityMeans(prefix, unit, Scan(raw).value, q);
    }
  }

  lemma LowerQuantityMeans(prefix: int, unit: Unit, t: DecimalText, q: Quantity)
    requires -6 <= prefix <= 3
    ensures LowerQuantity(t, prefix, unit) == Success(q) <==> CountsFit(t) && DenotesQuantity(t, prefix, unit, q)
  {
    if Value(t.AllDigits()) != 0 {
      hide LowerQuantity, ParseText;
      NothingSignificant(t.AllDigits());
      var c, zeros := SignificantPart(t);
      ParsedText(t, c, zeros);
      SignificantPartHasTheValue(t.Signed(), c, zeros, prefix - |t.Fraction()|, unit);
      NonzeroQuantity(prefix, unit, t, c, zeros, q);
    } else {
      ZeroQuantity(prefix, unit, t, q);
    }
  }

  lemma ZeroQuantity(prefix: int, unit: Unit, t: DecimalText, q: Quantity)
    requires -6 <= prefix <= 3 && Value(t.AllDigits()) == 0
    ensures LowerQuantity(t, prefix, unit) == Success(q) <==> CountsFit(t) && DenotesQuantity(t, prefix, unit, q)
  {
    NothingSignificant(t.AllDigits());
  }

  lemma NonzeroQuantity(prefix: int, unit: Unit, t: DecimalText, c: int, zeros: nat, q: Quantity)
    requires -6 <= prefix <= 3 && c % 10 != 0
    requires CountsFit(t) ==> |t.Fraction()| <= I32_MAX && zeros <= I32_MAX
    requires ParseText(t) ==
             if UnsignedAbs(c) <= I128_MAX && CountsFit(t) then Success(ExactDecimal(c, |t.Fraction()| - zeros))
             else Failure(OutOfRange)
    ensures LowerQuantity(t, prefix, unit) == Success(q) <==>
            CountsFit(t) && Normalized(c, prefix - |t.Fraction()| + zeros, unit) == Success(q)
  {
    var e := prefix - |t.Fraction()| + zeros;
    if UnsignedAbs(c) > I128_MAX {
      TooBigToNormalize(c, e, unit);
    } else if CountsFit(t) {
      WrapOnlyHidesFailures(c, e, unit, q);
      assert LowerQuantity(t, prefix, unit) == NormalizeParsed(c, e, unit);
    }
  }

  lemma SignificantPartHasTheValue(signed: int, c: int, zeros: nat, e: int, unit: Unit)
    requires signed == Shift(c, zeros)
    ensures Normalized(signed, e, unit) == Normalized(c, e + zeros, unit)
  {
    assert SameValue(signed, e, c, e + zeros);
    EqualValuesNormalizeAlike(signed, e, c, e + zeros, unit);
  }

  lemma TooBigToNormalize(c: int, e: int, unit: Unit)
    requires c % 10 != 0 && UnsignedAbs(c) > I128_MAX
    ensures Normalized(c, e, unit).Failure?
  {
    if e > MAX_EXPONENT {
      ShiftGrows(c, e - MAX_EXPONENT);
    }
  }

  /** Exponents that leave 32 bits fail to normalise before and after wrap-around. */
  lemma WrapOnlyHidesFailures(c: I128, e: int, unit: Unit, q: Quantity)
    requires c % 10 != 0 && -0x8000_0000 - 6 <= e <= I32_MAX + 3
    ensures NormalizeParsed(c, e, unit) == Success(q) <==> Normalized(c, e, unit) == Success(q)
  {
    if e > I32_MAX {
      assert Wrap32(e) == e - 0x1_0000_0000;
      CheckedScale(c, e - MAX_EXPONENT);
    } else if e < -0x8000_0000 {
      assert Wrap32(e) == e + 0x1_0000_0000;
      CheckedScale(c, Wrap32(e) - MAX_EXPONENT);
    }
  }

  // --- The millimetre printer -------------------------------------------------

  /** Six digits, with leading zeros. */
  function SixDigits(n: nat): (ds: Digits)
    requires n < 1_000_000
    ensures |ds| == 6 && Value(ds) == n
  {
    assert Pow10(6) == 1_000_000;
    PrintFits(n, 6);
    var zeros: Digits := seq(6 - |Print(n)|, _ => 0);
    LeadingZeros(6 - |Print(n)|, Print(n));
    zeros + Print(n)
  }

  lemma PrintFits(n: nat, k: nat)
    requires k >= 1 && n < Pow10(k)
    ensures |Print(n)| <= k
  {
    if n > 0 {
      DigitCount(n);
      if k < |Print(n)| {
        Pow10Monotone(k, |Print(n)| - 1);
      }
    }
  }

  lemma {:induction false} LeadingZeros(k: nat, ds: Digits)
    ensures Value(seq(k, _ => 0) + ds) == Value(ds)
  {
    var all: Digits := seq(k, _ => 0) + ds;
    if k == 0 {
      assert all == ds;
    } else {
      ValueFront(all);
      ShiftZero(|all| - 1);
      assert all[1..] == seq(k - 1, _ => 0) + ds;
      LeadingZeros(k - 1, ds);
    }
  }

  /** Whole millimetres and the remaining nanometres, with no trailing zero after the point. */
  function MillimetreParts(negative: bool, integer: nat, remainder: nat): DecimalText
    requires remainder < 1_000_000
  {
    DecimalText(negative, Print(integer), if remainder == 0 then None else Some(TrimEnd(SixDigits(remainder))))
  }

  /** n nanometres as a literal in millimetres. */
  function MillimetreText(n: int): DecimalText {
    MillimetreParts(n < 0, UnsignedAbs(n) / 1_000_000, UnsignedAbs(n) % 1_000_000)
  }

  method Millimeters(nanometers: I64) returns (text: string)
    ensures text == Render(MillimetreText(nanometers))
  {
    var negative := nanometers < 0;
    var magnitude := UnsignedAbs(nanometers);
    var integer := magnitude / 1_000_000;
    var remainder := magnitude % 1_000_000;
    var sign := if negative then "-" else "";
    ghost var t := MillimetreParts(negative, integer, remainder);
    text := sign + DigitText(Print(integer));
    if remainder != 0 {
      var fraction := WithoutTrailingZeros(SixDigits(remainder));
      text := text + "." + DigitText(fraction);
    }
    RenderedParts(sign, t.whole, t.fractional, text);
  }

  lemma RenderedParts(sign: string, whole: Digits, fractional: Option<Digits>, text: string)
    requires text == sign + DigitText(whole) + PointAndFraction(fractional)
                  || (fractional.Some? && text == sign + DigitText(whole) + "." + DigitText(fractional.value))
    ensures text == sign + UnsignedText(whole, fractional)
  {
  }

  /** The loop that pops trailing zeros off the fraction. */
  method WithoutTrailingZeros(ds: Digits) returns (fraction: Digits)
    ensures fraction == TrimEnd(ds)
  {
    fraction := ds;
    while fraction != [] && fraction[|fraction| - 1] == 0
      invariant TrimEnd(fraction) == TrimEnd(ds)
      decreases |fraction|
    {
      fraction := fraction[..|fraction| - 1];
    }
  }

  /** The printed text denotes exactly the number printed. */
  lemma MillimetreTextDenotes(n: I64)
    ensures MillimetreText(n).WellFormed() && CountsFit(MillimetreText(n))
    ensures DenotesNanometres(MillimetreText(n), 6, n)
  {
    PartsDenote(n < 0, UnsignedAbs(n) / 1_000_000, UnsignedAbs(n) % 1_000_000);
  }

  /** What is printed reads as n millionths, with no zero that could be left away. */
  lemma MillimetreTextReads(n: I64)
    ensures var s := Render(MillimetreText(n));
            && IsFixed(s) && SameValue(Fixed(s).coefficient, Fixed(s).exponent, n, -6)
            && (Fixed(s).exponent < 0 ==> s[|s| - 1] != '0')
            && (n < 0 <==> s[0] == '-')
            && var digits := if n < 0 then s[1..] else s;
               |digits| > 1 && digits[0] == '0' ==> digits[1] == '.'
  {
    hide IsFixed, Fixed, Render, SameValue, MillimetreText, DenotesNanometres, DecimalText.Signed;
    MillimetreTextDenotes(n);
    var t := MillimetreText(n);
    RenderReads(t);
    MillimetresScaled(t, n);
    MillimetreDigits(n);
    NothingToLeaveAway(t);
  }

  lemma MillimetreDigits(n: I64)
    requires MillimetreText(n).WellFormed()
    ensures var t := MillimetreText(n);
            && (t.negative <==> n < 0) && Trimmed(t.whole)
            && (t.fractional.Some? ==> t.fractional.value[|t.fractional.value| - 1] != 0)
  {
    hide SixDigits, Print;
  }

  lemma MillimetresScaled(t: DecimalText, n: int)
    requires DenotesNanometres(t, 6, n)
    ensures SameValue(t.Signed(), 0 - |t.Fraction()|, n, -6)
  {
    SameValueScaled(t.Signed(), |t.Fraction()|, n);
  }

  lemma SameValueScaled(c: int, digits: nat, n: int)
    requires Shift(c, 6) == Shift(n, digits)
    ensures SameValue(c, 0 - digits, n, -6)
  {
    OrderAtAnyBase(c, 0 - digits, n, -6, 0 - digits - 6);
  }

  lemma NothingToLeaveAway(t: DecimalText)
    requires t.WellFormed() && Trimmed(t.whole)
    requires t.fractional.Some? ==> t.fractional.value[|t.fractional.value| - 1] != 0
    ensures var s := Render(t);
            && (t.fractional.Some? ==> s[|s| - 1] != '0') && (t.negative <==> s[0] == '-')
            && var digits := if t.negative then s[1..] else s;
               |digits| > 1 && digits[0] == '0' ==> digits[1] == '.'
  {
    UnsignedLeavesNothing(t.whole, t.fractional);
    hide UnsignedText;
    var s, digits := Render(t), UnsignedText(t.whole, t.fractional);
    assert t.negative ==> s[1..] == digits;
  }

  lemma UnsignedLeavesNothing(whole: Digits, fractional: Option<Digits>)
    requires Trimmed(whole) && (fractional.Some? ==> fractional.value != [])
    requires fractional.Some? ==> fractional.value[|fractional.value| - 1] != 0
    ensures var s := UnsignedText(whole, fractional);
            && s != [] && (fractional.Some? ==> s[|s| - 1] != '0') && s[0] != '-'
            && (|s| > 1 && s[0] == '0' ==> s[1] == '.')
  {
    var s := UnsignedText(whole, fractional);
    assert s[0] == DigitChar(whole[0]) && whole != [];
    if fractional.Some? {
      var f := fractional.value;
      assert s == DigitText(whole) + "." + DigitText(f);
      assert s[|s| - 1] == DigitText(f)[|f| - 1] == DigitChar(f[|f| - 1]);
    }
  }

  lemma PartsDenote(negative: bool, integer: nat, remainder: nat)
    requires integer < 10_000_000_000_000 && remainder < 1_000_000
    ensures var t := MillimetreParts(negative, integer, remainder);
            && t.WellFormed() && CountsFit(t)
            && DenotesNanometres(t, 6, WithSign(negative, integer * 1_000_000 + remainder))
  {
    var t := MillimetreParts(negative, integer, remainder);
    FractionOfAMillimetre(remainder, t.fractional);
    FewDigits(integer);
    TextDenotes(t, integer, remainder);
  }

  lemma TextDenotes(t: DecimalText, integer: nat, remainder: nat)
    requires t.whole != [] && |t.whole| <= 13 && Value(t.whole) == integer
    requires |t.Fraction()| <= 6 && Shift(Value(t.Fraction()), 6 - |t.Fraction()|) == remainder
    ensures CountsFit(t) && DenotesNanometres(t, 6, WithSign(t.negative, integer * 1_000_000 + remainder))
  {
    var n := |t.Fraction()|;
    WholeAndFraction(t.whole, t.Fraction(), remainder);
    ShiftNegates(Value(t.AllDigits()), 6 - n);
    ShiftSum(t.Signed(), 6 - n, n);
    TrimStartShortens(t.AllDigits());
  }

  lemma FewDigits(integer: nat)
    requires integer < 10_000_000_000_000
    ensures |Print(integer)| <= 13
  {
    assert Pow10(7) == 10_000_000;
    assert Pow10(6) == 1_000_000;
    Pow10Sum(7, 6);
    PrintFits(integer, 13);
  }

  lemma FractionOfAMillimetre(remainder: nat, fractional: Option<Digits>)
    requires remainder < 1_000_000
    requires fractional == if remainder == 0 then None else Some(TrimEnd(SixDigits(remainder)))
    ensures fractional.Some? ==> fractional.value != [] && |fractional.value| <= 6
    ensures Shift(if fractional.Some? then Value(fractional.value) else 0,
                  6 - if fractional.Some? then |fractional.value| else 0) == remainder
  {
    if remainder == 0 {
      ShiftZero(6);
    } else {
      var f := fractional.value;
      ZeroOnlyFromZero(Value(f), 6 - |f|);
    }
  }

  lemma WholeAndFraction(whole: Digits, f: Digits, remainder: nat)
    requires |f| <= 6 && Shift(Value(f), 6 - |f|) == remainder
    ensures Shift(Value(whole + f), 6 - |f|) == Value(whole) * 1_000_000 + remainder
  {
    var integer := Value(whole);
    ValueConcat(whole, f);
    ShiftIsProduct(integer, |f|);
    ShiftSum(integer, |f|, 6 - |f|);
    ShiftAdds(Shift(integer, |f|), Value(f), 6 - |f|);
    ShiftIsProduct(integer, 6);
    assert Pow10(6) == 1_000_000;
  }

  /** Printing in millimetres and reading back gives every coordinate of the envelope unchanged. */
  lemma LengthRoundTrip(n: int)
    requires -MAX_ABS_COORDINATE_NM <= n <= MAX_ABS_COORDINATE_NM
    ensures LowerLength(Render(MillimetreText(n)), "mm") == Success(n)
  {
    MillimetreTextDenotes(n);
    LowerLengthMeans(Render(MillimetreText(n)), "mm", n);
  }
}
