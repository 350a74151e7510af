/**
 The decimal literals that SPICE netlists carry: a coefficient and an exponent that is
 a multiple of three.  A literal can be read in one way only, and that way it has the
 exact value of the quantity.
*/
module EngineeringNotation {
  import opened DecimalDigits
  import opened Quantities
  import opened Reading
  import opened Literals

  /** Coefficient and exponent; an exponent outside the envelope is left alone. */
  function EngineeringParts(q: Quantity): (int, int) {
    if !ExponentIsValid(q) then (q.coefficient, q.exponent)
    else
      var exponent := q.exponent / 3 * 3;
      (Shift(q.coefficient, q.exponent - exponent), exponent)
  }

  function SignedText(i: int): string {
    if i < 0 then "-" + DigitText(Print(-i)) else DigitText(Print(i))
  }

  /** The exponent is left out when it is zero. */
  function LiteralText(coefficient: int, exponent: int): string {
    if exponent == 0 then SignedText(coefficient) else SignedText(coefficient) + "e" + SignedText(exponent)
  }

  function SpiceLiteral(q: Quantity): string {
    var (coefficient, exponent) := EngineeringParts(q);
    LiteralText(coefficient, exponent)
  }

  /** The exponent is rounded down to a multiple of three, the value stays, and the coefficient fits 128 bits. */
  lemma EngineeringPartsAreExact(q: Quantity)
    ensures var (c, e) := EngineeringParts(q);
            && SameValue(c, e, q.coefficient, q.exponent)
            && I128_MIN <= c <= I128_MAX
            && (ExponentIsValid(q) ==> e % 3 == 0 && e <= q.exponent < e + 3)
  {
    var (c, e) := EngineeringParts(q);
    if ExponentIsValid(q) {
      var shift := q.exponent - e;
      assert 0 <= shift < 3;
      OrderAtAnyBase(c, e, q.coefficient, q.exponent, e);
      assert At(c, e, e) == c;
      SmallShift(q.coefficient, shift);
    }
  }

  lemma SmallShift(c: int, k: nat)
    requires k < 3
    ensures Shift(c, k) == (if k == 0 then c else if k == 1 then 10 * c else 100 * c)
  {
    assert Shift(c, 0) == c;
    assert k >= 1 ==> Shift(c, 1) == 10 * c;
  }

  // --- Reading ----------------------------------------------------------------

  lemma SignedTextReads(i: int)
    ensures IsInteger(SignedText(i)) && Integer(SignedText(i)) == i
    ensures forall k | 0 <= k < |SignedText(i)| :: SignedText(i)[k] != 'e'
  {
    hide IsNatural, Natural, Print;
    var digits := Print(if i < 0 then -i else i);
    DigitTextReads(digits);
    SignedReads(i < 0, DigitText(digits));
    assert AllAsciiDigits(DigitText(digits));
  }

  /** What is written is what its characters say. */
  lemma LiteralReads(coefficient: int, exponent: int)
    ensures IsScientific(LiteralText(coefficient, exponent))
    ensures Scientific(LiteralText(coefficient, exponent)) == Decimal(coefficient, exponent)
  {
    hide SignedText, IsInteger, Integer;
    var a, b := SignedText(coefficient), SignedText(exponent);
    SignedTextReads(coefficient);
    SignedTextReads(exponent);
    if exponent == 0 {
      assert a[..|a|] == a && Place(a, 'e') == |a|;
    } else {
      var s := a + "e" + b;
      PlaceIs(a, 'e', b);
      assert s[..|a|] == a && s[|a| + 1..] == b;
    }
  }

  /** No two pairs are written alike. */
  lemma ReadingIsUnique(c1: int, e1: int, c2: int, e2: int)
    requires LiteralText(c1, e1) == LiteralText(c2, e2)
    ensures c1 == c2 && e1 == e2
  {
    LiteralReads(c1, e1);
    LiteralReads(c2, e2);
  }

  /** An integer without needless zeros, and with a sign only where there is something to negate. */
  ghost predicate IsPlainInteger(s: string) {
    var digits := if s != [] && s[0] == '-' then s[1..] else s;
    digits != [] && (|digits| > 1 || s[0] == '-' ==> digits[0] != '0')
  }

  lemma SignedTextIsPlain(i: int)
    ensures IsPlainInteger(SignedText(i))
  {
    hide Print;
    var digits := Print(if i < 0 then -i else i);
    TrimmedZero(digits);
    assert DigitText(digits)[0] == DigitChar(digits[0]);
    assert i < 0 ==> SignedText(i)[1..] == DigitText(digits);
  }

  /** Nothing is written that could be left out. */
  lemma LiteralIsPlain(coefficient: int, exponent: int)
    ensures var s := LiteralText(coefficient, exponent);
            var letter := Place(s, 'e');
            && IsPlainInteger(s[..letter]) && (exponent == 0 <==> letter == |s|)
            && (letter < |s| ==> IsPlainInteger(s[letter + 1..]))
  {
    hide SignedText, IsPlainInteger;
    var a, b := SignedText(coefficient), SignedText(exponent);
    SignedTextReads(coefficient);
    SignedTextIsPlain(coefficient);
    SignedTextIsPlain(exponent);
    if exponent == 0 {
      assert a[..|a|] == a && Place(a, 'e') == |a|;
    } else {
      var s := a + "e" + b;
      PlaceIs(a, 'e', b);
      assert s[..|a|] == a && s[|a| + 1..] == b;
    }
  }

  /** Read from its characters, the literal has the quantity's value; its exponent is a multiple of three. */
  lemma SpiceLiteralIsExact(q: Quantity)
    ensures IsScientific(SpiceLiteral(q))
    ensures var read := Scientific(SpiceLiteral(q));
            && SameValue(read.coefficient, read.exponent, q.coefficient, q.exponent)
            && (-18 <= q.exponent <= 18 ==> read.exponent % 3 == 0 && read.exponent <= q.exponent < read.exponent + 3)
    ensures var s := SpiceLiteral(q);
            var letter := Place(s, 'e');
            && IsPlainInteger(s[..letter]) && (Scientific(s).exponent == 0 <==> letter == |s|)
            && (letter < |s| ==> IsPlainInteger(s[letter + 1..]))
  {
    hide IsScientific, Scientific, SameValue, LiteralText, EngineeringParts, IsPlainInteger;
    EngineeringPartsAreExact(q);
    LiteralIsPlain(EngineeringParts(q).0, EngineeringParts(q).1);
    LiteralReads(EngineeringParts(q).0, EngineeringParts(q).1);
  }

  /** Accepted quantities have the same literal exactly when they have the same value. */
  lemma LiteralsAgreeWithValues(p: Quantity, q: Quantity, unit: Unit)
    requires ExactQuantityIs(p, unit) && ExactQuantityIs(q, unit)
    ensures SpiceLiteral(p) == SpiceLiteral(q) <==> SameValue(p.coefficient, p.exponent, q.coefficient, q.exponent)
  {
    hide IsScientific, Scientific, SameValue;
    AcceptedQuantitiesEqualIffSameValue(p, q, unit);
    SpiceLiteralIsExact(p);
    SpiceLiteralIsExact(q);
    if SpiceLiteral(p) == SpiceLiteral(q) {
      var read := Scientific(SpiceLiteral(p));
      SameValueIsSymmetric(read.coefficient, read.exponent, p.coefficient, p.exponent);
      SameValueIsTransitive(p.coefficient, p.exponent, read.coefficient, read.exponent, q.coefficient, q.exponent);
    }
  }
}
