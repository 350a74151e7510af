/**
 Decimal numbers read from their characters.  Nothing here knows how such texts are
 printed or parsed elsewhere, so these readers say what a printed number means.
*/
module Reading {

  /** coefficient * 10^exponent */
  datatype Decimal = Decimal(coefficient: int, exponent: int)

  predicate IsNatural(s: string) {
    s != [] && forall i | 0 <= i < |s| :: 48 <= s[i] as int <= 57
  }

  function Natural(s: string): int {
    if s == [] then 0 else 10 * Natural(s[..|s| - 1]) + (s[|s| - 1] as int - 48)
  }

  predicate IsInteger(s: string) {
    if s != [] && s[0] == '-' then IsNatural(s[1..]) else IsNatural(s)
  }

  function Integer(s: string): int {
    if s != [] && s[0] == '-' then -Natural(s[1..]) else Natural(s)
  }

  /** The first place of the character, or the length. */
  function Place(s: string, c: char): (n: nat)
    ensures n <= |s| && (forall i | 0 <= i < n :: s[i] != c) && (n < |s| ==> s[n] == c)
  {
    if s == [] || s[0] == c then 0 else Place(s[1..], c) + 1
  }

  /** Digits, and more digits after a point. */
  predicate IsFixed(s: string) {
    var point := Place(s, '.');
    IsInteger(s[..point]) && (point < |s| ==> IsNatural(s[point + 1..]))
  }

  function Fixed(s: string): Decimal {
    var point := Place(s, '.');
    if point == |s| then Decimal(Integer(s), 0)
    else Decimal(Integer(s[..point] + s[point + 1..]), point + 1 - |s|)
  }

  /** An integer, and the power of ten after the letter. */
  predicate IsScientific(s: string) {
    var letter := Place(s, 'e');
    IsInteger(s[..letter]) && (letter < |s| ==> IsInteger(s[letter + 1..]))
  }

  function Scientific(s: string): Decimal {
    var letter := Place(s, 'e');
    if letter == |s| then Decimal(Integer(s), 0)
    else Decimal(Integer(s[..letter]), Integer(s[letter + 1..]))
  }

  /** The first place is found by what stands there and what does not stand before. */
  lemma {:induction false} PlaceIs(a: string, c: char, b: string)
    requires forall i | 0 <= i < |a| :: a[i] != c
    ensures Place(a + [c] + b, c) == |a|
  {
    var s := a + [c] + b;
    assert s[|a|] == c && forall i | 0 <= i < |a| :: s[i] == a[i];
  }
}
