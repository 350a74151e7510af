/**
 Arbitrary-length decimal strings, most significant digit first, and the
 digit-by-digit arithmetic that the design checks run on them.

 `Value` gives a digit string its number.  Every operation below is specified by
 `Value` alone, so nothing in a contract repeats how the digits are produced.
 */
module DecimalDigits {
  import opened Wrappers

  type Digit = d: int | 0 <= d < 10

  type Digits = seq<Digit>

  const U32_MAX: int := 0xFFFF_FFFF

  datatype Ordering = Less | Equal | Greater

  /** The order of two integers, as the value a comparison reports. */
  function Order(a: int, b: int): Ordering {
    if a < b then Less else if a == b then Equal else Greater
  }

  function Pow10(n: nat): (p: nat)
    ensures p >= 1
  {
    if n == 0 then 1 else 10 * Pow10(n - 1)
  }

  /** c * 10^k, one decade at a time. */
  function Shift(c: int, k: nat): int {
    if k == 0 then c else 10 * Shift(c, k - 1)
  }

  lemma {:induction false} ShiftIsProduct(c: int, k: nat)
    ensures Shift(c, k) == c * Pow10(k)
  {
    if k > 0 {
      ShiftIsProduct(c, k - 1);
      TimesTen(c, Pow10(k - 1));
    }
  }

  lemma {:induction false} ShiftZero(k: nat)
    ensures Shift(0, k) == 0
  {
    if k > 0 {
      ShiftZero(k - 1);
    }
  }

  lemma {:induction false} ShiftSum(c: int, a: nat, b: nat)
    ensures Shift(c, a + b) == Shift(Shift(c, a), b)
  {
    if b > 0 {
      ShiftSum(c, a, b - 1);
    }
  }

  lemma {:induction false} ShiftAdds(a: int, b: int, k: nat)
    ensures Shift(a + b, k) == Shift(a, k) + Shift(b, k)
  {
    if k > 0 {
      ShiftAdds(a, b, k - 1);
    }
  }

  lemma {:induction false} ShiftMultiplies(a: int, m: int, k: nat)
    ensures Shift(a * m, k) == Shift(a, k) * m
  {
    if k > 0 {
      ShiftMultiplies(a, m, k - 1);
      TimesTen(Shift(a, k - 1), m);
      Rotate(10, Shift(a, k - 1), m);
    }
  }

  lemma {:induction false} ShiftTen(a: int, k: nat)
    ensures Shift(10 * a, k) == Shift(a, k + 1)
  {
    if k > 0 {
      ShiftTen(a, k - 1);
    }
  }

  lemma {:induction false} ShiftKeepsOrder(a: int, b: int, k: nat)
    ensures Order(Shift(a, k), Shift(b, k)) == Order(a, b)
  {
    if k > 0 {
      ShiftKeepsOrder(a, b, k - 1);
    }
  }

  function Value(ds: Digits): (v: nat) {
    if ds == [] then 0 else 10 * Value(ds[..|ds| - 1]) + ds[|ds| - 1]
  }

  lemma {:induction false} Pow10Sum(a: nat, b: nat)
    ensures Pow10(a + b) == Pow10(a) * Pow10(b)
  {
    if a == 0 {
    } else {
      Pow10Sum(a - 1, b);
      assert Pow10(a + b) == 10 * Pow10(a - 1 + b);
    }
  }

  lemma {:induction false} Pow10Monotone(a: nat, b: nat)
    requires a <= b
    ensures Pow10(a) <= Pow10(b)
    ensures a < b ==> 10 * Pow10(a) <= Pow10(b)
  {
    if a < b {
      Pow10Monotone(a, b - 1);
    }
  }

  lemma {:induction false} ValueConcat(a: Digits, b: Digits)
    ensures Value(a + b) == Value(a) * Pow10(|b|) + Value(b)
  {
    if b == [] {
      assert a + b == a;
    } else {
      var rest := b[..|b| - 1];
      var last := b[|b| - 1];
      assert (a + b)[..|a + b| - 1] == a + rest;
      calc {
        Value(a + b);
        10 * Value(a + rest) + last;
        { ValueConcat(a, rest); }
        10 * (Value(a) * Pow10(|rest|) + Value(rest)) + last;
        { TimesTen(Value(a), Pow10(|rest|)); }
        Value(a) * Pow10(|b|) + Value(b);
      }
    }
  }

  lemma TimesTen(a: int, p: int)
    ensures 10 * (a * p) == a * (10 * p)
  {
  }

  /** A string of n digits lies below 10^n, and from 10^(n-1) on if it has no leading zero. */
  lemma {:induction false} ValueBounds(ds: Digits)
    ensures Value(ds) < Pow10(|ds|)
    ensures ds != [] && ds[0] != 0 ==> Pow10(|ds| - 1) <= Value(ds)
  {
    if ds == [] {
    } else if |ds| == 1 {
      assert ds[..0] == [];
    } else {
      ValueBounds(ds[..|ds| - 1]);
    }
  }

  /** Appending n zeros multiplies by 10^n. */
  lemma {:induction false} ValueShift(ds: Digits, n: nat)
    ensures Value(ds + seq(n, _ => 0)) == Shift(Value(ds), n)
  {
    var zeros: Digits := seq(n, _ => 0);
    if n == 0 {
      assert ds + zeros == ds;
    } else {
      ValueShift(ds, n - 1);
      assert (ds + zeros)[..|ds| + n - 1] == ds + seq(n - 1, _ => 0);
    }
  }

  lemma {:induction false} ValueFront(ds: Digits)
    requires ds != []
    ensures Value(ds) == Shift(ds[0], |ds| - 1) + Value(ds[1..])
  {
    var n := |ds| - 1;
    if n == 0 {
      assert ds[..0] == [];
    } else {
      ValueFront(ds[..n]);
      assert ds[1..][..n - 1] == ds[..n][1..];
    }
  }

  /** The digit strings that `u64::to_string` prints: no leading zero except in "0". */
  ghost predicate Trimmed(ds: Digits) {
    ds == [0] || (ds != [] && ds[0] != 0)
  }

  /** Decimal printing of a natural number. */
  function Print(n: nat): (ds: Digits)
    ensures Value(ds) == n
    ensures Trimmed(ds)
    decreases n
  {
    if n < 10 then
      assert [n][..0] == [];
      [n]
    else
      var front := Print(n / 10);
      assert (front + [n % 10])[..|front|] == front;
      front + [n % 10]
  }

  /** Removes leading zeros, leaving "0" for zero. */
  function WithoutLeadingZeroes(ds: Digits): (r: Digits)
    ensures Value(r) == Value(ds)
    ensures Trimmed(r)
    ensures |ds| > 0 ==> |r| <= |ds|
  {
    if ds == [] then
      assert [0][..0] == [];
      [0]
    else if ds[0] == 0 then
      ValueFront(ds);
      ShiftZero(|ds| - 1);
      WithoutLeadingZeroes(ds[1..])
    else
      ds
  }

  lemma TrimmedZero(ds: Digits)
    requires Trimmed(ds)
    ensures ds == [0] <==> Value(ds) == 0
  {
    ValueBounds(ds);
    assert [0][..0] == [];
  }

  /** Byte-wise comparison of two strings of equal length. */
  function CompareBytes(a: Digits, b: Digits): (o: Ordering)
    requires |a| == |b|
    ensures o == Order(Value(a), Value(b))
  {
    if a == [] then Equal
    else
      ValueFront(a);
      ValueFront(b);
      ValueBounds(a[1..]);
      ValueBounds(b[1..]);
      LeadingDigit(a[0], Value(a[1..]), b[0], Value(b[1..]), |a| - 1);
      if a[0] != b[0] then Order(a[0], b[0]) else CompareBytes(a[1..], b[1..])
  }

  lemma MultiplyMonotone(a: int, b: int, p: int)
    requires a <= b && 0 <= p
    ensures a * p <= b * p
  {
    assert (b - a) * p >= 0;
    assert (b - a) * p == b * p - a * p;
  }

  lemma {:induction false} LeadingDigit(a: int, low: int, b: int, high: int, k: nat)
    requires 0 <= low < Pow10(k) && 0 <= high < Pow10(k)
    ensures a < b ==> Shift(a, k) + low < Shift(b, k) + high
    ensures b < a ==> Shift(b, k) + high < Shift(a, k) + low
  {
    ShiftIsProduct(1, k);
    ShiftAdds(a, b - a, k);
    ShiftAdds(b, a - b, k);
    if a < b {
      ShiftMonotone(1, b - a, k);
    } else if b < a {
      ShiftMonotone(1, a - b, k);
    }
  }

  lemma ShiftMonotone(a: int, b: int, k: nat)
    requires a <= b
    ensures Shift(a, k) <= Shift(b, k)
  {
    ShiftKeepsOrder(a, b, k);
  }

  /** Comparison by length, then by bytes, after trimming: it is numeric comparison. */
  function Compare(left: Digits, right: Digits): (o: Ordering)
    ensures o == Order(Value(left), Value(right))
  {
    var a := WithoutLeadingZeroes(left);
    var b := WithoutLeadingZeroes(right);
    if |a| < |b| then LengthDecides(a, b); Less
    else if |a| > |b| then LengthDecides(b, a); Greater
    else CompareBytes(a, b)
  }

  lemma LengthDecides(a: Digits, b: Digits)
    requires Trimmed(a) && Trimmed(b) && |a| < |b|
    ensures Value(a) < Value(b)
  {
    ValueBounds(a);
    ValueBounds(b);
    Pow10Monotone(|a|, |b| - 1);
  }

  // --- Digit loops ------------------------------------------------------------

  /** `Vec::reverse`. */
  function Reverse(ds: Digits): (r: Digits)
    ensures |r| == |ds|
  {
    if ds == [] then [] else [ds[|ds| - 1]] + Reverse(ds[..|ds| - 1])
  }

  /** The number held by a vector that is filled from its least significant digit. */
  ghost function Pushed(ds: Digits): (v: nat) {
    Value(Reverse(ds))
  }

  lemma PushDigit(ds: Digits, d: Digit)
    ensures Pushed(ds + [d]) == Pushed(ds) + Shift(d, |ds|)
  {
    assert (ds + [d])[..|ds|] == ds;
    ValueFront([d] + Reverse(ds));
    assert ([d] + Reverse(ds))[1..] == Reverse(ds);
  }

  /** Moving one digit out of a carry keeps the total. */
  lemma CarryStep(digit: int, carry: int, k: nat)
    ensures Shift(digit, k) + Shift(carry, k + 1) == Shift(10 * carry + digit, k)
  {
    ShiftAdds(10 * carry, digit, k);
    ShiftTen(carry, k);
  }

  /**
   Schoolbook multiplication of a digit string by a 32-bit factor.  The running
   product and its carry stay within 64 bits.
  */
  method Multiply(value: Digits, multiplier: int) returns (r: Digits)
    requires 0 <= multiplier <= U32_MAX
    ensures Value(r) == Value(value) * multiplier
    ensures r != []
  {
    if multiplier == 0 || WithoutLeadingZeroes(value) == [0] {
      TrimmedZero(WithoutLeadingZeroes(value));
      assert [0][..0] == [];
      return [0];
    }
    var carry := 0;
    var result: Digits := [];
    var index := |value|;
    while index > 0
      invariant 0 <= index <= |value|
      invariant |result| == |value| - index
      invariant 0 <= carry <= multiplier
      invariant Pushed(result) + Shift(carry, |result|) == Value(value[index..]) * multiplier
    {
      var digit := value[index - 1];
      MultiplyMonotone(0, digit, multiplier);
      MultiplyMonotone(digit, 9, multiplier);
      var product := digit * multiplier + carry;
      assert 0 <= product <= 10 * multiplier < 0x1_0000_0000_0000_0000;
      MultiplyStep(value, multiplier, index, result, carry, product % 10, product / 10);
      result := result + [product % 10];
      carry := product / 10;
      index := index - 1;
    }
    assert value[0..] == value;
    while carry > 0
      invariant 0 <= carry
      invariant |result| >= |value|
      invariant Pushed(result) + Shift(carry, |result|) == Value(value) * multiplier
      decreases carry
    {
      PushDigit(result, carry % 10);
      CarryStep(carry % 10, carry / 10, |result|);
      result := result + [carry % 10];
      carry := carry / 10;
    }
    ShiftZero(|result|);
    r := Reverse(result);
  }

  lemma MultiplyStep(value: Digits, multiplier: int, index: int, result: Digits, carry: int,
                     low: Digit, high: int)
    requires 0 < index <= |value| && |result| == |value| - index
    requires 10 * high + low == value[index - 1] * multiplier + carry
    requires Pushed(result) + Shift(carry, |result|) == Value(value[index..]) * multiplier
    ensures Pushed(result + [low]) + Shift(high, |result| + 1)
         == Value(value[index - 1..]) * multiplier
  {
    var tail := value[index - 1..];
    assert tail[1..] == value[index..];
    ValueFront(tail);
    PushDigit(result, low);
    CarryStep(low, high, |result|);
    ShiftAdds(value[index - 1] * multiplier, carry, |result|);
    ShiftMultiplies(value[index - 1], multiplier, |result|);
    Distribute(Shift(value[index - 1], |result|), Value(value[index..]), multiplier);
  }

  lemma Distribute(a: int, b: int, p: int)
    ensures (a + b) * p == a * p + b * p
  {
  }

  lemma Rotate(a: int, b: int, c: int)
    ensures a * b * c == a * c * b
  {
  }

  /** Borrow subtraction: fails exactly when the difference would be negative. */
  method Subtract(left: Digits, right: Digits) returns (r: Option<Digits>)
    ensures r.None? <==> Value(left) < Value(right)
    ensures r.Some? ==> Value(r.value) == Value(left) - Value(right) && Trimmed(r.value)
  {
    if Compare(left, right) == Less {
      return None;
    }
    var a := WithoutLeadingZeroes(left);
    var b := WithoutLeadingZeroes(right);
    assert |a| >= |b|;
    var borrow := 0;
    var result: Digits := [];
    var offset := 0;
    while offset < |a|
      invariant 0 <= offset <= |a|
      invariant 0 <= borrow <= 1
      invariant |result| == offset
      invariant Pushed(result) - Shift(borrow, offset) == Value(a[|a| - offset..]) - Value(Low(b, offset))
    {
      hide Value, Pushed, Shift, Low;
      var leftDigit: int := (a[|a| - 1 - offset] as int) - borrow;
      var rightDigit := if offset < |b| then b[|b| - 1 - offset] else 0;
      var digit: int, nextBorrow := leftDigit - rightDigit, 0;
      if leftDigit < rightDigit {
        digit, nextBorrow := leftDigit + 10 - rightDigit, 1;
      }
      SubtractStep(a, b, offset, result, borrow, digit, nextBorrow);
      result := result + [digit];
      borrow := nextBorrow;
      offset := offset + 1;
    }
    assert a[0..] == a && Low(b, |a|) == b;
    NoBorrowRemains(Reverse(result), borrow, Value(a), Value(b));
    ShiftZero(|a|);
    if borrow != 0 {
      return None;
    }
    r := Some(WithoutLeadingZeroes(Reverse(result)));
  }

  lemma NoBorrowRemains(ds: Digits, borrow: int, a: int, b: int)
    requires 0 <= borrow <= 1 && a >= b
    requires Value(ds) - Shift(borrow, |ds|) == a - b
    ensures borrow == 0
  {
    ShiftIsProduct(borrow, |ds|);
    ValueBounds(ds);
  }

  /** The last n digits, or all of them. */
  function Low(ds: Digits, n: nat): Digits {
    if n < |ds| then ds[|ds| - n..] else ds
  }

  lemma SubtractStep(a: Digits, b: Digits, offset: int, result: Digits, borrow: int, digit: Digit, nextBorrow: int)
    requires 0 <= offset < |a| && |b| <= |a| && |result| == offset
    requires Pushed(result) - Shift(borrow, offset) == Value(a[|a| - offset..]) - Value(Low(b, offset))
    requires digit - 10 * nextBorrow
          == a[|a| - 1 - offset] - borrow - (if offset < |b| then b[|b| - 1 - offset] else 0)
    ensures Pushed(result + [digit]) - Shift(nextBorrow, offset + 1)
         == Value(a[|a| - (offset + 1)..]) - Value(Low(b, offset + 1))
  {
    var x := a[|a| - 1 - offset];
    var y := if offset < |b| then b[|b| - 1 - offset] else 0;
    assert Pushed(result + [digit]) == Pushed(result) + Shift(digit, offset) by {
      PushDigit(result, digit);
    }
    assert Value(a[|a| - (offset + 1)..]) == Value(a[|a| - offset..]) + Shift(x, offset) by {
      LowStep(a, offset);
      LowIsTail(a, offset);
      LowIsTail(a, offset + 1);
    }
    assert Value(Low(b, offset + 1)) == Value(Low(b, offset)) + Shift(y, offset) by {
      LowStep(b, offset);
    }
    hide Value, Pushed, Shift, Low;
    BorrowStep(x, y, borrow, digit, nextBorrow, offset);
  }

  lemma BorrowStep(x: int, y: int, borrow: int, digit: int, nextBorrow: int, k: nat)
    requires digit - 10 * nextBorrow == x - borrow - y
    ensures Shift(digit, k) - Shift(nextBorrow, k + 1) == Shift(x, k) - Shift(borrow, k) - Shift(y, k)
  {
    CarryStep(digit, -nextBorrow, k);
    ShiftNegates(nextBorrow, k + 1);
    ShiftAdds(x - borrow - y, y, k);
    ShiftAdds(x - borrow, borrow, k);
  }

  lemma {:induction false} ShiftNegates(c: int, k: nat)
    ensures Shift(-c, k) == -Shift(c, k)
  {
    if k > 0 {
      ShiftNegates(c, k - 1);
    }
  }

  lemma LowIsTail(ds: Digits, n: nat)
    requires n <= |ds|
    ensures Low(ds, n) == ds[|ds| - n..]
  {
  }

  lemma LowStep(ds: Digits, n: nat)
    ensures Value(Low(ds, n + 1)) == Value(Low(ds, n)) + Shift(if n < |ds| then ds[|ds| - 1 - n] else 0, n)
  {
    if n < |ds| {
      var tail := Low(ds, n + 1);
      ValueFront(tail);
      assert tail[1..] == Low(ds, n);
    } else {
      ShiftZero(n);
    }
  }

  /** How often d goes into n, if it does so without remainder. */
  function WholeQuotient(n: nat, d: nat): Option<nat>
    requires d > 0
  {
    if n == 0 then Some(0)
    else if n < d then None
    else
      match WholeQuotient(n - d, d)
      case Some(q) => Some(q + 1)
      case None => None
  }

  lemma {:induction false} WholeQuotientMeans(n: nat, d: nat, k: int)
    requires d > 0
    ensures WholeQuotient(n, d) == Some(k) <==> 0 <= k && n == k * d
  {
    if n == 0 {
      if k != 0 && 0 <= k {
        MultiplyMonotone(1, k, d);
      }
    } else if n < d {
      if 1 <= k {
        MultiplyMonotone(1, k, d);
      }
    } else {
      WholeQuotientMeans(n - d, d, k - 1);
      Distribute(k, -1, d);
    }
  }

  /** n / d when it is whole and fits 32 bits. */
  function ExactQuotient(n: nat, d: nat): Option<int> {
    if d == 0 then None
    else
      match WholeQuotient(n, d)
      case Some(q) => if q <= U32_MAX then Some(q) else None
      case None => None
  }

  lemma ExactQuotientMeans(n: nat, d: nat, k: int)
    ensures ExactQuotient(n, d) == Some(k) <==> 0 <= k <= 0xFFFF_FFFF && d > 0 && n == k * d
  {
    if d > 0 {
      WholeQuotientMeans(n, d, k);
    }
  }

  /** Brings down one digit and finds the next digit of the quotient by repeated subtraction. */
  method DivideNext(remainder: Digits, digit: Digit, divisor: Digits)
    returns (quotientDigit: nat, next: Digits)
    requires Trimmed(remainder) && Value(divisor) > 0
    ensures Trimmed(next) && Value(next) < Value(divisor)
    ensures quotientDigit * Value(divisor) + Value(next) == 10 * Value(remainder) + digit
  {
    next := remainder;
    TrimmedZero(remainder);
    if next == [0] {
      next := [];
    }
    assert (next + [digit])[..|next|] == next;
    next := WithoutLeadingZeroes(next + [digit]);
    quotientDigit := 0;
    while Compare(next, divisor) != Less
      invariant Trimmed(next)
      invariant quotientDigit * Value(divisor) + Value(next) == 10 * Value(remainder) + digit
      decreases Value(next)
    {
      var difference := Subtract(next, divisor);
      Distribute(quotientDigit, 1, Value(divisor));
      next := difference.value;
      quotientDigit := quotientDigit + 1;
    }
  }

  /**
   Long division.  It answers exactly when the dividend is a multiple of a
   non-zero divisor and the multiple fits 32 bits: giving up on an intermediate
   quotient never loses a result.
  */
  method ExactQuotientU32(dividend: Digits, divisor: Digits) returns (r: Option<int>)
    ensures r == ExactQuotient(Value(dividend), Value(divisor))
  {
    var denominator := WithoutLeadingZeroes(divisor);
    TrimmedZero(denominator);
    if denominator == [0] {
      return None;
    }
    ghost var d := Value(denominator);
    var digits := WithoutLeadingZeroes(dividend);
    var remainder: Digits := [0];
    assert [0][..0] == [];
    var quotient := 0;
    for index := 0 to |digits|
      invariant 0 <= quotient <= U32_MAX
      invariant Trimmed(remainder) && Value(remainder) < d
      invariant Value(digits[..index]) == quotient * d + Value(remainder)
    {
      ghost var before := Value(remainder);
      var quotientDigit;
      quotientDigit, remainder := DivideNext(remainder, digits[index], denominator);
      var next := 10 * quotient + quotientDigit;
      assert digits[..index + 1][..index] == digits[..index];
      NextQuotient(Value(digits[..index]), quotient, before, digits[index], quotientDigit, Value(remainder), d);
      if quotient * 10 > U32_MAX || quotient * 10 + quotientDigit > U32_MAX {
        PrefixQuotientIsALowerBound(digits, index + 1, next, d);
        return None;
      }
      quotient := next;
    }
    assert digits[..|digits|] == digits;
    QuotientAndRemainder(Value(digits), d, quotient, Value(remainder));
    TrimmedZero(WithoutLeadingZeroes(remainder));
    r := if WithoutLeadingZeroes(remainder) == [0] then Some(quotient) else None;
  }

  lemma QuotientAndRemainder(n: nat, d: nat, quotient: nat, remainder: nat)
    requires d > 0 && quotient <= U32_MAX && remainder < d && n == quotient * d + remainder
    ensures ExactQuotient(n, d) == if remainder == 0 then Some(quotient) else None
  {
    ExactQuotientMeans(n, d, quotient);
    if ExactQuotient(n, d).Some? {
      var k := ExactQuotient(n, d).value;
      ExactQuotientMeans(n, d, k);
      RemainderIsZero(k, quotient, d, remainder);
    }
  }

  lemma NextQuotient(prefix: int, quotient: int, before: int, digit: int, quotientDigit: int, after: int, d: int)
    requires prefix == quotient * d + before
    requires quotientDigit * d + after == 10 * before + digit
    ensures 10 * prefix + digit == (10 * quotient + quotientDigit) * d + after
  {
    Distribute(10 * quotient, quotientDigit, d);
  }

  lemma RemainderIsZero(k: nat, quotient: nat, d: nat, remainder: nat)
    requires remainder < d && k * d == quotient * d + remainder
    ensures remainder == 0
  {
    if k < quotient {
      MultiplyMonotone(k, quotient, d);
    } else if quotient < k {
      MultiplyMonotone(quotient + 1, k, d);
    }
  }

  /** The quotient of a prefix never exceeds an exact quotient of the whole string. */
  lemma PrefixQuotientIsALowerBound(digits: Digits, index: nat, quotient: nat, d: nat)
    requires index <= |digits| && d > 0
    requires quotient > U32_MAX && quotient * d <= Value(digits[..index])
    ensures ExactQuotient(Value(digits), d) == None
  {
    assert digits == digits[..index] + digits[index..];
    ValueConcat(digits[..index], digits[index..]);
    GrowsByFactor(Value(digits[..index]), Pow10(|digits| - index), Value(digits[index..]));
    var n := Value(digits);
    if ExactQuotient(n, d).Some? {
      var k := ExactQuotient(n, d).value;
      ExactQuotientMeans(n, d, k);
      MultiplyMonotone(k + 1, quotient, d);
      Distribute(k, 1, d);
    }
  }

  lemma GrowsByFactor(prefix: nat, p: nat, rest: nat)
    requires p >= 1
    ensures prefix * p + rest >= prefix
  {
    MultiplyMonotone(1, p, prefix);
  }
}
