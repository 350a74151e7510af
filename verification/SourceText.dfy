/**
 Positions in a source file.  The line starts are indexed once; a lookup must agree
 with counting lines and characters from the beginning of the text.
*/
module SourceText {

  type Byte = b: int | 0 <= b < 256

  const LINE_FEED: Byte := 0x0A

  /** A byte inside an encoded character. */
  predicate IsContinuation(b: Byte) {
    0x80 <= b < 0xC0
  }

  /** How many bytes the character takes that starts with this byte; 0 if none does. */
  function EncodedLength(lead: Byte): nat {
    if lead < 0x80 then 1
    else if lead < 0xC0 then 0
    else if lead < 0xE0 then 2
    else if lead < 0xF0 then 3
    else if lead < 0xF8 then 4
    else 0
  }

  predicate CharacterFirst(text: seq<Byte>) {
    && text != [] && 0 < EncodedLength(text[0]) <= |text|
    && forall i | 1 <= i < EncodedLength(text[0]) :: IsContinuation(text[i])
  }

  /** A text is a sequence of encoded characters. */
  predicate Encoded(text: seq<Byte>) {
    text == [] || (CharacterFirst(text) && Encoded(text[EncodedLength(text[0])..]))
  }

  function CharacterCount(text: seq<Byte>): nat
    requires Encoded(text)
  {
    if text == [] then 0 else 1 + CharacterCount(text[EncodedLength(text[0])..])
  }

  predicate IsBoundary(text: seq<Byte>, i: nat)
    requires i <= |text|
  {
    i == 0 || i == |text| || !IsContinuation(text[i])
  }

  // --- Boundaries -------------------------------------------------------------

  lemma CharacterInFront(text: seq<Byte>, i: nat)
    requires CharacterFirst(text) && EncodedLength(text[0]) <= i <= |text|
    requires Encoded(text[EncodedLength(text[0])..i])
    ensures Encoded(text[..i])
    ensures CharacterCount(text[..i]) == 1 + CharacterCount(text[EncodedLength(text[0])..i])
  {
    hide EncodedLength;
    var head := text[..i];
    assert head[0] == text[0] && head[EncodedLength(text[0])..] == text[EncodedLength(text[0])..i];
    assert CharacterFirst(head);
  }

  /** Boundaries cut an encoded text into encoded texts. */
  lemma {:induction false} CutAtBoundary(text: seq<Byte>, i: nat)
    requires Encoded(text) && i <= |text| && IsBoundary(text, i)
    ensures Encoded(text[..i]) && Encoded(text[i..])
    ensures CharacterCount(text[..i]) + CharacterCount(text[i..]) == CharacterCount(text)
  {
    if i == 0 {
      assert text[0..] == text;
    } else {
      hide EncodedLength;
      var n := EncodedLength(text[0]);
      if i == |text| {
        assert text[..i] == text;
      } else {
        assert n <= i;
        var rest := text[n..];
        assert rest[i - n] == text[i];
        CutAtBoundary(rest, i - n);
        assert rest[..i - n] == text[n..i] && rest[i - n..] == text[i..];
        CharacterInFront(text, i);
      }
    }
  }

  /** A line start is a boundary: no character continues after a line feed. */
  lemma {:induction false} LineStartsAreBoundaries(text: seq<Byte>, i: nat)
    requires Encoded(text) && i < |text| && text[i] == LINE_FEED
    ensures IsBoundary(text, i + 1)
  {
    var n := EncodedLength(text[0]);
    if i < n {
      assert i == 0 && n == 1;
      if |text| > 1 {
        assert CharacterFirst(text[1..]) && text[1..][0] == text[1];
      }
    } else {
      LineStartsAreBoundaries(text[n..], i - n);
      if i + 1 < |text| && i == n - 1 + 1 {
        assert text[n..][i - n + 1] == text[i + 1];
      }
      assert i + 1 < |text| ==> text[n..][i + 1 - n] == text[i + 1];
    }
  }

  /** The characters that start in text[from..to]. */
  function Starts(text: seq<Byte>, from: nat, to: nat): nat
    requires from <= to <= |text|
  {
    if from == to then 0 else Starts(text, from, to - 1) + (if IsContinuation(text[to - 1]) then 0 else 1)
  }

  lemma {:induction false} StartsSplit(text: seq<Byte>, from: nat, middle: nat, to: nat)
    requires from <= middle <= to <= |text|
    ensures Starts(text, from, to) == Starts(text, from, middle) + Starts(text, middle, to)
  {
    if middle < to {
      StartsSplit(text, from, middle, to - 1);
    }
  }

  lemma {:induction false} StartsInside(text: seq<Byte>, from: nat, to: nat)
    requires from <= to <= |text|
    ensures Starts(text, from, to) == Starts(text[from..], 0, to - from)
  {
    if from < to {
      StartsInside(text, from, to - 1);
      assert text[from..][to - from - 1] == text[to - 1];
    }
  }

  /** Counting characters is counting the bytes that start one. */
  lemma {:induction false} CountIsStarts(text: seq<Byte>)
    requires Encoded(text)
    ensures CharacterCount(text) == Starts(text, 0, |text|)
  {
    if text != [] {
      var n := EncodedLength(text[0]);
      CountIsStarts(text[n..]);
      StartsInside(text, n, |text|);
      StartsSplit(text, 0, n, |text|);
      OneStart(text, n);
    }
  }

  lemma {:induction false} OneStart(text: seq<Byte>, n: nat)
    requires 1 <= n <= |text| && !IsContinuation(text[0]) && forall i | 1 <= i < n :: IsContinuation(text[i])
    ensures Starts(text, 0, n) == 1
  {
    if n > 1 {
      OneStart(text, n - 1);
    } else {
      assert Starts(text, 0, 0) == 0;
    }
  }

  // --- The naive position -----------------------------------------------------

  datatype Position = Position(line: nat, column: nat)

  /** Walks the text: a line feed starts a new line, every other start of a character moves one column on. */
  function Walk(text: seq<Byte>, offset: nat): Position
    requires offset <= |text|
  {
    if offset == 0 then Position(1, 1)
    else
      var before := Walk(text, offset - 1);
      var b := text[offset - 1];
      if b == LINE_FEED then Position(before.line + 1, 1)
      else if IsContinuation(b) then before
      else Position(before.line, before.column + 1)
  }

  /** The nearest boundary at or before an offset, or the end of the text. */
  function RoundDown(text: seq<Byte>, offset: nat): (r: nat)
    ensures IsRoundedDown(text, offset, r)
  {
    if offset >= |text| then |text|
    else if IsBoundary(text, offset) then offset
    else RoundDown(text, offset - 1)
  }

  /** `r` is a boundary at or before `offset`, and there is none in between. */
  ghost predicate IsRoundedDown(text: seq<Byte>, offset: nat, r: nat) {
    && r <= offset && r <= |text| && IsBoundary(text, r)
    && forall b | r < b <= offset && b <= |text| :: !IsBoundary(text, b)
  }

  /** No line feed lies between the start of a line and a place in it. */
  ghost predicate IsLineStart(text: seq<Byte>, s: nat, r: nat) {
    && s <= r <= |text| && (s == 0 || text[s - 1] == 0x0A)
    && forall k | s <= k < r :: text[k] != 0x0A
  }

  /** The walk counts line feeds, and characters since the last one. */
  lemma {:induction false} WalkCounts(text: seq<Byte>, r: nat)
    requires r <= |text|
    ensures Walk(text, r).line == 1 + multiset(text[..r])[0x0A]
    ensures forall s: nat | IsLineStart(text, s, r) :: Walk(text, r).column == 1 + Starts(text, s, r)
  {
    if r > 0 {
      WalkCounts(text, r - 1);
      assert text[..r] == text[..r - 1] + [text[r - 1]];
      forall s: nat | IsLineStart(text, s, r) ensures Walk(text, r).column == 1 + Starts(text, s, r) {
        assert s < r ==> IsLineStart(text, s, r - 1);
      }
    }
  }

  // --- Characters and their bytes ----------------------------------------------

  /** The bytes of a character in UTF-8 (section 3 of RFC 3629). */
  function Utf8(c: char): seq<Byte> {
    var u := c as int;
    if u < 0x80 then [u]
    else if u < 0x800 then [0xC0 + u / 0x40, 0x80 + u % 0x40]
    else if u < 0x1_0000 then [0xE0 + u / 0x1000, 0x80 + u / 0x40 % 0x40, 0x80 + u % 0x40]
    else [0xF0 + u / 0x4_0000, 0x80 + u / 0x1000 % 0x40, 0x80 + u / 0x40 % 0x40, 0x80 + u % 0x40]
  }

  function Utf8All(s: string): seq<Byte> {
    if s == [] then [] else Utf8All(s[..|s| - 1]) + Utf8(s[|s| - 1])
  }

  /** The first byte of a character says how many there are, and only the others continue it. */
  lemma Utf8IsOneCharacter(c: char)
    ensures var bytes := Utf8(c);
            && 1 <= |bytes| <= 4 && EncodedLength(bytes[0]) == |bytes| && !IsContinuation(bytes[0])
            && (forall i | 1 <= i < |bytes| :: IsContinuation(bytes[i]))
            && (forall i | 0 <= i < |bytes| :: bytes[i] == 0x0A <==> c == '\n')
  {
  }

  lemma {:induction false} EncodedJoins(a: seq<Byte>, b: seq<Byte>)
    requires Encoded(a) && Encoded(b)
    ensures Encoded(a + b)
    decreases |a|
  {
    hide EncodedLength, IsContinuation;
    if a == [] {
      assert a + b == b;
    } else {
      var n := EncodedLength(a[0]);
      EncodedJoins(a[n..], b);
      assert (a + b)[n..] == a[n..] + b;
      assert forall i | 0 <= i < n :: (a + b)[i] == a[i];
    }
  }

  /** Every text of characters is an encoded text, whatever the characters are. */
  lemma {:induction false} TextsAreEncoded(s: string)
    ensures Encoded(Utf8All(s))
  {
    if s != [] {
      TextsAreEncoded(s[..|s| - 1]);
      var bytes := Utf8(s[|s| - 1]);
      Utf8IsOneCharacter(s[|s| - 1]);
      assert bytes[|bytes|..] == [];
      EncodedJoins(Utf8All(s[..|s| - 1]), bytes);
    }
  }

  /** The bytes of the first k characters come first. */
  lemma {:induction false} Utf8Front(s: string, k: nat)
    requires k <= |s|
    ensures |Utf8All(s[..k])| <= |Utf8All(s)| && Utf8All(s)[..|Utf8All(s[..k])|] == Utf8All(s[..k])
    decreases |s| - k
  {
    hide Utf8;
    if k == |s| {
      assert s[..k] == s;
    } else {
      Utf8Front(s, k + 1);
      assert s[..k + 1][..k] == s[..k];
      var front, more := Utf8All(s[..k]), Utf8All(s[..k + 1]);
      assert more == front + Utf8(s[k]);
      hide Utf8All;
      assert Utf8All(s)[..|front|] == Utf8All(s)[..|more|][..|front|];
    }
  }

  /** The bytes of the k-th character. */
  lemma Utf8At(s: string, k: nat)
    requires k < |s|
    ensures var from, to := |Utf8All(s[..k])|, |Utf8All(s[..k + 1])|;
            from <= to <= |Utf8All(s)| && Utf8All(s)[from..to] == Utf8(s[k])
  {
    Utf8Front(s, k + 1);
    assert s[..k + 1][..k] == s[..k];
    var from, to := |Utf8All(s[..k])|, |Utf8All(s[..k + 1])|;
    assert Utf8All(s)[from..to] == Utf8All(s)[..to][from..];
  }

  /** The position of a character: the line feeds before it, and the characters since the last of them. */
  ghost predicate IsPositionOf(s: string, k: nat, p: Position)
    requires k <= |s|
  {
    && p.line == 1 + multiset(s[..k])['\n']
    && forall start | 0 <= start <= k && (start == 0 || s[start - 1] == '\n') && '\n' !in s[start..k] ::
         p.column == 1 + k - start
  }

  /** Walking over the first k characters leads to the position of the next one. */
  lemma {:induction false} WalkOverCharacters(s: string, k: nat)
    requires k <= |s|
    ensures |Utf8All(s[..k])| <= |Utf8All(s)| && IsPositionOf(s, k, Walk(Utf8All(s), |Utf8All(s[..k])|))
    decreases k
  {
    Utf8Front(s, k);
    if k > 0 {
      WalkOverCharacters(s, k - 1);
      Utf8At(s, k - 1);
      Utf8IsOneCharacter(s[k - 1]);
      var from, to := |Utf8All(s[..k - 1])|, |Utf8All(s[..k])|;
      WalkOneCharacter(Utf8All(s), from, to, s[k - 1]);
      OnePositionOn(s, k, Walk(Utf8All(s), from), Walk(Utf8All(s), to));
    }
  }

  lemma OnePositionOn(s: string, k: nat, p: Position, q: Position)
    requires 0 < k <= |s| && IsPositionOf(s, k - 1, p)
    requires q == if s[k - 1] == '\n' then Position(p.line + 1, 1) else Position(p.line, p.column + 1)
    ensures IsPositionOf(s, k, q)
  {
    assert s[..k] == s[..k - 1] + [s[k - 1]];
    forall start | 0 <= start <= k && (start == 0 || s[start - 1] == '\n') && '\n' !in s[start..k]
      ensures q.column == 1 + k - start
    {
      if start < k {
        assert s[start..k] == s[start..k - 1] + [s[k - 1]];
      }
    }
  }

  lemma {:induction false} WalkOneCharacter(text: seq<Byte>, from: nat, to: nat, c: char)
    requires from < to <= |text| && text[from..to] == Utf8(c)
    ensures Walk(text, to) == if c == '\n' then Position(Walk(text, from).line + 1, 1)
                              else Position(Walk(text, from).line, Walk(text, from).column + 1)
  {
    Utf8IsOneCharacter(c);
    assert text[from] == text[from..to][0];
    forall i | from < i < to ensures IsContinuation(text[i]) && text[i] != 0x0A {
      assert text[i] == text[from..to][i - from];
    }
    NothingButContinuation(text, from + 1, to);
  }

  lemma {:induction false} NothingButContinuation(text: seq<Byte>, from: nat, to: nat)
    requires from <= to <= |text| && forall i | from <= i < to :: IsContinuation(text[i])
    ensures Walk(text, to) == Walk(text, from)
  {
    if from < to {
      NothingButContinuation(text, from, to - 1);
    }
  }

  /** An offset inside the k-th character is rounded down to its first byte. */
  lemma RoundedToCharacter(s: string, k: nat, offset: nat)
    requires k <= |s| && |Utf8All(s[..k])| <= offset
    requires k < |s| ==> offset < |Utf8All(s[..k + 1])|
    ensures RoundDown(Utf8All(s), offset) == |Utf8All(s[..k])|
  {
    hide Utf8All, Utf8, EncodedLength;
    var text, from := Utf8All(s), |Utf8All(s[..k])|;
    Utf8Front(s, k);
    if k < |s| {
      var to := |Utf8All(s[..k + 1])|;
      Utf8At(s, k);
      Utf8IsOneCharacter(s[k]);
      forall i | from < i < to ensures IsContinuation(text[i]) {
        assert text[i] == text[from..to][i - from];
      }
      assert text[from] == text[from..to][0];
      RoundedIs(text, offset, from);
    } else {
      assert s[..k] == s;
    }
  }

  lemma RoundedIs(text: seq<Byte>, offset: nat, r: nat)
    requires IsRoundedDown(text, offset, r)
    ensures RoundDown(text, offset) == r
  {
    assert IsBoundary(text, RoundDown(text, offset)) && IsBoundary(text, r);
  }

  // --- The index --------------------------------------------------------------

  /** The starts of the lines, in order: the beginning, and after every line feed. */
  predicate IndexOf(text: seq<Byte>, upTo: nat, starts: seq<nat>)
    requires upTo <= |text|
  {
    && starts != [] && starts[0] == 0
    && (forall i, j | 0 <= i < j < |starts| :: starts[i] < starts[j])
    && (forall i | 1 <= i < |starts| :: 1 <= starts[i] <= upTo && text[starts[i] - 1] == LINE_FEED)
    && (forall k | 0 <= k < upTo && text[k] == LINE_FEED :: k + 1 in starts)
  }

  lemma NoStartInside(text: seq<Byte>, starts: seq<nat>, n: nat, offset: nat)
    requires IndexOf(text, |text|, starts) && n < |starts| && starts[n] < offset <= |text|
    requires n + 1 < |starts| ==> offset < starts[n + 1]
    ensures text[offset - 1] != LINE_FEED
  {
    forall i | 0 <= i < |starts| ensures starts[i] != offset {
      assert i < n ==> starts[i] < starts[n];
      assert n + 1 < i ==> starts[n + 1] < starts[i];
    }
  }

  lemma IndexExtended(text: seq<Byte>, upTo: nat, starts: seq<nat>)
    requires upTo < |text| && IndexOf(text, upTo, starts)
    ensures IndexOf(text, upTo + 1, if text[upTo] == LINE_FEED then starts + [upTo + 1] else starts)
  {
    if text[upTo] == LINE_FEED {
      var more := starts + [upTo + 1];
      assert more[|starts|] == upTo + 1;
      forall i, j | 0 <= i < j < |more| ensures more[i] < more[j] {
        assert more[i] == starts[i] <= upTo;
        assert j < |starts| ==> more[j] == starts[j];
      }
      forall i | 1 <= i < |starts| ensures 1 <= more[i] <= upTo && text[more[i] - 1] == LINE_FEED {
        assert more[i] == starts[i];
      }
      forall k | 0 <= k < upTo && text[k] == LINE_FEED ensures k + 1 in more {
        assert k + 1 in starts;
      }
    }
  }

  /** Between two neighbouring starts there is no line feed, so the walk has reached that line, some columns on. */
  lemma {:induction false} WalkFromIndex(text: seq<Byte>, starts: seq<nat>, n: nat, offset: nat)
    requires IndexOf(text, |text|, starts) && n < |starts| && starts[n] <= offset <= |text|
    requires n + 1 < |starts| ==> offset < starts[n + 1]
    ensures Walk(text, offset) == Position(n + 1, Starts(text, starts[n], offset) + 1)
    decreases n, offset
  {
    if starts[n] < offset {
      WalkFromIndex(text, starts, n, offset - 1);
      NoStartInside(text, starts, n, offset);
    } else if n > 0 {
      assert text[offset - 1] == LINE_FEED && starts[n - 1] < starts[n];
      WalkFromIndex(text, starts, n - 1, offset - 1);
    }
  }

  class SourceFile {
    const text: seq<Byte>
    const lineStarts: seq<nat>

    ghost predicate Valid() {
      Encoded(text) && IndexOf(text, |text|, lineStarts)
    }

    constructor (bytes: seq<Byte>)
      requires Encoded(bytes)
      ensures Valid() && text == bytes
    {
      hide Encoded;
      var starts: seq<nat> := [0];
      assert IndexOf(bytes, 0, starts);
      hide IndexOf;
      for index := 0 to |bytes|
        invariant IndexOf(bytes, index, starts)
      {
        IndexExtended(bytes, index, starts);
        if bytes[index] == LINE_FEED {
          starts := starts + [index + 1];
        }
      }
      text, lineStarts := bytes, starts;
    }

    /** How many starts are at most `offset`; the starts are sorted, so halving finds it. */
    method StartsUpTo(offset: nat) returns (count: nat)
      requires Valid()
      ensures 1 <= count <= |lineStarts| && lineStarts[count - 1] <= offset
      ensures count < |lineStarts| ==> offset < lineStarts[count]
    {
      var low, high := 0, |lineStarts|;
      while low < high
        invariant 0 <= low <= high <= |lineStarts|
        invariant low > 0 ==> lineStarts[low - 1] <= offset
        invariant high < |lineStarts| ==> offset < lineStarts[high]
        invariant high >= 1
      {
        var middle := (low + high) / 2;
        if lineStarts[middle] <= offset {
          low := middle + 1;
        } else {
          high := middle;
        }
      }
      count := low;
    }

    /** The line and column of the character that the offset lies in, or of the end. */
    method LineColumn(byteOffset: nat) returns (position: Position)
      requires Valid()
      ensures position == Walk(text, RoundDown(text, byteOffset))
      ensures forall r: nat, s: nat | IsRoundedDown(text, byteOffset, r) && IsLineStart(text, s, r) ::
                && position.line == 1 + multiset(text[..r])[0x0A]
                && Encoded(text[s..r]) && position.column == 1 + CharacterCount(text[s..r])
      ensures forall chars: string, k: nat | text == Utf8All(chars) && IsInCharacter(chars, k, byteOffset) ::
                IsPositionOf(chars, k, position)
    {
      hide Encoded, IndexOf, CharacterCount, Starts, Walk, IsRoundedDown, IsLineStart, IsPositionOf, IsInCharacter,
           Utf8All;
      var offset := if byteOffset < |text| then byteOffset else |text|;
      while !IsBoundary(text, offset)
        invariant 0 <= offset <= |text| && RoundDown(text, offset) == RoundDown(text, byteOffset)
        decreases offset
      {
        offset := offset - 1;
      }
      var count := StartsUpTo(offset);
      var lineStart := lineStarts[count - 1];
      LineIsEncoded(text, lineStarts, count - 1, offset);
      var characters := CountCharacters(text[lineStart..offset]);
      WalkFromIndex(text, lineStarts, count - 1, offset);
      position := Position(count, characters + 1);
      RoundedMeans(text, byteOffset, offset);
      CharacterMeans(text, byteOffset, offset);
    }
  }

  lemma CharacterMeans(text: seq<Byte>, byteOffset: nat, offset: nat)
    requires offset == RoundDown(text, byteOffset)
    ensures forall chars: string, k: nat | text == Utf8All(chars) && IsInCharacter(chars, k, byteOffset) ::
              IsPositionOf(chars, k, Walk(text, offset))
  {
    forall chars: string, k: nat | text == Utf8All(chars) && IsInCharacter(chars, k, byteOffset)
      ensures IsPositionOf(chars, k, Walk(text, offset))
    {
      RoundedToCharacter(chars, k, byteOffset);
      WalkOverCharacters(chars, k);
    }
  }

  /** The offset lies in the bytes of the k-th character, or behind the last one. */
  ghost predicate IsInCharacter(s: string, k: nat, offset: nat) {
    k <= |s| && |Utf8All(s[..k])| <= offset && (k < |s| ==> offset < |Utf8All(s[..k + 1])|)
  }

  lemma RoundedMeans(text: seq<Byte>, byteOffset: nat, offset: nat)
    requires Encoded(text) && offset == RoundDown(text, byteOffset)
    ensures forall r: nat, s: nat | IsRoundedDown(text, byteOffset, r) && IsLineStart(text, s, r) ::
              && Walk(text, offset).line == 1 + multiset(text[..r])[0x0A]
              && Encoded(text[s..r]) && Walk(text, offset).column == 1 + CharacterCount(text[s..r])
  {
    forall r: nat, s: nat | IsRoundedDown(text, byteOffset, r) && IsLineStart(text, s, r)
      ensures Walk(text, offset).line == 1 + multiset(text[..r])[0x0A]
      ensures Encoded(text[s..r]) && Walk(text, offset).column == 1 + CharacterCount(text[s..r])
    {
      RoundedIs(text, byteOffset, r);
      WalkCounts(text, r);
      if s > 0 {
        LineStartsAreBoundaries(text, s - 1);
      }
      SliceIsEncoded(text, s, r);
    }
  }

  /** The slice of a line up to a boundary is itself an encoded text, and its length is what the walk counts. */
  lemma LineIsEncoded(text: seq<Byte>, starts: seq<nat>, n: nat, offset: nat)
    requires Encoded(text) && IndexOf(text, |text|, starts) && n < |starts| && starts[n] <= offset <= |text|
    requires IsBoundary(text, offset)
    ensures Encoded(text[starts[n]..offset])
    ensures CharacterCount(text[starts[n]..offset]) == Starts(text, starts[n], offset)
  {
    if n > 0 {
      LineStartsAreBoundaries(text, starts[n] - 1);
    }
    SliceIsEncoded(text, starts[n], offset);
  }

  lemma SliceIsEncoded(text: seq<Byte>, from: nat, to: nat)
    requires Encoded(text) && from <= to <= |text| && IsBoundary(text, from) && IsBoundary(text, to)
    ensures Encoded(text[from..to]) && CharacterCount(text[from..to]) == Starts(text, from, to)
  {
    hide Encoded, CharacterCount, Starts;
    CutAtBoundary(text, from);
    var rest := text[from..];
    assert to < |text| ==> rest[to - from] == text[to];
    CutAtBoundary(rest, to - from);
    var slice := text[from..to];
    assert rest[..to - from] == slice;
    CountIsStarts(slice);
    StartsInside(text, from, to);
    SamePrefix(rest, slice, |slice|);
  }

  lemma {:induction false} SamePrefix(a: seq<Byte>, b: seq<Byte>, n: nat)
    requires n <= |a| && n <= |b| && a[..n] == b[..n]
    ensures Starts(a, 0, n) == Starts(b, 0, n)
  {
    if n > 0 {
      assert a[n - 1] == a[..n][n - 1] == b[..n][n - 1] == b[n - 1];
      assert a[..n - 1] == a[..n][..n - 1] == b[..n][..n - 1] == b[..n - 1];
      SamePrefix(a, b, n - 1);
    }
  }

  /** `chars().count()`. */
  method CountCharacters(text: seq<Byte>) returns (count: nat)
    requires Encoded(text)
    ensures count == CharacterCount(text)
  {
    count := 0;
    var rest := text;
    while rest != []
      invariant Encoded(rest) && count + CharacterCount(rest) == CharacterCount(text)
      decreases |rest|
    {
      count := count + 1;
      rest := rest[EncodedLength(rest[0])..];
    }
  }
}
