/**
 Two checks of the KiCad generator: pins that meet at one point of the schematic, and
 cutting a symbol definition out of a library text.
*/
module Schematic {
  import opened Wrappers
  import opened Circuits
  import opened Lexer

  // --- Pins that meet ---------------------------------------------------------

  datatype Point = Point(x: int, y: int)

  /** A pin at its place in the schematic, in the order in which pins are looked at. */
  datatype PlacedPin = PlacedPin(position: Point, component: string, pin: string, state: ConnectionState)

  datatype Conflict = Conflict(later: PlacedPin, occupant: PlacedPin)

  /** Pins at one point must be on the same net. */
  predicate MayMeet(a: PlacedPin, b: PlacedPin) {
    a.position == b.position ==> a.state == b.state && a.state.Connected?
  }

  predicate AllMayMeet(pins: seq<PlacedPin>) {
    forall i, j | 0 <= i < j < |pins| :: MayMeet(pins[i], pins[j])
  }

  /** Every point that some pin has taken is occupied, by a pin that is there. */
  predicate Represents(occupied: map<Point, PlacedPin>, pins: seq<PlacedPin>) {
    && (forall p | p in occupied :: occupied[p] in pins && occupied[p].position == p)
    && (forall i | 0 <= i < |pins| :: pins[i].position in occupied)
  }

  /** Among pins that may all meet, one pin at a point speaks for the others. */
  lemma OneSpeaksForAll(occupied: map<Point, PlacedPin>, pins: seq<PlacedPin>, pin: PlacedPin)
    requires Represents(occupied, pins)
    ensures AllMayMeet(pins + [pin]) <==>
            AllMayMeet(pins) && (pin.position in occupied ==> MayMeet(occupied[pin.position], pin))
  {
    var all := pins + [pin];
    assert all[|pins|] == pin && forall i | 0 <= i < |pins| :: all[i] == pins[i];
    if pin.position in occupied {
      var k :| 0 <= k < |pins| && pins[k] == occupied[pin.position];
      assert AllMayMeet(all) ==> MayMeet(all[k], all[|pins|]);
      if AllMayMeet(pins) && MayMeet(pins[k], pin) {
        forall i | 0 <= i < |pins| ensures MayMeet(pins[i], pin) {
          assert i < k ==> MayMeet(pins[i], pins[k]);
          assert k < i ==> MayMeet(pins[k], pins[i]);
        }
      }
    }
    if AllMayMeet(all) {
      forall i, j | 0 <= i < j < |pins| ensures MayMeet(pins[i], pins[j]) {
        assert MayMeet(all[i], all[j]);
      }
    }
  }

  lemma StillRepresents(occupied: map<Point, PlacedPin>, pins: seq<PlacedPin>, pin: PlacedPin)
    requires Represents(occupied, pins)
    ensures pin.position in occupied ==> Represents(occupied, pins + [pin])
    ensures Represents(occupied[pin.position := pin], pins + [pin])
  {
  }

  /**
   A pin is compared only with the last one at its point that was compatible, or with
   the first one there, and yet no conflict escapes.
  */
  method ValidateConnectionPoints(pins: seq<PlacedPin>) returns (conflicts: seq<Conflict>)
    ensures conflicts == [] <==> AllMayMeet(pins)
    ensures forall c | c in conflicts :: c.later in pins && c.occupant in pins && !MayMeet(c.occupant, c.later)
  {
    hide Represents, AllMayMeet;
    conflicts := [];
    var occupied: map<Point, PlacedPin> := map[];
    NothingPlaced();
    for index := 0 to |pins|
      invariant Represents(occupied, pins[..index])
      invariant conflicts == [] <==> AllMayMeet(pins[..index])
      invariant forall c | c in conflicts :: c.later in pins && c.occupant in pins && !MayMeet(c.occupant, c.later)
    {
      var pin := pins[index];
      assert pins[..index + 1] == pins[..index] + [pin];
      OneSpeaksForAll(occupied, pins[..index], pin);
      StillRepresents(occupied, pins[..index], pin);
      if pin.position in occupied {
        Occupant(occupied, pins[..index], pin.position);
      }
      if pin.position in occupied
         && (occupied[pin.position].state != pin.state || pin.state.NoConnect?) {
        conflicts := conflicts + [Conflict(pin, occupied[pin.position])];
      } else {
        occupied := occupied[pin.position := pin];
      }
    }
    assert pins[..|pins|] == pins;
  }

  lemma NothingPlaced()
    ensures Represents(map[], []) && AllMayMeet([])
  {
  }

  lemma Occupant(occupied: map<Point, PlacedPin>, pins: seq<PlacedPin>, p: Point)
    requires Represents(occupied, pins) && p in occupied
    ensures occupied[p] in pins && occupied[p].position == p
  {
  }

  // --- Symbol definitions -----------------------------------------------------

  /** Where a reader of nested lists stands: how deep, and whether inside a string or after a backslash there. */
  datatype Nesting = Nesting(depth: int, inString: bool, escaped: bool)

  function Read(n: Nesting, c: char): Nesting {
    if n.inString then
      if n.escaped then n.(escaped := false)
      else if c == '\\' then n.(escaped := true)
      else if c == '"' then n.(inString := false)
      else n
    else if c == '"' then n.(inString := true)
    else if c == '(' then n.(depth := n.depth + 1)
    else if c == ')' then n.(depth := n.depth - 1)
    else n
  }

  /** The nesting after a text. */
  function After(text: string): Nesting {
    if text == [] then Nesting(0, false, false) else Read(After(text[..|text| - 1]), text[|text| - 1])
  }

  /** The text closes its last list exactly with its last character. */
  predicate ClosesAt(text: string, end: nat)
    requires end <= |text|
  {
    end > 0 && text[end - 1] == ')' && !After(text[..end - 1]).inString && After(text[..end]).depth == 0
  }

  predicate OccursAt(text: string, needle: string, i: nat) {
    i + |needle| <= |text| && text[i..i + |needle|] == needle
  }

  predicate FirstOccursAt(text: string, needle: string, i: nat) {
    OccursAt(text, needle, i) && forall j: nat | j < i :: !OccursAt(text, needle, j)
  }

  /** `s` is what stands at `start` up to the bracket that closes it. */
  predicate DefinitionAt(library: string, start: nat, s: string) {
    && start + |s| <= |library| && s == library[start..start + |s|] && ClosesAt(s, |s|)
    && forall end: nat | end < |s| :: !ClosesAt(s, end)
  }

  method Find(text: string, needle: string) returns (r: Option<nat>)
    ensures r.Some? ==> FirstOccursAt(text, needle, r.value)
    ensures r.None? ==> forall i: nat :: !OccursAt(text, needle, i)
  {
    var i: nat := 0;
    while i + |needle| <= |text|
      invariant forall j: nat | j < i :: !OccursAt(text, needle, j)
    {
      if text[i..i + |needle|] == needle {
        return Some(i);
      }
      i := i + 1;
    }
    r := None;
  }

  /**
   The definition that starts at the first occurrence of `needle` and ends with the
   bracket that closes it; nothing, if there is no such occurrence or no such bracket.
  */
  method ExtractSymbolDefinition(library: string, needle: string) returns (r: Option<string>)
    ensures forall start: nat, s | FirstOccursAt(library, needle, start) && DefinitionAt(library, start, s) :: r == Some(s)
    ensures r.Some? ==> exists start: nat :: FirstOccursAt(library, needle, start) && DefinitionAt(library, start, r.value)
    ensures forall before: string, items: seq<Item>, behind: string
              | library == before + Written(List(items)) + behind && WellWritten(List(items))
                && FirstOccursAt(library, needle, |before|) ::
              r == Some(Written(List(items)))
  {
    forall before: string, items: seq<Item>, behind: string
      | library == before + Written(List(items)) + behind && WellWritten(List(items))
      ensures DefinitionAt(library, |before|, Written(List(items)))
    {
      WrittenListIsADefinition(before, items, behind);
    }
    var found := Find(library, needle);
    if found.None? {
      return None;
    }
    var start := found.value;
    FirstIsUnique(library, needle, start);
    var text := library[start..];
    var end := ClosingEnd(text);
    forall s | DefinitionAt(library, start, s) ensures end == Some(|s|) && s == text[..|s|] {
      SameClosing(library, start, s);
    }
    if end.None? {
      return None;
    }
    r := Some(text[..end.value]);
    ClosingIsLocal(text, end.value);
    assert DefinitionAt(library, start, r.value);
  }

  lemma FirstIsUnique(text: string, needle: string, i: nat)
    requires FirstOccursAt(text, needle, i)
    ensures forall j: nat | FirstOccursAt(text, needle, j) :: j == i
  {
  }

  /** Whether a text closes depends on nothing behind it. */
  lemma ClosingIsLocal(text: string, n: nat)
    requires n <= |text|
    ensures forall end: nat | end <= n :: ClosesAt(text[..n], end) <==> ClosesAt(text, end)
  {
    forall end: nat | end <= n ensures ClosesAt(text[..n], end) <==> ClosesAt(text, end) {
      assert text[..n][..end] == text[..end];
      assert end > 0 ==> text[..n][..end - 1] == text[..end - 1];
    }
  }

  lemma SameClosing(library: string, start: nat, s: string)
    requires DefinitionAt(library, start, s)
    ensures s == library[start..][..|s|] && ClosesAt(library[start..], |s|)
    ensures forall end: nat | end < |s| :: !ClosesAt(library[start..], end)
  {
    var text := library[start..];
    assert s == text[..|s|];
    ClosingIsLocal(text, |s|);
  }

  /** The first place at which the text closes. */
  method ClosingEnd(text: string) returns (r: Option<nat>)
    ensures r.Some? ==> r.value <= |text| && ClosesAt(text, r.value) && forall end: nat | end < r.value :: !ClosesAt(text, end)
    ensures r.None? ==> forall end: nat | end <= |text| :: !ClosesAt(text, end)
  {
    var depth, inString, escaped := 0, false, false;
    for index := 0 to |text|
      invariant After(text[..index]) == Nesting(depth, inString, escaped)
      invariant forall end: nat | end <= index :: !ClosesAt(text, end)
    {
      assert text[..index + 1][..index] == text[..index];
      var c := text[index];
      if inString {
        if escaped {
          escaped := false;
        } else if c == '\\' {
          escaped := true;
        } else if c == '"' {
          inString := false;
        }
      } else if c == '"' {
        inString := true;
      } else if c == '(' {
        depth := depth + 1;
      } else if c == ')' {
        depth := depth - 1;
        if depth == 0 {
          return Some(index + 1);
        }
      }
    }
    r := None;
  }

  // --- Nested lists as they are written ------------------------------------------

  /** A nested list of symbols, quoted texts and lists. */
  datatype Item = Symbol(text: string) | Quote(text: string) | List(items: seq<Item>)

  predicate IsSymbol(s: string) {
    forall i | 0 <= i < |s| :: s[i] != '(' && s[i] != ')' && s[i] != '"'
  }

  predicate WellWritten(item: Item) {
    match item
    case Symbol(text) => IsSymbol(text)
    case Quote(_) => true
    case List(items) => forall i | 0 <= i < |items| :: WellWritten(items[i])
  }

  /** The item as text; the items of a list have a blank behind them. */
  function Written(item: Item): string
    decreases item, 0
  {
    match item
    case Symbol(text) => text
    case Quote(text) => Quoted(text)
    case List(items) => "(" + WrittenAll(items) + ")"
  }

  function WrittenAll(items: seq<Item>): string
    decreases items, 0
  {
    if items == [] then [] else Written(items[0]) + " " + WrittenAll(items[1..])
  }

  /** The nesting after more text. */
  function Then(n: Nesting, text: string): Nesting
    decreases |text|
  {
    if text == [] then n else Then(Read(n, text[0]), text[1..])
  }

  lemma {:induction false} ThenJoins(n: Nesting, a: string, b: string)
    ensures Then(n, a + b) == Then(Then(n, a), b)
    decreases |a|
  {
    if a == [] {
      assert a + b == b;
    } else {
      assert (a + b)[0] == a[0] && (a + b)[1..] == a[1..] + b;
      ThenJoins(Read(n, a[0]), a[1..], b);
    }
  }

  lemma {:induction false} AfterIsThen(text: string)
    ensures After(text) == Then(Nesting(0, false, false), text)
  {
    if text != [] {
      var front, last := text[..|text| - 1], [text[|text| - 1]];
      AfterIsThen(front);
      assert text == front + last && last[1..] == [];
      ThenJoins(Nesting(0, false, false), front, last);
    }
  }

  lemma OneEscaped(n: Nesting, c: char)
    requires n.inString && !n.escaped
    ensures Then(n, Escaped(c)) == n
  {
    var s := Escaped(c);
    if |s| == 2 {
      assert s[1..] == [c] && [c][1..] == [];
      assert Then(Read(n, '\\'), [c]) == Read(Read(n, '\\'), c);
    } else {
      assert s[1..] == [];
    }
  }

  /** Neither a bracket nor a quotation mark in it changes anything: the string ends where it ends. */
  lemma {:induction false} EscapedStaysInside(n: Nesting, s: string, k: nat)
    requires n.inString && !n.escaped && k <= |EscapedAll(s)|
    ensures Then(n, EscapedAll(s)) == n
    ensures Then(n, EscapedAll(s)[..k]).inString && Then(n, EscapedAll(s)[..k]).depth == n.depth
    decreases |s|
  {
    if s != [] {
      var first, rest := Escaped(s[0]), EscapedAll(s[1..]);
      var all := EscapedAll(s);
      ThenJoins(n, first, rest);
      OneEscaped(n, s[0]);
      if k >= |first| {
        EscapedStaysInside(n, s[1..], k - |first|);
        assert all[..k] == first + rest[..k - |first|];
        ThenJoins(n, first, rest[..k - |first|]);
      } else {
        EscapedStaysInside(n, s[1..], 0);
        assert all[..k] == first[..k];
        assert k == 1 ==> first[..k][1..] == [];
      }
    }
  }

  /** A quoted text, whatever is in it, leaves the nesting as it was, and never lies below it. */
  lemma QuotedChangesNothing(n: Nesting, s: string, k: nat)
    requires !n.inString && !n.escaped && k <= |Quoted(s)|
    ensures Then(n, Quoted(s)) == n
    ensures Then(n, Quoted(s)[..k]).depth == n.depth
  {
    TwoReplacementsEscape(s);
    var inside := n.(inString := true);
    var body, text := EscapedAll(s), Quoted(s);
    assert text == ['"'] + body + ['"'];
    assert text[1..] == body + ['"'];
    EscapedStaysInside(inside, s, if 1 <= k <= |body| + 1 then k - 1 else 0);
    ThenJoins(inside, body, ['"']);
    assert ['"'][1..] == [];
    if 1 <= k <= |body| + 1 {
      assert text[..k][1..] == body[..k - 1];
    } else if k > 0 {
      assert text[..k] == text;
    }
  }

  lemma {:induction false} SymbolChangesNothing(n: Nesting, s: string)
    requires !n.inString && !n.escaped && IsSymbol(s)
    ensures Then(n, s) == n
  {
    if s != [] {
      SymbolChangesNothing(n, s[1..]);
    }
  }

  /** A written item leaves the nesting as it was, and within it the depth never falls below. */
  lemma {:induction false} ItemChangesNothing(n: Nesting, item: Item, k: nat)
    requires !n.inString && !n.escaped && WellWritten(item) && k <= |Written(item)|
    ensures Then(n, Written(item)) == n && Then(n, Written(item)[..k]).depth >= n.depth
    decreases item, 1
  {
    var text := Written(item);
    match item {
      case Symbol(s) =>
        SymbolChangesNothing(n, s);
        SymbolChangesNothing(n, s[..k]);
      case Quote(s) => QuotedChangesNothing(n, s, k);
      case List(items) => ListChangesNothing(n, items, k);
    }
  }

  /** Within a list, and behind its first bracket, the depth is greater. */
  lemma {:induction false} ListChangesNothing(n: Nesting, items: seq<Item>, k: nat)
    requires !n.inString && !n.escaped && WellWritten(List(items)) && k <= |Written(List(items))|
    ensures Then(n, Written(List(items))) == n && Then(n, Written(List(items))[..k]).depth >= n.depth
    ensures 0 < k < |Written(List(items))| ==> Then(n, Written(List(items))[..k]).depth > n.depth
    decreases items, 1
  {
    var inner, text := WrittenAll(items), Written(List(items));
    var inside := n.(depth := n.depth + 1);
    assert text[1..] == inner + ")";
    ItemsChangeNothing(inside, items, if 1 <= k <= |inner| + 1 then k - 1 else 0);
    ThenJoins(inside, inner, ")");
    assert ")"[1..] == [];
    if 1 <= k <= |inner| + 1 {
      assert text[..k][1..] == inner[..k - 1];
    } else if k > 0 {
      assert text[..k] == text;
    }
  }

  lemma {:induction false} ItemsChangeNothing(n: Nesting, items: seq<Item>, k: nat)
    requires !n.inString && !n.escaped && (forall i | 0 <= i < |items| :: WellWritten(items[i]))
    requires k <= |WrittenAll(items)|
    ensures Then(n, WrittenAll(items)) == n && Then(n, WrittenAll(items)[..k]).depth >= n.depth
    decreases items, 0
  {
    if items != [] {
      var first, rest := Written(items[0]) + " ", WrittenAll(items[1..]);
      var all := WrittenAll(items);
      assert all == first + rest;
      ItemChangesNothing(n, items[0], if k <= |Written(items[0])| then k else 0);
      ThenJoins(n, Written(items[0]), " ");
      assert " "[1..] == [];
      ThenJoins(n, first, rest);
      if k <= |Written(items[0])| {
        assert all[..k] == Written(items[0])[..k];
        ItemsChangeNothing(n, items[1..], 0);
      } else {
        assert all[..k] == first + rest[..k - |first|];
        ThenJoins(n, first, rest[..k - |first|]);
        ItemsChangeNothing(n, items[1..], k - |first|);
      }
    }
  }

  /** A written list closes with its last character and nowhere before. */
  lemma WrittenListIsADefinition(before: string, items: seq<Item>, behind: string)
    requires WellWritten(List(items))
    ensures DefinitionAt(before + Written(List(items)) + behind, |before|, Written(List(items)))
  {
    var s := Written(List(items));
    var start := Nesting(0, false, false);
    assert (before + s + behind)[|before|..|before| + |s|] == s;
    forall end: nat | 0 < end <= |s|
      ensures After(s[..end]).depth == 0 <==> end == |s|
    {
      ListChangesNothing(start, items, end);
      AfterIsThen(s[..end]);
      assert end == |s| ==> s[..end] == s;
    }
    OutsideAtTheEnd(items);
    assert s[|s| - 1] == ')';
  }

  lemma OutsideAtTheEnd(items: seq<Item>)
    requires WellWritten(List(items))
    ensures var s := Written(List(items)); !After(s[..|s| - 1]).inString
  {
    var s, inner := Written(List(items)), WrittenAll(items);
    var inside := Nesting(1, false, false);
    assert s[..|s| - 1] == "(" + inner;
    assert ("(" + inner)[1..] == inner;
    AfterIsThen(s[..|s| - 1]);
    ItemsChangeNothing(inside, items, 0);
  }
}
