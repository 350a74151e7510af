/**
 Cutting a text at a character, and joining what does not contain it: the two are
 inverse, so the cut says what a joined text consists of.
*/
module Words {

  /** The parts between the occurrences of `c`; there is always at least one. */
  function Cut(s: string, c: char): (parts: seq<string>)
    ensures parts != []
  {
    if s == [] then [[]]
    else
      var rest := Cut(s[1..], c);
      if s[0] == c then [[]] + rest else [[s[0]] + rest[0]] + rest[1..]
  }

  /** The parts with `c` in between. */
  function Joined(parts: seq<string>, c: char): string {
    if parts == [] then []
    else if |parts| == 1 then parts[0]
    else parts[0] + [c] + Joined(parts[1..], c)
  }

  /** Every part with `c` behind it. */
  function Ended(parts: seq<string>, c: char): string {
    if parts == [] then [] else parts[0] + [c] + Ended(parts[1..], c)
  }

  predicate Lacks(s: string, c: char) {
    forall i | 0 <= i < |s| :: s[i] != c
  }

  predicate AllLack(parts: seq<string>, c: char) {
    forall i | 0 <= i < |parts| :: Lacks(parts[i], c)
  }

  lemma {:induction false} CutFirst(a: string, c: char, rest: string)
    requires Lacks(a, c)
    ensures Cut(a + [c] + rest, c) == [a] + Cut(rest, c)
  {
    var s := a + [c] + rest;
    if a == [] {
      assert s[1..] == rest;
    } else {
      assert s[1..] == a[1..] + [c] + rest;
      CutFirst(a[1..], c, rest);
      assert [a[0]] + a[1..] == a;
    }
  }

  lemma {:induction false} CutNothing(a: string, c: char)
    requires Lacks(a, c)
    ensures Cut(a, c) == [a]
  {
    if a != [] {
      CutNothing(a[1..], c);
      assert [a[0]] + a[1..] == a;
    }
  }

  /** Cutting undoes joining. */
  lemma {:induction false} CutJoined(parts: seq<string>, c: char)
    requires parts != [] && AllLack(parts, c)
    ensures Cut(Joined(parts, c), c) == parts
  {
    if |parts| == 1 {
      CutNothing(parts[0], c);
    } else {
      CutJoined(parts[1..], c);
      CutFirst(parts[0], c, Joined(parts[1..], c));
    }
  }

  /** Cutting a text of ended parts gives them, and nothing behind the last one. */
  lemma {:induction false} CutEnded(parts: seq<string>, c: char)
    requires AllLack(parts, c)
    ensures Cut(Ended(parts, c), c) == parts + [[]]
  {
    if parts != [] {
      CutEnded(parts[1..], c);
      CutFirst(parts[0], c, Ended(parts[1..], c));
    }
  }

  lemma {:induction false} EndedAppend(parts: seq<string>, part: string, c: char)
    ensures Ended(parts + [part], c) == Ended(parts, c) + part + [c]
  {
    if parts != [] {
      assert (parts + [part])[1..] == parts[1..] + [part];
      EndedAppend(parts[1..], part, c);
    }
  }

  lemma {:induction false} JoinedAppend(parts: seq<string>, part: string, c: char)
    requires parts != []
    ensures Joined(parts + [part], c) == Joined(parts, c) + [c] + part
  {
    if |parts| > 1 {
      assert (parts + [part])[1..] == parts[1..] + [part];
      JoinedAppend(parts[1..], part, c);
    } else {
      assert (parts + [part])[1..] == [part];
    }
  }

  // --- Sentences: lines of words -----------------------------------------------

  predicate IsWord(s: string) {
    Lacks(s, ' ') && Lacks(s, '\n')
  }

  predicate IsSentence(words: seq<string>) {
    words != [] && forall i | 0 <= i < |words| :: IsWord(words[i])
  }

  /** The lines of a text, cut into words. */
  function Sentences(text: string): seq<seq<string>> {
    var lines := Cut(text, '\n');
    seq(|lines| - 1, i requires 0 <= i < |lines| - 1 => Cut(lines[i], ' '))
  }

  function Lines(said: seq<seq<string>>): (r: seq<string>)
    ensures |r| == |said|
  {
    seq(|said|, i requires 0 <= i < |said| => Joined(said[i], ' '))
  }

  function TextOf(said: seq<seq<string>>): string {
    Ended(Lines(said), '\n')
  }

  lemma TextAppend(said: seq<seq<string>>, words: seq<string>)
    ensures TextOf(said + [words]) == TextOf(said) + Joined(words, ' ') + "\n"
  {
    assert Lines(said + [words]) == Lines(said) + [Joined(words, ' ')];
    EndedAppend(Lines(said), Joined(words, ' '), '\n');
  }

  /** The sentences of a text are those that it was written from. */
  lemma SentencesOfText(said: seq<seq<string>>)
    requires forall i | 0 <= i < |said| :: IsSentence(said[i])
    ensures Sentences(TextOf(said)) == said
  {
    var lines := Lines(said);
    forall i | 0 <= i < |said| ensures Lacks(lines[i], '\n') && Cut(lines[i], ' ') == said[i] {
      assert IsSentence(said[i]);
      JoinedLacks(said[i], ' ', '\n');
      CutJoined(said[i], ' ');
    }
    CutEnded(lines, '\n');
    assert forall i | 0 <= i < |said| :: (lines + [[]])[i] == lines[i];
  }

  lemma {:induction false} JoinedLacks(parts: seq<string>, c: char, d: char)
    requires AllLack(parts, d) && c != d
    ensures Lacks(Joined(parts, c), d)
  {
    if |parts| > 1 {
      JoinedLacks(parts[1..], c, d);
    }
  }
}
