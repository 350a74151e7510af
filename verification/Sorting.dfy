/**
 Sorting by a textual key, and the check that follows many sorts in the repository:
 comparing neighbours finds every duplicate.
*/
module Sorting {
  /** Texts compare as their bytes do: character by character, a prefix first. */
  predicate AtMost(a: string, b: string) {
    a == [] || (b != [] && (a[0] < b[0] || (a[0] == b[0] && AtMost(a[1..], b[1..]))))
  }

  /** The text comes first: it is a proper beginning of the other, or smaller where they first differ. */
  ghost predicate Precedes(a: string, b: string) {
    || (|a| < |b| && a == b[..|a|])
    || exists k :: 0 <= k < |a| && k < |b| && a[..k] == b[..k] && a[k] as int < b[k] as int
  }

  lemma {:induction false} AtMostIs(a: string, b: string)
    ensures AtMost(a, b) <==> a == b || Precedes(a, b)
    decreases |a|
  {
    if a != [] && b != [] && a[0] == b[0] {
      AtMostIs(a[1..], b[1..]);
      assert a == [a[0]] + a[1..] && b == [b[0]] + b[1..];
      PrecedesBehind(a, b);
    } else if a == [] {
      assert b != [] ==> a == b[..|a|];
    } else if b != [] && a[0] < b[0] {
      assert a[..0] == b[..0];
    } else {
      FirstDecides(a, b);
    }
  }

  /** A first character that is not smaller decides. */
  lemma FirstDecides(a: string, b: string)
    requires a != [] && (b == [] || b[0] < a[0])
    ensures !Precedes(a, b) && a != b
  {
    if b != [] {
      assert |a| < |b| ==> b[..|a|][0] == b[0];
      forall k | 0 < k < |a| && k < |b| ensures a[..k] != b[..k] {
        assert a[..k][0] == a[0] && b[..k][0] == b[0];
      }
    }
  }

  /** Behind a common first character nothing changes. */
  lemma PrecedesBehind(a: string, b: string)
    requires a != [] && b != [] && a[0] == b[0]
    ensures Precedes(a, b) <==> Precedes(a[1..], b[1..])
  {
    if Precedes(a, b) {
      FirstTaken(a, b);
    }
    if Precedes(a[1..], b[1..]) {
      FirstAdded(a[0], a[1..], b[1..]);
      assert a == [a[0]] + a[1..] && b == [a[0]] + b[1..];
    }
  }

  lemma FirstTaken(a: string, b: string)
    requires a != [] && b != [] && a[0] == b[0] && Precedes(a, b)
    ensures Precedes(a[1..], b[1..])
  {
    var x, y := a[1..], b[1..];
    if |a| < |b| && a == b[..|a|] {
      assert x == b[..|a|][1..] == y[..|x|];
    } else {
      var k :| 0 <= k < |a| && k < |b| && a[..k] == b[..k] && a[k] as int < b[k] as int;
      assert x[..k - 1] == a[..k][1..] && y[..k - 1] == b[..k][1..];
      assert x[k - 1] == a[k] && y[k - 1] == b[k];
    }
  }

  lemma FirstAdded(c: char, x: string, y: string)
    requires Precedes(x, y)
    ensures Precedes([c] + x, [c] + y)
  {
    var a, b := [c] + x, [c] + y;
    if |x| < |y| && x == y[..|x|] {
      assert b[..|a|] == [c] + y[..|x|];
    } else {
      var k :| 0 <= k < |x| && k < |y| && x[..k] == y[..k] && x[k] as int < y[k] as int;
      assert a[..k + 1] == [c] + x[..k] && b[..k + 1] == [c] + y[..k];
      assert a[k + 1] == x[k] && b[k + 1] == y[k];
    }
  }

  lemma {:induction false} AtMostIsTotal(a: string, b: string)
    ensures AtMost(a, b) || AtMost(b, a)
    decreases |a|
  {
    if a != [] && b != [] && a[0] == b[0] {
      AtMostIsTotal(a[1..], b[1..]);
    }
  }

  lemma {:induction false} AtMostIsTransitive(a: string, b: string, c: string)
    requires AtMost(a, b) && AtMost(b, c)
    ensures AtMost(a, c)
    decreases |a|
  {
    if a != [] && a[0] == b[0] && b[0] == c[0] {
      AtMostIsTransitive(a[1..], b[1..], c[1..]);
    }
  }

  lemma {:induction false} AtMostIsAntisymmetric(a: string, b: string)
    requires AtMost(a, b) && AtMost(b, a)
    ensures a == b
    decreases |a|
  {
    if a != [] {
      AtMostIsAntisymmetric(a[1..], b[1..]);
    }
  }

  predicate SortedBy<T>(xs: seq<T>, key: T -> string) {
    forall i, j | 0 <= i < j < |xs| :: AtMost(key(xs[i]), key(xs[j]))
  }

  function InsertBy<T>(x: T, xs: seq<T>, key: T -> string): (r: seq<T>)
    ensures multiset(r) == multiset(xs) + multiset{x}
  {
    if xs == [] || AtMost(key(x), key(xs[0])) then
      assert [x] + xs == [x] + xs[0..];
      [x] + xs
    else
      assert xs == [xs[0]] + xs[1..];
      [xs[0]] + InsertBy(x, xs[1..], key)
  }

  /** A stable sort by key. */
  function SortBy<T>(xs: seq<T>, key: T -> string): (r: seq<T>)
    ensures multiset(r) == multiset(xs) && |r| == |xs|
  {
    if xs == [] then [] else
      assert xs == [xs[0]] + xs[1..];
      var r := InsertBy(xs[0], SortBy(xs[1..], key), key);
      assert |r| == |multiset(r)|;
      r
  }

  lemma {:induction false} InsertKeepsSorted<T>(x: T, xs: seq<T>, key: T -> string)
    requires SortedBy(xs, key)
    ensures SortedBy(InsertBy(x, xs, key), key)
  {
    if xs == [] {
    } else if AtMost(key(x), key(xs[0])) {
      forall i | 0 <= i < |xs| ensures AtMost(key(x), key(xs[i])) {
        if i > 0 {
          AtMostIsTransitive(key(x), key(xs[0]), key(xs[i]));
        }
      }
    } else {
      InsertKeepsSorted(x, xs[1..], key);
      var rest := InsertBy(x, xs[1..], key);
      AtMostIsTotal(key(x), key(xs[0]));
      forall i | 0 <= i < |rest| ensures AtMost(key(xs[0]), key(rest[i])) {
        assert rest[i] in multiset(rest);
        if rest[i] != x {
          assert rest[i] in multiset(xs[1..]);
          var j :| 0 <= j < |xs[1..]| && xs[1..][j] == rest[i];
          assert xs[j + 1] == rest[i];
        }
      }
    }
  }

  lemma {:induction false} SortSorts<T>(xs: seq<T>, key: T -> string)
    ensures SortedBy(SortBy(xs, key), key)
  {
    if xs != [] {
      SortSorts(xs[1..], key);
      InsertKeepsSorted(xs[0], SortBy(xs[1..], key), key);
    }
  }

  /** Among elements of one key, `other` ascends. */
  ghost predicate AscendsWithin<T>(xs: seq<T>, key: T -> string, other: T -> string) {
    forall i, j | 0 <= i < j < |xs| && key(xs[i]) == key(xs[j]) :: AtMost(other(xs[i]), other(xs[j]))
  }

  lemma {:induction false} InsertKeepsWithin<T>(x: T, xs: seq<T>, key: T -> string, other: T -> string)
    requires AscendsWithin(xs, key, other)
    requires forall i | 0 <= i < |xs| && key(xs[i]) == key(x) :: AtMost(other(x), other(xs[i]))
    ensures AscendsWithin(InsertBy(x, xs, key), key, other)
  {
    if xs != [] && !AtMost(key(x), key(xs[0])) {
      InsertKeepsWithin(x, xs[1..], key, other);
      AtMostIs(key(x), key(xs[0]));
      var rest := InsertBy(x, xs[1..], key);
      forall i | 0 <= i < |rest| && key(rest[i]) == key(xs[0]) ensures AtMost(other(xs[0]), other(rest[i])) {
        assert rest[i] in multiset(rest);
        if rest[i] != x {
          assert rest[i] in multiset(xs[1..]);
          var j :| 0 <= j < |xs[1..]| && xs[1..][j] == rest[i];
          assert xs[j + 1] == rest[i];
        }
      }
    }
  }

  /** The sort is stable: what ascended among elements of one key still does. */
  lemma {:induction false} SortIsStable<T>(xs: seq<T>, key: T -> string, other: T -> string)
    requires AscendsWithin(xs, key, other)
    ensures AscendsWithin(SortBy(xs, key), key, other)
  {
    if xs != [] {
      var rest := SortBy(xs[1..], key);
      SortIsStable(xs[1..], key, other);
      forall i | 0 <= i < |rest| && key(rest[i]) == key(xs[0]) ensures AtMost(other(xs[0]), other(rest[i])) {
        assert rest[i] in multiset(rest);
        assert rest[i] in multiset(xs[1..]);
        var j :| 0 <= j < |xs[1..]| && xs[1..][j] == rest[i];
        assert xs[j + 1] == rest[i];
      }
      InsertKeepsWithin(xs[0], rest, key, other);
    }
  }

  predicate DistinctBy<T>(xs: seq<T>, key: T -> string) {
    forall i, j | 0 <= i < j < |xs| :: key(xs[i]) != key(xs[j])
  }

  /** No two neighbours have the same key. */
  predicate NeighboursDiffer<T>(xs: seq<T>, key: T -> string) {
    forall i | 0 <= i < |xs| - 1 :: key(xs[i]) != key(xs[i + 1])
  }

  /** In a sorted sequence, looking at neighbours is enough. */
  lemma NeighboursSuffice<T>(xs: seq<T>, key: T -> string)
    requires SortedBy(xs, key)
    ensures NeighboursDiffer(xs, key) <==> DistinctBy(xs, key)
  {
    if NeighboursDiffer(xs, key) {
      forall i, j | 0 <= i < j < |xs| ensures key(xs[i]) != key(xs[j]) {
        if key(xs[i]) == key(xs[j]) && i + 1 < j {
          AtMostIsAntisymmetric(key(xs[i]), key(xs[i + 1]));
        }
      }
    }
  }

  /** Sorting neither makes nor hides duplicates. */
  lemma SortKeepsDistinctness<T>(xs: seq<T>, key: T -> string)
    ensures DistinctBy(SortBy(xs, key), key) <==> DistinctBy(xs, key)
  {
    if DistinctBy(xs, key) {
      SameElements(xs, SortBy(xs, key), key);
    }
    if DistinctBy(SortBy(xs, key), key) {
      SameElements(SortBy(xs, key), xs, key);
    }
  }

  lemma SameElements<T>(xs: seq<T>, ys: seq<T>, key: T -> string)
    requires multiset(xs) == multiset(ys) && DistinctBy(xs, key)
    ensures DistinctBy(ys, key)
  {
    forall i, j | 0 <= i < j < |ys| ensures key(ys[i]) != key(ys[j]) {
      if key(ys[i]) == key(ys[j]) {
        TwoOccurrences(xs, ys, key, i, j);
      }
    }
  }

  lemma TwoOccurrences<T>(xs: seq<T>, ys: seq<T>, key: T -> string, i: nat, j: nat)
    requires multiset(xs) == multiset(ys) && i < j < |ys| && key(ys[i]) == key(ys[j])
    ensures exists a, b :: 0 <= a < b < |xs| && key(xs[a]) == key(xs[b])
  {
    var p, q := ys[i], ys[j];
    if p == q {
      assert ys == ys[..i] + [p] + (ys[i + 1..j] + [q] + ys[j + 1..]);
      Twice(xs, p);
    } else {
      assert p in multiset(ys) && q in multiset(ys);
      var a :| 0 <= a < |xs| && xs[a] == p;
      var b :| 0 <= b < |xs| && xs[b] == q;
      assert if a < b then key(xs[a]) == key(xs[b]) else key(xs[b]) == key(xs[a]);
    }
  }

  lemma Twice<T>(xs: seq<T>, p: T)
    requires multiset(xs)[p] >= 2
    ensures exists a, b :: 0 <= a < b < |xs| && xs[a] == xs[b] == p
  {
    assert p in multiset(xs);
    var a :| 0 <= a < |xs| && xs[a] == p;
    assert xs == xs[..a] + [p] + xs[a + 1..];
    if p in xs[..a] {
      var b :| 0 <= b < a && xs[..a][b] == p;
      assert xs[b] == p;
    } else {
      assert p in xs[a + 1..];
      var b :| 0 <= b < |xs[a + 1..]| && xs[a + 1..][b] == p;
      assert xs[a + 1 + b] == p;
    }
  }

  function Filter<T(!new)>(xs: seq<T>, keep: T -> bool): (r: seq<T>)
    ensures forall x :: x in r <==> x in xs && keep(x)
  {
    if xs == [] then []
    else if keep(xs[0]) then [xs[0]] + Filter(xs[1..], keep)
    else Filter(xs[1..], keep)
  }

  lemma {:induction false} FilterKeepsDistinctness<T(!new)>(xs: seq<T>, keep: T -> bool, key: T -> string)
    requires DistinctBy(xs, key)
    ensures DistinctBy(Filter(xs, keep), key)
  {
    if xs != [] {
      FilterKeepsDistinctness(xs[1..], keep, key);
      var rest := Filter(xs[1..], keep);
      forall i | 0 <= i < |rest| ensures key(xs[0]) != key(rest[i]) {
        assert rest[i] in rest;
        var j :| 0 <= j < |xs[1..]| && xs[1..][j] == rest[i];
        assert xs[j + 1] == rest[i];
      }
    }
  }

  lemma SortKeepsElements<T(!new)>(xs: seq<T>, key: T -> string)
    ensures forall x :: x in SortBy(xs, key) <==> x in xs
  {
    assert forall x :: x in SortBy(xs, key) <==> x in multiset(SortBy(xs, key));
  }

  /** Distinct keys that are sorted ascend. */
  lemma SortedAscends<T>(xs: seq<T>, key: T -> string)
    requires SortedBy(xs, key) && DistinctBy(xs, key)
    ensures forall i, j | 0 <= i < j < |xs| :: Precedes(key(xs[i]), key(xs[j]))
  {
    hide Precedes, AtMost;
    forall i, j | 0 <= i < j < |xs| ensures Precedes(key(xs[i]), key(xs[j])) {
      AtMostIs(key(xs[i]), key(xs[j]));
    }
  }
}
