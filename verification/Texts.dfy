/** Separators, and the byte order on strings. */
module Texts {
  /** What comes before the first separator is determined, and so is the rest. */
  lemma SplitUnique<T>(sep: T, a: seq<T>, x: seq<T>, b: seq<T>, y: seq<T>)
    requires sep !in a && sep !in b && a + [sep] + x == b + [sep] + y
    ensures a == b && x == y
  {
    var s := a + [sep] + x;
    assert s[|a|] == sep && s[|b|] == sep;
    assert forall i :: 0 <= i < |a| ==> s[i] == a[i];
    assert forall i :: 0 <= i < |b| ==> s[i] == b[i];
    assert a == s[..|a|] && b == s[..|b|];
    assert x == s[|a| + 1..] && y == s[|b| + 1..];
  }

  /** And so are the two sides of the last one. */
  lemma SplitLastUnique(sep: char, a: string, x: string, b: string, y: string)
    requires sep !in x && sep !in y && a + [sep] + x == b + [sep] + y
    ensures a == b && x == y
  {
    var s := a + [sep] + x;
    assert s[|a|] == sep && s[|b|] == sep;
    assert forall i :: |a| < i < |s| ==> s[i] == x[i - |a| - 1];
    assert forall i :: |b| < i < |s| ==> s[i] == y[i - |b| - 1];
    assert a == s[..|a|] && b == s[..|b|];
    assert x == s[|a| + 1..] && y == s[|b| + 1..];
  }

  function Split(sep: char, s: string): (parts: seq<string>)
    ensures parts != []
  {
    if s == [] then [[]]
    else
      var parts := Split(sep, s[1..]);
      if s[0] == sep then [[]] + parts else [[s[0]] + parts[0]] + parts[1..]
  }

  function Join(sep: char, parts: seq<string>): string {
    if parts == [] then [] else if |parts| == 1 then parts[0] else parts[0] + [sep] + Join(sep, parts[1..])
  }

  predicate Without(sep: char, parts: seq<string>) { forall i :: 0 <= i < |parts| ==> sep !in parts[i] }

  /** Split and Join are inverse: on every text, and on separator-free parts. */
  lemma {:induction false} JoinSplit(sep: char, s: string)
    ensures Join(sep, Split(sep, s)) == s && Without(sep, Split(sep, s))
  {
    if s == [] {
    } else {
      JoinSplit(sep, s[1..]);
      var rest, parts := Split(sep, s[1..]), Split(sep, s);
      assert parts[1..] == if s[0] == sep then rest else rest[1..];
      assert s == [s[0]] + s[1..];
      assert forall i :: 1 <= i < |parts| ==> parts[i] in rest;
    }
  }

  lemma {:induction false} SplitFront(sep: char, a: string, s: string)
    requires sep !in a
    ensures Split(sep, a + [sep] + s) == [a] + Split(sep, s) && Split(sep, a) == [a]
  {
    var t := a + [sep] + s;
    if a == [] {
      assert t == [sep] + s && t[1..] == s;
    } else {
      assert t[1..] == a[1..] + [sep] + s;
      SplitFront(sep, a[1..], s);
      assert a == [a[0]] + a[1..];
    }
  }

  lemma {:induction false} SplitCount(sep: char, a: string, s: string)
    ensures |Split(sep, a + [sep] + s)| == |Split(sep, a)| + |Split(sep, s)|
  {
    var t := a + [sep] + s;
    if a == [] {
      assert t == [sep] + s && t[1..] == s;
    } else {
      assert t[1..] == a[1..] + [sep] + s;
      SplitCount(sep, a[1..], s);
    }
  }

  lemma {:induction false} SplitJoin(sep: char, parts: seq<string>)
    requires parts != [] && Without(sep, parts)
    ensures Split(sep, Join(sep, parts)) == parts
  {
    if |parts| == 1 {
      SplitFront(sep, parts[0], []);
    } else {
      SplitJoin(sep, parts[1..]);
      SplitFront(sep, parts[0], Join(sep, parts[1..]));
    }
  }

  /** The order sort.Strings sorts by. */
  predicate Leq(a: string, b: string) {
    a == [] || (b != [] && (a[0] < b[0] || (a[0] == b[0] && Leq(a[1..], b[1..]))))
  }

  lemma LeqReflexive(a: string)
    ensures Leq(a, a)
  {}

  lemma LeqTotal(a: string, b: string)
    ensures Leq(a, b) || Leq(b, a)
  {}

  lemma {:induction false} LeqAntisymmetric(a: string, b: string)
    requires Leq(a, b) && Leq(b, a)
    ensures a == b
  {
    if a == [] {
    } else {
      LeqAntisymmetric(a[1..], b[1..]);
      assert a == [a[0]] + a[1..] && b == [b[0]] + b[1..];
    }
  }

  lemma {:induction false} LeqTransitive(a: string, b: string, c: string)
    requires Leq(a, b) && Leq(b, c)
    ensures Leq(a, c)
  {
    if a != [] && a[0] == b[0] && b[0] == c[0] {
      LeqTransitive(a[1..], b[1..], c[1..]);
    }
  }

  /** Strictly increasing: sorted and without repetition. */
  predicate Increasing(ks: seq<string>) {
    forall i, j :: 0 <= i < j < |ks| ==> Leq(ks[i], ks[j]) && ks[i] != ks[j]
  }

  /** A set of strings has one increasing listing. */
  lemma {:induction false} IncreasingUnique(a: seq<string>, b: seq<string>)
    requires Increasing(a) && Increasing(b)
    requires forall k :: k in a <==> k in b
    ensures a == b
  {
    if a == [] {
      assert forall i :: 0 <= i < |b| ==> b[i] in b;
    } else {
      assert a[0] in b && (b != [] ==> b[0] in a);
      var i :| 0 <= i < |b| && b[i] == a[0];
      var j :| 0 <= j < |a| && a[j] == b[0];
      if i != 0 {
        assert j != 0;
        LeqAntisymmetric(a[0], b[0]);
      }
      assert a == [a[0]] + a[1..] && b == [b[0]] + b[1..];
      forall k ensures k in a[1..] <==> k in b[1..] {
        assert k in a[1..] <==> k in a && k != a[0];
        assert k in b[1..] <==> k in b && k != b[0];
      }
      IncreasingUnique(a[1..], b[1..]);
    }
  }
}
