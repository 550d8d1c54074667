/** Sorting rows by an integer key. */
module Sorting {
  predicate SortedBy<T>(s: seq<T>, key: T -> int) {
    forall i, j :: 0 <= i < j < |s| ==> key(s[i]) <= key(s[j])
  }

  /** No two rows share a key. */
  predicate Keyed<T>(s: seq<T>, key: T -> int) {
    forall i, j :: 0 <= i < j < |s| ==> key(s[i]) != key(s[j])
  }

  /** Rows with the same key are the same. */
  ghost predicate KeysTell<T(!new)>(s: seq<T>, key: T -> int) {
    forall x, y :: x in s && y in s && key(x) == key(y) ==> x == y
  }

  ghost predicate SortOf<T>(out: seq<T>, rows: seq<T>, key: T -> int) {
    multiset(out) == multiset(rows) && SortedBy(out, key)
  }

  function InsertAt<T>(s: seq<T>, k: nat, x: T): (r: seq<T>)
    requires k <= |s|
    ensures |r| == |s| + 1
    ensures forall i :: 0 <= i < |r| ==> r[i] == if i < k then s[i] else if i == k then x else s[i - 1]
  {
    s[..k] + [x] + s[k..]
  }

  lemma InsertedBag<T>(s: seq<T>, k: nat, x: T)
    requires k <= |s|
    ensures multiset(InsertAt(s, k, x)) == multiset(s) + multiset{x}
  {
    assert s == s[..k] + s[k..];
  }

  lemma InsertedSorted<T>(s: seq<T>, k: nat, x: T, key: T -> int)
    requires k <= |s| && SortedBy(s, key)
    requires (forall j :: 0 <= j < k ==> key(s[j]) <= key(x)) && (k < |s| ==> key(x) < key(s[k]))
    ensures SortedBy(InsertAt(s, k, x), key)
  {
    var r := InsertAt(s, k, x);
    forall i, j | 0 <= i < j < |r| ensures key(r[i]) <= key(r[j]) {
      assert k < |s| && k < j ==> key(s[k]) <= key(s[j - 1]) || j - 1 == k;
    }
  }

  /** Where a row belongs in a sorted list: behind all that are not greater. */
  method Position<T>(s: seq<T>, x: T, key: T -> int) returns (k: nat)
    requires SortedBy(s, key)
    ensures k <= |s| && (forall j :: 0 <= j < k ==> key(s[j]) <= key(x)) && (k < |s| ==> key(x) < key(s[k]))
  {
    k := 0;
    while k < |s| && key(s[k]) <= key(x)
      invariant 0 <= k <= |s| && forall j :: 0 <= j < k ==> key(s[j]) <= key(x)
    {
      k := k + 1;
    }
  }

  lemma BagSnoc<T>(s: seq<T>, i: nat)
    requires i < |s|
    ensures multiset(s[..i + 1]) == multiset(s[..i]) + multiset{s[i]}
  {
    assert s[..i + 1] == s[..i] + [s[i]];
  }

  method SortBy<T>(rows: seq<T>, key: T -> int) returns (out: seq<T>)
    ensures SortOf(out, rows, key)
  {
    out := [];
    for i := 0 to |rows|
      invariant SortOf(out, rows[..i], key)
    {
      var k := Position(out, rows[i], key);
      InsertedSorted(out, k, rows[i], key);
      InsertedBag(out, k, rows[i]);
      BagSnoc(rows, i);
      out := InsertAt(out, k, rows[i]);
    }
    assert rows[..|rows|] == rows;
  }

  lemma Least<T>(a: seq<T>, b: seq<T>, key: T -> int)
    requires SortedBy(a, key) && SortedBy(b, key) && multiset(a) == multiset(b) && a != []
    ensures b != [] && key(a[0]) <= key(b[0])
  {
    assert a[0] in multiset(a) && |multiset(a)| == |a| && |multiset(b)| == |b|;
    assert b[0] in multiset(b);
    assert b[0] in a;
  }

  lemma KeyedPerm<T(!new)>(a: seq<T>, b: seq<T>, key: T -> int)
    requires multiset(a) == multiset(b) && Keyed(a, key)
    ensures KeysTell(b, key)
  {
    forall x, y | x in b && y in b && key(x) == key(y) ensures x == y {
      assert x in multiset(b) && y in multiset(b);
      assert x in a && y in a;
    }
  }

  lemma SameRest<T>(a: seq<T>, b: seq<T>)
    requires a != [] && b != [] && a[0] == b[0] && multiset(a) == multiset(b)
    ensures multiset(a[1..]) == multiset(b[1..])
  {
    assert a == [a[0]] + a[1..] && b == [b[0]] + b[1..];
    assert multiset(a[1..]) == multiset(a) - multiset{a[0]};
    assert multiset(b[1..]) == multiset(b) - multiset{b[0]};
  }

  lemma RestSorted<T(!new)>(s: seq<T>, key: T -> int)
    requires s != [] && SortedBy(s, key)
    ensures SortedBy(s[1..], key) && (KeysTell(s, key) ==> KeysTell(s[1..], key))
  {
    assert forall x :: x in s[1..] ==> x in s;
  }

  lemma SameFirst<T(!new)>(a: seq<T>, b: seq<T>, key: T -> int)
    requires SortedBy(a, key) && SortedBy(b, key) && multiset(a) == multiset(b) && a != [] && KeysTell(a, key)
    ensures b != [] && a[0] == b[0]
  {
    Least(a, b, key);
    Least(b, a, key);
    assert b[0] in multiset(b);
    assert b[0] in a;
  }

  /** Rows with distinct keys have one sorted order. */
  lemma {:induction false} SortUnique<T(!new)>(a: seq<T>, b: seq<T>, key: T -> int)
    requires SortedBy(a, key) && SortedBy(b, key) && multiset(a) == multiset(b) && KeysTell(a, key)
    ensures a == b
  {
    if a == [] {
      assert |multiset(b)| == |b|;
    } else {
      SameFirst(a, b, key);
      SameRest(a, b);
      RestSorted(a, key);
      RestSorted(b, key);
      SortUnique(a[1..], b[1..], key);
      assert a == [a[0]] + a[1..] && b == [b[0]] + b[1..];
    }
  }
}
