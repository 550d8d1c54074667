/**
 The text ParamsFingerprint hashes: the lower-cased kind and the parameters in key order,
 every part ended by a NUL.
 */
module ParamsText {
  import opened Texts

  const NUL: char := '\0'

  function LowerChar(c: char): char {
    if 'A' <= c <= 'Z' then c - 'A' + 'a' else c
  }

  function Lower(s: string): string {
    seq(|s|, i requires 0 <= i < |s| => LowerChar(s[i]))
  }

  /** The two cases of one ASCII letter. */
  predicate CasesOf(upper: char, lower: char) { 'A' <= upper <= 'Z' && lower as int == upper as int + 32 }

  /** The same text but for the case of ASCII letters. */
  predicate SameLetters(a: string, b: string) {
    |a| == |b| && forall i :: 0 <= i < |a| ==> a[i] == b[i] || CasesOf(a[i], b[i]) || CasesOf(b[i], a[i])
  }

  /** What lower-casing identifies. */
  lemma LowerMeans(a: string, b: string)
    ensures Lower(a) == Lower(b) <==> SameLetters(a, b)
  {
    if Lower(a) == Lower(b) {
      assert |a| == |Lower(a)| == |b|;
      forall i | 0 <= i < |a| ensures LowerChar(a[i]) == LowerChar(b[i]) {
        assert LowerChar(a[i]) == Lower(a)[i] == Lower(b)[i] == LowerChar(b[i]);
      }
    }
  }

  predicate NulFree(kind: string, params: map<string, string>) {
    NUL !in kind && forall k :: k in params ==> NUL !in k && NUL !in params[k]
  }

  /** Key, NUL, value, NUL for each key in turn. */
  function Pairs(keys: seq<string>, params: map<string, string>): string
    requires forall k :: k in keys ==> k in params
  {
    if keys == [] then []
    else keys[0] + [NUL] + (params[keys[0]] + [NUL] + Pairs(keys[1..], params))
  }

  /** Inserts a key at its place in an increasing list. */
  function Insert(k: string, ks: seq<string>): seq<string> {
    if ks == [] then [k]
    else if Leq(k, ks[0]) then [k] + ks
    else [ks[0]] + Insert(k, ks[1..])
  }

  lemma {:induction false} InsertIncreasing(k: string, ks: seq<string>)
    requires Increasing(ks) && k !in ks
    ensures Increasing(Insert(k, ks))
    ensures forall x :: x in Insert(k, ks) <==> x == k || x in ks
  {
    if ks == [] {
    } else if Leq(k, ks[0]) {
      forall j | 0 <= j < |ks| ensures Leq(k, ks[j]) {
        LeqReflexive(ks[0]);
        LeqTransitive(k, ks[0], ks[j]);
      }
    } else {
      LeqTotal(k, ks[0]);
      InsertIncreasing(k, ks[1..]);
      var rest := Insert(k, ks[1..]);
      assert ks == [ks[0]] + ks[1..];
      forall j | 0 <= j < |rest| ensures Leq(ks[0], rest[j]) && ks[0] != rest[j] {
        assert rest[j] in rest;
      }
    }
  }

  ghost predicate Lists(keys: seq<string>, s: set<string>) {
    Increasing(keys) && forall k :: k in keys <==> k in s
  }

  /** The keys of a map in increasing order. */
  ghost function SortedKeys(s: set<string>): (keys: seq<string>)
    ensures Lists(keys, s)
  {
    if s == {} then []
    else
      var k :| k in s;
      var rest := SortedKeys(s - {k});
      InsertIncreasing(k, rest);
      Insert(k, rest)
  }

  /** The text that is hashed. */
  ghost function Encode(kind: string, params: map<string, string>): string {
    Lower(kind) + [NUL] + Pairs(SortedKeys(params.Keys), params)
  }

  /** Collects the keys in whatever order the map yields them and sorts them. */
  method CollectKeys(s: set<string>) returns (keys: seq<string>)
    ensures keys == SortedKeys(s)
  {
    keys := [];
    var todo := s;
    while todo != {}
      invariant todo <= s
      invariant Lists(keys, s - todo)
      decreases todo
    {
      var k :| k in todo;
      InsertIncreasing(k, keys);
      keys := Insert(k, keys);
      todo := todo - {k};
    }
    IncreasingUnique(keys, SortedKeys(s));
  }

  lemma PairsStep(done: string, keys: seq<string>, params: map<string, string>)
    requires keys != [] && forall k :: k in keys ==> k in params
    ensures done + Pairs(keys, params) == (done + keys[0] + [NUL] + params[keys[0]] + [NUL]) + Pairs(keys[1..], params)
  {}

  method WritePairs(keys: seq<string>, params: map<string, string>) returns (body: string)
    requires forall k :: k in keys ==> k in params
    ensures body == Pairs(keys, params)
  {
    body := [];
    var i := 0;
    while i < |keys|
      invariant 0 <= i <= |keys|
      invariant body + Pairs(keys[i..], params) == Pairs(keys, params)
    {
      PairsStep(body, keys[i..], params);
      assert keys[i..][1..] == keys[i + 1..];
      body := body + keys[i] + [NUL] + params[keys[i]] + [NUL];
      i := i + 1;
    }
    assert keys[i..] == [];
    assert body + [] == body;
  }

  /** The text does not depend on the order in which the map yields its keys. */
  method ParamsFingerprint(kind: string, params: map<string, string>) returns (text: string)
    ensures text == Encode(kind, params)
  {
    var keys := CollectKeys(params.Keys);
    var body := WritePairs(keys, params);
    text := Lower(kind) + [NUL] + body;
  }

  lemma {:induction false} PairsInjective(a: seq<string>, p: map<string, string>, b: seq<string>, q: map<string,
                                          string>)
    requires (forall k :: k in a ==> k in p) && (forall k :: k in b ==> k in q)
    requires NulFree("", p) && NulFree("", q)
    requires Pairs(a, p) == Pairs(b, q)
    ensures a == b && forall k :: k in a ==> p[k] == q[k]
  {
    if a == [] || b == [] {
    } else {
      SplitUnique(NUL, a[0], p[a[0]] + [NUL] + Pairs(a[1..], p), b[0], q[b[0]] + [NUL] + Pairs(b[1..], q));
      SplitUnique(NUL, p[a[0]], Pairs(a[1..], p), q[b[0]], Pairs(b[1..], q));
      PairsInjective(a[1..], p, b[1..], q);
      assert a == [a[0]] + a[1..] && b == [b[0]] + b[1..];
    }
  }

  /** For NUL-free strings the text determines the kind up to letter case and the parameters. */
  lemma EncodeInjective(kind: string, p: map<string, string>, kind': string, q: map<string, string>)
    requires NulFree(kind, p) && NulFree(kind', q)
    ensures Encode(kind, p) == Encode(kind', q) <==> SameLetters(kind, kind') && p == q
  {
    LowerMeans(kind, kind');
    if Encode(kind, p) == Encode(kind', q) {
      assert forall c: char :: LowerChar(c) == NUL ==> c == NUL;
      SplitUnique(NUL, Lower(kind), Pairs(SortedKeys(p.Keys), p), Lower(kind'), Pairs(SortedKeys(q.Keys), q));
      PairsInjective(SortedKeys(p.Keys), p, SortedKeys(q.Keys), q);
      assert p.Keys == q.Keys;
    }
  }

  /** A NUL inside a value can make two different parameter maps look alike. */
  lemma NulCollides(kind: string)
    ensures var p, q := map["a" := "b\0c\0d"], map["a" := "b", "c" := "d"];
            p != q && Encode(kind, p) == Encode(kind, q)
  {
    var p, q := map["a" := "b\0c\0d"], map["a" := "b", "c" := "d"];
    assert "c" in q && "c" !in p;
    IncreasingUnique(["a"], SortedKeys(p.Keys));
    IncreasingUnique(["a", "c"], SortedKeys(q.Keys));
    assert ["a"][1..] == [] && ["a", "c"][1..] == ["c"] && ["c"][1..] == [];
    assert Pairs([], p) == [] && Pairs([], q) == [];
    assert Pairs(["a"], p) == "a\0b\0c\0d\0";
    assert Pairs(["c"], q) == "c\0d\0";
    assert Pairs(["a", "c"], q) == "a\0b\0c\0d\0";
  }
}
