/**
 Decoding of Modbus registers: from the words a client returned to the exact integer, in the
 byte and word orders a tag may ask for. Floats stop at their bit pattern.
 */
module Modbus {
  import opened Options

  type Byte = n: int | 0 <= n < 0x100

  type Word = n: int | 0 <= n < 0x1_0000

  datatype DataType = Int16 | UInt16 | Int32 | UInt32 | Int64 | UInt64 | Float32 | Float64 | Unsupported

  /** The order settings: bytes "little", words "low_first". */
  datatype Order = Order(little: bool, lowFirst: bool)

  /** Registers a value of the type takes. */
  function Words(t: DataType): nat {
    match t
    case Int16 | UInt16 | Unsupported => 1
    case Int32 | UInt32 | Float32 => 2
    case Int64 | UInt64 | Float64 => 4
  }

  predicate Signed(t: DataType) { t == Int16 || t == Int32 || t == Int64 }

  function QuantityFor(t: DataType, override: Word): nat { if override > 0 then override else Words(t) }

  // ---- Numbers and bytes ----

  function Pow(n: nat): nat { if n == 0 then 1 else 256 * Pow(n - 1) }

  /** Half of it, where negative numbers begin. */
  function Half(n: nat): nat { if n == 0 then 0 else 128 * Pow(n - 1) }

  /** The number a big-endian byte string writes. */
  function Value(b: seq<Byte>): nat {
    if b == [] then 0 else Value(b[..|b| - 1]) * 256 + b[|b| - 1]
  }

  /** The n lowest bytes of a number, highest first. */
  function BytesOf(v: nat, n: nat): (b: seq<Byte>)
    ensures |b| == n
  {
    if n == 0 then [] else BytesOf(v / 256, n - 1) + [v % 256]
  }

  lemma {:induction false} ValueOfBytes(v: nat, n: nat)
    requires v < Pow(n)
    ensures Value(BytesOf(v, n)) == v
  {
    if n > 0 {
      ValueOfBytes(v / 256, n - 1);
      assert BytesOf(v, n)[..n - 1] == BytesOf(v / 256, n - 1);
    }
  }

  lemma {:induction false} BytesOfValue(b: seq<Byte>)
    ensures Value(b) < Pow(|b|) && BytesOf(Value(b), |b|) == b
  {
    if b == [] {
    } else {
      var front := b[..|b| - 1];
      BytesOfValue(front);
      assert Value(b) / 256 == Value(front) && Value(b) % 256 == b[|b| - 1];
      assert b == front + [b[|b| - 1]];
    }
  }

  /** Two's complement. */
  function Signing(v: nat, n: nat, signed: bool): int {
    if signed && v >= Half(n) then v - Pow(n) else v
  }

  predicate InRange(v: int, n: nat, signed: bool) {
    var half: int := Half(n);
    if signed then -half <= v < half else 0 <= v < Pow(n)
  }

  function Unsigning(v: int, n: nat): int { if v < 0 then v + Pow(n) else v }

  lemma SigningInverse(v: int, n: nat, signed: bool)
    requires InRange(v, n, signed) && n > 0
    ensures 0 <= Unsigning(v, n) < Pow(n) && Signing(Unsigning(v, n), n, signed) == v
  {}

  lemma UnsigningInverse(v: nat, n: nat, signed: bool)
    requires v < Pow(n) && n > 0
    ensures InRange(Signing(v, n, signed), n, signed) && Unsigning(Signing(v, n, signed), n) == v
  {}

  // ---- Words and bytes ----

  function Reverse<T>(s: seq<T>): (r: seq<T>)
    ensures |r| == |s| && forall i :: 0 <= i < |s| ==> r[i] == s[|s| - 1 - i]
  {
    seq(|s|, i requires 0 <= i < |s| => s[|s| - 1 - i])
  }

  /** A word from its high and its low byte. */
  function Pair(hi: Byte, lo: Byte): (w: Word)
    ensures w / 256 == hi && w % 256 == lo
  {
    var high: int := hi;
    high * 256 + lo
  }

  function Unpacked(ws: seq<Word>): (b: seq<Byte>)
    ensures |b| == 2 * |ws|
  {
    seq(2 * |ws|, i requires 0 <= i < 2 * |ws| => if i % 2 == 0 then ws[i / 2] / 256 else ws[i / 2] % 256)
  }

  function Packed(b: seq<Byte>): (ws: seq<Word>)
    ensures |ws| == |b| / 2
  {
    seq(|b| / 2, i requires 0 <= i < |b| / 2 => Pair(b[2 * i], b[2 * i + 1]))
  }

  lemma UnpackedAt(ws: seq<Word>, i: nat)
    requires i < |ws|
    ensures Unpacked(ws)[2 * i] == ws[i] / 256 && Unpacked(ws)[2 * i + 1] == ws[i] % 256
  {}

  lemma PairOfWord(w: Word)
    ensures Pair(w / 256, w % 256) == w
  {}

  lemma UnpackedConcat(x: seq<Word>, y: seq<Word>)
    ensures Unpacked(x + y) == Unpacked(x) + Unpacked(y)
  {
    forall i | 0 <= i < 2 * |x + y| ensures Unpacked(x + y)[i] == (Unpacked(x) + Unpacked(y))[i] {
      if i >= 2 * |x| {
        assert (i - 2 * |x|) / 2 == i / 2 - |x| && (i - 2 * |x|) % 2 == i % 2;
      }
    }
  }

  lemma PackedUnpacked(ws: seq<Word>)
    ensures Packed(Unpacked(ws)) == ws
  {
    forall i | 0 <= i < |ws| ensures Packed(Unpacked(ws))[i] == ws[i] {
      UnpackedAt(ws, i);
      PairOfWord(ws[i]);
    }
  }

  lemma UnpackedPacked(b: seq<Byte>)
    requires |b| % 2 == 0
    ensures Unpacked(Packed(b)) == b
  {
    forall i | 0 <= i < |b| ensures Unpacked(Packed(b))[i] == b[i] {
      var k := i / 2;
      assert Packed(b)[k] == Pair(b[2 * k], b[2 * k + 1]);
      assert Packed(b)[k] / 256 == b[2 * k] && Packed(b)[k] % 256 == b[2 * k + 1];
    }
  }

  /** The word swap: whole words in opposite order, an odd byte at the end cleared. */
  function Swapped(b: seq<Byte>): (r: seq<Byte>)
    ensures |r| == |b|
  {
    var words := |b| / 2;
    seq(|b|, k requires 0 <= k < |b| => if k < 2 * words then b[2 * (words - 1 - k / 2) + k % 2] else 0)
  }

  lemma SwappedWord(b: seq<Byte>, i: nat)
    requires i < |b| / 2
    ensures var hi := (|b| / 2 - 1 - i) * 2; Swapped(b)[2 * i] == b[hi] && Swapped(b)[2 * i + 1] == b[hi + 1]
  {}

  method SwapWords(buf: array<Byte>) returns (out: array<Byte>)
    ensures fresh(out) && out[..] == Swapped(buf[..])
  {
    out := new Byte[buf.Length](_ => 0);
    var words := buf.Length / 2;
    for i := 0 to words
      invariant forall k :: 0 <= k < 2 * i ==> out[k] == Swapped(buf[..])[k]
      invariant forall k :: 2 * i <= k < out.Length ==> out[k] == 0
    {
      var srcHi := (words - 1 - i) * 2;
      out[i * 2] := buf[srcHi];
      out[i * 2 + 1] := buf[srcHi + 1];
      SwappedWord(buf[..], i);
    }
  }

  lemma SwappedIsReversed(ws: seq<Word>)
    ensures Swapped(Unpacked(ws)) == Unpacked(Reverse(ws))
  {
    var n := |ws|;
    forall k | 0 <= k < 2 * n ensures Swapped(Unpacked(ws))[k] == Unpacked(Reverse(ws))[k] {
      var j := 2 * (n - 1 - k / 2) + k % 2;
      assert j / 2 == n - 1 - k / 2 && j % 2 == k % 2;
      assert Reverse(ws)[k / 2] == ws[j / 2];
    }
  }

  /** Swapping twice gives the buffer back exactly when no byte was cleared. */
  lemma SwapInvolution(b: seq<Byte>)
    ensures Swapped(Swapped(b)) == b <==> |b| % 2 == 0 || b[|b| - 1] == 0
  {
    var s, n := Swapped(b), |b| / 2;
    forall k | 0 <= k < 2 * n ensures Swapped(s)[k] == b[k] {
      var j := 2 * (n - 1 - k / 2) + k % 2;
      assert j / 2 == n - 1 - k / 2 && j % 2 == k % 2;
      assert Swapped(s)[k] == s[j];
    }
    if |b| % 2 == 1 {
      assert Swapped(s)[2 * n] == 0;
    }
  }

  // ---- Decoding ----

  function DecodeNumeric(buf: seq<Byte>, t: DataType, little: bool): Option<int> {
    var n := 2 * Words(t);
    if t.Unsupported? || |buf| < n then None
    else
      var b := if little then Reverse(buf[..n]) else buf[..n];
      Some(Signing(Value(b), n, Signed(t)))
  }

  /** The buffer building and decoding of a register read. */
  method DecodeRegisters(regs: seq<Word>, t: DataType, o: Order) returns (r: Option<int>)
    ensures r == Decoded(regs, t, o)
  {
    var buf := new Byte[|regs| * 2];
    for i := 0 to |regs|
      invariant forall k :: 0 <= k < 2 * i ==> buf[k] == Unpacked(regs)[k]
    {
      buf[i * 2] := regs[i] / 256;
      buf[i * 2 + 1] := regs[i] % 256;
      assert Unpacked(regs)[2 * i] == regs[i] / 256 && Unpacked(regs)[2 * i + 1] == regs[i] % 256;
    }
    assert buf[..] == Unpacked(regs);
    if o.lowFirst && |regs| >= 2 {
      SwappedIsReversed(regs);
      buf := SwapWords(buf);
    } else if o.lowFirst {
      assert Reverse(regs) == regs;
    }
    r := DecodeNumeric(buf[..], t, o.little);
  }

  /** Its meaning: the words in value order, then their bytes. */
  function Decoded(regs: seq<Word>, t: DataType, o: Order): Option<int> {
    DecodeNumeric(Unpacked(if o.lowFirst then Reverse(regs) else regs), t, o.little)
  }

  /** The registers a device sends for a value. */
  function Encoded(v: int, t: DataType, o: Order): seq<Word>
    requires InRange(v, 2 * Words(t), Signed(t))
  {
    Arranged(BytesOf(Unsigning(v, 2 * Words(t)), 2 * Words(t)), o)
  }

  /** The bytes of a value, highest first, put into registers. */
  function Arranged(b: seq<Byte>, o: Order): seq<Word> {
    var ws := Packed(if o.little then Reverse(b) else b);
    if o.lowFirst then Reverse(ws) else ws
  }

  lemma ReverseTwice<T>(s: seq<T>)
    ensures Reverse(Reverse(s)) == s
  {}

  function Number(b: seq<Byte>, t: DataType): Option<int> { Some(Signing(Value(b), |b|, Signed(t))) }

  /** Decoding a natural quantity, from the words in value order. */
  lemma DecodedWords(regs: seq<Word>, ws: seq<Word>, buf: seq<Byte>, t: DataType, o: Order)
    requires ws == (if o.lowFirst then Reverse(regs) else regs) && Unpacked(ws) == buf
    requires |regs| == Words(t) && !t.Unsupported?
    ensures Decoded(regs, t, o) == Number(if o.little then Reverse(buf) else buf, t)
  {
    assert buf[..2 * Words(t)] == buf;
  }

  lemma NumberOfBytes(v: int, n: nat, signed: bool)
    requires InRange(v, n, signed) && n > 0
    ensures Unsigning(v, n) >= 0 && Signing(Value(BytesOf(Unsigning(v, n), n)), n, signed) == v
  {
    SigningInverse(v, n, signed);
    ValueOfBytes(Unsigning(v, n), n);
  }

  lemma BytesOfNumber(b: seq<Byte>, signed: bool)
    requires b != []
    ensures var v := Signing(Value(b), |b|, signed);
      InRange(v, |b|, signed) && Unsigning(v, |b|) >= 0 && BytesOf(Unsigning(v, |b|), |b|) == b
  {
    BytesOfValue(b);
    UnsigningInverse(Value(b), |b|, signed);
  }

  lemma DecodeArranged(b: seq<Byte>, t: DataType, o: Order)
    requires !t.Unsupported? && |b| == 2 * Words(t)
    ensures Decoded(Arranged(b, o), t, o) == Number(b, t)
  {
    var wire := if o.little then Reverse(b) else b;
    ReverseTwice(b);
    ReverseTwice(Packed(wire));
    UnpackedPacked(wire);
    DecodedWords(Arranged(b, o), Packed(wire), wire, t, o);
  }

  /** Every value in the type's range comes back, in every order. */
  lemma DecodeEncoded(v: int, t: DataType, o: Order)
    requires !t.Unsupported? && InRange(v, 2 * Words(t), Signed(t))
    ensures Decoded(Encoded(v, t, o), t, o) == Some(v)
  {
    var n := 2 * Words(t);
    NumberOfBytes(v, n, Signed(t));
    DecodeArranged(BytesOf(Unsigning(v, n), n), t, o);
  }

  /** The bytes of a reading, highest first, and back. */
  function Collected(regs: seq<Word>, o: Order): (b: seq<Byte>)
    ensures |b| == 2 * |regs|
  {
    var wire := Unpacked(if o.lowFirst then Reverse(regs) else regs);
    if o.little then Reverse(wire) else wire
  }

  lemma ArrangedCollected(regs: seq<Word>, o: Order)
    ensures Arranged(Collected(regs, o), o) == regs
  {
    var ws := if o.lowFirst then Reverse(regs) else regs;
    ReverseTwice(Unpacked(ws));
    PackedUnpacked(ws);
    ReverseTwice(regs);
  }

  /** And every reading of the natural quantity is the encoding of the value decoded from it. */
  lemma EncodeDecoded(regs: seq<Word>, t: DataType, o: Order)
    requires !t.Unsupported? && |regs| == Words(t)
    ensures Decoded(regs, t, o).Some?
    ensures var v := Decoded(regs, t, o).value; InRange(v, 2 * Words(t), Signed(t)) && Encoded(v, t, o) == regs
  {
    var ws := if o.lowFirst then Reverse(regs) else regs;
    DecodedWords(regs, ws, Unpacked(ws), t, o);
    BytesOfNumber(Collected(regs, o), Signed(t));
    ArrangedCollected(regs, o);
  }

  /** A read succeeds exactly for a known type whose quantity was not overridden too small. */
  lemma DecodesWhen(regs: seq<Word>, t: DataType, o: Order, override: Word)
    requires |regs| == QuantityFor(t, override)
    ensures Decoded(regs, t, o).Some? <==> !t.Unsupported? && (override == 0 || override >= Words(t))
  {}

  /** With more registers than the type takes, the first ones count, or in low_first the last ones. */
  lemma ExtraRegisters(regs: seq<Word>, t: DataType, o: Order)
    requires |regs| >= Words(t)
    ensures Decoded(regs, t, o) == Decoded(if o.lowFirst then regs[|regs| - Words(t)..] else regs[..Words(t)], t, o)
  {
    var w := Words(t);
    var used := if o.lowFirst then regs[|regs| - w..] else regs[..w];
    var all, some := if o.lowFirst then Reverse(regs) else regs, if o.lowFirst then Reverse(used) else used;
    assert some == all[..w] && all == some + all[w..];
    UnpackedConcat(some, all[w..]);
    assert Unpacked(all)[..2 * w] == Unpacked(some) == Unpacked(some)[..2 * w];
  }

  // ---- The types ----

  lemma Powers()
    ensures Pow(2) == 0x1_0000 && Pow(4) == 0x1_0000_0000 && Pow(8) == 0x1_0000_0000_0000_0000
    ensures Half(2) == 0x8000 && Half(4) == 0x8000_0000 && Half(8) == 0x8000_0000_0000_0000
  {
    assert Pow(1) == 0x100 && Pow(2) == 0x1_0000 && Pow(3) == 0x100_0000;
    assert Pow(4) == 0x1_0000_0000 && Pow(5) == 0x100_0000_0000 && Pow(6) == 0x1_0000_0000_0000;
    assert Pow(7) == 0x100_0000_0000_0000;
  }

  /** The registers each type takes and the values it has; floats are bit patterns. */
  lemma TypeRanges(v: int, t: DataType)
    requires !t.Unsupported?
    ensures Words(t) == match t case Int16 | UInt16 => 1 case Int32 | UInt32 | Float32 => 2 case _ => 4
    ensures InRange(v, 2 * Words(t), Signed(t)) <==>
      match t
      case Int16 => -0x8000 <= v <= 0x7FFF
      case UInt16 => 0 <= v <= 0xFFFF
      case Int32 => -0x8000_0000 <= v <= 0x7FFF_FFFF
      case UInt32 => 0 <= v <= 0xFFFF_FFFF
      case Float32 => 0 <= v <= 0xFFFF_FFFF
      case Int64 => -0x8000_0000_0000_0000 <= v <= 0x7FFF_FFFF_FFFF_FFFF
      case UInt64 => 0 <= v <= 0xFFFF_FFFF_FFFF_FFFF
      case Float64 => 0 <= v <= 0xFFFF_FFFF_FFFF_FFFF
  {
    Powers();
  }

  /** Registers of all ones are -1 to a signed type and the largest value to an unsigned one. */
  lemma AllOnes(regs: seq<Word>, t: DataType, o: Order)
    requires !t.Unsupported? && |regs| == Words(t) && forall i :: 0 <= i < |regs| ==> regs[i] == 0xFFFF
    ensures Decoded(regs, t, o) == Some(
      match t
      case Int16 | Int32 | Int64 => -1
      case UInt16 => 0xFFFF
      case UInt32 | Float32 => 0xFFFF_FFFF
      case UInt64 | Float64 => 0xFFFF_FFFF_FFFF_FFFF)
  {
    OnesDecoded(regs, t, o);
    Powers();
  }

  lemma OnesDecoded(regs: seq<Word>, t: DataType, o: Order)
    requires !t.Unsupported? && |regs| == Words(t) && forall i :: 0 <= i < |regs| ==> regs[i] == 0xFFFF
    ensures Decoded(regs, t, o) == Some(if Signed(t) then -1 else Pow(2 * Words(t)) - 1)
  {
    var ws := if o.lowFirst then Reverse(regs) else regs;
    OnesUnpacked(ws);
    DecodedWords(regs, ws, Unpacked(ws), t, o);
    OnesNumber(if o.little then Reverse(Unpacked(ws)) else Unpacked(ws), t);
  }

  lemma OnesUnpacked(ws: seq<Word>)
    requires forall i :: 0 <= i < |ws| ==> ws[i] == 0xFFFF
    ensures forall i :: 0 <= i < 2 * |ws| ==> Unpacked(ws)[i] == 0xFF
  {
    forall i | 0 <= i < 2 * |ws| ensures Unpacked(ws)[i] == 0xFF {
      assert ws[i / 2] == 0xFFFF;
    }
  }

  lemma OnesNumber(b: seq<Byte>, t: DataType)
    requires !t.Unsupported? && |b| == 2 * Words(t) && forall i :: 0 <= i < |b| ==> b[i] == 0xFF
    ensures Number(b, t) == Some(if Signed(t) then -1 else Pow(2 * Words(t)) - 1)
  {
    OnesValue(b);
    assert Half(|b|) <= Pow(|b|) - 1;
  }

  lemma {:induction false} OnesValue(b: seq<Byte>)
    requires forall i :: 0 <= i < |b| ==> b[i] == 0xFF
    ensures Value(b) == Pow(|b|) - 1
  {
    if b == [] {
    } else {
      OnesValue(b[..|b| - 1]);
    }
  }

  // ---- The named layouts ----

  lemma ReverseConcat<T>(a: seq<T>, b: seq<T>)
    ensures Reverse(a + b) == Reverse(b) + Reverse(a)
  {}

  lemma Reverse2<T>(a: T, b: T)
    ensures Reverse([a]) == [a] && Reverse([a, b]) == [b, a]
  {}

  lemma Reverse4<T>(a: T, b: T, c: T, d: T)
    ensures Reverse([a, b, c, d]) == [d, c, b, a]
  {
    assert [a, b, c, d] == [a, b] + [c, d];
    ReverseConcat([a, b], [c, d]);
    Reverse2(a, b);
    Reverse2(c, d);
  }

  lemma Reverse8<T>(a: T, b: T, c: T, d: T, e: T, f: T, g: T, h: T)
    ensures Reverse([a, b, c, d, e, f, g, h]) == [h, g, f, e, d, c, b, a]
  {
    assert [a, b, c, d, e, f, g, h] == [a, b, c, d] + [e, f, g, h];
    ReverseConcat([a, b, c, d], [e, f, g, h]);
    Reverse4(a, b, c, d);
    Reverse4(e, f, g, h);
  }

  lemma Unpacked1(a: Byte, b: Byte)
    ensures Unpacked([Pair(a, b)]) == [a, b]
  {}

  lemma Unpacked2(a: Byte, b: Byte, c: Byte, d: Byte)
    ensures Unpacked([Pair(a, b), Pair(c, d)]) == [a, b, c, d]
  {
    UnpackedConcat([Pair(a, b)], [Pair(c, d)]);
    Unpacked1(a, b);
    Unpacked1(c, d);
    assert [Pair(a, b), Pair(c, d)] == [Pair(a, b)] + [Pair(c, d)];
    assert [a, b] + [c, d] == [a, b, c, d];
  }

  lemma Unpacked4(a: Byte, b: Byte, c: Byte, d: Byte, e: Byte, f: Byte, g: Byte, h: Byte)
    ensures Unpacked([Pair(a, b), Pair(c, d), Pair(e, f), Pair(g, h)]) == [a, b, c, d, e, f, g, h]
  {
    var left: seq<Word>, right: seq<Word> := [Pair(a, b), Pair(c, d)], [Pair(e, f), Pair(g, h)];
    assert [Pair(a, b), Pair(c, d), Pair(e, f), Pair(g, h)] == left + right;
    UnpackedConcat(left, right);
    Unpacked2(a, b, c, d);
    Unpacked2(e, f, g, h);
    assert [a, b, c, d] + [e, f, g, h] == [a, b, c, d, e, f, g, h];
  }

  /** 16 bits: the bytes of the word, or those bytes swapped; word order does not matter. */
  lemma Layout16(a: Byte, b: Byte, t: DataType, o: Order)
    requires t == Int16 || t == UInt16
    ensures Decoded([Pair(a, b)], t, o) == Number(if o.little then [b, a] else [a, b], t)
  {
    var regs: seq<Word> := [Pair(a, b)];
    Unpacked1(a, b);
    Reverse2(Pair(a, b), Pair(a, b));
    Reverse2(a, b);
    DecodedWords(regs, regs, [a, b], t, o);
  }

  /** 32 bits: the wire bytes A B C D are read as ABCD, CDAB, DCBA or BADC. */
  lemma Layout32(a: Byte, b: Byte, c: Byte, d: Byte, t: DataType, o: Order)
    requires Words(t) == 2
    ensures Decoded([Pair(a, b), Pair(c, d)], t, o) == Number(
      match o
      case Order(false, false) => [a, b, c, d]
      case Order(false, true) => [c, d, a, b]
      case Order(true, false) => [d, c, b, a]
      case Order(true, true) => [b, a, d, c], t)
  {
    var regs: seq<Word>, back: seq<Word> := [Pair(a, b), Pair(c, d)], [Pair(c, d), Pair(a, b)];
    Reverse2(Pair(a, b), Pair(c, d));
    if o.lowFirst {
      Unpacked2(c, d, a, b);
      Reverse4(c, d, a, b);
      DecodedWords(regs, back, [c, d, a, b], t, o);
    } else {
      Unpacked2(a, b, c, d);
      Reverse4(a, b, c, d);
      DecodedWords(regs, regs, [a, b, c, d], t, o);
    }
  }

  /** 64 bits: the same four layouts over the wire bytes A to H. */
  lemma Layout64(a: Byte, b: Byte, c: Byte, d: Byte, e: Byte, f: Byte, g: Byte, h: Byte, t: DataType, o: Order)
    requires Words(t) == 4
    ensures Decoded([Pair(a, b), Pair(c, d), Pair(e, f), Pair(g, h)], t, o) == Number(
      match o
      case Order(false, false) => [a, b, c, d, e, f, g, h]
      case Order(false, true) => [g, h, e, f, c, d, a, b]
      case Order(true, false) => [h, g, f, e, d, c, b, a]
      case Order(true, true) => [b, a, d, c, f, e, h, g], t)
  {
    var regs: seq<Word> := [Pair(a, b), Pair(c, d), Pair(e, f), Pair(g, h)];
    if o.lowFirst {
      Reverse4(Pair(a, b), Pair(c, d), Pair(e, f), Pair(g, h));
      Unpacked4(g, h, e, f, c, d, a, b);
      Reverse8(g, h, e, f, c, d, a, b);
      DecodedWords(regs, Reverse(regs), [g, h, e, f, c, d, a, b], t, o);
    } else {
      Unpacked4(a, b, c, d, e, f, g, h);
      Reverse8(a, b, c, d, e, f, g, h);
      DecodedWords(regs, regs, [a, b, c, d, e, f, g, h], t, o);
    }
  }
}
