/** Identifier validation and quoting for the two SQL dialects. */
module Ident {
  import opened Options
  import opened Texts

  const MAX_IDENT_LEN: nat := 128

  /** Unicode letters and numbers above ASCII, where the tables live outside the program. */
  datatype Unicode = Unicode(letter: char -> bool, number: char -> bool)

  predicate IsLetter(u: Unicode, c: char) {
    if c < 128 as char then 'a' <= c <= 'z' || 'A' <= c <= 'Z' else u.letter(c)
  }

  predicate IsNumber(u: Unicode, c: char) {
    if c < 128 as char then '0' <= c <= '9' else u.number(c)
  }

  predicate IsFirst(u: Unicode, c: char) { IsLetter(u, c) || c == '_' }

  predicate IsLater(u: Unicode, c: char) { IsLetter(u, c) || IsNumber(u, c) || c in "_@$# .-" }

  function Utf8Width(c: char): nat {
    if c as int < 0x80 then 1 else if c as int < 0x800 then 2 else if c as int < 0x10000 then 3 else 4
  }

  function Utf8Length(s: string): nat {
    if s == [] then 0 else Utf8Width(s[0]) + Utf8Length(s[1..])
  }

  lemma {:induction false} Utf8LengthConcat(a: string, b: string)
    ensures Utf8Length(a + b) == Utf8Length(a) + Utf8Length(b)
  {
    if a == [] {
      assert a + b == b;
    } else {
      assert (a + b)[1..] == a[1..] + b;
      Utf8LengthConcat(a[1..], b);
    }
  }

  predicate Validate(u: Unicode, name: string) {
    && name != ""
    && Utf8Length(name) <= MAX_IDENT_LEN
    && |name| <= 128
    && IsFirst(u, name[0])
    && forall i :: 1 <= i < |name| ==> IsLater(u, name[i])
  }

  /** A character takes the fewest bytes that hold its bits: 7, 11, 16 or 21. */
  lemma Utf8Widths(c: char)
    ensures 1 <= Utf8Width(c) <= 4
    ensures Utf8Width(c) == 1 <==> c as int <= 0x7F
    ensures Utf8Width(c) <= 2 <==> c as int <= 0x7FF
    ensures Utf8Width(c) <= 3 <==> c as int <= 0xFFFF
  {}

  predicate Ascii(s: string) { forall i :: 0 <= i < |s| ==> s[i] as int <= 0x7F }

  /** The limit on bytes is one on characters too, and for ASCII names it is the same. */
  lemma {:induction false} Utf8Bounds(s: string)
    ensures |s| <= Utf8Length(s) <= 4 * |s| && (Utf8Length(s) == |s| <==> Ascii(s))
  {
    if s == [] {
    } else {
      Utf8Bounds(s[1..]);
      assert s == [s[0]] + s[1..];
    }
  }

  predicate AsciiLetter(c: char) { 65 <= c as int <= 90 || 97 <= c as int <= 122 }

  /** The digits, and the signs allowed behind the first character. */
  predicate AsciiLater(c: char) {
    48 <= c as int <= 57 || c == '@' || c == '$' || c == '#' || c == ' ' || c == '.' || c == '-'
  }

  /** Which names are accepted; beyond ASCII all letters are, and other numbers but for the first character. */
  lemma ValidateMeans(u: Unicode, name: string)
    ensures Validate(u, name) <==>
      && 1 <= |name| && Utf8Length(name) <= 128
      && forall i :: 0 <= i < |name| ==>
           if name[i] as int > 0x7F then u.letter(name[i]) || (0 < i && u.number(name[i]))
           else AsciiLetter(name[i]) || name[i] == '_' || (0 < i && AsciiLater(name[i]))
  {
    Utf8Bounds(name);
    assert forall c :: c in "_@$# .-" <==>
      c == '_' || c == '@' || c == '$' || c == '#' || c == ' ' || c == '.' || c == '-';
  }

  /** A replace that could name its staging table can name its retired table. */
  lemma StagingNamesOld(u: Unicode, name: string)
    ensures Validate(u, name + "_stg") <==> Validate(u, name + "_old")
  {
    Utf8LengthConcat(name, "_stg");
    Utf8LengthConcat(name, "_old");
    assert Utf8Length("_stg") == Utf8Length("stg") + 1 == Utf8Length("tg") + 2 == 4;
    assert Utf8Length("_old") == Utf8Length("old") + 1 == Utf8Length("ld") + 2 == 4;
    if Validate(u, name + "_stg") {
      SuffixValidates(u, name, "_stg", "_old");
    }
    if Validate(u, name + "_old") {
      SuffixValidates(u, name, "_old", "_stg");
    }
  }

  lemma SuffixValidates(u: Unicode, name: string, a: string, b: string)
    requires {a, b} == {"_stg", "_old"} && Validate(u, name + a)
    requires Utf8Length(name + a) == Utf8Length(name + b)
    ensures Validate(u, name + b)
  {
    var x, y := name + a, name + b;
    forall i | 1 <= i < |y| ensures IsLater(u, y[i]) {
      if i < |name| {
        assert y[i] == x[i];
      } else {
        assert y[i] == b[i - |name|];
      }
    }
    assert y[0] == if name == [] then '_' else x[0];
  }

  // ---- Trimming ----

  predicate Within(s: string, cut: string) { forall i :: 0 <= i < |s| ==> s[i] in cut }

  function TrimLeft(s: string, cut: string): string {
    if s != [] && s[0] in cut then TrimLeft(s[1..], cut) else s
  }

  function TrimRight(s: string, cut: string): string {
    if s != [] && s[|s| - 1] in cut then TrimRight(s[..|s| - 1], cut) else s
  }

  function Trim(s: string, cut: string): string { TrimRight(TrimLeft(s, cut), cut) }

  /** Neither end is in the cut set. */
  predicate Bare(s: string, cut: string) { s == [] || (s[0] !in cut && s[|s| - 1] !in cut) }

  lemma {:induction false} TrimLeftPadded(x: string, s: string, cut: string)
    requires Within(x, cut)
    ensures TrimLeft(x + s, cut) == TrimLeft(s, cut)
  {
    if x == [] {
      assert x + s == s;
    } else {
      assert x[0] in cut && (x + s)[1..] == x[1..] + s;
      TrimLeftPadded(x[1..], s, cut);
    }
  }

  lemma {:induction false} TrimRightPadded(s: string, y: string, cut: string)
    requires Within(y, cut)
    ensures TrimRight(s + y, cut) == TrimRight(s, cut)
  {
    if y == [] {
      assert s + y == s;
    } else {
      assert y[|y| - 1] in cut && (s + y)[..|s + y| - 1] == s + y[..|y| - 1];
      TrimRightPadded(s, y[..|y| - 1], cut);
    }
  }

  lemma {:induction false} TrimLeftSplits(s: string, cut: string) returns (x: string)
    ensures Within(x, cut) && s == x + TrimLeft(s, cut)
    ensures TrimLeft(s, cut) == [] || TrimLeft(s, cut)[0] !in cut
  {
    x := [];
    if s != [] && s[0] in cut {
      var x' := TrimLeftSplits(s[1..], cut);
      x := [s[0]] + x';
    }
  }

  lemma {:induction false} TrimRightSplits(s: string, cut: string) returns (y: string)
    ensures Within(y, cut) && s == TrimRight(s, cut) + y
    ensures TrimRight(s, cut) == [] || TrimRight(s, cut)[|TrimRight(s, cut)| - 1] !in cut
  {
    y := [];
    if s != [] && s[|s| - 1] in cut {
      var y' := TrimRightSplits(s[..|s| - 1], cut);
      y := y' + [s[|s| - 1]];
    }
  }

  /** What Trim takes off lies in the cut set and what it leaves is bare. */
  lemma TrimSplits(s: string, cut: string) returns (x: string, y: string)
    ensures Within(x, cut) && Within(y, cut) && s == x + Trim(s, cut) + y && Bare(Trim(s, cut), cut)
  {
    x := TrimLeftSplits(s, cut);
    y := TrimRightSplits(TrimLeft(s, cut), cut);
    var t := Trim(s, cut);
    if t != [] {
      assert t[0] == TrimLeft(s, cut)[0];
    }
  }

  /** And that determines it. */
  lemma TrimUnique(x: string, t: string, y: string, cut: string)
    requires Within(x, cut) && Within(y, cut) && Bare(t, cut)
    ensures Trim(x + t + y, cut) == t
  {
    assert x + t + y == x + (t + y);
    TrimLeftPadded(x, t + y, cut);
    if t == [] {
      assert t + y == y + [];
      TrimLeftPadded(y, [], cut);
    } else {
      assert TrimLeft(t + y, cut) == t + y;
      TrimRightPadded(t, y, cut);
    }
  }

  // ---- Quoting one name ----

  datatype Dialect = Dialect(open: char, close: char, cut: string)

  const MSSQL := Dialect('[', ']', "[]")

  const POSTGRES := Dialect('"', '"', "\"")

  /** The delimiters ValidateQualified strips, of both dialects. */
  const DELIMITERS := "[]\""

  predicate Known(d: Dialect) { d == MSSQL || d == POSTGRES }

  function Escape(close: char, s: string): string {
    if s == [] then [] else (if s[0] == close then [close, close] else [s[0]]) + Escape(close, s[1..])
  }

  function Delimited(d: Dialect, name: string): string { [d.open] + Escape(d.close, name) + [d.close] }

  function Quote(d: Dialect, name: string): string { Delimited(d, Trim(name, d.cut)) }

  /** How SQL reads on after an opening delimiter: the name, and the text behind the token. */
  function LexBody(close: char, s: string): Option<(string, string)> {
    if s == [] then None
    else if s[0] != close then Prepend(s[0], LexBody(close, s[1..]))
    else if |s| >= 2 && s[1] == close then Prepend(close, LexBody(close, s[2..]))
    else Some(([], s[1..]))
  }

  function Prepend(c: char, r: Option<(string, string)>): Option<(string, string)> {
    match r
    case None => None
    case Some((t, rest)) => Some(([c] + t, rest))
  }

  function Lex(d: Dialect, s: string): Option<(string, string)> {
    if s == [] || s[0] != d.open then None else LexBody(d.close, s[1..])
  }

  lemma {:induction false} EscapeLexes(close: char, name: string, rest: string)
    requires rest == [] || rest[0] != close
    ensures LexBody(close, Escape(close, name) + [close] + rest) == Some((name, rest))
  {
    var s := Escape(close, name) + [close] + rest;
    if name == [] {
      assert s == [close] + rest && s[1..] == rest;
    } else {
      EscapeLexes(close, name[1..], rest);
      var tail := Escape(close, name[1..]) + [close] + rest;
      assert s == (if name[0] == close then [close, close] else [name[0]]) + tail;
      assert s[if name[0] == close then 2 else 1..] == tail;
      assert name == [name[0]] + name[1..];
    }
  }

  lemma {:induction false} LexEscapes(close: char, s: string, name: string, rest: string)
    requires LexBody(close, s) == Some((name, rest))
    ensures s == Escape(close, name) + [close] + rest && (rest == [] || rest[0] != close)
  {
    if s[0] != close {
      LexEscapes(close, s[1..], name[1..], rest);
      assert s == [s[0]] + s[1..];
    } else if |s| >= 2 && s[1] == close {
      LexEscapes(close, s[2..], name[1..], rest);
      assert s == [s[0], s[1]] + s[2..];
    } else {
      assert s == [close] + s[1..];
    }
  }

  /**
   A quoted name is one token, wherever it stands, that means the trimmed name; and it is
   the only text that does.
   */
  lemma QuoteLexes(d: Dialect, name: string, rest: string, text: string)
    requires rest == [] || rest[0] != d.close
    ensures Lex(d, text) == Some((Trim(name, d.cut), rest)) <==> text == Quote(d, name) + rest
  {
    var t := Trim(name, d.cut);
    var body := Escape(d.close, t) + [d.close] + rest;
    EscapeLexes(d.close, t, rest);
    assert Quote(d, name) + rest == [d.open] + body;
    if Lex(d, text) == Some((t, rest)) {
      LexEscapes(d.close, text[1..], t, rest);
      assert text == [d.open] + text[1..];
    }
  }

  lemma {:induction false} EscapeChars(close: char, s: string, cut: string)
    requires close in cut
    ensures |Escape(close, s)| >= |s| && (Escape(close, s) == s <==> close !in s)
    ensures Bare(s, cut) ==> Bare(Escape(close, s), cut)
    ensures forall c :: c in Escape(close, s) <==> c in s
    ensures s != [] ==> Escape(close, s)[0] == s[0] && Escape(close, s)[|Escape(close, s)| - 1] == s[|s| - 1]
  {
    if s == [] {
    } else {
      EscapeChars(close, s[1..], cut);
      var e := Escape(close, s[1..]);
      assert s == [s[0]] + s[1..];
      if s[0] == close {
        assert Escape(close, s) == [close, close] + e;
        assert |Escape(close, s)| > |s|;
      } else {
        assert Escape(close, s) == [s[0]] + e;
        assert Escape(close, s)[1..] == e;
      }
    }
  }

  /** What quoting writes for a name without delimiters. */
  lemma PlainQuotes(name: string)
    requires forall i :: 0 <= i < |name| ==> name[i] != '[' && name[i] != ']' && name[i] != '"'
    ensures Quote(MSSQL, name) == "[" + name + "]" && Quote(POSTGRES, name) == "\"" + name + "\""
  {
    assert [] + name + [] == name;
    TrimUnique([], name, [], MSSQL.cut);
    TrimUnique([], name, [], POSTGRES.cut);
    EscapeChars(']', name, MSSQL.cut);
    EscapeChars('"', name, POSTGRES.cut);
  }

  lemma Requotes(d: Dialect, t: string)
    requires Known(d) && Bare(t, d.cut)
    ensures Trim(Delimited(d, t), d.cut) == Escape(d.close, t)
  {
    EscapeChars(d.close, t, d.cut);
    TrimUnique([d.open], Escape(d.close, t), [d.close], d.cut);
  }

  /** Quoting again changes nothing exactly when there was nothing to escape. */
  lemma RequoteIdentity(d: Dialect, name: string)
    requires Known(d)
    ensures Quote(d, Quote(d, name)) == Quote(d, name) <==> d.close !in Trim(name, d.cut)
  {
    var t := Trim(name, d.cut);
    var _, _ := TrimSplits(name, d.cut);
    var e := Escape(d.close, t);
    Requotes(d, t);
    EscapeChars(d.close, t, d.cut);
    EscapeChars(d.close, e, d.cut);
    if Delimited(d, e) == Delimited(d, t) {
      assert Delimited(d, e)[1..|Delimited(d, e)| - 1] == Escape(d.close, e);
      assert Delimited(d, t)[1..|Delimited(d, t)| - 1] == e;
    }
  }

  // ---- Qualified names ----

  /** The segments that are validated: without the delimiters of either dialect. */
  function Segments(name: string): seq<string> {
    var parts := Split('.', name);
    seq(|parts|, i requires 0 <= i < |parts| => Trim(parts[i], DELIMITERS))
  }

  predicate ValidQualified(u: Unicode, name: string) {
    |Segments(name)| <= 2 && forall i :: 0 <= i < |Segments(name)| ==> Validate(u, Segments(name)[i])
  }

  /** The segments a dialect quotes: without its own delimiters only. */
  function Quoted(d: Dialect, name: string): seq<string> {
    var parts := Split('.', name);
    seq(|parts|, i requires 0 <= i < |parts| => Trim(parts[i], d.cut))
  }

  function AllDelimited(d: Dialect, names: seq<string>): seq<string> {
    seq(|names|, i requires 0 <= i < |names| => Delimited(d, names[i]))
  }

  function Output(d: Dialect, name: string): string { Join('.', AllDelimited(d, Quoted(d, name))) }

  /** How SQL reads a dotted name. */
  function LexQualified(d: Dialect, s: string): Option<seq<string>>
    decreases |s|
  {
    match Lex(d, s)
    case None => None
    case Some((t, rest)) =>
      if rest == [] then Some([t])
      else if rest[0] != '.' || |s| <= |rest| then None
      else match LexQualified(d, rest[1..])
           case None => None
           case Some(ts) => Some([t] + ts)
  }

  method ValidateQualified(u: Unicode, name: string) returns (ok: bool)
    ensures ok <==> ValidQualified(u, name)
  {
    if name == "" {
      assert Segments(name)[0] == "";
      return false;
    }
    var parts := Split('.', name);
    if |parts| > 2 {
      return false;
    }
    ok := true;
    for i := 0 to |parts|
      invariant ok && forall k :: 0 <= k < i ==> Validate(u, Segments(name)[k])
    {
      if !Validate(u, Trim(parts[i], DELIMITERS)) {
        assert !Validate(u, Segments(name)[i]);
        return false;
      }
    }
  }

  /** A name with two dots is never accepted, delimited or not. */
  lemma TwoDots(u: Unicode, a: string, b: string, c: string)
    ensures !ValidQualified(u, a + "." + b + "." + c)
  {
    SplitCount('.', a, b + "." + c);
    SplitCount('.', b, c);
    assert a + "." + b + "." + c == a + ['.'] + (b + "." + c) && b + "." + c == b + ['.'] + c;
  }

  lemma {:induction false} TrimTwice(s: string, cut: string)
    ensures Trim(Trim(s, cut), cut) == Trim(s, cut)
  {
    var _, _ := TrimSplits(s, cut);
    var t := Trim(s, cut);
    TrimUnique([], t, [], cut);
    assert [] + t + [] == t;
  }

  /** QuoteMSSQLQualified and QuotePostgresQualified, overwriting the parts in place. */
  method QuoteQualified(d: Dialect, u: Unicode, name: string) returns (out: Option<string>)
    ensures out == if ValidQualified(u, name) then Some(Output(d, name)) else None
  {
    var ok := ValidateQualified(u, name);
    if !ok {
      return None;
    }
    var segments := Split('.', name);
    var parts := new string[|segments|](i requires 0 <= i < |segments| => segments[i]);
    for i := 0 to parts.Length
      invariant forall k :: 0 <= k < i ==> parts[k] == Delimited(d, Quoted(d, name)[k])
      invariant forall k :: i <= k < parts.Length ==> parts[k] == segments[k]
    {
      TrimTwice(parts[i], d.cut);
      parts[i] := Quote(d, Trim(parts[i], d.cut));
    }
    assert parts[..] == AllDelimited(d, Quoted(d, name));
    out := Some(Join('.', parts[..]));
  }

  lemma {:induction false} JoinLexes(d: Dialect, names: seq<string>)
    requires Known(d) && names != []
    ensures LexQualified(d, Join('.', AllDelimited(d, names))) == Some(names)
  {
    var s := Join('.', AllDelimited(d, names));
    var t := Delimited(d, names[0]);
    if |names| == 1 {
      assert s == t == [d.open] + (Escape(d.close, names[0]) + [d.close] + []);
      EscapeLexes(d.close, names[0], []);
      assert names == [names[0]];
    } else {
      assert AllDelimited(d, names)[1..] == AllDelimited(d, names[1..]);
      var tail := Join('.', AllDelimited(d, names[1..]));
      var rest := ['.'] + tail;
      assert s == [d.open] + (Escape(d.close, names[0]) + [d.close] + rest);
      EscapeLexes(d.close, names[0], rest);
      JoinLexes(d, names[1..]);
      assert rest[1..] == tail && names == [names[0]] + names[1..];
    }
  }

  /** A validated segment has no delimiter of either dialect in it. */
  lemma ValidIsPlain(u: Unicode, name: string)
    requires Validate(u, name)
    ensures forall c :: c in DELIMITERS ==> c !in name
  {
    forall i | 0 <= i < |name| ensures name[i] !in DELIMITERS {
      if i > 0 {
        assert IsLater(u, name[i]);
      }
    }
  }

  /** The other dialect's delimiters. */
  function Foreign(d: Dialect): string { if d == MSSQL then "\"" else "[]" }

  predicate Free(chars: string, s: string) { forall i :: 0 <= i < |s| ==> s[i] !in chars }

  lemma OwnDelimiters(d: Dialect, x: string)
    requires Known(d) && Within(x, DELIMITERS) && Free(Foreign(d), x)
    ensures Within(x, d.cut)
  {
    forall i | 0 <= i < |x| ensures x[i] in d.cut {
      assert x[i] == '[' || x[i] == ']' || x[i] == '"';
      assert d == MSSQL ==> d.cut[0] == '[' && d.cut[1] == ']' && Foreign(d)[0] == '"';
      assert d != MSSQL ==> d.cut[0] == '"' && Foreign(d)[0] == '[' && Foreign(d)[1] == ']';
    }
  }

  lemma ForeignSurvives(d: Dialect, p: string, c: char)
    requires Known(d) && c in Foreign(d) && c in p
    ensures c in Trim(p, d.cut)
  {
    var x, y := TrimSplits(p, d.cut);
    assert c !in d.cut;
    assert p == x + (Trim(p, d.cut) + y);
    assert c !in x && c !in y;
  }

  /** The segment quoted is the segment validated exactly when it has no foreign delimiter. */
  lemma QuotedIsValidated(d: Dialect, u: Unicode, p: string)
    requires Known(d) && Validate(u, Trim(p, DELIMITERS))
    ensures Trim(p, d.cut) == Trim(p, DELIMITERS) <==> Free(Foreign(d), p)
  {
    var core := Trim(p, DELIMITERS);
    var x, y := TrimSplits(p, DELIMITERS);
    ValidIsPlain(u, core);
    if Free(Foreign(d), p) {
      assert forall i :: 0 <= i < |x| ==> x[i] == p[i];
      assert forall i :: 0 <= i < |y| ==> y[i] == p[|x + core| + i];
      OwnDelimiters(d, x);
      OwnDelimiters(d, y);
      TrimUnique(x, core, y, d.cut);
    } else {
      var i :| 0 <= i < |p| && p[i] in Foreign(d);
      ForeignSurvives(d, p, p[i]);
      assert p[i] in DELIMITERS;
    }
  }

  predicate AllFree(chars: string, parts: seq<string>) { forall i :: 0 <= i < |parts| ==> Free(chars, parts[i]) }

  lemma AllFreeCons(chars: string, a: string, parts: seq<string>)
    ensures AllFree(chars, [a] + parts) <==> Free(chars, a) && AllFree(chars, parts)
  {
    var all := [a] + parts;
    assert all[0] == a && forall i :: 0 <= i < |parts| ==> all[i + 1] == parts[i];
  }

  lemma FreeCons(chars: string, c: char, s: string)
    ensures Free(chars, [c] + s) <==> c !in chars && Free(chars, s)
  {
    var all := [c] + s;
    assert all[0] == c && forall i :: 0 <= i < |s| ==> all[i + 1] == s[i];
  }

  /** The parts are free of some characters exactly when the name is. */
  lemma {:induction false} SplitFree(sep: char, s: string, chars: string)
    requires sep !in chars
    ensures Free(chars, s) <==> AllFree(chars, Split(sep, s))
  {
    if s == [] {
    } else {
      SplitFree(sep, s[1..], chars);
      FreeCons(chars, s[0], s[1..]);
      assert s == [s[0]] + s[1..];
      var rest := Split(sep, s[1..]);
      assert rest == [rest[0]] + rest[1..];
      AllFreeCons(chars, rest[0], rest[1..]);
      AllFreeCons(chars, [], rest);
      FreeCons(chars, s[0], rest[0]);
      AllFreeCons(chars, [s[0]] + rest[0], rest[1..]);
    }
  }

  lemma QuotedAreValidated(d: Dialect, u: Unicode, name: string)
    requires Known(d) && ValidQualified(u, name)
    ensures Quoted(d, name) == Segments(name) <==> Free(Foreign(d), name)
  {
    var parts, q, v := Split('.', name), Quoted(d, name), Segments(name);
    forall i | 0 <= i < |parts| ensures q[i] == v[i] <==> Free(Foreign(d), parts[i]) {
      assert Validate(u, v[i]);
      QuotedIsValidated(d, u, parts[i]);
    }
    assert q == v <==> AllFree(Foreign(d), parts);
    SplitFree('.', name, Foreign(d));
  }

  /**
   The output of a qualified quote is read as the dialect's trimmed parts; those are the
   segments that were validated exactly when the name has no delimiter of the other dialect.
   */
  lemma QualifiedLexes(d: Dialect, u: Unicode, name: string)
    requires Known(d) && ValidQualified(u, name)
    ensures LexQualified(d, Output(d, name)) == Some(Quoted(d, name))
    ensures LexQualified(d, Output(d, name)) == Some(Segments(name)) <==> Free(Foreign(d), name)
  {
    JoinLexes(d, Quoted(d, name));
    QuotedAreValidated(d, u, name);
  }

  lemma {:induction false} EscapeConcat(close: char, a: string, b: string)
    ensures Escape(close, a + b) == Escape(close, a) + Escape(close, b)
  {
    if a == [] {
      assert a + b == b;
    } else {
      assert (a + b)[1..] == a[1..] + b;
      EscapeConcat(close, a[1..], b);
    }
  }

  lemma TrimPadded(x: string, s: string, y: string, cut: string)
    requires Within(x, cut) && Within(y, cut)
    ensures Trim(x + s + y, cut) == Trim(s, cut)
  {
    var a, b := TrimSplits(s, cut);
    var t := Trim(s, cut);
    assert x + s + y == (x + a) + t + (b + y);
    TrimUnique(x + a, t, b + y, cut);
  }

  /** Quoting a part leaves the segment it validates as. */
  lemma DelimitedSegment(d: Dialect, u: Unicode, p: string)
    requires Known(d) && Validate(u, Trim(p, DELIMITERS))
    ensures Trim(Delimited(d, Trim(p, d.cut)), DELIMITERS) == Trim(p, DELIMITERS)
  {
    var t, core := Trim(p, d.cut), Trim(p, DELIMITERS);
    var x, y := TrimSplits(p, d.cut);
    assert Within(x, DELIMITERS) && Within(y, DELIMITERS);
    TrimPadded(x, t, y, DELIMITERS);
    var a, b := TrimSplits(t, DELIMITERS);
    ValidIsPlain(u, core);
    EscapedSegment(d, a, core, b);
  }

  lemma EscapedDelimiters(close: char, a: string)
    requires Within(a, DELIMITERS) && close in DELIMITERS
    ensures Within(Escape(close, a), DELIMITERS)
  {
    EscapeChars(close, a, DELIMITERS);
    var e := Escape(close, a);
    forall i | 0 <= i < |e| ensures e[i] in DELIMITERS {
      assert e[i] in a;
    }
  }

  lemma EscapedText(d: Dialect, a: string, core: string, b: string)
    requires d.close !in core
    ensures Delimited(d, a + core + b) == ([d.open] + Escape(d.close, a)) + core + (Escape(d.close, b) + [d.close])
  {
    EscapeConcat(d.close, a + core, b);
    EscapeConcat(d.close, a, core);
    EscapeChars(d.close, core, [d.close]);
  }

  lemma EscapedSegment(d: Dialect, a: string, core: string, b: string)
    requires Known(d) && Within(a, DELIMITERS) && Within(b, DELIMITERS) && Bare(core, DELIMITERS) && d.close !in core
    ensures Trim(Delimited(d, a + core + b), DELIMITERS) == core
  {
    var x, y := [d.open] + Escape(d.close, a), Escape(d.close, b) + [d.close];
    EscapedText(d, a, core, b);
    EscapedDelimiters(d.close, a);
    EscapedDelimiters(d.close, b);
    assert d.open in DELIMITERS && d.close in DELIMITERS;
    TrimUnique(x, core, y, DELIMITERS);
  }

  lemma OutputParts(d: Dialect, name: string)
    requires Known(d)
    ensures Split('.', Output(d, name)) == AllDelimited(d, Quoted(d, name))
  {
    var parts, q := Split('.', name), Quoted(d, name);
    JoinSplit('.', name);
    forall i | 0 <= i < |parts| ensures '.' !in Delimited(d, q[i]) {
      var x, y := TrimSplits(parts[i], d.cut);
      assert parts[i] == x + q[i] + y;
      EscapeChars(d.close, q[i], d.cut);
    }
    SplitJoin('.', AllDelimited(d, q));
  }

  /**
   The output of a qualified quote validates again, to the same segments; and quoting it again
   changes nothing exactly when nothing had to be escaped.
   */
  lemma RequoteQualified(d: Dialect, u: Unicode, name: string)
    requires Known(d) && ValidQualified(u, name)
    ensures Segments(Output(d, name)) == Segments(name) && ValidQualified(u, Output(d, name))
    ensures Output(d, Output(d, name)) == Output(d, name) <==> Without(d.close, Quoted(d, name))
  {
    var out, parts, q := Output(d, name), Split('.', name), Quoted(d, name);
    OutputParts(d, name);
    forall i | 0 <= i < |parts| ensures Segments(out)[i] == Segments(name)[i] {
      assert Validate(u, Segments(name)[i]);
      DelimitedSegment(d, u, parts[i]);
    }
    forall i | 0 <= i < |q|
      ensures Delimited(d, Quoted(d, out)[i]) == Delimited(d, q[i]) <==> d.close !in q[i]
    {
      RequoteIdentity(d, parts[i]);
    }
    OutputParts(d, out);
    var q' := Quoted(d, out);
    if Output(d, out) == out {
      assert forall i :: 0 <= i < |q| ==>
            AllDelimited(d, q')[i] == Delimited(d, q'[i]) && AllDelimited(d, q)[i] == Delimited(d, q[i]);
    } else {
      assert AllDelimited(d, q') != AllDelimited(d, q);
      var i :| 0 <= i < |q| && AllDelimited(d, q')[i] != AllDelimited(d, q)[i];
    }
  }

  /** So for names without foreign delimiters quoting is idempotent. */
  lemma CleanRequote(d: Dialect, u: Unicode, name: string)
    requires Known(d) && ValidQualified(u, name) && Free(Foreign(d), name)
    ensures Output(d, Output(d, name)) == Output(d, name)
  {
    RequoteQualified(d, u, name);
    QualifiedLexes(d, u, name);
    forall i | 0 <= i < |Quoted(d, name)| ensures d.close !in Quoted(d, name)[i] {
      assert Validate(u, Segments(name)[i]);
      ValidIsPlain(u, Segments(name)[i]);
      assert d.close in DELIMITERS;
    }
  }

  /** A validated name whose SQL Server form names another object: the quotes stay in it. */
  lemma ForeignQuotesStay(u: Unicode)
    ensures ValidQualified(u, "\"a\"") && Segments("\"a\"") == ["a"]
    ensures LexQualified(MSSQL, Output(MSSQL, "\"a\"")) == Some(["\"a\""])
  {
    var name := "\"a\"";
    SplitFront('.', name, []);
    TrimUnique("\"", "a", "\"", DELIMITERS);
    assert "\"" + "a" + "\"" == name;
    TrimUnique([], name, [], MSSQL.cut);
    assert [] + name + [] == name;
    assert Utf8Length("a") == 1;
    JoinLexes(MSSQL, Quoted(MSSQL, name));
  }
}
