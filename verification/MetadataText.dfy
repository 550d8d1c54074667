/** The text MetadataFingerprint hashes: four sections of lines, fields separated by bars. */
module MetadataText {
  import opened Sorting
  import opened Texts

  datatype Source = Source(id: int, kind: string, paramsJson: string, isEnabled: bool)

  datatype Load = Load(id: int, sourceId: int, cronExpression: string, mode: string, watermarkColumn: string,
                       watermarkType: string, objectName: string, targetSchema: string, targetTable: string,
                       batchSize: int, autoCreateTable: bool, isEnabled: bool)

  datatype TagCount = TagCount(loadId: int, enabled: int, total: int)

  datatype Metadata = Metadata(sources: seq<Source>, loads: seq<Load>, modbus: seq<TagCount>, opcua: seq<TagCount>)

  // ---- Numbers and truth values as text ----

  function Digits(n: nat): (s: string)
    ensures s != [] && forall i :: 0 <= i < |s| ==> '0' <= s[i] <= '9'
  {
    (if n < 10 then [] else Digits(n / 10)) + [(n % 10) as char + '0']
  }

  function Decimal(n: int): (s: string)
    ensures Plain(s)
  {
    if n < 0 then ['-'] + Digits(-n) else Digits(n)
  }

  function Truth(b: bool): (s: string)
    ensures Plain(s)
  {
    if b then "true" else "false"
  }

  predicate OneLine(s: string) { '\n' !in s }

  predicate Plain(s: string) { '\n' !in s && '|' !in s }

  lemma {:induction false} DigitsInjective(a: nat, b: nat)
    requires Digits(a) == Digits(b)
    ensures a == b
  {
    var x, y := Digits(a), Digits(b);
    assert x[|x| - 1] == (a % 10) as char + '0' && y[|y| - 1] == (b % 10) as char + '0';
    assert a % 10 == b % 10;
    assert x[..|x| - 1] == (if a < 10 then [] else Digits(a / 10));
    assert y[..|y| - 1] == (if b < 10 then [] else Digits(b / 10));
    if a >= 10 && b >= 10 {
      DigitsInjective(a / 10, b / 10);
    }
  }

  lemma DecimalInjective(a: int, b: int)
    requires Decimal(a) == Decimal(b)
    ensures a == b
  {
    assert (a < 0) == (Decimal(a)[0] == '-') && (b < 0) == (Decimal(b)[0] == '-');
    if a < 0 {
      assert Decimal(a)[1..] == Digits(-a) && Decimal(b)[1..] == Digits(-b);
      DigitsInjective(-a, -b);
    } else {
      DigitsInjective(a, b);
    }
  }

  // ---- Lines ----

  /** Two texts with a separator between them. */
  function Sep(a: string, c: char, b: string): string { a + [c] + b }

  lemma SepAppend(a: string, c: char, b: string, d: string)
    ensures Sep(a, c, b) + d == Sep(a, c, b + d)
  {}

  function SourceLine(s: Source): string {
    Sep(Decimal(s.id), '|', Sep(s.kind, '|', Sep(s.paramsJson, '|', Truth(s.isEnabled))))
  }

  /** How a source line reads. */
  lemma SourceLineText(kind: string, params: string)
    ensures SourceLine(Source(42, kind, params, true)) == "42|" + kind + "|" + params + "|true"
    ensures SourceLine(Source(-7, kind, params, false)) == "-7|" + kind + "|" + params + "|false"
  {
    assert Digits(4) == "4" && Digits(42) == "42" && Digits(7) == "7";
    assert Decimal(42) == "42" && Decimal(-7) == "-7";
  }

  function LoadFields(l: Load): seq<string> {
    [Decimal(l.id), Decimal(l.sourceId), l.cronExpression, l.mode, l.watermarkColumn, l.watermarkType,
     l.objectName, l.targetSchema, l.targetTable, Decimal(l.batchSize), Truth(l.autoCreateTable), Truth(l.isEnabled)]
  }

  function LoadLine(l: Load): string { Join('|', LoadFields(l)) }

  function TagFields(t: TagCount): seq<string> { [Decimal(t.loadId), Decimal(t.enabled), Decimal(t.total)] }

  function TagLine(t: TagCount): string { Join('|', TagFields(t)) }

  /** Fields without newlines, and without bars except in the parameters. */
  predicate CleanSource(s: Source) { Plain(s.kind) && OneLine(s.paramsJson) }

  predicate CleanLoad(l: Load) {
    && Plain(l.cronExpression) && Plain(l.mode) && Plain(l.watermarkColumn) && Plain(l.watermarkType)
    && Plain(l.objectName) && Plain(l.targetSchema) && Plain(l.targetTable)
  }

  /** A source line is read from both ends. */
  lemma SourceLineInjective(a: Source, b: Source)
    requires CleanSource(a) && CleanSource(b) && SourceLine(a) == SourceLine(b)
    ensures a == b
  {
    var pa, pb := Sep(a.paramsJson, '|', Truth(a.isEnabled)), Sep(b.paramsJson, '|', Truth(b.isEnabled));
    SplitUnique('|', Decimal(a.id), Sep(a.kind, '|', pa), Decimal(b.id), Sep(b.kind, '|', pb));
    SplitUnique('|', a.kind, pa, b.kind, pb);
    SplitLastUnique('|', a.paramsJson, Truth(a.isEnabled), b.paramsJson, Truth(b.isEnabled));
    DecimalInjective(a.id, b.id);
  }

  lemma JoinInjective(a: seq<string>, b: seq<string>)
    requires a != [] && b != [] && Without('|', a) && Without('|', b) && Join('|', a) == Join('|', b)
    ensures a == b
  {
    SplitJoin('|', a);
    SplitJoin('|', b);
  }

  lemma PlainFields(l: Load)
    requires CleanLoad(l)
    ensures forall i :: 0 <= i < |LoadFields(l)| ==> Plain(LoadFields(l)[i])
  {}

  lemma LoadFieldsInjective(a: Load, b: Load)
    requires LoadFields(a) == LoadFields(b)
    ensures a == b
  {
    var x, y := LoadFields(a), LoadFields(b);
    assert x[0] == y[0] && x[1] == y[1] && x[2] == y[2] && x[3] == y[3] && x[4] == y[4] && x[5] == y[5];
    assert x[6] == y[6] && x[7] == y[7] && x[8] == y[8] && x[9] == y[9] && x[10] == y[10] && x[11] == y[11];
    DecimalInjective(a.id, b.id);
    DecimalInjective(a.sourceId, b.sourceId);
    DecimalInjective(a.batchSize, b.batchSize);
  }

  lemma LoadLineInjective(a: Load, b: Load)
    requires CleanLoad(a) && CleanLoad(b) && LoadLine(a) == LoadLine(b)
    ensures a == b
  {
    PlainFields(a);
    PlainFields(b);
    JoinInjective(LoadFields(a), LoadFields(b));
    LoadFieldsInjective(a, b);
  }

  lemma TagLineInjective(a: TagCount, b: TagCount)
    requires TagLine(a) == TagLine(b)
    ensures a == b
  {
    var x, y := TagFields(a), TagFields(b);
    JoinInjective(x, y);
    assert x[0] == y[0] && x[1] == y[1] && x[2] == y[2];
    DecimalInjective(a.loadId, b.loadId);
    DecimalInjective(a.enabled, b.enabled);
    DecimalInjective(a.total, b.total);
  }

  // ---- The text ----

  function Terminated(lines: seq<string>): string {
    if lines == [] then [] else lines[0] + ['\n'] + Terminated(lines[1..])
  }

  function Map<T, U>(f: T -> U, s: seq<T>): (r: seq<U>)
    ensures |r| == |s| && forall i :: 0 <= i < |s| ==> r[i] == f(s[i])
  {
    seq(|s|, i requires 0 <= i < |s| => f(s[i]))
  }

  function Lines(m: Metadata): seq<string> { ["SOURCES:"] + (Map(SourceLine, m.sources) + LoadSection(m)) }

  function LoadSection(m: Metadata): seq<string> { ["LOADS:"] + (Map(LoadLine, m.loads) + ModbusSection(m)) }

  function ModbusSection(m: Metadata): seq<string> { ["MODBUS:"] + (Map(TagLine, m.modbus) + OpcuaSection(m)) }

  function OpcuaSection(m: Metadata): seq<string> { ["OPCUA:"] + Map(TagLine, m.opcua) }

  function Text(m: Metadata): string { Terminated(Lines(m)) }

  predicate Clean(m: Metadata) {
    && (forall i :: 0 <= i < |m.sources| ==> CleanSource(m.sources[i]))
    && (forall i :: 0 <= i < |m.loads| ==> CleanLoad(m.loads[i]))
  }

  lemma TextNotEmpty(m: Metadata)
    ensures Text(m) != ""
  {
    assert Lines(m)[0] == "SOURCES:";
  }

  lemma {:induction false} TerminatedConcat(a: seq<string>, b: seq<string>)
    ensures Terminated(a + b) == Terminated(a) + Terminated(b)
  {
    if a == [] {
      assert a + b == b;
    } else {
      TerminatedConcat(a[1..], b);
      assert (a + b)[1..] == a[1..] + b;
    }
  }

  lemma {:induction false} TerminatedInjective(a: seq<string>, b: seq<string>)
    requires (forall i :: 0 <= i < |a| ==> OneLine(a[i])) && (forall i :: 0 <= i < |b| ==> OneLine(b[i]))
    requires Terminated(a) == Terminated(b)
    ensures a == b
  {
    if a != [] && b != [] {
      SplitUnique('\n', a[0], Terminated(a[1..]), b[0], Terminated(b[1..]));
      TerminatedInjective(a[1..], b[1..]);
      assert a == [a[0]] + a[1..] && b == [b[0]] + b[1..];
    }
  }

  /** Row lines have a bar, so none is a header. */
  lemma {:induction false} JoinChars(fields: seq<string>, c: char)
    requires c != '|' && forall i :: 0 <= i < |fields| ==> c !in fields[i]
    ensures c !in Join('|', fields) && (|fields| >= 2 ==> '|' in Join('|', fields))
  {
    if |fields| >= 2 {
      JoinChars(fields[1..], c);
      var s := Join('|', fields);
      assert s == fields[0] + ['|'] + Join('|', fields[1..]);
      assert s[|fields[0]|] == '|';
    }
  }

  /** A line of a row: it has a bar and no newline. */
  predicate RowLine(s: string) { OneLine(s) && '|' in s }

  lemma RowLines(m: Metadata)
    requires Clean(m)
    ensures forall i :: 0 <= i < |m.sources| ==> RowLine(SourceLine(m.sources[i]))
    ensures forall i :: 0 <= i < |m.loads| ==> RowLine(LoadLine(m.loads[i]))
    ensures forall t: TagCount :: RowLine(TagLine(t))
  {
    forall i | 0 <= i < |m.sources| ensures RowLine(SourceLine(m.sources[i])) {
      var s := m.sources[i];
      assert CleanSource(s);
      assert SourceLine(s)[|Decimal(s.id)|] == '|';
    }
    forall i | 0 <= i < |m.loads| ensures RowLine(LoadLine(m.loads[i])) {
      assert CleanLoad(m.loads[i]);
      PlainFields(m.loads[i]);
      JoinChars(LoadFields(m.loads[i]), '\n');
    }
    forall t: TagCount ensures RowLine(TagLine(t)) {
      JoinChars(TagFields(t), '\n');
    }
  }

  lemma AllOneLine(m: Metadata)
    requires Clean(m)
    ensures forall i :: 0 <= i < |Lines(m)| ==> OneLine(Lines(m)[i])
  {
    RowLines(m);
  }

  /** Headers have no bar, so the sections come apart where they were put together. */
  lemma SectionsUnique(a: Metadata, b: Metadata)
    requires Clean(a) && Clean(b) && Lines(a) == Lines(b)
    ensures Map(SourceLine, a.sources) == Map(SourceLine, b.sources) && Map(LoadLine, a.loads) == Map(LoadLine, b.loads)
    ensures Map(TagLine, a.modbus) == Map(TagLine, b.modbus) && Map(TagLine, a.opcua) == Map(TagLine, b.opcua)
  {
    RowLines(a);
    RowLines(b);
    assert Lines(a)[1..] == Map(SourceLine, a.sources) + LoadSection(a);
    assert Lines(b)[1..] == Map(SourceLine, b.sources) + LoadSection(b);
    SectionEnds("LOADS:", Map(SourceLine, a.sources), Map(LoadLine, a.loads) + ModbusSection(a),
                Map(SourceLine, b.sources), Map(LoadLine, b.loads) + ModbusSection(b));
    SectionEnds("MODBUS:", Map(LoadLine, a.loads), Map(TagLine, a.modbus) + OpcuaSection(a),
                Map(LoadLine, b.loads), Map(TagLine, b.modbus) + OpcuaSection(b));
    SectionEnds("OPCUA:", Map(TagLine, a.modbus), Map(TagLine, a.opcua), Map(TagLine, b.modbus), Map(TagLine, b.opcua));
  }

  lemma SectionEnds(h: string, a: seq<string>, x: seq<string>, b: seq<string>, y: seq<string>)
    requires '|' !in h && (forall i :: 0 <= i < |a| ==> RowLine(a[i])) && (forall i :: 0 <= i < |b| ==> RowLine(b[i]))
    requires a + ([h] + x) == b + ([h] + y)
    ensures a == b && x == y
  {
    assert a + ([h] + x) == a + [h] + x && b + ([h] + y) == b + [h] + y;
    SplitUnique(h, a, x, b, y);
  }

  lemma SameTags(a: seq<TagCount>, b: seq<TagCount>)
    requires Map(TagLine, a) == Map(TagLine, b)
    ensures a == b
  {
    assert |a| == |Map(TagLine, a)| == |b|;
    forall i | 0 <= i < |a| ensures a[i] == b[i] {
      assert Map(TagLine, a)[i] == Map(TagLine, b)[i];
      TagLineInjective(a[i], b[i]);
    }
  }

  /** The text determines every fingerprinted row. */
  lemma TextDetermines(a: Metadata, b: Metadata)
    requires Clean(a) && Clean(b)
    ensures Text(a) == Text(b) <==> a == b
  {
    if Text(a) == Text(b) {
      AllOneLine(a);
      AllOneLine(b);
      TerminatedInjective(Lines(a), Lines(b));
      SectionsUnique(a, b);
      assert |a.sources| == |Map(SourceLine, a.sources)| == |b.sources|;
      forall i | 0 <= i < |a.sources| ensures a.sources[i] == b.sources[i] {
        assert Map(SourceLine, a.sources)[i] == Map(SourceLine, b.sources)[i];
        SourceLineInjective(a.sources[i], b.sources[i]);
      }
      assert |a.loads| == |Map(LoadLine, a.loads)| == |b.loads|;
      forall i | 0 <= i < |a.loads| ensures a.loads[i] == b.loads[i] {
        assert Map(LoadLine, a.loads)[i] == Map(LoadLine, b.loads)[i];
        LoadLineInjective(a.loads[i], b.loads[i]);
      }
      SameTags(a.modbus, b.modbus);
      SameTags(a.opcua, b.opcua);
    }
  }

  lemma HeaderFirst(h: string, rest: seq<string>)
    ensures Terminated([h] + rest) == h + ['\n'] + Terminated(rest)
  {
    assert ([h] + rest)[1..] == rest;
  }

  lemma TextFromSources(m: Metadata)
    ensures Text(m) == Sep("SOURCES:", '\n', Terminated(Map(SourceLine, m.sources)) + Terminated(LoadSection(m)))
  {
    HeaderFirst("SOURCES:", Map(SourceLine, m.sources) + LoadSection(m));
    TerminatedConcat(Map(SourceLine, m.sources), LoadSection(m));
  }

  lemma SameSourceText(m: Metadata, x: seq<Source>, y: seq<Source>)
    requires Terminated(Map(SourceLine, x)) == Terminated(Map(SourceLine, y))
    ensures Text(m.(sources := x)) == Text(m.(sources := y))
  {
    TextFromSources(m.(sources := x));
    TextFromSources(m.(sources := y));
    assert LoadSection(m.(sources := x)) == LoadSection(m.(sources := y));
  }

  /** Without the conditions it does not. A bar in a kind can be a bar in the parameters. */
  lemma BarCollides(m: Metadata, id: int, a: string, b: string, c: string, e: bool)
    ensures Text(m.(sources := [Source(id, Sep(a, '|', b), c, e)]))
          == Text(m.(sources := [Source(id, a, Sep(b, '|', c), e)]))
  {
    var x, y := Source(id, Sep(a, '|', b), c, e), Source(id, a, Sep(b, '|', c), e);
    var tail := Sep(c, '|', Truth(e));
    assert Sep(Sep(a, '|', b), '|', tail) == Sep(a, '|', Sep(b, '|', tail));
    assert Sep(Sep(b, '|', c), '|', Truth(e)) == Sep(b, '|', tail);
    assert Map(SourceLine, [x]) == Map(SourceLine, [y]);
    SameSourceText(m, [x], [y]);
  }

  /** The row x with parameters that hide the row y behind it. */
  function Hiding(x: Source, y: Source): Source {
    Source(x.id, x.kind, Sep(x.paramsJson, '|',
        Sep(Truth(x.isEnabled), '\n', Sep(Decimal(y.id), '|', Sep(y.kind, '|', y.paramsJson)))), y.isEnabled)
  }

  lemma HidingLine(x: Source, y: Source)
    ensures SourceLine(Hiding(x, y)) == Sep(SourceLine(x), '\n', SourceLine(y))
  {
    var end := ['|'] + Truth(y.isEnabled);
    assert Sep(y.paramsJson, '|', Truth(y.isEnabled)) == y.paramsJson + end;
    SepAppend(y.kind, '|', y.paramsJson, end);
    SepAppend(Decimal(y.id), '|', Sep(y.kind, '|', y.paramsJson), end);
    HidingTail(x, SourceLine(y));
    var y' := Sep(Decimal(y.id), '|', Sep(y.kind, '|', y.paramsJson));
    SepAppend(Truth(x.isEnabled), '\n', y', end);
    SepAppend(x.paramsJson, '|', Sep(Truth(x.isEnabled), '\n', y'), end);
    assert Sep(Hiding(x, y).paramsJson, '|', Truth(y.isEnabled)) == Hiding(x, y).paramsJson + end;
  }

  lemma HidingTail(x: Source, s: string)
    ensures Sep(SourceLine(x), '\n', s)
         == Sep(Decimal(x.id), '|', Sep(x.kind, '|', Sep(x.paramsJson, '|', Sep(Truth(x.isEnabled), '\n', s))))
  {
    var end := ['\n'] + s;
    assert Sep(SourceLine(x), '\n', s) == SourceLine(x) + end;
    SepAppend(Decimal(x.id), '|', Sep(x.kind, '|', Sep(x.paramsJson, '|', Truth(x.isEnabled))), end);
    SepAppend(x.kind, '|', Sep(x.paramsJson, '|', Truth(x.isEnabled)), end);
    SepAppend(x.paramsJson, '|', Truth(x.isEnabled), end);
    assert Truth(x.isEnabled) + end == Sep(Truth(x.isEnabled), '\n', s);
  }

  /** And with newlines one source can read as any two. */
  lemma NewlineCollides(m: Metadata, x: Source, y: Source)
    ensures Text(m.(sources := [Hiding(x, y)])) == Text(m.(sources := [x, y]))
  {
    var z := Hiding(x, y);
    HidingLine(x, y);
    assert Map(SourceLine, [z]) == [Sep(SourceLine(x), '\n', SourceLine(y))];
    assert Map(SourceLine, [x, y]) == [SourceLine(x), SourceLine(y)];
    TwoLines(SourceLine(x), SourceLine(y));
    SameSourceText(m, [z], [x, y]);
  }

  lemma TwoLines(a: string, b: string)
    ensures Terminated([Sep(a, '\n', b)]) == Terminated([a, b])
  {
    assert [a, b][1..] == [b] && [b][1..] == [] && [Sep(a, '\n', b)][1..] == [];
    assert Terminated([b]) == b + ['\n'] + [];
    assert Terminated([a, b]) == a + ['\n'] + (b + ['\n'] + []);
  }

  // ---- The builder ----

  lemma WroteLine(lines: seq<string>, line: string)
    ensures Terminated(lines) + (line + ['\n']) == Terminated(lines + [line])
  {
    TerminatedConcat(lines, [line]);
    assert Terminated([line]) == line + ['\n'] + Terminated([]);
  }

  /** One Fprintf for the header and one for each row. */
  method WriteSection<T>(text: string, header: string, line: T -> string, rows: seq<T>, ghost lines: seq<string>)
    returns (text': string)
    requires text == Terminated(lines)
    ensures text' == Terminated(lines + ([header] + Map(line, rows)))
  {
    WroteLine(lines, header);
    text' := text + (header + "\n");
    assert lines + ([header] + Map(line, rows[..0])) == lines + [header];
    for i := 0 to |rows|
      invariant text' == Terminated(lines + ([header] + Map(line, rows[..i])))
    {
      var before := lines + ([header] + Map(line, rows[..i]));
      WroteLine(before, line(rows[i]));
      assert lines + ([header] + Map(line, rows[..i + 1])) == before + [line(rows[i])];
      text' := text' + (line(rows[i]) + "\n");
    }
    assert rows[..|rows|] == rows;
  }

  // ---- The order of the rows ----

  function SourceKey(s: Source): int { s.id }

  function LoadKey(l: Load): int { l.id }

  function TagKey(t: TagCount): int { t.loadId }

  /** The same rows, each table in id order. */
  ghost predicate Ordered(s: Metadata, m: Metadata) {
    && SortOf(s.sources, m.sources, SourceKey) && SortOf(s.loads, m.loads, LoadKey)
    && SortOf(s.modbus, m.modbus, TagKey) && SortOf(s.opcua, m.opcua, TagKey)
  }

  /** Ids are primary keys, and counts are grouped by load. */
  predicate HasKeys(m: Metadata) {
    && (forall i, j :: 0 <= i < j < |m.sources| ==> m.sources[i].id != m.sources[j].id)
    && (forall i, j :: 0 <= i < j < |m.loads| ==> m.loads[i].id != m.loads[j].id)
    && (forall i, j :: 0 <= i < j < |m.modbus| ==> m.modbus[i].loadId != m.modbus[j].loadId)
    && (forall i, j :: 0 <= i < j < |m.opcua| ==> m.opcua[i].loadId != m.opcua[j].loadId)
  }

  ghost predicate SameRows(a: Metadata, b: Metadata) {
    && multiset(a.sources) == multiset(b.sources) && multiset(a.loads) == multiset(b.loads)
    && multiset(a.modbus) == multiset(b.modbus) && multiset(a.opcua) == multiset(b.opcua)
  }

  lemma SameOrder<T(!new)>(a: seq<T>, s: seq<T>, b: seq<T>, t: seq<T>, key: T -> int)
    requires SortOf(s, a, key) && SortOf(t, b, key) && Keyed(a, key)
    ensures multiset(a) == multiset(b) <==> s == t
  {
    if multiset(a) == multiset(b) {
      KeyedPerm(a, s, key);
      SortUnique(s, t, key);
    }
  }

  lemma OrderedClean(s: Metadata, m: Metadata)
    requires Ordered(s, m) && Clean(m)
    ensures Clean(s)
  {
    forall i | 0 <= i < |s.sources| ensures CleanSource(s.sources[i]) {
      assert s.sources[i] in multiset(m.sources);
    }
    forall i | 0 <= i < |s.loads| ensures CleanLoad(s.loads[i]) {
      assert s.loads[i] in multiset(m.loads);
    }
  }

  /** Whatever order the queries return, the hashed texts are equal exactly when the tables hold the same rows. */
  lemma FingerprintDetermines(a: Metadata, s: Metadata, b: Metadata, t: Metadata)
    requires Ordered(s, a) && Ordered(t, b) && Clean(a) && Clean(b) && HasKeys(a)
    ensures Text(s) == Text(t) <==> SameRows(a, b)
  {
    OrderedClean(s, a);
    OrderedClean(t, b);
    TextDetermines(s, t);
    SameOrder(a.sources, s.sources, b.sources, t.sources, SourceKey);
    SameOrder(a.loads, s.loads, b.loads, t.loads, LoadKey);
    SameOrder(a.modbus, s.modbus, b.modbus, t.modbus, TagKey);
    SameOrder(a.opcua, s.opcua, b.opcua, t.opcua, TagKey);
  }

  /** Sorts the rows the queries returned and writes the text of the four tables. */
  method MetadataFingerprint(m: Metadata) returns (text: string, s: Metadata)
    ensures Ordered(s, m) && text == Text(s)
    ensures forall i, j :: 0 <= i < j < |s.sources| ==> s.sources[i].id <= s.sources[j].id
    ensures forall i, j :: 0 <= i < j < |s.loads| ==> s.loads[i].id <= s.loads[j].id
    ensures forall i, j :: 0 <= i < j < |s.modbus| ==> s.modbus[i].loadId <= s.modbus[j].loadId
    ensures forall i, j :: 0 <= i < j < |s.opcua| ==> s.opcua[i].loadId <= s.opcua[j].loadId
  {
    var sources := SortBy(m.sources, SourceKey);
    var loads := SortBy(m.loads, LoadKey);
    var modbus := SortBy(m.modbus, TagKey);
    var opcua := SortBy(m.opcua, TagKey);
    s := Metadata(sources, loads, modbus, opcua);
    text := WriteText(s);
  }

  method WriteText(m: Metadata) returns (text: string)
    ensures text == Text(m)
  {
    ghost var s, l := Map(SourceLine, m.sources), Map(LoadLine, m.loads);
    ghost var t, o := Map(TagLine, m.modbus), Map(TagLine, m.opcua);
    text := WriteSection("", "SOURCES:", SourceLine, m.sources, []);
    ghost var lines := [] + (["SOURCES:"] + s);
    text := WriteSection(text, "LOADS:", LoadLine, m.loads, lines);
    lines := lines + (["LOADS:"] + l);
    text := WriteSection(text, "MODBUS:", TagLine, m.modbus, lines);
    lines := lines + (["MODBUS:"] + t);
    text := WriteSection(text, "OPCUA:", TagLine, m.opcua, lines);
    LinesInOrder(s, l, t, o, m);
  }

  lemma Assoc(a: seq<string>, b: seq<string>, c: seq<string>)
    ensures (a + b) + c == a + (b + c)
  {}

  lemma LinesInOrder(s: seq<string>, l: seq<string>, t: seq<string>, o: seq<string>, m: Metadata)
    requires s == Map(SourceLine, m.sources) && l == Map(LoadLine, m.loads)
    requires t == Map(TagLine, m.modbus) && o == Map(TagLine, m.opcua)
    ensures [] + (["SOURCES:"] + s) + (["LOADS:"] + l) + (["MODBUS:"] + t) + (["OPCUA:"] + o) == Lines(m)
  {
    var hs, hl, ht, ho := ["SOURCES:"] + s, ["LOADS:"] + l, ["MODBUS:"] + t, ["OPCUA:"] + o;
    assert [] + hs == hs;
    Assoc(["MODBUS:"], t, ho);
    Assoc(["LOADS:"], l, ht + ho);
    Assoc(["SOURCES:"], s, hl + (ht + ho));
    Assoc(hs + hl, ht, ho);
    Assoc(hs, hl, ht + ho);
  }
}
