/** What the reader does with the field lines and the data lines of one written table. */
module CgatsRunData {
  import opened Wrappers
  import opened Pars
  import opened Lexing
  import opened CellTypes
  import opened Decimal
  import opened CgatsTables
  import opened CgatsWriter
  import opened CgatsLines
  import opened CgatsColumns
  import opened CgatsReader
  import opened CgatsRun
  import opened Quote

  ghost predicate FieldReadable(f: Field) {
    && FieldOk(f) && f.sym != "" && !HasSpecial(f.sym) && NUL !in f.sym && |Quoted(f.sym)| <= LONGEST
    && f.sym != END_DATA_FORMAT && f.sym != BEGIN_DATA && f.sym != "DEVICE_NAME"
  }

  lemma {:induction false} DeclareFieldsRun(r: Reader, x: Reader, fs: seq<Field>, emit: bool)
    requires AtHead(r, x) && OthersOk(r.others) && forall f | f in fs :: FieldReadable(f)
    ensures var o := Run(r, Words(DeclareFields(fs, emit))); o.Ok? && AtHead(o.value, x)
    decreases |fs|
  {
    if fs == [] {
    } else {
      var e := emit && StandardField(fs[0].sym) == NoType;
      assert fs[0] in fs;
      DeclareRun(r, x, fs[0].sym, e);
      DeclareFieldsRun(Run(r, Words(DeclareLines(fs[0].sym, e))).value, x, fs[1..], emit);
      RunLines(r, DeclareLines(fs[0].sym, e), DeclareFields(fs[1..], emit));
    }
  }

  lemma {:induction false} DeclareFieldsOk(fs: seq<Field>, emit: bool)
    requires forall f | f in fs :: FieldReadable(f)
    ensures AllOk(DeclareFields(fs, emit))
    decreases |fs|
  {
    if fs == [] {
    } else {
      assert fs[0] in fs;
      DeclareLineOk(fs[0].sym, emit && StandardField(fs[0].sym) == NoType);
      DeclareFieldsOk(fs[1..], emit);
    }
  }

  /** The reader in the state of reading fields, with some. */
  function WithFields(x: Reader, st: State, fs: seq<Field>): Reader
    requires x.tables != []
  {
    x.To(st, x.Last().(fields := fs))
  }

  lemma FieldTaken(x: Reader, had: seq<Field>, f: Field, first: bool)
    requires x.tables != [] && x.Last().nsets == 0 && FieldReadable(f) && WithFields(x, Fields, had).Valid()
    ensures Step(WithFields(x, Fields, had), Tok(f.sym, first)) == Ok(WithFields(x, Fields, had + [Field(f.sym, Quot)]))
    ensures WithFields(x, Fields, had + [Field(f.sym, Quot)]).Valid()
  {
    QuotedLonger(f.sym);
    var r := WithFields(x, Fields, had);
    assert AddField(r.Last(), f.sym, NoType) == Ok(x.Last().(fields := had + [Field(f.sym, Quot)]));
    assert r.To(Fields, x.Last().(fields := had + [Field(f.sym, Quot)])) ==
      WithFields(x, Fields, had + [Field(f.sym, Quot)]);
  }

  lemma UntypedNext(had: seq<Field>, fs: seq<Field>)
    requires fs != []
    ensures had + [Field(fs[0].sym, Quot)] + Untyped(fs[1..]) == had + Untyped(fs)
  {
  }

  lemma {:induction false} FieldsTaken(x: Reader, had: seq<Field>, fs: seq<Field>, toks: seq<Tok>)
    requires x.tables != [] && x.Last().nsets == 0 && WithFields(x, Fields, had).Valid()
    requires |toks| == |fs| && forall i | 0 <= i < |fs| :: FieldReadable(fs[i]) && toks[i].s == fs[i].sym
    ensures Run(WithFields(x, Fields, had), toks) == Ok(WithFields(x, Fields, had + Untyped(fs)))
    decreases |fs|
  {
    if fs == [] {
      assert had + Untyped(fs) == had;
    } else {
      FieldTaken(x, had, fs[0], toks[0].first);
      FieldsTaken(x, had + [Field(fs[0].sym, Quot)], fs[1..], toks[1..]);
      UntypedNext(had, fs);
    }
  }

  lemma WordLine(w: string)
    requires GoodWord(w)
    ensures LineOk(Bare1(w)) && Words([Bare1(w)]) == [Tok(w, true)]
  {
    OneWord(w, "");
    assert w + "" == w;
    WordsOne(Bare1(w));
    assert Marked([w]) == [Tok(w, true)];
  }

  lemma ReservedGood(s: string)
    requires ReservedKword(s)
    ensures GoodWord(s)
  {
    ReservedHead(s, []);
    PlainGood(s);
  }

  lemma FieldsLine(fs: seq<Field>)
    requires forall f | f in fs :: FieldReadable(f)
    ensures var l := Bare1(Spaced(FieldWords(fs)));
            LineOk(l) && |Words([l])| == |fs| && forall i | 0 <= i < |fs| :: Words([l])[i].s == fs[i].sym
  {
    forall i | 0 <= i < |fs|
      ensures AllBlank(FieldWords(fs)[i].0) && GoodWord(FieldWords(fs)[i].1)
    {
      assert fs[i] in fs;
      PlainGood(fs[i].sym);
    }
    SpacedWords(FieldWords(fs));
    WordsOne(Bare1(Spaced(FieldWords(fs))));
  }

  lemma FormatBegins(r: Reader, x: Reader)
    requires AtHead(r, x) && OthersOk(r.others) && x.Last().nsets == 0
    ensures Run(r, Words([Bare1(BEGIN_DATA_FORMAT)])) == Ok(WithFields(x, Fields, []))
      && WithFields(x, Fields, []).Valid()
  {
    ReservedHead(BEGIN_DATA_FORMAT, r.others);
    ReservedLine(BEGIN_DATA_FORMAT);
    HeadAt(r, x, BEGIN_DATA_FORMAT);
    RunOne(r, Tok(BEGIN_DATA_FORMAT, true));
  }

  lemma EndFormatStep(r: Reader)
    requires r.Valid() && r.st == Fields
    ensures Step(r, Tok(END_DATA_FORMAT, true)) == Ok(r.(st := Kwords))
  {
  }

  lemma FormatEnds(x: Reader, fs: seq<Field>)
    requires x.tables != [] && x.Last().nsets == 0 && WithFields(x, Fields, fs).Valid()
    ensures Run(WithFields(x, Fields, fs), Words([Bare1(END_DATA_FORMAT)])) == Ok(WithFields(x, Kwords, fs))
  {
    var r := WithFields(x, Fields, fs);
    ReservedLine(END_DATA_FORMAT);
    RunOne(r, Tok(END_DATA_FORMAT, true));
    EndFormatStep(r);
    assert r.(st := Kwords) == WithFields(x, Kwords, fs);
  }

  lemma FormatRun(r: Reader, x: Reader, fs: seq<Field>)
    requires AtHead(r, x) && OthersOk(r.others) && x.Last().nsets == 0 && forall f | f in fs :: FieldReadable(f)
    ensures Run(r, Words(FormatLines(fs))) == Ok(WithFields(x, Kwords, Untyped(fs)))
    ensures WithFields(x, Kwords, Untyped(fs)).Valid()
  {
    FormatBegins(r, x);
    FieldsLine(fs);
    FieldsTaken(x, [], fs, Words([Bare1(Spaced(FieldWords(fs)))]));
    assert [] + Untyped(fs) == Untyped(fs);
    FormatEnds(x, Untyped(fs));
    RunThree(r, [Bare1(BEGIN_DATA_FORMAT)], [Bare1(Spaced(FieldWords(fs)))], [Bare1(END_DATA_FORMAT)],
             WithFields(x, Fields, []), WithFields(x, Fields, Untyped(fs)), WithFields(x, Kwords, Untyped(fs)));
  }

  lemma FormatOk(fs: seq<Field>)
    requires forall f | f in fs :: FieldReadable(f)
    ensures AllOk(FormatLines(fs))
  {
    ReservedLine(BEGIN_DATA_FORMAT);
    ReservedLine(END_DATA_FORMAT);
    FieldsLine(fs);
    Three(Bare1(BEGIN_DATA_FORMAT), Bare1(Spaced(FieldWords(fs))), Bare1(END_DATA_FORMAT));
  }

  lemma ReservedLine(s: string)
    requires ReservedKword(s)
    ensures LineOk(Bare1(s)) && Words([Bare1(s)]) == [Tok(s, true)]
  {
    ReservedGood(s);
    WordLine(s);
  }

  lemma Three(a: TextLine, b: TextLine, c: TextLine)
    ensures forall l | l in [a] + ([b] + [c]) :: l == a || l == b || l == c
  {
  }

  /** The line of a count: a reserved keyword and a number. */
  lemma CountLineOk(s: string, n: nat)
    requires ReservedKword(s)
    ensures LineOk(CountLine(s, n)) && Words([CountLine(s, n)]) == Marked([s, IntText(n)])
  {
    ReservedGood(s);
    IntGood(n);
    KwordLine(s, IntText(n), "", None);
    assert IntText(n) + "" == IntText(n);
  }

  lemma CountRun(r: Reader, x: Reader, s: string, n: nat)
    requires AtHead(r, x) && OthersOk(r.others) && |IntText(n)| <= LONGEST
      && (s == NUMBER_OF_FIELDS || s == NUMBER_OF_SETS)
    ensures var x' := x.(expsets := if s == NUMBER_OF_SETS then n else x.expsets);
            Run(r, Words([CountLine(s, n)])) == Ok(x') && AtHead(x', x')
  {
    CountLineOk(s, n);
    ReservedHead(s, r.others);
    KwordRun(r, x, s, IntText(n));
    IntReadsBack(n);
  }

  lemma EmptyLineOk()
    ensures LineOk(Bare1("")) && Words([Bare1("")]) == []
  {
    BlankLine("");
    WordsOne(Bare1(""));
  }

  lemma EmptyFirst(ls: seq<TextLine>)
    ensures Words([Bare1("")] + ls) == Words(ls)
  {
    EmptyLineOk();
    WordsJoin([Bare1("")], ls);
  }

  lemma FieldLinesRun(r: Reader, x: Reader, t: Table, emit: bool)
    requires AtHead(r, x) && OthersOk(r.others) && x.Last().nsets == 0 && !t.supFields
    requires (forall f | f in t.fields :: FieldReadable(f)) && |IntText(|t.fields|)| <= LONGEST
    ensures Run(r, Words(FieldLines(t, emit))) == Ok(WithFields(x, Kwords, Untyped(t.fields)))
    ensures WithFields(x, Kwords, Untyped(t.fields)).Valid()
  {
    var count, decl := [CountLine(NUMBER_OF_FIELDS, |t.fields|)], DeclareFields(t.fields, emit);
    EmptyFirst(decl + (count + FormatLines(t.fields)));
    DeclareFieldsRun(r, x, t.fields, emit);
    var r1 := Run(r, Words(decl)).value;
    CountRun(r1, x, NUMBER_OF_FIELDS, |t.fields|);
    FormatRun(x, x, t.fields);
    RunLines(r1, count, FormatLines(t.fields));
    RunLines(r, decl, count + FormatLines(t.fields));
  }

  lemma FieldLinesOk(t: Table, emit: bool)
    requires forall f | f in t.fields :: FieldReadable(f)
    ensures AllOk(FieldLines(t, emit))
  {
    EmptyLineOk();
    DeclareFieldsOk(t.fields, emit);
    CountLineOk(NUMBER_OF_FIELDS, |t.fields|);
    FormatOk(t.fields);
  }

  // ----- data -----

  ghost predicate CellShort(f: Field, c: Cell)
    requires CellFits(c, f.ty)
  {
    CellReadable(f, c) && |CellWord(f, c).1| <= LONGEST
  }

  ghost predicate RowReadable(fs: seq<Field>, row: seq<Cell>) {
    RowFits(row, fs) && forall i | 0 <= i < |row| :: CellShort(fs[i], row[i])
  }

  ghost predicate RowsReadable(fs: seq<Field>, rows: seq<seq<Cell>>) {
    (forall row | row in rows :: RowFits(row, fs)) && forall row | row in rows :: RowReadable(fs, row)
  }

  /** The texts of the cells of a set. */
  function RawRow(fs: seq<Field>, row: seq<Cell>): (r: seq<string>)
    requires RowFits(row, fs)
    ensures |r| == |fs| && forall i | 0 <= i < |row| :: r[i] == CellWord(fs[i], row[i]).1
  {
    Seconds(RowWords(fs, row))
  }

  function RawRows(fs: seq<Field>, rows: seq<seq<Cell>>): (r: seq<seq<string>>)
    requires forall row | row in rows :: RowFits(row, fs)
    ensures |r| == |rows| && forall j | 0 <= j < |rows| :: r[j] == RawRow(fs, rows[j])
  {
    seq(|rows|, j requires 0 <= j < |rows| => RawRow(fs, rows[j]))
  }

  lemma RowLineOk(fs: seq<Field>, row: seq<Cell>)
    requires RowReadable(fs, row)
    ensures var l := Bare1(Spaced(RowWords(fs, row))); LineOk(l) && Words([l]) == Marked(RawRow(fs, row))
    ensures forall i | 0 <= i < |row| :: IsItem(RawRow(fs, row)[i])
  {
    forall i | 0 <= i < |row|
      ensures AllBlank(RowWords(fs, row)[i].0) && GoodWord(RowWords(fs, row)[i].1) && RowWords(fs, row)[i].1 != END_DATA
      ensures IsItem(RawRow(fs, row)[i])
    {
      assert CellShort(fs[i], row[i]);
      CellGood(fs[i], row[i]);
    }
    SpacedWords(RowWords(fs, row));
    WordsOne(Bare1(Spaced(RowWords(fs, row))));
  }

  /** The reader with complete sets and, unless part is empty, the beginning of another. */
  function WithRaw(x: Reader, raw: seq<seq<string>>, part: seq<string>): Reader
    requires x.tables != []
  {
    x.To(Data, if part == [] then x.Last().(nsets := |raw|, ndf := 0, raw := raw)
               else x.Last().(nsets := |raw| + 1, ndf := |part|, raw := raw + [part]))
  }

  ghost predicate RawOk(x: Reader, raw: seq<seq<string>>, part: seq<string>) {
    && x.tables != [] && x.done <= |x.tables| && x.Last().fields != [] && |part| < |x.Last().fields|
    && forall j | 0 <= j < |raw| :: |raw[j]| == |x.Last().fields|
  }

  lemma RawValid(x: Reader, raw: seq<seq<string>>, part: seq<string>)
    requires RawOk(x, raw, part)
    ensures WithRaw(x, raw, part).Valid()
  {
  }

  lemma ItemTaken(x: Reader, raw: seq<seq<string>>, part: seq<string>, tok: Tok)
    requires RawOk(x, raw, part) && IsItem(tok.s) && WithRaw(x, raw, part).Valid()
    ensures Step(WithRaw(x, raw, part), tok) ==
      Ok(if |part| + 1 == |x.Last().fields| then WithRaw(x, raw + [part + [tok.s]], [])
         else WithRaw(x, raw, part + [tok.s]))
  {
    var r := WithRaw(x, raw, part);
    assert part == [] ==> part + [tok.s] == [tok.s];
    assert (raw + [part])[|raw| := part + [tok.s]] == raw + [part + [tok.s]];
    var o := AddDataItem(r.Last(), tok.s);
    assert Step(r, tok) == Ok(r.To(Data, o.value));
    ToAgain(x, Data, Data, if part == [] then x.Last().(nsets := |raw|, ndf := 0, raw := raw)
                     else x.Last().(nsets := |raw| + 1, ndf := |part|, raw := raw + [part]), o.value);
  }

  lemma ToAgain(x: Reader, st: State, st': State, t: Table, t': Table)
    requires x.tables != []
    ensures x.To(st, t).To(st', t') == x.To(st', t') && x.To(st, t).Last() == t
  {
  }

  lemma RunStep(r: Reader, toks: seq<Tok>, r': Reader)
    requires r.Valid() && toks != [] && Step(r, toks[0]) == Ok(r')
    ensures r'.Valid() && Run(r, toks) == Run(r', toks[1..])
  {
  }

  function Texts(toks: seq<Tok>): (r: seq<string>)
    ensures |r| == |toks| && forall i | 0 <= i < |toks| :: r[i] == toks[i].s
  {
    seq(|toks|, i requires 0 <= i < |toks| => toks[i].s)
  }

  lemma TextsNext(part: seq<string>, toks: seq<Tok>)
    requires toks != []
    ensures part + [toks[0].s] + Texts(toks[1..]) == part + Texts(toks)
  {
  }

  ghost predicate IsItem(s: string) {
    s != END_DATA && |s| <= LONGEST
  }

  lemma {:induction false} ItemsTaken(x: Reader, raw: seq<seq<string>>, part: seq<string>, toks: seq<Tok>)
    requires RawOk(x, raw, part) && WithRaw(x, raw, part).Valid()
    requires toks != [] && |part| + |toks| == |x.Last().fields|
    requires forall i | 0 <= i < |toks| :: IsItem(toks[i].s)
    ensures Run(WithRaw(x, raw, part), toks) == Ok(WithRaw(x, raw + [part + Texts(toks)], []))
    decreases |toks|
  {
    TextsNext(part, toks);
    ItemTaken(x, raw, part, toks[0]);
    if |toks| == 1 {
      RunStep(WithRaw(x, raw, part), toks, WithRaw(x, raw + [part + [toks[0].s]], []));
      assert Texts(toks) == [toks[0].s];
    } else {
      RunStep(WithRaw(x, raw, part), toks, WithRaw(x, raw, part + [toks[0].s]));
      ItemsTaken(x, raw, part + [toks[0].s], toks[1..]);
    }
  }

  lemma RowRun(x: Reader, raw: seq<seq<string>>, row: seq<Cell>, fs: seq<Field>)
    requires RawOk(x, raw, []) && WithRaw(x, raw, []).Valid() && RowReadable(fs, row) && |fs| == |x.Last().fields|
    ensures Run(WithRaw(x, raw, []), Words([Bare1(Spaced(RowWords(fs, row)))])) ==
      Ok(WithRaw(x, raw + [RawRow(fs, row)], []))
  {
    RowLineOk(fs, row);
    var toks := Marked(RawRow(fs, row));
    assert Texts(toks) == RawRow(fs, row) && [] + RawRow(fs, row) == RawRow(fs, row);
    ItemsTaken(x, raw, [], toks);
  }

  lemma RawMore(x: Reader, raw: seq<seq<string>>, fs: seq<Field>, rows: seq<seq<Cell>>)
    requires RawOk(x, raw, []) && rows != [] && RowsReadable(fs, rows) && |fs| == |x.Last().fields|
    ensures RawOk(x, raw + [RawRow(fs, rows[0])], [])
    ensures raw + [RawRow(fs, rows[0])] + RawRows(fs, rows[1..]) == raw + RawRows(fs, rows)
  {
  }

  lemma {:induction false} RowLinesRun(x: Reader, raw: seq<seq<string>>, rows: seq<seq<Cell>>, fs: seq<Field>)
    requires RawOk(x, raw, []) && WithRaw(x, raw, []).Valid() && |fs| == |x.Last().fields| && RowsReadable(fs, rows)
    ensures Run(WithRaw(x, raw, []), Words(RowLines(fs, rows))) == Ok(WithRaw(x, raw + RawRows(fs, rows), []))
    decreases |rows|
  {
    if rows == [] {
      assert raw + RawRows(fs, rows) == raw;
    } else {
      assert rows[0] in rows;
      RowRun(x, raw, rows[0], fs);
      RawMore(x, raw, fs, rows);
      RawValid(x, raw + [RawRow(fs, rows[0])], []);
      RowLinesRun(x, raw + [RawRow(fs, rows[0])], rows[1..], fs);
      RunLines(WithRaw(x, raw, []), [Bare1(Spaced(RowWords(fs, rows[0])))], RowLines(fs, rows[1..]));
    }
  }

  lemma AllRowsRun(x: Reader, rows: seq<seq<Cell>>, fs: seq<Field>)
    requires RawOk(x, [], []) && |fs| == |x.Last().fields| && RowsReadable(fs, rows)
    ensures RawOk(x, RawRows(fs, rows), []) && WithRaw(x, [], []).Valid() && WithRaw(x, RawRows(fs, rows), []).Valid()
    ensures Run(WithRaw(x, [], []), Words(RowLines(fs, rows))) == Ok(WithRaw(x, RawRows(fs, rows), []))
  {
    RawValid(x, [], []);
    RowLinesRun(x, [], rows, fs);
    assert [] + RawRows(fs, rows) == RawRows(fs, rows);
    RawValid(x, RawRows(fs, rows), []);
  }

  lemma {:induction false} RowLinesOk(fs: seq<Field>, rows: seq<seq<Cell>>)
    requires RowsReadable(fs, rows)
    ensures AllOk(RowLines(fs, rows))
    decreases |rows|
  {
    if rows == [] {
    } else {
      assert rows[0] in rows;
      RowLineOk(fs, rows[0]);
      RowLinesOk(fs, rows[1..]);
    }
  }

  lemma DataBegins(x: Reader)
    requires AtHead(x, x) && OthersOk(x.others) && x.Last().nsets == 0
    ensures Run(x, Words([Bare1(BEGIN_DATA)])) == Ok(WithRaw(x, [], []))
  {
    ReservedLine(BEGIN_DATA);
    ReservedHead(BEGIN_DATA, x.others);
    HeadAt(x, x, BEGIN_DATA);
    RunOne(x, Tok(BEGIN_DATA, true));
    NoSets(x);
  }

  lemma NoSets(x: Reader)
    requires x.Valid() && x.tables != [] && x.Last().nsets == 0
    ensures WithRaw(x, [], []) == x.(st := Data)
  {
    assert x.Last().raw == [] && x.Last().ndf == 0;
    assert x.tables[|x.tables| - 1 := x.Last()] == x.tables;
  }

  /** The table that a reader has once the data of the last one is converted. */
  function Settled1(x: Reader, t: Table): Reader
    requires x.tables != []
  {
    x.To(Ident, t).(done := |x.tables|)
  }

  lemma DataEnds(x: Reader, raw: seq<seq<string>>, t: Table)
    requires RawOk(x, raw, []) && WithRaw(x, raw, []).Valid() && x.expsets == |raw|
    requires Convert(WithRaw(x, raw, []).Last()) == Ok(t)
    ensures Run(WithRaw(x, raw, []), Words([Bare1(END_DATA)])) == Ok(Settled1(x, t))
  {
    var r := WithRaw(x, raw, []);
    ReservedLine(END_DATA);
    RunOne(r, Tok(END_DATA, true));
    EndStep(r, t);
    RawSettled(x, raw, t);
  }

  lemma RawSettled(x: Reader, raw: seq<seq<string>>, t: Table)
    requires x.tables != []
    ensures WithRaw(x, raw, []).To(Ident, t).(done := |x.tables|) == Settled1(x, t)
  {
    ToAgain(x, Data, Ident, WithRaw(x, raw, []).Last(), t);
  }

  lemma EndStep(r: Reader, t: Table)
    requires r.Valid() && r.st == Data && r.Last().nsets == r.expsets && r.Last().ndf == 0 && Convert(r.Last()) == Ok(t)
    ensures Step(r, Tok(END_DATA, true)) == Ok(r.To(Ident, t).(done := |r.tables|))
  {
  }

  /** The lines from the start of the data to its end. */
  lemma SetsRun(x: Reader, t: Table, t': Table)
    requires AtHead(x, x) && OthersOk(x.others) && x.Last().nsets == 0 && x.Last().fields == Untyped(t.fields)
    requires t.fields != [] && RowsOk(t) && RowsReadable(t.fields, t.data) && x.expsets == |t.data|
    requires Convert(x.Last().(nsets := |t.data|, ndf := 0, raw := RawRows(t.fields, t.data))) == Ok(t')
    ensures Run(x, Words([Bare1(BEGIN_DATA)] + (RowLines(t.fields, t.data) + [Bare1(END_DATA)]))) == Ok(Settled1(x, t'))
  {
    var begin, rows, end := [Bare1(BEGIN_DATA)], RowLines(t.fields, t.data), [Bare1(END_DATA)];
    DataBegins(x);
    AllRowsRun(x, t.data, t.fields);
    DataEnds(x, RawRows(t.fields, t.data), t');
    RunThree(x, begin, rows, end, WithRaw(x, [], []), WithRaw(x, RawRows(t.fields, t.data), []), Settled1(x, t'));
  }

  lemma RunThree(r0: Reader, a: seq<TextLine>, b: seq<TextLine>, c: seq<TextLine>, r1: Reader, r2: Reader, r3: Reader)
    requires r0.Valid() && Run(r0, Words(a)) == Ok(r1)
    requires r1.Valid() && Run(r1, Words(b)) == Ok(r2) && r2.Valid() && Run(r2, Words(c)) == Ok(r3)
    ensures Run(r0, Words(a + (b + c))) == Ok(r3)
  {
    RunLines(r1, b, c);
    RunLines(r0, a, b + c);
  }

  lemma DataLinesRun(r: Reader, x: Reader, t: Table, t': Table)
    requires AtHead(r, x) && OthersOk(r.others) && x.Last().nsets == 0 && x.Last().fields == Untyped(t.fields)
    requires t.fields != [] && RowsOk(t) && RowsReadable(t.fields, t.data)
    requires |IntText(|t.data|)| <= LONGEST
    requires Convert(x.Last().(nsets := |t.data|, ndf := 0, raw := RawRows(t.fields, t.data))) == Ok(t')
    ensures Run(r, Words(DataLines(t))) == Ok(Settled1(x.(expsets := |t.data|), t'))
  {
    var x' := x.(expsets := |t.data|);
    var count, sets := [CountLine(NUMBER_OF_SETS, |t.data|)],
                       [Bare1(BEGIN_DATA)] + (RowLines(t.fields, t.data) + [Bare1(END_DATA)]);
    CountRun(r, x, NUMBER_OF_SETS, |t.data|);
    assert Run(x', Words(sets)) == Ok(Settled1(x', t')) by {
      assert x'.Last() == x.Last() && x'.others == x.others;
      SetsRun(x', t, t');
    }
    RunLines(r, count, sets);
    EmptyFirst(count + sets);
  }

  lemma DataLinesOk(t: Table)
    requires RowsOk(t) && RowsReadable(t.fields, t.data)
    ensures AllOk(DataLines(t))
  {
    EmptyLineOk();
    CountLineOk(NUMBER_OF_SETS, |t.data|);
    ReservedLine(BEGIN_DATA);
    ReservedLine(END_DATA);
    RowLinesOk(t.fields, t.data);
    FiveParts(Bare1(""), CountLine(NUMBER_OF_SETS, |t.data|), Bare1(BEGIN_DATA), RowLines(t.fields, t.data),
      Bare1(END_DATA));
  }

  lemma FiveParts(a: TextLine, b: TextLine, c: TextLine, ds: seq<TextLine>, e: TextLine)
    ensures forall l | l in [a] + ([b] + ([c] + (ds + [e]))) :: l == a || l == b || l == c || l in ds || l == e
  {
  }
}
