/** Writing tables and reading them back. */
module CgatsRoundTrip {
  import opened Wrappers
  import opened Pars
  import opened Lexing
  import opened CellTypes
  import opened Decimal
  import opened CgatsTables
  import opened CgatsWriter
  import opened CgatsLines
  import opened CgatsReader
  import opened CgatsRun
  import opened CgatsRunData
  import opened CgatsRecover

  // ----- what can be read back -----

  /** A word that a reader takes for an identifier other than the standard ones. */
  predicate IdWord(s: string) {
    s != "" && !HasSpecial(s) && NUL !in s && |s| <= LONGEST
  }

  /** The table's identifier is the one that a reader finds for it. */
  ghost predicate IdReadable(tt: TableType, d: Doc) {
    match tt
    case CgatsX =>
      d.xtype.Some? && IdWord(d.xtype.value) && StartsWith(d.xtype.value, "CGATS.") && d.xtype.value != "CGATS.5"
    case Other(oi) =>
      && oi < |d.others| && IdWord(d.others[oi]) && StandardIdent(d.others[oi]).None?
      && !StartsWith(d.others[oi], "CGATS.")
      && forall k | 0 <= k < oi :: d.others[k] != d.others[oi]
    case Unnamed => false
    case _ => true
  }

  /** What set_table_flags allows: only a table without identifier may also leave out its keywords or fields. */
  predicate FlagsOk(t: Table) {
    !t.supId ==> !t.supKwords && !t.supFields
  }

  ghost predicate TableReadable(t: Table, d: Doc) {
    && SetsReadable(t) && FlagsOk(t) && IdReadable(t.tt, d)
    && (forall k | k in t.kwords :: KwordReadable(k, d.others)) && Distinct(t.kwords)
  }

  ghost predicate DocReadable(d: Doc) {
    && OthersOk(d.others)
    && (forall n | 0 <= n < |d.tables| :: TableReadable(d.tables[n], d))
    && (forall n | 0 <= n < |d.tables| :: !Unwritable(d, n))
  }

  lemma ReadableWritable(d: Doc)
    requires DocReadable(d)
    ensures forall t | t in d.tables :: RowsOk(t)
  {
  }

  // ----- what is read back -----

  /** A table read up to the end of its data, on top of keywords carried over. */
  function FilledTable(t: Table, base: seq<Kword>): (f: Table)
    requires SetsReadable(t)
    ensures FilledFrom(t, f)
  {
    NewTable(t.tt).(kwords := Overlay(base, t.kwords), fields := Untyped(t.fields), nsets := |t.data|,
                    raw := RawRows(t.fields, t.data))
  }

  function ReadTable(t: Table, base: seq<Kword>): (t': Table)
    requires SetsReadable(t)
    ensures DataRecovered(t, t') && t'.tt == t.tt && t'.kwords == Overlay(base, t.kwords)
    ensures Filling(FilledTable(t, base)) && Convert(FilledTable(t, base)) == Ok(t')
    ensures t' == FilledTable(t, base).(fields := t'.fields, data := t'.data)
  {
    ConvertRecovers(t, FilledTable(t, base));
    Convert(FilledTable(t, base)).value
  }

  /** The first n tables as they are read back. */
  function ReadTables(d: Doc, n: nat): (r: seq<Table>)
    requires DocReadable(d) && n <= |d.tables|
    ensures |r| == n
  {
    if n == 0 then [] else
      var prev := ReadTables(d, n - 1);
      assert TableReadable(d.tables[n - 1], d);
      prev + [ReadTable(d.tables[n - 1], if d.tables[n - 1].supId && n > 1 then prev[n - 2].kwords else [])]
  }

  function Base(d: Doc, n: nat): seq<Kword>
    requires DocReadable(d) && n < |d.tables|
  {
    if d.tables[n].supId && n > 0 then ReadTables(d, n)[n - 1].kwords else []
  }

  /** The variable CGATS type once n tables have been read. */
  function TypeRead(d: Doc, n: nat): Option<string>
    requires n <= |d.tables|
  {
    if n == 0 then None
    else if !d.tables[n - 1].supId && d.tables[n - 1].tt == CgatsX then d.xtype
    else TypeRead(d, n - 1)
  }

  /** The reader between tables n - 1 and n. */
  function Between(d: Doc, n: nat): Reader
    requires DocReadable(d) && n <= |d.tables|
  {
    Reader(Ident, "", n, if n == 0 then 0 else |d.tables[n - 1].data|, ReadTables(d, n), d.others, TypeRead(d, n))
  }

  lemma BetweenValid(d: Doc, n: nat)
    requires DocReadable(d) && n <= |d.tables|
    ensures Between(d, n).Valid()
  {
    if n > 0 {
      assert TableReadable(d.tables[n - 1], d);
      var t, b := d.tables[n - 1], Base(d, n - 1);
      assert ReadTables(d, n)[n - 1] == ReadTable(t, b);
      ReadFilling(t, b);
    }
  }

  lemma ReadFilling(t: Table, base: seq<Kword>)
    requires SetsReadable(t)
    ensures Filling(ReadTable(t, base)) && |ReadTable(t, base).fields| == |t.fields|
  {
  }

  /** Every table read has proper keywords and field names, so the next one can start from them. */
  lemma {:induction false} ReadCarries(d: Doc, n: nat)
    requires DocReadable(d) && 0 < n <= |d.tables|
    ensures forall k | k in ReadTables(d, n)[n - 1].kwords :: KwordOk(k)
    decreases n
  {
    var t := d.tables[n - 1];
    assert TableReadable(t, d);
    if t.supId && n > 1 {
      ReadCarries(d, n - 1);
    }
    OverlayOk(Base(d, n - 1), t.kwords, d.others);
    assert ReadTables(d, n)[n - 1].kwords == Overlay(Base(d, n - 1), t.kwords);
  }

  // ----- opening a table -----

  /** Table n as it is opened: empty, or with the keywords and the field names of the one before. */
  function OpenTable(d: Doc, n: nat): Table
    requires DocReadable(d) && n < |d.tables|
  {
    NewTable(d.tables[n].tt).(kwords := Base(d, n),
                              fields := if d.tables[n].supId && n > 0 then Untyped(d.tables[n - 1].fields) else [])
  }

  /** The reader in the head of table n. */
  function Head(d: Doc, n: nat): Reader
    requires DocReadable(d) && n < |d.tables|
  {
    Between(d, n).(st := Kwords, tables := ReadTables(d, n) + [OpenTable(d, n)], xtype := TypeRead(d, n + 1))
  }

  lemma HeadValid(d: Doc, n: nat)
    requires DocReadable(d) && n < |d.tables|
    ensures Head(d, n).Valid() && AtHead(Head(d, n), Head(d, n))
  {
  }

  lemma CarriedNames(d: Doc, n: nat)
    requires DocReadable(d) && 0 < n < |d.tables|
    ensures var t := ReadTables(d, n)[n - 1];
            t.tt == d.tables[n - 1].tt && |t.fields| == |d.tables[n - 1].fields|
              && Untyped(t.fields) == Untyped(d.tables[n - 1].fields)
    ensures forall f | f in ReadTables(d, n)[n - 1].fields :: !HasSpecial(f.sym)
  {
    var p, t := d.tables[n - 1], ReadTables(d, n)[n - 1];
    assert TableReadable(p, d);
    assert t == ReadTable(p, Base(d, n - 1));
    forall i | 0 <= i < |p.fields|
      ensures t.fields[i].sym == p.fields[i].sym && !HasSpecial(t.fields[i].sym)
    {
      assert FieldRecovered(p.fields[i], CellsOf(p, i), t.fields[i]) && p.fields[i] in p.fields;
    }
  }

  /** A table without identifier is opened by its first keyword. */
  lemma CarryOpens(d: Doc, n: nat)
    requires DocReadable(d) && n < |d.tables| && d.tables[n].supId
    ensures n > 0 && AtHead(Between(d, n), Head(d, n))
  {
    assert !Unwritable(d, n);
    BetweenValid(d, n);
    HeadValid(d, n);
    ReadCarries(d, n);
    CarriedNames(d, n);
    CarriedIs(ReadTables(d, n)[n - 1]);
  }

  lemma CarriedIs(t: Table)
    requires (forall k | k in t.kwords :: KwordOk(k)) && forall f | f in t.fields :: !HasSpecial(f.sym)
    ensures Carried(t) == Ok(NewTable(t.tt).(kwords := t.kwords, fields := Untyped(t.fields)))
  {
  }

  lemma FoundOther(others: seq<string>, oi: nat, i: nat)
    requires i <= oi < |others| && others[oi] != "" && forall k | 0 <= k < oi :: others[k] != others[oi]
    ensures FindOther(others, others[oi], i) == Some(oi)
    decreases oi - i
  {
    if i < oi {
      FoundOther(others, oi, i + 1);
    }
  }

  /** What reading identifier s of type tt must do. */
  ghost predicate Finds(d: Doc, tt: TableType, r: Reader, s: string) {
    IdWord(s) && Identify(r, s) == (Some(tt), if tt == CgatsX then r.(xtype := d.xtype, st := Kwords)
                                              else if tt.Other? then r.(st := Kwords) else r)
  }

  lemma OtherFound(d: Doc, oi: nat, r: Reader)
    requires IdReadable(Other(oi), d) && r.others == d.others
    ensures Finds(d, Other(oi), r, d.others[oi])
  {
    FoundOther(d.others, oi, 0);
  }

  lemma XFound(d: Doc, r: Reader)
    requires IdReadable(CgatsX, d)
    ensures Finds(d, CgatsX, r, d.xtype.value)
  {
    StartsAt(d.xtype.value, "CGATS.", 0);
  }

  lemma IdFound(d: Doc, tt: TableType, r: Reader)
    requires IdReadable(tt, d) && r.others == d.others && r.st == Ident
    ensures IdText(tt, d.others, d.xtype).Some? && Finds(d, tt, r, IdText(tt, d.others, d.xtype).value)
  {
    match tt
    case Other(oi) => OtherFound(d, oi, r);
    case CgatsX => XFound(d, r);
    case _ =>
  }

  lemma BlanksBlank(n: int)
    ensures AllBlank(Blanks(n))
  {
  }

  lemma IdTextOk(d: Doc, tt: TableType)
    requires IdReadable(tt, d)
    ensures IdText(tt, d.others, d.xtype).Some? && IdWord(IdText(tt, d.others, d.xtype).value)
  {
  }

  lemma IdLineOk(s: string)
    requires IdWord(s)
    ensures var ls := [Bare1(s + Blanks(7 - |s|))] + [Bare1("")];
            Words(ls) == [Tok(s, true)] && AllOk(ls)
  {
    var l := Bare1(s + Blanks(7 - |s|));
    EmptyLineOk();
    PlainGood(s);
    BlanksBlank(7 - |s|);
    OneWord(s, Blanks(7 - |s|));
    WordsOne(l);
    WordsJoin([l], [Bare1("")]);
    assert Marked([s]) == [Tok(s, true)];
  }

  lemma TwoEmpty()
    ensures Words([Bare1("")] + [Bare1("")]) == [] && AllOk([Bare1("")] + [Bare1("")])
  {
    EmptyLineOk();
    EmptyFirst([Bare1("")]);
  }

  lemma IdLinesOk(d: Doc, t: Table)
    requires IdReadable(t.tt, d)
    ensures AllOk(IdLines(t, d))
    ensures var s := IdText(t.tt, d.others, d.xtype);
            if t.supId then Words(IdLines(t, d)) == [] else s.Some? && Words(IdLines(t, d)) == [Tok(s.value, true)]
  {
    if t.supId {
      TwoEmpty();
      assert IdLines(t, d) == [Bare1("")] + [Bare1("")];
    } else {
      IdTextOk(d, t.tt);
      var s := IdText(t.tt, d.others, d.xtype).value;
      IdLineOk(s);
      assert IdLines(t, d) == [Bare1(s + Blanks(7 - |s|))] + [Bare1("")];
    }
  }

  /** An identifier opens an empty table. */
  lemma IdOpens(d: Doc, n: nat)
    requires DocReadable(d) && n < |d.tables| && !d.tables[n].supId
    ensures var s := IdText(d.tables[n].tt, d.others, d.xtype);
            s.Some? && Between(d, n).Valid()
            && var o := Step(Between(d, n), Tok(s.value, true)); o.Ok? && AtHead(o.value, Head(d, n))
  {
    var t, r := d.tables[n], Between(d, n);
    assert TableReadable(t, d);
    IdFound(d, t.tt, r);
    BetweenValid(d, n);
    HeadValid(d, n);
    var s := IdText(t.tt, d.others, d.xtype).value;
    var r1 := Identify(r, s).1;
    assert Opened(r, Some(t.tt)) == Ok(r.tables + [NewTable(t.tt)]);
    assert Step(r, Tok(s, true)) == Ok(r1.(tables := r.tables + [NewTable(t.tt)]));
  }

  lemma IdRun(d: Doc, n: nat)
    requires DocReadable(d) && n < |d.tables|
    ensures Between(d, n).Valid()
    ensures var o := Run(Between(d, n), Words(IdLines(d.tables[n], d))); o.Ok? && AtHead(o.value, Head(d, n))
  {
    BetweenValid(d, n);
    assert TableReadable(d.tables[n], d);
    IdLinesOk(d, d.tables[n]);
    if d.tables[n].supId {
      CarryOpens(d, n);
    } else {
      IdOpens(d, n);
      RunOne(Between(d, n), Tok(IdText(d.tables[n].tt, d.others, d.xtype).value, true));
    }
  }

  // ----- running a table -----

  lemma KwordsRun(d: Doc, n: nat, r: Reader)
    requires DocReadable(d) && n < |d.tables| && AtHead(r, Head(d, n))
    ensures var t := d.tables[n];
            var o := Run(r, Words(AllKwordLines(t.kwords, d.emit)));
            o.Ok? && AtHead(o.value, WithKwords(Head(d, n), Overlay(Base(d, n), t.kwords)))
  {
    assert TableReadable(d.tables[n], d);
    AllKwordsRun(r, Head(d, n), d.tables[n].kwords, d.emit);
  }

  /** The reader in the head of table n once its keywords and fields are known. */
  function HeadRead(d: Doc, n: nat): Reader
    requires DocReadable(d) && n < |d.tables|
  {
    Head(d, n).To(Kwords, OpenTable(d, n).(kwords := Overlay(Base(d, n), d.tables[n].kwords),
      fields := Untyped(d.tables[n].fields)))
  }

  lemma HeadReadIs(d: Doc, n: nat)
    requires DocReadable(d) && n < |d.tables|
    ensures var x := WithKwords(Head(d, n), Overlay(Base(d, n), d.tables[n].kwords));
            && WithFields(x, Kwords, Untyped(d.tables[n].fields)) == HeadRead(d, n)
            && (d.tables[n].supFields ==> x == HeadRead(d, n))
            && x.Last().nsets == 0 && HeadRead(d, n).Last().nsets == 0
  {
    assert TableReadable(d.tables[n], d) && !Unwritable(d, n);
  }

  lemma FieldsRun(d: Doc, n: nat, r: Reader)
    requires DocReadable(d) && n < |d.tables|
    requires AtHead(r, WithKwords(Head(d, n), Overlay(Base(d, n), d.tables[n].kwords)))
    ensures var o := Run(r, Words(FieldLines(d.tables[n], d.emit))); o.Ok? && AtHead(o.value, HeadRead(d, n))
  {
    var t := d.tables[n];
    var x := WithKwords(Head(d, n), Overlay(Base(d, n), t.kwords));
    assert TableReadable(t, d);
    HeadReadIs(d, n);
    if !t.supFields {
      FieldLinesRun(r, x, t, d.emit);
    }
  }

  lemma DataRun(d: Doc, n: nat, r: Reader)
    requires DocReadable(d) && n < |d.tables| && AtHead(r, HeadRead(d, n))
    ensures Run(r, Words(DataLines(d.tables[n]))) == Ok(Between(d, n + 1))
  {
    var t := d.tables[n];
    assert TableReadable(t, d);
    HeadReadIs(d, n);
    var t' := ReadTable(t, Base(d, n));
    assert HeadRead(d, n).Last().(nsets := |t.data|, ndf := 0, raw := RawRows(t.fields, t.data)) ==
      FilledTable(t, Base(d, n));
    DataLinesRun(r, HeadRead(d, n), t, t');
    NextBetween(d, n);
  }

  lemma NextBetween(d: Doc, n: nat)
    requires DocReadable(d) && n < |d.tables| && SetsReadable(d.tables[n])
    ensures Settled1(HeadRead(d, n).(expsets := |d.tables[n].data|), ReadTable(d.tables[n], Base(d, n))) ==
      Between(d, n + 1)
  {
  }

  /** The lines of table n take the reader from before it to after it. */
  lemma TableRun(d: Doc, n: nat)
    requires DocReadable(d) && n < |d.tables| && RowsOk(d.tables[n])
    ensures Between(d, n).Valid()
    ensures Run(Between(d, n), Words(TableLines(d.tables[n], d))) == Ok(Between(d, n + 1))
  {
    var t, r := d.tables[n], Between(d, n);
    var id, kw, fl, da := IdLines(t, d), AllKwordLines(t.kwords, d.emit), FieldLines(t, d.emit), DataLines(t);
    IdRun(d, n);
    var r1 := Run(r, Words(id)).value;
    KwordsRun(d, n, r1);
    var r2 := Run(r1, Words(kw)).value;
    FieldsRun(d, n, r2);
    var r3 := Run(r2, Words(fl)).value;
    DataRun(d, n, r3);
    RunLines(r2, fl, da);
    RunLines(r1, kw, fl + da);
    RunLines(r, id, kw + (fl + da));
  }

  lemma TableLinesOk(d: Doc, t: Table)
    requires TableReadable(t, d)
    ensures AllOk(TableLines(t, d))
  {
    IdLinesOk(d, t);
    AllKwordLinesOk(t.kwords, d.emit, d.others);
    FieldLinesOk(t, d.emit);
    DataLinesOk(t);
    OkJoin(FieldLines(t, d.emit), DataLines(t));
    OkJoin(AllKwordLines(t.kwords, d.emit), FieldLines(t, d.emit) + DataLines(t));
    OkJoin(IdLines(t, d), AllKwordLines(t.kwords, d.emit) + (FieldLines(t, d.emit) + DataLines(t)));
  }

  lemma {:induction false} AllRun(d: Doc, n: nat)
    requires DocReadable(d) && n <= |d.tables| && forall t | t in d.tables :: RowsOk(t)
    ensures Between(d, n).Valid() && Run(Between(d, n), Words(LinesFrom(d, n))) == Ok(Between(d, |d.tables|))
    decreases |d.tables| - n
  {
    BetweenValid(d, n);
    if n < |d.tables| {
      assert d.tables[n] in d.tables;
      TableRun(d, n);
      AllRun(d, n + 1);
      RunLines(Between(d, n), TableLines(d.tables[n], d), LinesFrom(d, n + 1));
    }
  }

  lemma {:induction false} AllLinesOk(d: Doc, n: nat)
    requires DocReadable(d) && n <= |d.tables| && forall t | t in d.tables :: RowsOk(t)
    ensures AllOk(LinesFrom(d, n))
    decreases |d.tables| - n
  {
    if n < |d.tables| {
      var t := d.tables[n];
      assert t in d.tables && TableReadable(t, d);
      TableLinesOk(d, t);
      AllLinesOk(d, n + 1);
      OkJoin(TableLines(t, d), LinesFrom(d, n + 1));
    }
  }

  // ----- the main result -----

  /** Table t' holds what table t held: its type, fields, sets and keyword values. */
  ghost predicate TableRecovered(t: Table, t': Table) {
    && t'.tt == t.tt && DataRecovered(t, t')
    && (forall i | 0 <= i < |t.kwords| && HasValue(t.kwords[i]) ::
        ValueIs(t'.kwords, t.kwords[i].sym.value, t.kwords[i].data.value))
    && (!t.supId ==> t'.kwords == Valued(t.kwords))
  }

  lemma ReadRecovered(d: Doc, n: nat)
    requires DocReadable(d) && n < |d.tables|
    ensures TableRecovered(d.tables[n], ReadTables(d, n + 1)[n])
  {
    var t := d.tables[n];
    assert TableReadable(t, d);
    assert ReadTables(d, n + 1)[n] == ReadTable(t, Base(d, n));
    forall i | 0 <= i < |t.kwords| && HasValue(t.kwords[i])
      ensures ValueIs(Overlay(Base(d, n), t.kwords), t.kwords[i].sym.value, t.kwords[i].data.value)
    {
      OverlayHas(Base(d, n), t.kwords, i);
    }
    OverlayFresh(t.kwords);
  }

  lemma ReadStep(d: Doc, m: nat)
    requires DocReadable(d) && 0 < m <= |d.tables|
    ensures ReadTables(d, m)[..m - 1] == ReadTables(d, m - 1)
  {
  }

  lemma {:induction false} ReadPrefix(d: Doc, n: nat, m: nat)
    requires DocReadable(d) && n < m <= |d.tables|
    ensures ReadTables(d, m)[n] == ReadTables(d, n + 1)[n]
    decreases m
  {
    if n + 1 < m {
      ReadPrefix(d, n, m - 1);
      ReadStep(d, m);
      assert ReadTables(d, m)[n] == ReadTables(d, m)[..m - 1][n];
    }
  }

  lemma EndedAll(ls: seq<TextLine>, es: seq<Ending>)
    requires AllOk(ls) && |ls| == |es|
    ensures Lex(CGATS, Ended(ls, es), Plain) == Words(ls)
  {
    LexEnded(ls, es, "");
    assert Ended(ls, es) + "" == Ended(ls, es) && Words(ls) + [] == Words(ls);
  }

  lemma LexAll(ls: seq<TextLine>)
    requires AllOk(ls)
    ensures Lex(CGATS, Text(ls), Plain) == Words(ls)
  {
    EndedAll(ls, LineFeeds(|ls|));
    TextEnded(ls);
  }

  lemma ReadsAll(d: Doc)
    requires DocReadable(d) && d.tables != [] && forall t | t in d.tables :: RowsOk(t)
    ensures Between(d, |d.tables|).Valid()
    ensures WriteAll(d).Ok? && ReadAll(d.others, Lex(CGATS, WriteAll(d).value, Plain)) == Ok(Between(d, |d.tables|))
  {
    var toks := Lex(CGATS, WriteAll(d).value, Plain);
    assert toks == Words(LinesFrom(d, 0)) by {
      AllLinesOk(d, 0);
      LexAll(LinesFrom(d, 0));
    }
    AllRun(d, 0);
    assert Between(d, 0) == Start(d.others);
  }

  lemma AllRecovered(d: Doc)
    requires DocReadable(d)
    ensures forall n | 0 <= n < |d.tables| :: TableRecovered(d.tables[n], ReadTables(d, |d.tables|)[n])
  {
    forall n | 0 <= n < |d.tables|
      ensures TableRecovered(d.tables[n], ReadTables(d, |d.tables|)[n])
    {
      ReadRecovered(d, n);
      ReadPrefix(d, n, |d.tables|);
    }
  }

  /** The variable type is recovered as soon as a table has it. */
  lemma {:induction false} TypeRecovered(d: Doc, n: nat, k: nat)
    requires DocReadable(d) && k < n <= |d.tables| && d.tables[k].tt == CgatsX
    ensures TypeRead(d, n) == d.xtype
    decreases n
  {
    assert !Unwritable(d, n - 1);
    if k < n - 1 {
      TypeRecovered(d, n - 1, k);
    } else if d.tables[k].supId {
      TypeRecovered(d, n - 1, k - 1);
    }
  }

  /** What a reader r that has read document d holds. */
  ghost predicate Recovers(d: Doc, r: Reader) {
    && |r.tables| == |d.tables| && r.others == d.others
    && (forall n | 0 <= n < |d.tables| :: TableRecovered(d.tables[n], r.tables[n]))
    && ((exists k | 0 <= k < |d.tables| :: d.tables[k].tt == CgatsX) ==> r.xtype == d.xtype)
  }

  /** Every readable document can be written, and reading the text recovers every table. */
  lemma RoundTrip(d: Doc)
    requires DocReadable(d) && d.tables != []
    ensures forall t | t in d.tables :: RowsOk(t)
    ensures WriteAll(d).Ok?
    ensures var o := ReadAll(d.others, Lex(CGATS, WriteAll(d).value, Plain)); o.Ok? && Recovers(d, o.value)
  {
    ReadableWritable(d);
    ReadsAll(d);
    AllRecovered(d);
    if k :| 0 <= k < |d.tables| && d.tables[k].tt == CgatsX {
      TypeRecovered(d, |d.tables|, k);
    }
  }

  /** A written file reads as the same tables when each of its lines is ended anew, in whichever way. */
  lemma AnyEndings(d: Doc, es: seq<Ending>)
    requires DocReadable(d) && d.tables != [] && |es| == |LinesFrom(d, 0)|
    ensures WriteAll(d) == Ok(Ended(LinesFrom(d, 0), LineFeeds(|es|)))
    ensures var o := ReadAll(d.others, Lex(CGATS, Ended(LinesFrom(d, 0), es), Plain));
      o.Ok? && Recovers(d, o.value) && o == ReadAll(d.others, Lex(CGATS, WriteAll(d).value, Plain))
  {
    RoundTrip(d);
    ReadableWritable(d);
    AllLinesOk(d, 0);
    TextEnded(LinesFrom(d, 0));
    EndedAll(LinesFrom(d, 0), es);
    LexAll(LinesFrom(d, 0));
  }
}
