/** The lines that every table has in a file. */
module CgatsLayout {
  import opened Lexing
  import opened CellTypes
  import opened Decimal
  import opened CgatsTables
  import opened CgatsWriter
  import opened Quote

  function CountWords(s: string, n: nat): string {
    s + (" " + IntText(n))
  }

  /** The data of a table: an empty line, how many sets there are, and each set on a line between two marks. */
  function DataPart(t: Table, rows: seq<TextLine>): seq<TextLine> {
    [Bare1(""), Bare1(CountWords("NUMBER_OF_SETS", |t.data|)), Bare1("BEGIN_DATA")] + rows + [Bare1("END_DATA")]
  }

  /** The fields of a table: how many there are, and their names on one line between two marks. */
  function FormatPart(t: Table, names: string): seq<TextLine> {
    [Bare1(CountWords("NUMBER_OF_FIELDS", |t.fields|)), Bare1("BEGIN_DATA_FORMAT"), Bare1(names),
     Bare1("END_DATA_FORMAT")]
  }

  /** Line l declares keyword sym. */
  predicate Declares(l: TextLine, sym: string) {
    l == Bare1("KEYWORD" + (" " + Quoted(sym)))
  }

  lemma {:induction false} RowsEach(fs: seq<Field>, rows: seq<seq<Cell>>, j: nat)
    requires (forall row | row in rows :: RowFits(row, fs)) && j < |rows|
    ensures |RowLines(fs, rows)| == |rows| && RowLines(fs, rows)[j] == Bare1(Spaced(RowWords(fs, rows[j])))
    decreases |rows|
  {
    assert rows[0] in rows;
    if j > 0 {
      RowsEach(fs, rows[1..], j - 1);
    } else if |rows| > 1 {
      RowsEach(fs, rows[1..], 0);
    }
  }

  lemma {:induction false} FieldsDeclared(fs: seq<Field>, i: nat)
    requires i < |fs| && StandardField(fs[i].sym) == NoType
    ensures exists l :: l in DeclareFields(fs, true) && Declares(l, fs[i].sym)
    decreases |fs|
  {
    if i > 0 {
      FieldsDeclared(fs[1..], i - 1);
      assert fs[1..][i - 1] == fs[i];
      var l :| l in DeclareFields(fs[1..], true) && Declares(l, fs[i].sym);
      assert l in DeclareFields(fs, true);
    } else {
      var l := Bare1(KEYWORD + (" " + Quoted(fs[0].sym)));
      assert Declares(l, fs[0].sym) && l in DeclareLines(fs[0].sym, true);
    }
  }

  lemma {:induction false} KwordsDeclared(ks: seq<Kword>, i: nat)
    requires i < |ks| && ks[i].sym.Some? && ks[i].data.Some? && !StandardKword(ks[i].sym.value)
    ensures exists l :: l in AllKwordLines(ks, true) && Declares(l, ks[i].sym.value)
    decreases |ks|
  {
    if i > 0 {
      KwordsDeclared(ks[1..], i - 1);
      assert ks[1..][i - 1] == ks[i];
      var l :| l in AllKwordLines(ks[1..], true) && Declares(l, ks[i].sym.value);
      assert l in AllKwordLines(ks, true);
    } else {
      var l := Bare1(KEYWORD + (" " + Quoted(ks[0].sym.value)));
      assert l in DeclareLines(ks[0].sym.value, true);
      assert Declares(l, ks[0].sym.value) && l in KwordLines(ks[0], true);
    }
  }

  /** The lines of a table before its format: what identifies it, its keywords and what declares its fields. */
  function Opening(t: Table, d: Doc): seq<TextLine> {
    var kw := AllKwordLines(t.kwords, d.emit);
    IdLines(t, d) + if t.supFields then kw else kw + ([Bare1("")] + DeclareFields(t.fields, d.emit))
  }

  function Format(t: Table): seq<TextLine> {
    if t.supFields then [] else FormatPart(t, Spaced(FieldWords(t.fields)))
  }

  lemma FieldsSplit(t: Table, d: Doc)
    requires !t.supFields
    ensures FieldLines(t, d.emit) == ([Bare1("")] + DeclareFields(t.fields, d.emit)) + Format(t)
  {
    var blank, declared := [Bare1("")], DeclareFields(t.fields, d.emit);
    assert [CountLine(NUMBER_OF_FIELDS, |t.fields|)] + FormatLines(t.fields) == Format(t);
    Assoc(blank, declared, Format(t));
  }

  lemma DataSplit(t: Table)
    requires RowsOk(t)
    ensures DataLines(t) == DataPart(t, RowLines(t.fields, t.data))
  {
    var rows, end := RowLines(t.fields, t.data), [Bare1("END_DATA")];
    Assoc([Bare1(""), Bare1(CountWords("NUMBER_OF_SETS", |t.data|)), Bare1("BEGIN_DATA")], rows, end);
  }

  lemma OpeningSplit(t: Table, d: Doc)
    requires RowsOk(t)
    ensures TableLines(t, d) == Opening(t, d) + (Format(t) + DataLines(t))
  {
    var id, kw, da := IdLines(t, d), AllKwordLines(t.kwords, d.emit), DataLines(t);
    if t.supFields {
      Assoc(id, kw, da);
      assert [] + da == da;
    } else {
      var fl := [Bare1("")] + DeclareFields(t.fields, d.emit);
      FieldsSplit(t, d);
      Assoc(fl, Format(t), da);
      Assoc(kw, fl, Format(t) + da);
      Assoc(id, kw + fl, Format(t) + da);
    }
  }

  lemma OpeningIs(t: Table, d: Doc)
    requires !t.supId ==> IdText(t.tt, d.others, d.xtype).Some?
    ensures var s := IdText(t.tt, d.others, d.xtype);
      && |Opening(t, d)| >= 2 && Opening(t, d)[1] == Bare1("")
      && Opening(t, d)[0] == Bare1(if t.supId then "" else s.value + Blanks(7 - |s.value|))
  {
  }

  /** Every field and keyword that no standard knows is declared before the format when that is asked for. */
  lemma Declared(t: Table, d: Doc)
    requires d.emit
    ensures forall i | 0 <= i < |t.kwords| && t.kwords[i].sym.Some? && t.kwords[i].data.Some?
                       && !StandardKword(t.kwords[i].sym.value) ::
              exists l :: l in Opening(t, d) && Declares(l, t.kwords[i].sym.value)
    ensures forall i | 0 <= i < |t.fields| && !t.supFields && StandardField(t.fields[i].sym) == NoType ::
              exists l :: l in Opening(t, d) && Declares(l, t.fields[i].sym)
  {
    forall i | 0 <= i < |t.kwords| && t.kwords[i].sym.Some? && t.kwords[i].data.Some?
               && !StandardKword(t.kwords[i].sym.value)
      ensures exists l :: l in Opening(t, d) && Declares(l, t.kwords[i].sym.value)
    {
      KwordsDeclared(t.kwords, i);
      var l :| l in AllKwordLines(t.kwords, true) && Declares(l, t.kwords[i].sym.value);
      assert l in Opening(t, d);
    }
    forall i | 0 <= i < |t.fields| && !t.supFields && StandardField(t.fields[i].sym) == NoType
      ensures exists l :: l in Opening(t, d) && Declares(l, t.fields[i].sym)
    {
      FieldsDeclared(t.fields, i);
      var l :| l in DeclareFields(t.fields, true) && Declares(l, t.fields[i].sym);
      assert l in Opening(t, d);
    }
  }

  /** A table begins with what identifies it and ends with its data, before which comes its format unless that is left
      out. */
  lemma Layout(t: Table, d: Doc) returns (rows: seq<TextLine>)
    requires RowsOk(t) && (!t.supId ==> IdText(t.tt, d.others, d.xtype).Some?)
    ensures |rows| == |t.data|
    ensures forall j | 0 <= j < |t.data| :: rows[j] == Bare1(Spaced(RowWords(t.fields, t.data[j])))
    ensures TableLines(t, d) == Opening(t, d) + (Format(t) + DataPart(t, rows))
    ensures |Opening(t, d)| >= 2 && Opening(t, d)[1] == Bare1("")
    ensures var s := IdText(t.tt, d.others, d.xtype);
      Opening(t, d)[0] == Bare1(if t.supId then "" else s.value + Blanks(7 - |s.value|))
  {
    rows := RowLines(t.fields, t.data);
    forall j | 0 <= j < |t.data|
      ensures |rows| == |t.data| && rows[j] == Bare1(Spaced(RowWords(t.fields, t.data[j])))
    {
      RowsEach(t.fields, t.data, j);
    }
    OpeningSplit(t, d);
    DataSplit(t);
    OpeningIs(t, d);
  }
}
