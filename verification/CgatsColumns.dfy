/** The types inferred for the columns of a written table, and the cells read back. */
module CgatsColumns {
  import opened CellTypes
  import opened Decimal
  import opened CgatsTables
  import opened CgatsWriter
  import opened CgatsLines
  import opened Quote

  /** A field as add_field leaves it: with a type, and with the one the standard gives it if any. */
  predicate FieldOk(f: Field) {
    f.ty != NoType && (StandardField(f.sym) == NoType || StandardField(f.sym) == f.ty)
  }

  /** A field added with a type keeps to that. */
  lemma AddedFieldOk(t: Table, sym: string, ty: DataType)
    requires AddField(t, sym, ty).Ok? && ty != NoType
    ensures FieldOk(AddField(t, sym, ty).value.fields[|t.fields|])
  {
  }

  /** A field is accepted exactly if there are no sets yet, its name has no special character, and its type is missing,
      or the one of the standard if that has one, or quoted where the standard asks for an unquoted string. */
  lemma AddFieldExactly(t: Table, sym: string, ty: DataType)
    ensures var st := StandardField(sym);
      AddField(t, sym, ty).Ok? <==>
      t.nsets == 0 && (forall c | c in sym :: c !in " \r\n\t\"#")
      && (ty == NoType || st == NoType || st == ty || (st == Bare && ty == Quot))
    ensures var st := StandardField(sym);
      AddField(t, sym, ty).Ok? ==> AddField(t, sym, ty).value == t.(fields := t.fields + [
        Field(sym, if ty == NoType then Quot else if st == NoType then ty else st)])
  {
  }

  lemma WordGuess(f: Field, c: Cell)
    requires FieldOk(f) && CellFits(c, f.ty) && CellReadable(f, c)
    ensures var g := Guess(CellWord(f, c).1);
            && (f.ty == Int ==> g == Int)
            && (f.ty == Real ==> g == Real)
            && (f.ty == Quot ==> g == Quot)
            && (f.ty == Bare ==> g != NoType && (StandardField(f.sym) == NoType ==> g == Bare || g == Quot))
  {
    match c
    case RealCell(v) => RealLooksReal(v, CellText(v));
    case IntCell(n) => IntLooksInt(n);
    case TextCell(s) =>
      if Unquotable(f, s) {
        NotQuot(s);
      } else {
        QuotedGuess(s);
      }
  }

  lemma NotQuot(s: string)
    requires !HasSpecial(s)
    ensures Guess(s) == Int || Guess(s) == Real || Guess(s) == Bare
  {
    assert s != [] ==> s[0] in s;
    KindKnown('e', s, false, false);
  }

  /** The words of one column. */
  ghost predicate WordsOf(f: Field, cells: seq<Cell>, words: seq<string>) {
    && FieldOk(f) && |words| == |cells|
    && forall j | 0 <= j < |cells| ::
         CellFits(cells[j], f.ty) && CellReadable(f, cells[j]) && words[j] == CellWord(f, cells[j]).1
  }

  lemma ColumnGuessOf(f: Field, cells: seq<Cell>, words: seq<string>)
    requires WordsOf(f, cells, words) && cells != []
    ensures var g := ColumnGuess(words);
            && (f.ty == Int ==> g == Int)
            && (f.ty == Real ==> g == Real)
            && (f.ty == Quot ==> g == Quot)
            && (f.ty == Bare ==> g != NoType && (StandardField(f.sym) == NoType ==> g == Bare || g == Quot))
  {
    ColumnGuessMax(words);
    GuessKnown(words);
    assert words[0] in words;
    WordGuess(f, cells[0]);
    if ColumnGuess(words) != Int {
      var w :| w in words && Guess(w) == ColumnGuess(words);
      var j :| 0 <= j < |words| && words[j] == w;
      WordGuess(f, cells[j]);
    }
  }

  /** Whether the writer puts quotes around none of the cells. */
  predicate NoneQuoted(f: Field, cells: seq<Cell>) {
    forall j | 0 <= j < |cells| :: cells[j].TextCell? && Unquotable(f, cells[j].s)
  }

  /** The type a column reads back with: unquoted strings stay that in a standard field, or if none is quoted. */
  function TypeBack(f: Field, cells: seq<Cell>): DataType {
    if f.ty != Bare || StandardField(f.sym) == Bare || NoneQuoted(f, cells) then f.ty else Quot
  }

  /** Text without blanks, line ends, quotes and comment starts that is no number. */
  ghost predicate BareText(s: string) {
    (forall c | c in s :: c != ' ' && c != '\t' && c != '\r' && c != '\n' && c != '"' && c != '#') && !IsNumber(s)
  }

  /** Outside the standard fields just such text goes without quotes. */
  lemma UnquotableIs(f: Field, s: string)
    requires StandardField(f.sym) == NoType
    ensures Unquotable(f, s) <==> f.ty == Bare && BareText(s)
  {
    GuessIs(s);
    if HasSpecial(s) {
      var c :| c in s && c in " \r\n\t\"#";
      assert !BareText(s);
    } else {
      forall c | c in s
        ensures c != ' ' && c != '\t' && c != '\r' && c != '\n' && c != '"' && c != '#'
      {
        assert c !in " \r\n\t\"#";
      }
    }
  }

  lemma NoneQuotedBare(f: Field, cells: seq<Cell>, words: seq<string>)
    requires WordsOf(f, cells, words) && NoneQuoted(f, cells)
    ensures ColumnGuess(words) != Quot
  {
    ColumnGuessMax(words);
    forall w | w in words
      ensures Guess(w) != Quot
    {
      var j :| 0 <= j < |words| && words[j] == w;
      NotQuot(cells[j].s);
    }
  }

  lemma SomeQuoted(f: Field, cells: seq<Cell>, words: seq<string>, j: nat)
    requires WordsOf(f, cells, words) && j < |cells| && cells[j].TextCell? && !Unquotable(f, cells[j].s)
    ensures ColumnGuess(words) == Quot
  {
    ColumnGuessMax(words);
    GuessKnown(words);
    QuotedGuess(cells[j].s);
    assert words[j] in words;
  }

  lemma QuotedGuess(s: string)
    ensures Guess(Quoted(s)) == Quot
  {
    assert Quoted(s)[0] == '"' && Quoted(s)[|Quoted(s)| - 1] == '"';
  }

  lemma BareExactly(f: Field, cells: seq<Cell>)
    requires f.ty == Bare && StandardField(f.sym) == NoType && forall j | 0 <= j < |cells| :: cells[j].TextCell?
    ensures NoneQuoted(f, cells) <==> forall j | 0 <= j < |cells| :: BareText(cells[j].s)
  {
    forall j | 0 <= j < |cells|
      ensures Unquotable(f, cells[j].s) <==> BareText(cells[j].s)
    {
      UnquotableIs(f, cells[j].s);
    }
  }

  /**
   * A column keeps its type, except that unquoted strings become quoted ones exactly when the field
   * is not a standard one and the writer puts quotes around one of the cells, which it does when the cell has a
   * special character or reads like a number.
   */
  lemma TypeReadsBack(f: Field, cells: seq<Cell>, words: seq<string>)
    requires WordsOf(f, cells, words) && cells != []
    ensures var ty := Settled(StandardField(f.sym), ColumnGuess(words));
            && ty == TypeBack(f, cells)
            && (ty == f.ty <==> f.ty != Bare || StandardField(f.sym) == Bare || NoneQuoted(f, cells))
            && (f.ty == Bare && StandardField(f.sym) == NoType ==>
                (ty == Bare <==> forall j | 0 <= j < |cells| :: BareText(cells[j].s)))
  {
    if f.ty == Bare && StandardField(f.sym) == NoType {
      BareExactly(f, cells);
    }
    ColumnGuessOf(f, cells, words);
    GuessKnown(words);
    ClashOnly(f.sym, ColumnGuess(words));
    if f.ty == Bare && StandardField(f.sym) == NoType {
      if NoneQuoted(f, cells) {
        NoneQuotedBare(f, cells, words);
      } else {
        var j: nat :| j < |cells| && !(cells[j].TextCell? && Unquotable(f, cells[j].s));
        SomeQuoted(f, cells, words, j);
      }
    }
  }

  /** A column of unquoted strings that holds the string 1 does not keep its type. */
  lemma BareBecomesQuot(f: Field, c: Cell)
    requires f == Field("NAME", Bare) && c == TextCell("1")
    ensures WordsOf(f, [c], [CellWord(f, c).1])
      && Settled(StandardField(f.sym), ColumnGuess([CellWord(f, c).1])) == Quot
  {
    assert !Unquotable(f, c.s);
  }

  /** What a cell may become: a real one close to it, any other one the same. */
  ghost predicate Recovered(c: Cell, c': Cell) {
    match c
    case RealCell(v) => c'.RealCell? && Close(c'.v, v)
    case _ => c' == c
  }

  lemma CellReadsBack(f: Field, c: Cell, ty: DataType)
    requires FieldOk(f) && CellFits(c, f.ty) && CellReadable(f, c)
    requires ty == f.ty || (f.ty == Bare && ty == Quot)
    ensures Recovered(c, ReadCell(ty, CellWord(f, c).1))
  {
    match c
    case RealCell(v) => RealReadsBack(v, CellText(v));
    case IntCell(n) => IntReadsBack(n);
    case TextCell(s) =>
      if Unquotable(f, s) {
        assert s != [] ==> s[0] in s;
      } else {
        UnquotedQuoted(s);
      }
  }
}
