/** Which tables of a file are whole once any text has been read without error. */
module CgatsWhole {
  import opened Wrappers
  import opened Pars
  import opened CellTypes
  import opened CgatsTables
  import opened CgatsReader
  import opened CgatsRun
  import opened CgatsRunData
  import opened CgatsWriter
  import opened Lexing
  import opened Quote

  /** Every set that the table counts has a cell of the right type for every field. */
  ghost predicate Whole(t: Table) {
    t.nsets == |t.data| && t.ndf == 0 && forall j | 0 <= j < |t.data| :: RowFits(t.data[j], t.fields)
  }

  /** The tables done are whole; at most one is open, it has no cells yet, and no sets outside its data. */
  ghost predicate Progress(r: Reader) {
    && r.Valid() && (forall k | 0 <= k < r.done :: Whole(r.tables[k]))
    && (r.st != Ident ==> |r.tables| == r.done + 1)
    && (r.done < |r.tables| ==>
        |r.tables| == r.done + 1 && r.Last().data == [] && (r.st != Data ==> r.Last().nsets == 0))
  }

  lemma ReadCellFits(ty: DataType, s: string)
    requires ty != NoType
    ensures CellFits(ReadCell(ty, s), ty)
  {
  }

  lemma ConvertWhole(t: Table)
    requires Filling(t) && t.ndf == 0 && Convert(t).Ok?
    ensures Whole(Convert(t).value) && Filling(Convert(t).value)
  {
    var t' := Convert(t).value;
    forall j | 0 <= j < |t.raw|
      ensures RowFits(t'.data[j], t'.fields)
    {
      forall i | 0 <= i < |t.fields|
        ensures CellFits(t'.data[j][i], t'.fields[i].ty)
      {
        ReadCellFits(ColumnSettled(t, i), t.raw[j][i]);
      }
    }
  }

  lemma ToProgress(r: Reader, st: State, t: Table)
    requires Progress(r) && |r.tables| == r.done + 1 && Filling(t) && t.data == [] && (st != Data ==> t.nsets == 0)
    ensures Progress(r.To(st, t))
  {
  }

  lemma OpenedProgress(r: Reader, tt: Option<TableType>)
    requires Progress(r) && (tt.None? ==> r.tables != []) && Opened(r, tt).Ok?
    ensures Progress(r.(tables := Opened(r, tt).value)) && |Opened(r, tt).value| == r.done + 1
  {
  }

  lemma HeadTokenProgress(r: Reader, s: string)
    requires Progress(r) && r.st != Data && |r.tables| == r.done + 1 && HeadToken(r, s).Ok?
    ensures Progress(HeadToken(r, s).value)
  {
    if s == BEGIN_DATA_FORMAT || s == "SAMPLE_ID" {
      ToProgress(r, Fields, ClearFields(r.Last()).value);
      if s == "SAMPLE_ID" {
        FieldProgress(StartFields(r).value, s);
      }
    }
  }

  lemma FieldProgress(r: Reader, s: string)
    requires Progress(r) && r.st != Data && |r.tables| == r.done + 1 && NewField(r, s).Ok?
    ensures Progress(NewField(r, s).value)
  {
    ToProgress(r, Fields, AddField(r.Last(), s, NoType).value);
  }

  lemma HeadProgress(r: Reader, tok: Tok)
    requires Progress(r) && (r.st == Ident || r.st == Kwords) && HeadStep(r, tok).Ok?
    ensures Progress(HeadStep(r, tok).value)
  {
    if tok.first {
      var (tt, r1) := Identify(r, tok.s);
      OpenedProgress(r, tt);
      var r2 := r1.(tables := Opened(r, tt).value);
      assert Progress(r2);
      if tt.None? {
        HeadTokenProgress(r2, tok.s);
      }
    }
  }

  lemma DataProgress(r: Reader, s: string)
    requires Progress(r) && r.st == Data && DataStep(r, s).Ok?
    ensures Progress(DataStep(r, s).value)
  {
    if s == END_DATA {
      ConvertWhole(r.Last());
    } else {
      ToProgress(r, Data, AddDataItem(r.Last(), s).value);
    }
  }

  lemma StepProgress(r: Reader, tok: Tok)
    requires Progress(r) && Step(r, tok).Ok?
    ensures Progress(Step(r, tok).value)
  {
    match r.st
    case Ident => HeadProgress(r, tok);
    case Kwords => HeadProgress(r, tok);
    case Value =>
    case Fields =>
      if tok.s != END_DATA_FORMAT && tok.s != BEGIN_DATA && tok.s != "DEVICE_NAME" {
        FieldProgress(r, tok.s);
      }
    case Data => DataProgress(r, tok.s);
  }

  lemma {:induction false} RunProgress(r: Reader, toks: seq<Tok>)
    requires Progress(r) && Run(r, toks).Ok?
    ensures Progress(Run(r, toks).value)
    decreases |toks|
  {
    if toks == [] {
    } else {
      StepProgress(r, toks[0]);
      RunProgress(Step(r, toks[0]).value, toks[1..]);
    }
  }

  /** Sets are read in the data only, and the token that ends it is not among them. */
  lemma SetsInData(r: Reader, tok: Tok)
    requires Progress(r) && Step(r, tok).Ok? && Step(r, tok).value.st == Data && Step(r, tok).value.Last().nsets > 0
    ensures r.st == Data && tok.s != END_DATA
  {
    if r.st != Data {
      StepProgress(r, tok);
      assert false;
    }
  }

  /** The data of a table begins before token i, and no token from there on ends it. */
  ghost predicate NeverEnded(others: seq<string>, toks: seq<Tok>, i: nat) {
    && i < |toks| && (forall j | i <= j < |toks| :: toks[j].s != END_DATA)
    && var o := Run(Start(others), toks[..i]); o.Ok? && o.value.st == Data && o.value.Last().nsets == 0
  }

  lemma RunSnoc(r: Reader, init: seq<Tok>, last: Tok)
    requires r.Valid()
    ensures Run(r, init + [last]) == match Run(r, init) { case Fail => Fail case Ok(r') => Step(r', last) }
  {
    RunJoin(r, init, [last]);
    if Run(r, init).Ok? {
      RunOne(Run(r, init).value, last);
    }
  }

  /** A run that stops inside data with sets has entered it and never left it. */
  lemma {:induction false} StoppedInside(others: seq<string>, toks: seq<Tok>)
    requires Run(Start(others), toks).Ok?
    requires var r := Run(Start(others), toks).value; r.st == Data && r.Last().nsets > 0
    ensures exists i: nat :: NeverEnded(others, toks, i)
    decreases |toks|
  {
    if toks == [] {
    } else {
      var init, last := toks[..|toks| - 1], toks[|toks| - 1];
      assert toks == init + [last];
      RunSnoc(Start(others), init, last);
      RunProgress(Start(others), init);
      var r := Run(Start(others), init).value;
      SetsInData(r, last);
      if r.Last().nsets == 0 {
        assert NeverEnded(others, toks, |init|);
      } else {
        StoppedInside(others, init);
        var i: nat :| NeverEnded(others, init, i);
        assert init[..i] == toks[..i];
        assert NeverEnded(others, toks, i);
      }
    }
  }

  /** Data that never ends takes in all the tokens there are. */
  lemma {:induction false} StaysInside(r: Reader, toks: seq<Tok>)
    requires r.Valid() && r.st == Data && Run(r, toks).Ok? && forall j | 0 <= j < |toks| :: toks[j].s != END_DATA
    ensures Run(r, toks).value.st == Data && (toks != [] || r.Last().nsets > 0 ==> Run(r, toks).value.Last().nsets > 0)
    decreases |toks|
  {
    if toks == [] {
    } else {
      StaysInside(Step(r, toks[0]).value, toks[1..]);
    }
  }

  /**
   * In whatever is read without error every table is whole, but for a last one whose data begins
   * and is not ended before the tokens are. A last one without sets is whole all the same.
   */
  lemma ReadWhole(others: seq<string>, toks: seq<Tok>)
    requires ReadAll(others, toks).Ok?
    ensures var r := ReadAll(others, toks).value;
            && (forall k | 0 <= k < |r.tables| - 1 :: Whole(r.tables[k]))
            && (Whole(r.Last()) <==> !exists i: nat :: NeverEnded(others, toks, i))
  {
    RunProgress(Start(others), toks);
    var r := ReadAll(others, toks).value;
    if i: nat :| NeverEnded(others, toks, i) {
      assert toks == toks[..i] + toks[i..];
      RunJoin(Start(others), toks[..i], toks[i..]);
      StaysInside(Run(Start(others), toks[..i]).value, toks[i..]);
    } else if !Whole(r.Last()) {
      StoppedInside(others, toks);
    }
  }

  /** The tokens of a file that breaks off inside its data. */
  function Broken(f: Field): seq<Tok> {
    [Tok("CGATS.5", true)] + (Words(FormatLines([f])) + (Words([Bare1(BEGIN_DATA)]) + [Tok("1", true)]))
  }

  lemma BrokenHead()
    ensures var x := Reader(Kwords, "", 0, 0, [NewTable(Cgats5)], [], None);
            Step(Start([]), Tok("CGATS.5", true)) == Ok(x.(st := Ident)) && AtHead(x.(st := Ident), x)
  {
    var r := Start([]);
    assert Identify(r, "CGATS.5") == (Some(Cgats5), r);
    assert r.tables + [NewTable(Cgats5)] == [NewTable(Cgats5)];
    assert Opened(r, Some(Cgats5)) == Ok([NewTable(Cgats5)]);
  }

  lemma BrokenField(f: Field)
    requires f == Field("A", Int)
    ensures FieldReadable(f)
  {
    assert forall c | c in "A" :: c == 'A';
    QuotedOne('A');
  }

  lemma QuotedOne(c: char)
    ensures |Quoted([c])| <= 4
  {
    assert [c][1..] == [] && Doubled([c][1..]) == [];
  }

  lemma BrokenRun(r0: Reader, r1: Reader, r2: Reader, r3: Reader, f: Field)
    requires r0.Valid() && Step(Start([]), Tok("CGATS.5", true)) == Ok(r0)
    requires r1.Valid() && Run(r0, Words(FormatLines([f]))) == Ok(r1)
    requires r2.Valid() && Run(r1, Words([Bare1(BEGIN_DATA)])) == Ok(r2) && Run(r2, [Tok("1", true)]) == Ok(r3)
    ensures Run(Start([]), Broken(f)) == Ok(r3)
  {
    RunJoin(r1, Words([Bare1(BEGIN_DATA)]), [Tok("1", true)]);
    RunJoin(r0, Words(FormatLines([f])), Words([Bare1(BEGIN_DATA)]) + [Tok("1", true)]);
    RunOne(Start([]), Tok("CGATS.5", true));
    RunJoin(Start([]), [Tok("CGATS.5", true)],
      Words(FormatLines([f])) + (Words([Bare1(BEGIN_DATA)]) + [Tok("1", true)]));
  }

  lemma BrokenData(x: Reader)
    requires AtHead(x, x) && x.others == [] && x.Last().nsets == 0 && |x.Last().fields| == 1
    ensures var r2 := WithRaw(x, [], []);
            && r2.Valid() && Run(x, Words([Bare1(BEGIN_DATA)])) == Ok(r2)
            && Run(r2, [Tok("1", true)]) == Ok(WithRaw(x, [["1"]], []))
  {
    DataBegins(x);
    RawValid(x, [], []);
    ItemTaken(x, [], [], Tok("1", true));
    RunOne(WithRaw(x, [], []), Tok("1", true));
    OneSet("1");
  }

  lemma OneSet(s: string)
    ensures [] + [[] + [s]] == [[s]]
  {
    assert [] + [s] == [s];
  }

  lemma BrokenFields(f: Field)
    requires f == Field("A", Int)
    ensures var x := Reader(Kwords, "", 0, 0, [NewTable(Cgats5)], [], None);
            && x.(st := Ident).Valid() && Run(x.(st := Ident), Words(FormatLines([f]))) ==
                Ok(WithFields(x, Kwords, Untyped([f])))
            && AtHead(WithFields(x, Kwords, Untyped([f])), WithFields(x, Kwords, Untyped([f])))
  {
    var x := Reader(Kwords, "", 0, 0, [NewTable(Cgats5)], [], None);
    BrokenHead();
    BrokenField(f);
    FormatRun(x.(st := Ident), x, [f]);
  }

  /** Such a file is read without error, and its table counts a set that has no cells. */
  lemma BrokenReads(f: Field)
    requires f == Field("A", Int)
    ensures var o := ReadAll([], Broken(f)); o.Ok? && o.value.Last().nsets == 1 && !Whole(o.value.Last())
  {
    var x := Reader(Kwords, "", 0, 0, [NewTable(Cgats5)], [], None);
    var x1 := WithFields(x, Kwords, Untyped([f]));
    BrokenHead();
    BrokenFields(f);
    BrokenData(x1);
    BrokenRun(x.(st := Ident), x1, WithRaw(x1, [], []), WithRaw(x1, [["1"]], []), f);
  }
}
