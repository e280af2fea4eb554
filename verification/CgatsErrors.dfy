/** When reading a file fails, and what each token does when it does not. */
module CgatsErrors {
  import opened Wrappers
  import opened Pars
  import opened Decimal
  import opened CellTypes
  import opened CgatsTables
  import opened CgatsReader
  import opened CgatsRun
  import opened CgatsRecover
  import opened CgatsWhole
  import Quote

  // ----- what a token names -----

  /** A word of the format itself, which is never kept as a keyword. */
  predicate Word(s: string) {
    || s == "NUMBER_OF_FIELDS" || s == "BEGIN_DATA_FORMAT" || s == "END_DATA_FORMAT" || s == "NUMBER_OF_SETS"
    || s == "BEGIN_DATA" || s == "END_DATA" || s == "KEYWORD"
  }

  predicate UsualKword(s: string) {
    || s == "ORIGINATOR" || s == "DESCRIPTOR" || s == "CREATED" || s == "MANUFACTURER" || s == "PROD_DATE"
    || s == "SERIAL" || s == "MATERIAL" || s == "INSTRUMENTATION" || s == "MEASUREMENT_SOURCE"
    || s == "PRINT_CONDITIONS"
  }

  /** The token names a type of table: a standard one, a variable one, one of the user's, or, right after a table and
      with the empty name among those of the user, any word that is no usual keyword. */
  predicate NamesType(r: Reader, s: string) {
    || s == "IT8.7/1" || s == "IT8.7/2" || s == "IT8.7/3" || s == "IT8.7/4" || s == "CGATS.5"
    || (|s| >= 6 && s[..6] == "CGATS.")
    || (s != "" && s in r.others)
    || ("" in r.others && r.st == Ident && !UsualKword(s) && !Word(s))
  }

  predicate Special(s: string) {
    exists c | c in s :: c == ' ' || c == '\t' || c == '\r' || c == '\n' || c == '"' || c == '#'
  }

  lemma SpecialIs(s: string)
    ensures HasSpecial(s) <==> Special(s)
  {
    if c :| c in s && c in " \r\n\t\"#" {
      assert Special(s);
    }
    if c :| c in s && (c == ' ' || c == '\t' || c == '\r' || c == '\n' || c == '"' || c == '#') {
      assert c in " \r\n\t\"#";
    }
  }

  lemma WordIs(s: string)
    ensures ReservedKword(s) <==> Word(s)
  {
  }

  lemma UsualIs(s: string)
    ensures StandardKword(s) <==> UsualKword(s)
  {
    var k := STANDARD_KWORDS;
    assert k == [k[0], k[1], k[2], k[3], k[4], k[5], k[6], k[7], k[8], k[9]];
  }

  lemma NamesIs(r: Reader, s: string)
    ensures Identify(r, s).0.Some? <==> NamesType(r, s)
  {
    WordIs(s);
    UsualIs(s);
    var f := FindOther(r.others, s, 0);
  }

  // ----- errors -----

  /** A column of a standard real field holds a text that is no number. */
  ghost predicate Clash(t: Table) {
    exists i, j :: 0 <= i < |t.fields| && 0 <= j < |t.raw| && i < |t.raw[j]|
      && StandardField(t.fields[i].sym) == Real && !IsNumber(t.raw[j][i])
  }

  /** The reader cannot take the token: it is too long, there is no table and the token does not name a type, a
      keyword or a field name has a special character, the data ends with a wrong number of sets, within a set or with
      text where numbers must be, or data comes without fields. */
  ghost predicate Refused(r: Reader, tok: Tok) {
    || |tok.s| > 1000
    || ((r.st == Ident || r.st == Kwords) && tok.first && r.tables == [] && !NamesType(r, tok.s))
    || (r.st == Value && Special(r.kw) && !Word(r.kw))
    || (r.st == Fields && tok.s != "END_DATA_FORMAT" && tok.s != "BEGIN_DATA" && tok.s != "DEVICE_NAME"
        && Special(tok.s))
    || (r.st == Data && r.tables != [] && EndRefused(r.Last(), r.expsets, tok.s))
  }

  ghost predicate EndRefused(t: Table, expsets: int, s: string) {
    if s == "END_DATA" then (expsets != 0 && t.nsets != expsets) || t.ndf != 0 || Clash(t) else t.fields == []
  }

  /** What has been read could be read again: proper keywords and field names. */
  ghost predicate Clean(t: Table) {
    (forall k | k in t.kwords :: KwordOk(k)) && forall f | f in t.fields :: !HasSpecial(f.sym)
  }

  ghost predicate Sound(r: Reader) {
    Progress(r) && forall t | t in r.tables :: Clean(t)
  }

  lemma ToSound(r: Reader, st: State, t: Table)
    requires (forall t | t in r.tables :: Clean(t)) && r.tables != [] && Clean(t)
    ensures forall u | u in r.To(st, t).tables :: Clean(u)
  {
  }

  lemma ClearClean(t: Table)
    requires Clean(t) && ClearFields(t).Ok?
    ensures Clean(ClearFields(t).value)
  {
  }

  lemma AddClean(t: Table, s: string)
    requires Clean(t) && AddField(t, s, NoType).Ok?
    ensures Clean(AddField(t, s, NoType).value)
  {
  }

  lemma ConvertClean(t: Table)
    requires Clean(t) && Filling(t) && t.ndf == 0 && Convert(t).Ok?
    ensures Clean(Convert(t).value)
  {
    var t' := Convert(t).value;
    forall f | f in t'.fields
      ensures !HasSpecial(f.sym)
    {
      var i :| 0 <= i < |t'.fields| && t'.fields[i] == f;
      assert t.fields[i] in t.fields;
    }
  }

  lemma CarriedClean(t: Table)
    requires Clean(t)
    ensures Carried(t).Ok? && Clean(Carried(t).value)
  {
    var c := NewTable(t.tt).(kwords := t.kwords, fields := Untyped(t.fields));
    forall f | f in c.fields
      ensures !HasSpecial(f.sym)
    {
      var i :| 0 <= i < |c.fields| && c.fields[i] == f;
      assert t.fields[i] in t.fields;
    }
  }

  lemma OpenedClean(r: Reader, tt: Option<TableType>)
    requires Sound(r) && (tt.None? ==> r.tables != [])
    ensures Opened(r, tt).Ok? && forall t | t in Opened(r, tt).value :: Clean(t)
  {
    if tt.None? {
      CarriedClean(r.Last());
    }
  }

  lemma FieldsStart(r: Reader)
    requires r.Valid() && r.tables != [] && r.Last().nsets == 0 && forall t | t in r.tables :: Clean(t)
    ensures StartFields(r).Ok? && StartFields(r).value == r.To(Fields, r.Last().(fields := []))
    ensures forall t | t in StartFields(r).value.tables :: Clean(t)
  {
    ClearClean(r.Last());
    ToSound(r, Fields, r.Last().(fields := []));
  }

  lemma FieldNew(r: Reader, s: string)
    requires r.Valid() && r.tables != [] && r.Last().nsets == 0 && forall t | t in r.tables :: Clean(t)
    ensures NewField(r, s).Ok? <==> !HasSpecial(s)
    ensures NewField(r, s).Ok? ==> NewField(r, s).value == r.To(Fields, WithField(r.Last(), s))
    ensures NewField(r, s).Ok? ==> forall t | t in NewField(r, s).value.tables :: Clean(t)
  {
    if !HasSpecial(s) {
      AddClean(r.Last(), s);
      ToSound(r, Fields, WithField(r.Last(), s));
    }
  }

  function WithField(t: Table, s: string): Table {
    t.(fields := t.fields + [Field(s, Quot)])
  }

  /** The clash found column by column is that of a text that is no number. */
  lemma ClashIs(t: Table)
    requires Filling(t) && t.ndf == 0
    ensures Convert(t).Ok? <==> !Clash(t)
  {
    forall i | 0 <= i < |t.fields|
      ensures ColumnSettled(t, i) == NoType <==>
        StandardField(t.fields[i].sym) == Real && exists j | 0 <= j < |t.raw| :: !IsNumber(t.raw[j][i])
    {
      ColumnClash(t, i);
    }
    if Clash(t) {
      var i, j :| 0 <= i < |t.fields| && 0 <= j < |t.raw| && i < |t.raw[j]|
        && StandardField(t.fields[i].sym) == Real && !IsNumber(t.raw[j][i]);
      assert ColumnSettled(t, i) == NoType;
    }
  }

  lemma ColumnClash(t: Table, i: nat)
    requires Filling(t) && t.ndf == 0 && i < |t.fields|
    ensures ColumnSettled(t, i) == NoType <==>
      StandardField(t.fields[i].sym) == Real && exists j | 0 <= j < |t.raw| :: !IsNumber(t.raw[j][i])
  {
    var c := Column(t.raw, i);
    ColumnGuessMax(c);
    GuessKnown(c);
    ClashOnly(t.fields[i].sym, ColumnGuess(c));
    forall j | 0 <= j < |t.raw|
      ensures IsNumber(t.raw[j][i]) <==> Guess(c[j]).Rank() <= 1
    {
      GuessIs(c[j]);
    }
    if ColumnGuess(c) == Bare || ColumnGuess(c) == Quot {
      var s :| s in c && Guess(s) == ColumnGuess(c);
      var j :| 0 <= j < |c| && c[j] == s;
      assert !IsNumber(t.raw[j][i]);
    } else {
      forall j | 0 <= j < |t.raw|
        ensures IsNumber(t.raw[j][i])
      {
        assert c[j] in c;
      }
    }
  }

  // ----- what a token does -----

  function Joined(raw: seq<seq<string>>): seq<string> {
    if raw == [] then [] else Joined(raw[..|raw| - 1]) + raw[|raw| - 1]
  }

  /** The table that the head of a file goes on with: the one that is open, or a copy of the last one. */
  function Going(r: Reader): Table
    requires r.tables != []
  {
    if |r.tables| != r.done then r.Last()
    else NewTable(r.Last().tt).(kwords := r.Last().kwords, fields := Untyped(r.Last().fields))
  }

  /** The tables done stay, and then there is one more. */
  ghost predicate OneOpen(r: Reader, r': Reader) {
    |r'.tables| == r.done + 1 && r.done <= |r.tables| && r'.tables[..r.done] == r.tables[..r.done]
  }

  /** A token that names a type opens a table of that type, unless one is open. */
  ghost predicate TypeMoves(r: Reader, s: string, r': Reader) {
    && OneOpen(r, r')
    && (|r.tables| == r.done ==>
        && r'.Last() == NewTable(r'.Last().tt)
        && (s == "IT8.7/1" ==> r'.Last().tt == It8_1) && (s == "IT8.7/2" ==> r'.Last().tt == It8_2)
        && (s == "IT8.7/3" ==> r'.Last().tt == It8_3) && (s == "IT8.7/4" ==> r'.Last().tt == It8_4)
        && (s == "CGATS.5" ==> r'.Last().tt == Cgats5)
        && (s != "" && s in r.others && r'.Last().tt.Other? ==>
            r'.Last().tt.oi < |r.others| && r.others[r'.Last().tt.oi] == s))
    && (|r.tables| != r.done ==> r'.Last() == r.Last())
  }

  /** Any other token of the head begins the fields or the data, or is a keyword that waits for its value. */
  ghost predicate KwordMoves(r: Reader, s: string, r': Reader) {
    && r.tables != [] && OneOpen(r, r')
    && if s == "BEGIN_DATA_FORMAT" then r'.st == Fields && r'.Last() == Going(r).(fields := [])
       else if s == "SAMPLE_ID" then r'.st == Fields && r'.Last() == Going(r).(fields := [Field("SAMPLE_ID", Quot)])
       else if s == "BEGIN_DATA" then r'.st == Data && r'.Last() == Going(r)
       else r'.st == Value && r'.kw == s && r'.Last() == Going(r)
  }

  ghost predicate HeadMoves(r: Reader, tok: Tok, r': Reader) {
    && r'.done == r.done && r'.expsets == r.expsets
    && if !tok.first then r' == r
       else if NamesType(r, tok.s) then TypeMoves(r, tok.s, r') else KwordMoves(r, tok.s, r')
  }

  /** A table changes and all before it stay. */
  ghost predicate Changes(r: Reader, st: State, t: Table, r': Reader) {
    && r.tables != [] && r'.tables == r.tables[..|r.tables| - 1] + [t] && r'.st == st
  }

  lemma HeadOpens(r: Reader, s: string)
    requires Sound(r) && (r.st == Ident || r.st == Kwords) && r.tables != [] && !NamesType(r, s)
    ensures Opened(r, None).Ok?
    ensures var r2 := Identify(r, s).1.(tables := Opened(r, None).value);
      && Progress(r2) && r2.tables != [] && r2.Last() == Going(r) && OneOpen(r, r2)
      && r2.Last().nsets == 0 && (forall t | t in r2.tables :: Clean(t))
      && r2 == r.(tables := r2.tables)
  {
    NamesIs(r, s);
    OpenedClean(r, None);
    OpenedProgress(r, None);
  }

  lemma SampleIdPlain()
    ensures !HasSpecial("SAMPLE_ID")
  {
    SpecialIs("SAMPLE_ID");
  }

  lemma HeadKword(r: Reader, s: string)
    requires r.Valid() && r.st != Data && r.tables != [] && r.Last().nsets == 0 && forall t | t in r.tables :: Clean(t)
    ensures HeadToken(r, s).Ok? && forall t | t in HeadToken(r, s).value.tables :: Clean(t)
    ensures var r' := HeadToken(r, s).value;
      && r' == r.(st := r'.st, kw := r'.kw, tables := r'.tables)
      && r'.tables == r.tables[..|r.tables| - 1] + [r'.tables[|r.tables| - 1]]
      && var t' := r'.tables[|r.tables| - 1];
      if s == "BEGIN_DATA_FORMAT" then r'.st == Fields && t' == r.Last().(fields := [])
      else if s == "SAMPLE_ID" then r'.st == Fields && t' == r.Last().(fields := [Field("SAMPLE_ID", Quot)])
      else if s == "BEGIN_DATA" then r'.st == Data && t' == r.Last()
      else r'.st == Value && r'.kw == s && t' == r.Last()
  {
    FieldsStart(r);
    if s == "SAMPLE_ID" {
      SampleIdPlain();
      FieldNew(StartFields(r).value, s);
    }
  }

  lemma TypeOpens(r: Reader, s: string)
    requires Sound(r) && (r.st == Ident || r.st == Kwords) && NamesType(r, s)
    ensures HeadStep(r, Tok(s, true)).Ok?
    ensures var r' := HeadStep(r, Tok(s, true)).value;
      TypeMoves(r, s, r') && r'.done == r.done && r'.expsets == r.expsets && forall t | t in r'.tables :: Clean(t)
  {
    NamesIs(r, s);
    var (tt, r1) := Identify(r, s);
    OpenedClean(r, tt);
    OpenedProgress(r, tt);
  }

  lemma HeadExactly(r: Reader, tok: Tok)
    requires Sound(r) && (r.st == Ident || r.st == Kwords)
    ensures HeadStep(r, tok).Ok? <==> !(tok.first && r.tables == [] && !NamesType(r, tok.s))
    ensures HeadStep(r, tok).Ok? ==>
      HeadMoves(r, tok, HeadStep(r, tok).value) && forall t | t in HeadStep(r, tok).value.tables :: Clean(t)
  {
    if tok.first {
      NamesIs(r, tok.s);
      assert tok == Tok(tok.s, true);
      if NamesType(r, tok.s) {
        TypeOpens(r, tok.s);
      } else if r.tables != [] {
        HeadOpens(r, tok.s);
        HeadKword(Identify(r, tok.s).1.(tables := Opened(r, None).value), tok.s);
      }
    }
  }

  /** The value goes to the keyword that waits for it, unless that is a word of the format; a number of sets is
      noted. */
  ghost predicate ValueMoves(r: Reader, s: string, r': Reader) {
    && r.tables != [] && r'.st == Kwords && r'.kw == "" && r'.done == r.done
    && r'.expsets == (if r.kw == "NUMBER_OF_SETS" then Atoi(s) else r.expsets)
    && if Word(r.kw) then r'.tables == r.tables
       else exists ks: seq<Kword> ::
         && Changes(r, Kwords, r.Last().(kwords := ks), r')
         && (r.kw != "" ==> Overlays(r.Last().kwords, r.kw, Quote.Unquoted(s), ks))
  }

  /** Keyword sym has the value, and all others keep theirs. */
  ghost predicate Overlays(ks: seq<Kword>, sym: string, data: string, ks': seq<Kword>) {
    ValueIs(ks', sym, data) && forall other, v | other != sym && ValueIs(ks, other, v) :: ValueIs(ks', other, v)
  }

  lemma OverlaidIs(ks: seq<Kword>, sym: string, data: string)
    requires sym != ""
    ensures Overlays(ks, sym, data, Overlaid(ks, sym, data))
  {
    OverlaidHas(ks, sym, data);
    forall other, v | other != sym && ValueIs(ks, other, v)
      ensures ValueIs(Overlaid(ks, sym, data), other, v)
    {
      OverlaidOthers(ks, sym, data, other, v);
    }
  }

  lemma ValueExactly(r: Reader, s: string)
    requires Sound(r) && r.st == Value
    ensures ValueStep(r, s).Ok? <==> !(Special(r.kw) && !Word(r.kw))
    ensures ValueStep(r, s).Ok? ==>
      ValueMoves(r, s, ValueStep(r, s).value) && forall t | t in ValueStep(r, s).value.tables :: Clean(t)
  {
    SpecialIs(r.kw);
    WordIs(r.kw);
    if !Word(r.kw) && !Special(r.kw) {
      var ks := Overlaid(r.Last().kwords, r.kw, Quote.Unquoted(s));
      var t := r.Last().(kwords := ks);
      if r.kw != "" {
        OverlaidIs(r.Last().kwords, r.kw, Quote.Unquoted(s));
      }
      assert Clean(t) by {
        assert r.Last() in r.tables;
      }
      assert ValueStep(r, s).value.tables == r.tables[..|r.tables| - 1] + [t];
      assert Changes(r, Kwords, r.Last().(kwords := ks), ValueStep(r, s).value);
      ToSound(r, Kwords, t);
    }
  }

  ghost predicate FieldMoves(r: Reader, s: string, r': Reader) {
    && r.tables != [] && r'.done == r.done && r'.expsets == r.expsets
    && if s == "END_DATA_FORMAT" then r'.st == Kwords && r'.tables == r.tables
       else if s == "BEGIN_DATA" then r'.st == Data && r'.tables == r.tables
       else if s == "DEVICE_NAME" then r'.st == Value && r'.kw == s && r'.tables == r.tables
       else Changes(r, Fields, r.Last().(fields := r.Last().fields + [Field(s, Quot)]), r')
  }

  lemma FieldExactly(r: Reader, s: string)
    requires Sound(r) && r.st == Fields
    ensures FieldStep(r, s).Ok? <==>
      !(s != "END_DATA_FORMAT" && s != "BEGIN_DATA" && s != "DEVICE_NAME" && Special(s))
    ensures FieldStep(r, s).Ok? ==>
      FieldMoves(r, s, FieldStep(r, s).value) && forall t | t in FieldStep(r, s).value.tables :: Clean(t)
  {
    SpecialIs(s);
    FieldNew(r, s);
  }

  /** The text joins the texts of the data; the end of the data makes cells of the texts, each of the type of its
      column. */
  ghost predicate DataMoves(r: Reader, s: string, r': Reader) {
    && r.tables != [] && r'.tables != [] && r'.expsets == r.expsets && Changes(r, r'.st, r'.Last(), r')
    && Filling(r'.Last()) && r'.Last().kwords == r.Last().kwords
    && (s == "END_DATA" ==> r'.st == Ident && r'.done == |r.tables| && CellsOfTexts(r.Last(), r'.Last()))
    && (s != "END_DATA" ==> r'.st == Data && r'.done == r.done && r'.Last().fields == r.Last().fields)
    && (s != "END_DATA" ==> Joined(r'.Last().raw) == Joined(r.Last().raw) + [s])
  }

  ghost predicate CellsOfTexts(t: Table, t': Table) {
    && t'.nsets == t.nsets == |t.raw| == |t'.data| && |t'.fields| == |t.fields|
    && (forall i | 0 <= i < |t.fields| :: t'.fields[i].sym == t.fields[i].sym)
    && forall j, i | 0 <= j < |t.raw| && 0 <= i < |t.raw[j]| :: CellIs(t, t', j, i)
  }

  ghost predicate CellIs(t: Table, t': Table, j: nat, i: nat) {
    && j < |t.raw| && i < |t.raw[j]| && j < |t'.data| && i < |t'.data[j]| && i < |t'.fields|
    && t'.data[j][i] == match t'.fields[i].ty
       case Real => RealCell(Atof(t.raw[j][i]))
       case Int => IntCell(Atoi(t.raw[j][i]))
       case _ => TextCell(Quote.Unquoted(t.raw[j][i]))
  }

  lemma ConvertCells(t: Table)
    requires Filling(t) && t.ndf == 0 && Convert(t).Ok?
    ensures CellsOfTexts(t, Convert(t).value)
  {
    var t' := Convert(t).value;
    forall j, i | 0 <= j < |t.raw| && 0 <= i < |t.raw[j]|
      ensures CellIs(t, t', j, i)
    {
      assert t'.data[j] == ReadRow(t'.fields, t.raw[j]);
    }
  }

  lemma JoinedOne(raw: seq<seq<string>>, row: seq<string>)
    ensures Joined(raw + [row]) == Joined(raw) + row
  {
    assert (raw + [row])[..|raw|] == raw;
  }

  lemma ItemJoins(t: Table, s: string)
    requires Filling(t) && t.fields != []
    ensures AddDataItem(t, s).Ok? && Joined(AddDataItem(t, s).value.raw) == Joined(t.raw) + [s]
  {
    var raw := AddDataItem(t, s).value.raw;
    if t.ndf == 0 {
      JoinedOne(t.raw, [s]);
    } else {
      var n := |t.raw| - 1;
      var row := t.raw[n];
      assert t.raw == t.raw[..n] + [row] && raw == t.raw[..n] + [row + [s]];
      JoinedOne(t.raw[..n], row);
      JoinedOne(t.raw[..n], row + [s]);
    }
  }

  lemma DataEnd(r: Reader)
    requires Sound(r) && r.st == Data
    ensures DataStep(r, "END_DATA").Ok? <==> !EndRefused(r.Last(), r.expsets, "END_DATA")
    ensures DataStep(r, "END_DATA").Ok? ==> DataMoves(r, "END_DATA", DataStep(r, "END_DATA").value)
    ensures DataStep(r, "END_DATA").Ok? ==> Clean(DataStep(r, "END_DATA").value.Last())
  {
    var t := r.Last();
    if t.ndf == 0 {
      ClashIs(t);
      if Convert(t).Ok? {
        ConvertCells(t);
        ConvertClean(t);
        ConvertWhole(t);
      }
    }
  }

  lemma DataItem(r: Reader, s: string)
    requires Sound(r) && r.st == Data && s != "END_DATA"
    ensures DataStep(r, s).Ok? <==> !EndRefused(r.Last(), r.expsets, s)
    ensures DataStep(r, s).Ok? ==> DataMoves(r, s, DataStep(r, s).value) && Clean(DataStep(r, s).value.Last())
  {
    assert r.Last() in r.tables;
    if r.Last().fields != [] {
      ItemJoins(r.Last(), s);
    }
  }

  /** What a token that is not refused does. */
  ghost predicate Moves(r: Reader, tok: Tok, r': Reader) {
    match r.st
    case Ident => HeadMoves(r, tok, r')
    case Kwords => HeadMoves(r, tok, r')
    case Value => ValueMoves(r, tok.s, r')
    case Fields => FieldMoves(r, tok.s, r')
    case Data => DataMoves(r, tok.s, r')
  }

  lemma DataExactly(r: Reader, s: string)
    requires Sound(r) && r.st == Data
    ensures DataStep(r, s).Ok? <==> !EndRefused(r.Last(), r.expsets, s)
    ensures DataStep(r, s).Ok? ==>
      DataMoves(r, s, DataStep(r, s).value) && forall t | t in DataStep(r, s).value.tables :: Clean(t)
  {
    if s == "END_DATA" {
      DataEnd(r);
    } else {
      DataItem(r, s);
    }
  }

  /** A token fails exactly when it is refused, and otherwise does what is said of it. */
  lemma StepExactly(r: Reader, tok: Tok)
    requires Sound(r)
    ensures Step(r, tok).Ok? <==> !Refused(r, tok)
    ensures Step(r, tok).Ok? ==> Sound(Step(r, tok).value) && Moves(r, tok, Step(r, tok).value)
  {
    if Step(r, tok).Ok? {
      StepProgress(r, tok);
    }
    match r.st
    case Ident => HeadExactly(r, tok);
    case Kwords => HeadExactly(r, tok);
    case Value => ValueExactly(r, tok.s);
    case Fields => FieldExactly(r, tok.s);
    case Data => DataExactly(r, tok.s);
  }

  lemma {:induction false} RunSound(others: seq<string>, toks: seq<Tok>)
    requires Run(Start(others), toks).Ok?
    ensures Sound(Run(Start(others), toks).value)
    ensures Run(Start(others), toks).value.tables == [] <==> forall k | 0 <= k < |toks| :: !toks[k].first
    ensures Run(Start(others), toks).value.tables == [] ==> Run(Start(others), toks).value == Start(others)
    decreases |toks|
  {
    if toks == [] {
    } else {
      var init, last := toks[..|toks| - 1], toks[|toks| - 1];
      assert toks == init + [last];
      RunSnoc(Start(others), init, last);
      RunSound(others, init);
      StepExactly(Run(Start(others), init).value, last);
    }
  }

  /** After the tokens before number i, which are all taken, that one is refused. */
  ghost predicate RefusedAt(others: seq<string>, toks: seq<Tok>, i: nat) {
    i < |toks| && var o := Run(Start(others), toks[..i]); o.Ok? && Refused(o.value, toks[i])
  }

  lemma {:induction false} FirstRefused(others: seq<string>, toks: seq<Tok>)
    ensures Run(Start(others), toks) == Fail <==> exists i :: RefusedAt(others, toks, i)
    decreases |toks|
  {
    if toks == [] {
    } else {
      var n := |toks| - 1;
      var init, last := toks[..n], toks[n];
      assert toks == init + [last];
      RunSnoc(Start(others), init, last);
      FirstRefused(others, init);
      forall i: nat | i < n
        ensures RefusedAt(others, init, i) <==> RefusedAt(others, toks, i)
      {
        assert init[..i] == toks[..i];
      }
      assert toks[..n] == init;
      if Run(Start(others), init).Ok? {
        RunSound(others, init);
        StepExactly(Run(Start(others), init).value, last);
        assert RefusedAt(others, toks, n) <==> Refused(Run(Start(others), init).value, last);
        assert forall i :: RefusedAt(others, toks, i) ==> i == n || RefusedAt(others, init, i);
      } else {
        var i :| RefusedAt(others, init, i);
        assert RefusedAt(others, toks, i);
      }
    }
  }

  /** Reading a file fails exactly when it has no line with a token, or a token is refused by what was read before
      it. */
  lemma ReadFails(others: seq<string>, toks: seq<Tok>)
    ensures ReadAll(others, toks) == Fail <==>
      (forall k | 0 <= k < |toks| :: !toks[k].first) || exists i :: RefusedAt(others, toks, i)
  {
    FirstRefused(others, toks);
    if Run(Start(others), toks).Ok? {
      RunSound(others, toks);
    }
  }
}
