/** The CGATS object: building tables, writing them, and reading a file. */
module CgatsFile {
  import opened Wrappers
  import opened Pars
  import opened Lexing
  import opened CellTypes
  import opened Decimal
  import opened CgatsTables
  import opened CgatsWriter
  import opened CgatsReader
  import opened CgatsComplete
  import opened CgatsRoundTrip
  import opened CgatsLines
  import opened CgatsColumns
  import opened Quote

  class Cgats {
    var tables: seq<Table>
    /** The user's identifiers, an empty one standing for any. */
    var others: seq<string>
    /** The one variable CGATS type. */
    var xtype: Option<string>
    const emit: bool

    function Document(): Doc
      reads this
    {
      Doc(tables, others, xtype, emit)
    }

    constructor (emit: bool)
      ensures tables == [] && others == [] && xtype == None && this.emit == emit
    {
      tables, others, xtype := [], [], None;
      this.emit := emit;
    }

    /** The index of a keyword that has a value, -1 if there is none, -2 for a table that does not exist. */
    method FindKword(table: int, sym: string) returns (r: int)
      ensures r == if !(0 <= table < |tables|) then -2
                   else match CgatsTables.FindKword(tables[table].kwords, sym) case Some(i) => i case None => -1
    {
      if table < 0 || table >= |tables| {
        return -2;
      }
      if sym == "" {
        return -1;
      }
      var ks := tables[table].kwords;
      var i: nat := 0;
      while i < |ks|
        invariant i <= |ks| && FindFrom(ks, sym, 0) == FindFrom(ks, sym, i)
      {
        if Matches(ks[i], sym) {
          return i;
        }
        i := i + 1;
      }
      return -1;
    }

    method AddOther(sym: string) returns (oi: nat)
      modifies `others
      ensures others == old(others) + [sym] && oi == |old(others)|
    {
      others := others + [sym];
      oi := |others| - 1;
    }

    method AddTable(tt: TableType) returns (n: nat)
      modifies `tables
      ensures tables == old(tables) + [NewTable(tt)] && n == |old(tables)|
    {
      tables := tables + [NewTable(tt)];
      n := |tables| - 1;
    }

    /** Keywords and fields can be suppressed only where the identifier is. */
    method SetTableFlags(table: int, supId: bool, supKwords: bool, supFields: bool) returns (r: int)
      modifies `tables
      ensures if 0 <= table < |old(tables)| && (supId || (!supKwords && !supFields))
              then r == 0 && tables == old(tables)[table := old(tables)[table].(supId := supId, supKwords := supKwords,
                                                                                supFields := supFields)]
                   && FlagsOk(tables[table])
              else r == -1 && tables == old(tables)
    {
      if table < 0 || table >= |tables| || (!supId && (supKwords || supFields)) {
        return -1;
      }
      tables := tables[table := tables[table].(supId := supId, supKwords := supKwords, supFields := supFields)];
      return 0;
    }

    /** Puts a keyword at a place, or at the end when there is no such place. */
    method AddKwordAt(table: int, pos: int, k: Kword) returns (r: int)
      modifies `tables
      ensures if 0 <= table < |old(tables)| && KwordOk(k)
              then tables == old(tables)[table := CgatsTables.AddKwordAt(old(tables)[table], pos, k).value]
                   && 0 <= r < |tables[table].kwords| && tables[table].kwords[r] == k
              else r == -1 && tables == old(tables)
    {
      if table < 0 || table >= |tables| {
        return -1;
      }
      if k.sym.Some? && (HasSpecial(k.sym.value) || ReservedKword(k.sym.value)) {
        return -1;
      }
      var ks := tables[table].kwords;
      if pos < 0 || pos >= |ks| {
        ks := ks + [k];
        r := |ks| - 1;
      } else {
        ks := ks[pos := k];
        r := pos;
      }
      tables := tables[table := tables[table].(kwords := ks)];
    }

    method AddField(table: int, sym: string, ty: DataType) returns (r: int)
      modifies `tables
      ensures if 0 <= table < |old(tables)| && CgatsTables.AddField(old(tables)[table], sym, ty).Ok?
              then r >= 0 && tables == old(tables)[table := CgatsTables.AddField(old(tables)[table], sym, ty).value]
                   && (ty != NoType ==> FieldOk(tables[table].fields[|old(tables)[table].fields|]))
              else r < 0 && tables == old(tables)
    {
      if table < 0 || table >= |tables| {
        return -1;
      }
      var t := tables[table];
      if t.nsets != 0 || HasSpecial(sym) {
        return -1;
      }
      var ftype := ty;
      if ftype == NoType {
        ftype := Quot;
      } else {
        var st := StandardField(sym);
        if st == Bare && ftype == Quot {
          ftype := Bare;
        }
        if st != NoType && st != ftype {
          return -1;
        }
      }
      tables := tables[table := t.(fields := t.fields + [Field(sym, ftype)])];
      if ty != NoType {
        AddedFieldOk(t, sym, ty);
      }
      return |t.fields|;
    }

    method ClearFields(table: int) returns (r: int)
      modifies `tables
      ensures if 0 <= table < |old(tables)| && old(tables)[table].nsets == 0
              then r == 0 && tables == old(tables)[table := old(tables)[table].(fields := [])]
              else r == -1 && tables == old(tables)
    {
      if table < 0 || table >= |tables| || tables[table].nsets != 0 {
        return -1;
      }
      tables := tables[table := tables[table].(fields := [])];
      return 0;
    }

    method AddSet(table: int, row: seq<Cell>) returns (r: int)
      modifies `tables
      ensures if 0 <= table < |old(tables)| && CgatsTables.AddSet(old(tables)[table], row).Ok?
              then r == 0 && tables == old(tables)[table := CgatsTables.AddSet(old(tables)[table], row).value]
              else r == -1 && tables == old(tables)
    {
      if table < 0 || table >= |tables| {
        return -1;
      }
      var t := tables[table];
      if t.fields == [] || |row| != |t.fields| {
        return -1;
      }
      var i: nat := 0;
      while i < |t.fields|
        invariant i <= |t.fields| && tables == old(tables) && forall k | 0 <= k < i :: CellFits(row[k], t.fields[k].ty)
      {
        if !CellFits(row[i], t.fields[i].ty) {
          return -1;
        }
        i := i + 1;
      }
      tables := tables[table := t.(nsets := t.nsets + 1, data := t.data + [row])];
      return 0;
    }

    // ----- writing -----

    /** Adds a standard keyword unless the table has it. */
    method NeedKword(n: nat, sym: string, data: string)
      requires n < |tables| && StandardKword(sym)
      modifies `tables
      ensures tables == old(tables)[n := WithKword(old(tables)[n], sym, data)]
    {
      StandardKwordOk(sym, data);
      var i := FindKword(n, sym);
      if i < 0 {
        var _ := AddKwordAt(n, |tables[n].kwords|, Kword(Some(sym), Some(data), None));
      }
    }

    method NeedKwords(n: nat, syms: seq<string>)
      requires n < |tables| && forall s | s in syms :: StandardKword(s)
      modifies `tables
      ensures tables == old(tables)[n := WithAll(old(tables)[n], syms)]
    {
      var i: nat := 0;
      while i < |syms|
        invariant i <= |syms| && |tables| == |old(tables)| && tables == old(tables)[n := tables[n]]
        invariant WithAll(tables[n], syms[i..]) == WithAll(old(tables)[n], syms)
      {
        assert syms[i] in syms && syms[i..][1..] == syms[i + 1..];
        NeedKword(n, syms[i], NOT_GIVEN);
        i := i + 1;
      }
    }

    method NeedBasic(n: nat, today: string)
      requires n < |tables|
      modifies `tables
      ensures tables == old(tables)[n := WithBasic(old(tables)[n], today)]
    {
      assert STANDARD_KWORDS[0] == "ORIGINATOR" && STANDARD_KWORDS[1] == "DESCRIPTOR"
        && STANDARD_KWORDS[2] == "CREATED";
      NeedKword(n, "ORIGINATOR", NOT_GIVEN);
      NeedKword(n, "DESCRIPTOR", NOT_GIVEN);
      NeedKword(n, "CREATED", today);
    }

    /** Completes the keywords of table n. */
    method CompleteTable(n: nat, today: string)
      requires n < |tables|
      modifies `tables
      ensures tables == old(tables)[n := Completed(old(tables)[n], today)]
    {
      if tables[n].supKwords {
        return;
      }
      TypeKwordsStandard(tables[n].tt);
      NeedBasic(n, today);
      NeedKwords(n, TypeKwords(tables[n].tt));
    }

    /** Completes and writes table n; was holds the tables as they were before any was completed. */
    method WriteNext(n: nat, today: string, ghost was: seq<Table>, ghost d: Doc) returns (o: Outcome<string>)
      requires n < |tables| && Stage(was, tables, d, n) && RowsOk(d.tables[n]) && d == Document().(tables := d.tables)
      requires d.tables[n] == Completed(was[n], today)
      modifies `tables
      ensures Stage(was, tables, d, n + 1)
      ensures o == if Unwritable(d, n) then Fail else Ok(Text(TableLines(d.tables[n], d)))
    {
      CompleteTable(n, today);
      o := WriteTable(n);
      SameLines(d, Document(), n);
    }

    /** Writes all tables, completing the keywords of each before it is written. */
    method Write(today: string) returns (o: Outcome<string>)
      requires forall t | t in tables :: RowsOk(t)
      modifies `tables
      ensures CompletedRows(old(Document()), today)
      ensures o == WriteAll(CompletedDoc(old(Document()), today))
      ensures o.Ok? ==> Document() == CompletedDoc(old(Document()), today)
    {
      ghost var d := CompletedDoc(Document(), today);
      AllCompletedRows(Document(), today);
      WrittenNone(d);
      var out, n: nat := "", 0;
      while n < |tables|
        invariant n <= |tables| && Stage(old(tables), tables, d, n) && d == Document().(tables := d.tables)
        invariant Written(d, n, out)
      {
        var one := WriteNext(n, today, old(tables), d);
        WrittenNext(d, n, out);
        if one.Fail? {
          return Fail;
        }
        out := out + one.value;
        n := n + 1;
      }
      return Ok(out);
    }

    /** The text of one table. */
    method WriteTable(n: nat) returns (o: Outcome<string>)
      requires n < |tables| && RowsOk(tables[n])
      ensures o == if Unwritable(Document(), n) then Fail else Ok(Text(TableLines(tables[n], Document())))
    {
      var t := tables[n];
      var id := WriteId(n);
      if id.Fail? {
        return Fail;
      }
      var kw := WriteKwords(t, emit);
      if t.supFields && (n == 0 || t.fields != tables[n - 1].fields) {
        return Fail;
      }
      var fl := WriteFields(t, emit);
      var da := WriteData(t);
      TableParts(t, Document());
      return Ok(id.value + (kw + (fl + da)));
    }

    /** The line of a table's identifier, or the blank lines that stand for it. */
    method WriteId(n: nat) returns (o: Outcome<string>)
      requires n < |tables|
      ensures var t := tables[n];
              o == if (t.supId && (n == 0 || t.tt != tables[n - 1].tt)) || (!t.supId && t.tt == CgatsX && xtype.None?)
                   then Fail
                   else Ok(Text(IdLines(t, Document())))
    {
      var t := tables[n];
      if t.supId {
        if n == 0 || t.tt != tables[n - 1].tt {
          return Fail;
        }
        TextTwo("", "");
        return Ok("" + "\n" + ("" + "\n"));
      }
      var s := IdText(t.tt, others, xtype);
      if s.None? {
        return if t.tt == CgatsX then Fail else Ok("");
      }
      TextTwo(s.value + Blanks(7 - |s.value|), "");
      return Ok(s.value + Blanks(7 - |s.value|) + "\n" + ("" + "\n"));
    }
    // ----- reading -----

    /** The state of reading, with the local variables of the reading loop. */
    function Now(st: State, kw: string, done: nat, expsets: int): Reader
      reads this
    {
      Reader(st, kw, done, expsets, tables, others, xtype)
    }

    /** The table type that a token names, if any, and the state it leads to. */
    method FindIdent(s: string, st: State, ghost kw: string, ghost done: nat, ghost expsets: int)
      returns (tt: Option<TableType>, st': State)
      modifies `others, `xtype
      ensures Identify(old(Now(st, kw, done, expsets)), s) == (tt, Now(st', kw, done, expsets))
    {
      tt, st' := StandardIdent(s), st;
      if tt.Some? {
        return;
      }
      if StartsWith(s, "CGATS.") {
        xtype := Some(s);
        return Some(CgatsX), Kwords;
      }
      var iswild, oi: nat := false, 0;
      while oi < |others|
        invariant oi <= |others| && others == old(others) && xtype == old(xtype)
        invariant iswild <==> "" in others[..oi]
        invariant FindOther(others, s, 0) == FindOther(others, s, oi)
      {
        if others[oi] == "" {
          iswild := true;
        } else if others[oi] == s {
          return Some(Other(oi)), Kwords;
        }
        assert others[..oi + 1] == others[..oi] + [others[oi]];
        oi := oi + 1;
      }
      assert others[..oi] == others;
      if iswild && st == Ident && !StandardKword(s) && !ReservedKword(s) {
        oi := AddOther(s);
        return Some(Other(oi)), Kwords;
      }
    }

    /** A new table with the keywords and the field names of the last one. */
    method CarryOver() returns (ok: bool)
      requires tables != []
      modifies `tables
      ensures match Carried(old(tables)[|old(tables)| - 1])
              case Fail => !ok
              case Ok(t) => ok && tables == old(tables) + [t]
    {
      var pt := tables[|tables| - 1];
      var ct := AddTable(pt.tt);
      var i: nat := 0;
      while i < |pt.kwords|
        invariant i <= |pt.kwords| && ct == |old(tables)|
        invariant tables == old(tables) + [NewTable(pt.tt).(kwords := pt.kwords[..i])]
        invariant forall k | k in pt.kwords[..i] :: KwordOk(k)
      {
        var r := AddKwordAt(ct, i, pt.kwords[i]);
        if r < 0 {
          assert pt.kwords[i] in pt.kwords;
          return false;
        }
        assert pt.kwords[..i + 1] == pt.kwords[..i] + [pt.kwords[i]];
        i := i + 1;
      }
      assert pt.kwords[..i] == pt.kwords;
      i := 0;
      while i < |pt.fields|
        invariant i <= |pt.fields| && ct == |old(tables)|
        invariant tables == old(tables) + [NewTable(pt.tt).(kwords := pt.kwords, fields := Untyped(pt.fields[..i]))]
        invariant forall f | f in pt.fields[..i] :: !HasSpecial(f.sym)
      {
        var r := AddField(ct, pt.fields[i].sym, NoType);
        if r < 0 {
          assert pt.fields[i] in pt.fields;
          return false;
        }
        assert pt.fields[..i + 1] == pt.fields[..i] + [pt.fields[i]];
        assert Untyped(pt.fields[..i + 1]) == Untyped(pt.fields[..i]) + [Field(pt.fields[i].sym, Quot)];
        i := i + 1;
      }
      assert pt.fields[..i] == pt.fields;
      return true;
    }

    /** A token where an identifier or a keyword is expected. */
    method OnHead(tok: Tok, st: State, kw: string, done: nat, ghost expsets: int)
      returns (ok: bool, st': State, kw': string)
      requires Now(st, kw, done, expsets).Valid()
      modifies `tables, `others, `xtype
      ensures HeadStep(old(Now(st, kw, done, expsets)), tok) == if ok then Ok(Now(st', kw', done, expsets)) else Fail
    {
      ok, st', kw' := true, st, kw;
      if !tok.first {
        return;
      }
      ghost var r := Now(st, kw, done, expsets);
      var tt;
      tt, st' := FindIdent(tok.s, st, kw, done, expsets);
      if tt.None? && |tables| == 0 {
        return false, st', kw';
      }
      ok := OpenTable(tt, done, r);
      if ok && tt.None? {
        ok, st', kw' := OnHeadToken(tok.s, st', kw, done, expsets);
      }
    }

    /** Opens a new table if the last one is done. */
    method OpenTable(tt: Option<TableType>, done: nat, ghost r: Reader) returns (ok: bool)
      requires r.Valid() && r.tables == tables && r.done == done && (tt.None? ==> tables != [])
      modifies `tables
      ensures Opened(r, tt) == if ok then Ok(tables) else Fail
    {
      if |tables| != done {
        return true;
      }
      if tt.Some? {
        var _ := AddTable(tt.value);
        return true;
      }
      ok := CarryOver();
    }

    method OnHeadToken(s: string, st: State, kw: string, done: nat, ghost expsets: int)
      returns (ok: bool, st': State, kw': string)
      requires tables != [] && Now(st, kw, done, expsets).Valid()
      modifies `tables
      ensures HeadToken(old(Now(st, kw, done, expsets)), s) == if ok then Ok(Now(st', kw', done, expsets)) else Fail
    {
      ok, kw' := true, kw;
      if s == BEGIN_DATA_FORMAT || s == "SAMPLE_ID" {
        var rc := ClearFields(|tables| - 1);
        st' := Fields;
        ok := rc >= 0;
        if ok && s == "SAMPLE_ID" {
          var f := AddField(|tables| - 1, s, NoType);
          ok := f >= 0;
        }
      } else if s == BEGIN_DATA {
        st' := Data;
      } else {
        st', kw' := Value, s;
      }
    }

    /** The value of keyword kw. */
    method OnValue(s: string, kw: string, ghost done: nat, expsets: int) returns (ok: bool, expsets': int)
      requires Now(Value, kw, done, expsets).Valid() && NUL !in s
      modifies `tables
      ensures ValueStep(old(Now(Value, kw, done, expsets)), s) == if ok then Ok(Now(Kwords, "", done, expsets'))
        else Fail
    {
      ok, expsets' := true, expsets;
      if kw == NUMBER_OF_SETS {
        expsets' := Atoi(s);
      }
      if !ReservedKword(kw) {
        var v := UnquoteOf(s);
        var ix := FindKword(|tables| - 1, kw);
        var r := AddKwordAt(|tables| - 1, ix, Kword(Some(kw), Some(v), None));
        ok := r >= 0;
      }
    }

    method OnField(s: string, ghost done: nat, ghost expsets: int, kw: string)
      returns (ok: bool, st': State, kw': string)
      requires Now(Fields, kw, done, expsets).Valid()
      modifies `tables
      ensures FieldStep(old(Now(Fields, kw, done, expsets)), s) == if ok then Ok(Now(st', kw', done, expsets)) else Fail
    {
      ok, st', kw' := true, Fields, kw;
      if s == END_DATA_FORMAT {
        st' := Kwords;
      } else if s == BEGIN_DATA {
        st' := Data;
      } else if s == "DEVICE_NAME" {
        st', kw' := Value, s;
      } else {
        var f := AddField(|tables| - 1, s, NoType);
        ok := f >= 0;
      }
    }

    /** Adds the text of a cell to the set being read. */
    method AddDataItem(n: nat, s: string) returns (r: int)
      requires n < |tables| && Filling(tables[n])
      modifies `tables
      ensures match CgatsTables.AddDataItem(old(tables)[n], s)
              case Fail => r < 0 && tables == old(tables)
              case Ok(t) => r == 0 && tables == old(tables)[n := t]
    {
      var t := tables[n];
      if t.fields == [] {
        return -1;
      }
      if t.ndf == 0 {
        t := t.(nsets := t.nsets + 1, raw := t.raw + [[]]);
      }
      var last := |t.raw| - 1;
      t := t.(raw := t.raw[last := t.raw[last] + [s]]);
      t := t.(ndf := if t.ndf + 1 >= |t.fields| then 0 else t.ndf + 1);
      assert [] + [s] == [s];
      assert tables[n].ndf == 0 ==> t.raw == tables[n].raw + [[s]];
      tables := tables[n := t];
      return 0;
    }

    method OnData(s: string, done: nat, expsets: int, ghost kw: string) returns (ok: bool, st': State, done': nat)
      requires Now(Data, kw, done, expsets).Valid()
      modifies `tables
      ensures DataStep(old(Now(Data, kw, done, expsets)), s) == if ok then Ok(Now(st', kw, done', expsets)) else Fail
    {
      ok, st', done' := true, Data, done;
      var n := |tables| - 1;
      var ct := tables[n];
      if s == END_DATA {
        if (expsets != 0 && ct.nsets != expsets) || ct.ndf != 0 {
          return false, st', done';
        }
        var o := ConvertTable(ct);
        if o.Fail? {
          return false, st', done';
        }
        tables := tables[n := o.value];
        return true, Ident, |tables|;
      }
      var r := AddDataItem(n, s);
      ok := r >= 0;
    }

    /** What one token does to the object and the loop's variables. */
    method OnToken(tok: Tok, st: State, kw: string, done: nat, expsets: int)
      returns (ok: bool, st': State, kw': string, done': nat, expsets': int)
      requires Now(st, kw, done, expsets).Valid() && NUL !in tok.s
      modifies `tables, `others, `xtype
      ensures Step(old(Now(st, kw, done, expsets)), tok) == if ok then Ok(Now(st', kw', done', expsets')) else Fail
    {
      ok, st', kw', done', expsets' := true, st, kw, done, expsets;
      if |tok.s| > LONGEST {
        ok := false;
        return;
      }
      match st {
        case Ident => ok, st', kw' := OnHead(tok, st, kw, done, expsets);
        case Kwords => ok, st', kw' := OnHead(tok, st, kw, done, expsets);
        case Value =>
          ok, expsets' := OnValue(tok.s, kw, done, expsets);
          st', kw' := Kwords, "";
        case Fields => ok, st', kw' := OnField(tok.s, done, expsets, kw);
        case Data => ok, st', done' := OnData(tok.s, done, expsets, kw);
      }
    }

    /** Reads a file on top of what the object holds, which may be tables whose last one is empty or was being read;
        an empty object must hold a table afterwards. */
    method Read(text: string) returns (r: int)
      requires Now(Ident, "", 0, 0).Valid() && NUL !in text
      modifies `tables, `others, `xtype
      ensures match Run(old(Now(Ident, "", 0, 0)), Lex(CGATS, text, Plain))
              case Fail => r < 0
              case Ok(x) =>
                tables == x.tables && others == x.others && xtype == x.xtype && (r == 0 <==> tables != []) && r <= 0
    {
      var pp := new Parse(text);
      pp.AddDel(" \t", " \t", "#", "\"");
      DelimsAre(pp.delf);
      var st, kw, done: nat, expsets: int := Ident, "", 0, 0;
      ghost var start, toks := Now(st, kw, done, expsets), Lex(CGATS, text, Plain);
      FirstAhead(text);
      assert text[0..] == text;
      while true
        invariant pp.Valid() && pp.delf == CGATS && Now(st, kw, done, expsets).Valid()
        invariant Run(start, toks) == Run(Now(st, kw, done, expsets), pp.Left())
        decreases |pp.Left()|
      {
        ghost var left, now := pp.Left(), Now(st, kw, done, expsets);
        var tok := pp.Fetch();
        if tok.None? {
          break;
        }
        var ok;
        ok, st, kw, done, expsets := OnToken(tok.value, st, kw, done, expsets);
        RunHead(now, left);
        if !ok {
          return -1;
        }
      }
      return if tables == [] then -1 else 0;
    }
  }

  lemma RunHead(r: Reader, toks: seq<Tok>)
    requires r.Valid() && toks != []
    ensures Run(r, toks) == match Step(r, toks[0]) { case Fail => Fail case Ok(r') => Run(r', toks[1..]) }
  {
  }

  lemma DelimsAre(d: Delims)
    requires d == Delims({NUL} + (set x | x in " \t"), {} + (set x | x in " \t"), {} + (set x | x in "#"),
      {} + (set x | x in "\""))
    ensures d == CGATS
  {
    assert d.term == CGATS.term && d.skip == CGATS.skip && d.comm == CGATS.comm && d.quote == CGATS.quote;
  }

  lemma FirstAhead(text: string)
    ensures Ahead(CGATS, "", 0, text, Plain) == Lex(CGATS, text, Plain)
  {
    BlankLine("");
    assert Numbered([], 0) == [];
  }

  /** A token without its quotes. */
  method UnquoteOf(s: string) returns (u: string)
    requires NUL !in s
    ensures u == Unquoted(s)
  {
    var cs := new char[|s| + 1](i => if 0 <= i < |s| then s[i] else NUL);
    assert cs[..] == s + [NUL];
    StrIs(s + [NUL], |s|);
    assert (s + [NUL])[..|s|] == s;
    UnquoteCs(cs);
    var n := StrLen(cs);
    return cs[..n];
  }

  lemma StandardKwordOk(sym: string, data: string)
    requires StandardKword(sym)
    ensures KwordOk(Kword(Some(sym), Some(data), None))
  {
    StandardHead(sym, []);
  }

  lemma CompletedSame(t: Table, today: string)
    ensures Completed(t, today) == t.(kwords := Completed(t, today).kwords)
  {
    if !t.supKwords {
      WithAllSame(WithBasic(t, today), TypeKwords(t.tt));
    }
  }

  lemma {:induction false} WithAllSame(t: Table, syms: seq<string>)
    ensures WithAll(t, syms) == t.(kwords := WithAll(t, syms).kwords)
    decreases |syms|
  {
    if syms == [] {
    } else {
      WithAllSame(WithKword(t, syms[0], NOT_GIVEN), syms[1..]);
    }
  }

  ghost predicate CompletedRows(d: Doc, today: string) {
    forall t | t in CompletedDoc(d, today).tables :: RowsOk(t)
  }

  lemma AllCompletedRows(d: Doc, today: string)
    requires forall t | t in d.tables :: RowsOk(t)
    ensures CompletedRows(d, today)
  {
    var d' := CompletedDoc(d, today);
    forall t | t in d'.tables
      ensures RowsOk(t)
    {
      var n :| 0 <= n < |d'.tables| && d'.tables[n] == t;
      assert d.tables[n] in d.tables;
      CompletedSame(d.tables[n], today);
    }
  }

  lemma TextOne(l: TextLine)
    ensures Text([l]) == LineText(l)
  {
    assert [l][1..] == [] && LineText(l) + "" == LineText(l);
  }

  lemma TextTwo(a: string, b: string)
    ensures Text([Bare1(a), Bare1(b)]) == a + "\n" + (b + "\n")
  {
    TextOne(Bare1(b));
    assert [Bare1(a), Bare1(b)][1..] == [Bare1(b)];
    assert LineText(Bare1(a)) == a + "\n" && LineText(Bare1(b)) == b + "\n";
  }

  /** The lines of a table and whether it can be written depend only on it, the one before, and the identifiers. */
  lemma SameLines(d: Doc, d': Doc, n: nat)
    requires n < |d.tables| == |d'.tables| && d' == d.(tables := d'.tables) && RowsOk(d.tables[n])
    requires d'.tables[n] == d.tables[n] && (n > 0 ==> d'.tables[n - 1] == d.tables[n - 1])
    ensures TableLines(d.tables[n], d') == TableLines(d.tables[n], d) && Unwritable(d', n) == Unwritable(d, n)
  {
    assert IdLines(d.tables[n], d') == IdLines(d.tables[n], d);
  }

  /** The first n tables have become those of d, the others are as they were. */
  ghost predicate Stage(was: seq<Table>, now: seq<Table>, d: Doc, n: nat) {
    && |was| == |now| == |d.tables| && n <= |now| && (n == |now| ==> now == d.tables)
    && forall k | 0 <= k < |now| :: now[k] == if k < n then d.tables[k] else was[k]
  }

  /** The first n tables have been written as out. */
  ghost predicate Written(d: Doc, n: nat, out: string) {
    && n <= |d.tables| && (forall k | 0 <= k < |d.tables| :: RowsOk(d.tables[k]))
    && (forall t | t in d.tables :: RowsOk(t))
    && (forall k | 0 <= k < n :: !Unwritable(d, k))
    && Text(LinesFrom(d, 0)) == out + Text(LinesFrom(d, n))
    && (n == |d.tables| ==> WriteAll(d) == Ok(out))
  }

  lemma WrittenNone(d: Doc)
    requires forall t | t in d.tables :: RowsOk(t)
    ensures Written(d, 0, "")
  {
    assert "" + Text(LinesFrom(d, 0)) == Text(LinesFrom(d, 0));
  }

  lemma WrittenNext(d: Doc, n: nat, out: string)
    requires Written(d, n, out) && n < |d.tables|
    ensures if Unwritable(d, n) then WriteAll(d) == Fail else Written(d, n + 1, out + Text(TableLines(d.tables[n], d)))
  {
    if !Unwritable(d, n) {
      var one, more := Text(TableLines(d.tables[n], d)), Text(LinesFrom(d, n + 1));
      TextJoin(TableLines(d.tables[n], d), LinesFrom(d, n + 1));
      Assoc(out, one, more);
      if n + 1 == |d.tables| {
        assert out + one + "" == out + one;
      }
    }
  }

  lemma TableParts(t: Table, d: Doc)
    requires RowsOk(t)
    ensures Text(TableLines(t, d)) ==
      Text(IdLines(t, d)) + (Text(AllKwordLines(t.kwords, d.emit)) + (Text(FieldLines(t, d.emit)) + Text(DataLines(t))))
  {
    TextJoin(FieldLines(t, d.emit), DataLines(t));
    TextJoin(AllKwordLines(t.kwords, d.emit), FieldLines(t, d.emit) + DataLines(t));
    TextJoin(IdLines(t, d), AllKwordLines(t.kwords, d.emit) + (FieldLines(t, d.emit) + DataLines(t)));
  }

  // ----- the parts of a table -----

  /** A string with quotes added. */
  method QuoteOf(s: string) returns (q: string)
    ensures q == Quoted(s)
  {
    var rs := QuoteCs(s);
    q := rs[..rs.Length - 1];
  }

  method WriteDeclare(sym: string, emit: bool) returns (s: string)
    ensures s == Text(DeclareLines(sym, emit))
  {
    if !emit {
      return "";
    }
    var q := QuoteOf(sym);
    TextOne(Bare1(KEYWORD + (" " + q)));
    return KEYWORD + (" " + q) + "\n";
  }

  method WriteKword(k: Kword, emit: bool) returns (s: string)
    ensures s == Text(KwordLines(k, emit))
  {
    if k.sym.Some? && k.data.Some? {
      var decl := WriteDeclare(k.sym.value, emit && !StandardKword(k.sym.value));
      var q := QuoteOf(k.data.value);
      var body := k.sym.value + (" " + (q + if k.com.Some? then "\t" else ""));
      var com := if k.com.Some? then Some(" " + k.com.value) else None;
      TextJoin(DeclareLines(k.sym.value, emit && !StandardKword(k.sym.value)), [TextLine(body, com)]);
      TextOne(TextLine(body, com));
      return decl + (body + (if k.com.Some? then "#" + (" " + k.com.value) else "") + "\n");
    }
    if k.com.Some? {
      TextOne(TextLine("", Some(" " + k.com.value)));
      return "" + ("#" + (" " + k.com.value)) + "\n";
    }
    return "";
  }

  method WriteKwords(t: Table, emit: bool) returns (s: string)
    ensures s == Text(AllKwordLines(t.kwords, emit))
  {
    s := "";
    var i: nat := 0;
    assert t.kwords[0..] == t.kwords && "" + Text(AllKwordLines(t.kwords, emit)) == Text(AllKwordLines(t.kwords, emit));
    while i < |t.kwords|
      invariant i <= |t.kwords| && s + Text(AllKwordLines(t.kwords[i..], emit)) == Text(AllKwordLines(t.kwords, emit))
    {
      var one := WriteKword(t.kwords[i], emit);
      assert t.kwords[i..][1..] == t.kwords[i + 1..];
      TextJoin(KwordLines(t.kwords[i], emit), AllKwordLines(t.kwords[i + 1..], emit));
      Assoc(s, one, Text(AllKwordLines(t.kwords[i + 1..], emit)));
      s := s + one;
      i := i + 1;
    }
    assert t.kwords[i..] == [] && s + "" == s;
  }

  method WriteFields(t: Table, emit: bool) returns (s: string)
    ensures s == Text(FieldLines(t, emit))
  {
    if t.supFields {
      return "";
    }
    var decl := WriteDeclares(t.fields, emit);
    var names := "";
    var i: nat := 0;
    while i < |t.fields|
      invariant i <= |t.fields| && names == Spaced(FieldWords(t.fields[..i]))
    {
      SpacedMore(FieldWords(t.fields[..i]), ("", t.fields[i].sym));
      assert FieldWords(t.fields[..i + 1]) == FieldWords(t.fields[..i]) + [("", t.fields[i].sym)];
      names := names + ("" + (t.fields[i].sym + " "));
      i := i + 1;
    }
    assert t.fields[..i] == t.fields;
    FieldsText(t, emit);
    s := "\n" + (decl + (NUMBER_OF_FIELDS + (" " + IntText(|t.fields|)) + "\n"
      + (BEGIN_DATA_FORMAT + "\n" + (names + "\n" + (END_DATA_FORMAT + "\n")))));
  }

  method WriteDeclares(fs: seq<Field>, emit: bool) returns (s: string)
    ensures s == Text(DeclareFields(fs, emit))
  {
    s := "";
    var i: nat := 0;
    assert fs[0..] == fs && "" + Text(DeclareFields(fs, emit)) == Text(DeclareFields(fs, emit));
    while i < |fs|
      invariant i <= |fs| && s + Text(DeclareFields(fs[i..], emit)) == Text(DeclareFields(fs, emit))
    {
      var one := WriteDeclare(fs[i].sym, emit && StandardField(fs[i].sym) == NoType);
      assert fs[i..][1..] == fs[i + 1..];
      TextJoin(DeclareLines(fs[i].sym, emit && StandardField(fs[i].sym) == NoType), DeclareFields(fs[i + 1..], emit));
      Assoc(s, one, Text(DeclareFields(fs[i + 1..], emit)));
      s := s + one;
      i := i + 1;
    }
    assert fs[i..] == [] && s + "" == s;
  }

  lemma {:induction false} SpacedMore(ws: seq<(string, string)>, w: (string, string))
    ensures Spaced(ws + [w]) == Spaced(ws) + (w.0 + (w.1 + " "))
  {
    if ws == [] {
      assert (ws + [w])[1..] == [] && " " + "" == " ";
    } else {
      SpacedMore(ws[1..], w);
      assert (ws + [w])[1..] == ws[1..] + [w] && (ws + [w])[0] == ws[0];
      Assoc(" ", Spaced(ws[1..]), w.0 + (w.1 + " "));
      Assoc(ws[0].1, " " + Spaced(ws[1..]), w.0 + (w.1 + " "));
      Assoc(ws[0].0, ws[0].1 + (" " + Spaced(ws[1..])), w.0 + (w.1 + " "));
    }
  }

  lemma SpacedNext(ws: seq<(string, string)>, i: nat)
    requires i < |ws|
    ensures Spaced(ws[..i + 1]) == Spaced(ws[..i]) + (ws[i].0 + (ws[i].1 + " "))
  {
    SpacedMore(ws[..i], ws[i]);
    assert ws[..i + 1] == ws[..i] + [ws[i]];
  }

  lemma TextThen(l: TextLine, ls: seq<TextLine>)
    ensures Text([l] + ls) == LineText(l) + Text(ls)
  {
    TextJoin([l], ls);
    TextOne(l);
  }

  lemma FieldsText(t: Table, emit: bool)
    requires !t.supFields
    ensures Text(FieldLines(t, emit)) == "\n" + (Text(DeclareFields(t.fields, emit))
      + (NUMBER_OF_FIELDS + (" " + IntText(|t.fields|)) + "\n"
         + (BEGIN_DATA_FORMAT + "\n" + (Spaced(FieldWords(t.fields)) + "\n" + (END_DATA_FORMAT + "\n")))))
  {
    var count, format := CountLine(NUMBER_OF_FIELDS, |t.fields|), FormatLines(t.fields);
    var names, end := Bare1(Spaced(FieldWords(t.fields))), Bare1(END_DATA_FORMAT);
    TextThen(Bare1(""), DeclareFields(t.fields, emit) + ([count] + format));
    TextJoin(DeclareFields(t.fields, emit), [count] + format);
    TextThen(count, format);
    TextThen(Bare1(BEGIN_DATA_FORMAT), [names] + [end]);
    TextThen(names, [end]);
    TextOne(end);
    BareText("");
    BareText(count.w);
    BareText(BEGIN_DATA_FORMAT);
    BareText(names.w);
    BareText(end.w);
  }

  lemma BareText(w: string)
    ensures LineText(Bare1(w)) == w + "\n"
  {
    assert w + "" + "\n" == w + "\n";
  }

  /** The text of a cell and the blank after it. */
  method WriteCell(f: Field, c: Cell) returns (s: string)
    requires CellFits(c, f.ty)
    ensures s == CellWord(f, c).0 + (CellWord(f, c).1 + " ")
  {
    match c {
      case RealCell(v) =>
        var fmt := RealFormat(v, REAL_SIGDIG);
        s := Printed(v, fmt) + " ";
        Assoc(Padding(v, fmt), CellText(v), " ");
      case IntCell(n) =>
        s := "" + (IntText(n) + " ");
      case TextCell(cs) =>
        var tt := GuessType(cs);
        if f.ty == Bare && !HasSpecial(cs) && (StandardField(f.sym) != NoType || (tt != Int && tt != Real)) {
          s := "" + (cs + " ");
        } else {
          var q := QuoteOf(cs);
          s := "" + (q + " ");
        }
    }
  }

  method WriteRow(fs: seq<Field>, row: seq<Cell>) returns (s: string)
    requires RowFits(row, fs)
    ensures s == Spaced(RowWords(fs, row)) + "\n"
  {
    s := "";
    var i: nat := 0;
    while i < |row|
      invariant i <= |row| && s == Spaced(RowWords(fs, row)[..i])
    {
      var one := WriteCell(fs[i], row[i]);
      SpacedNext(RowWords(fs, row), i);
      s := s + one;
      i := i + 1;
    }
    assert RowWords(fs, row)[..i] == RowWords(fs, row);
    s := s + "\n";
  }

  method WriteRows(fs: seq<Field>, rows: seq<seq<Cell>>) returns (s: string)
    requires forall row | row in rows :: RowFits(row, fs)
    ensures s == Text(RowLines(fs, rows))
  {
    s := "";
    var j: nat := 0;
    assert rows[0..] == rows && "" + Text(RowLines(fs, rows)) == Text(RowLines(fs, rows));
    while j < |rows|
      invariant j <= |rows| && s + Text(RowLines(fs, rows[j..])) == Text(RowLines(fs, rows))
    {
      assert rows[j] in rows && rows[j..][0] == rows[j] && rows[j..][1..] == rows[j + 1..];
      var one := WriteRow(fs, rows[j]);
      TextThen(Bare1(Spaced(RowWords(fs, rows[j]))), RowLines(fs, rows[j + 1..]));
      BareText(Spaced(RowWords(fs, rows[j])));
      Assoc(s, one, Text(RowLines(fs, rows[j + 1..])));
      s := s + one;
      j := j + 1;
    }
    assert rows[j..] == [] && s + "" == s;
  }

  method WriteData(t: Table) returns (s: string)
    requires RowsOk(t)
    ensures s == Text(DataLines(t))
  {
    var rows := WriteRows(t.fields, t.data);
    var count := CountLine(NUMBER_OF_SETS, |t.data|);
    DataText(t);
    s := "\n" + (NUMBER_OF_SETS + (" " + IntText(|t.data|)) + "\n" + (BEGIN_DATA + "\n" + (rows + (END_DATA + "\n"))));
  }

  lemma DataText(t: Table)
    requires RowsOk(t)
    ensures Text(DataLines(t)) == "\n" + (NUMBER_OF_SETS + (" " + IntText(|t.data|)) + "\n"
      + (BEGIN_DATA + "\n" + (Text(RowLines(t.fields, t.data)) + (END_DATA + "\n"))))
  {
    var count, rows, end := CountLine(NUMBER_OF_SETS, |t.data|), RowLines(t.fields, t.data), Bare1(END_DATA);
    TextThen(Bare1(""), [count] + ([Bare1(BEGIN_DATA)] + (rows + [end])));
    TextThen(count, [Bare1(BEGIN_DATA)] + (rows + [end]));
    TextThen(Bare1(BEGIN_DATA), rows + [end]);
    TextJoin(rows, [end]);
    TextOne(end);
    BareText("");
    BareText(count.w);
    BareText(BEGIN_DATA);
    BareText(end.w);
  }

  // ----- settling the types of a table read -----

  /** The type of column i, if the guess and the standard agree. */
  method SettleColumn(t: Table, i: nat) returns (bt: DataType)
    requires Filling(t) && t.ndf == 0 && i < |t.fields|
    ensures bt == ColumnSettled(t, i)
  {
    bt := ColumnType(Column(t.raw, i));
    var st := StandardField(t.fields[i].sym);
    if (st == Real && bt == Int) || ((st == Quot || st == Bare) && bt == Int)
      || ((st == Quot || st == Bare) && bt == Real)
       || (st == Bare && bt == Quot) || (st == Quot && bt == Bare) {
      bt := st;
    }
    if st != NoType && st != bt {
      bt := NoType;
    }
  }

  /** The fields and cells of the first i columns. */
  ghost predicate ColumnsDone(t: Table, i: nat, fields: seq<Field>, data: seq<seq<Cell>>)
    requires Filling(t) && t.ndf == 0
  {
    && i <= |t.fields| && |fields| == i && |data| == |t.raw|
    && (forall k | 0 <= k < i ::
        fields[k] == Field(t.fields[k].sym, ColumnSettled(t, k)) && ColumnSettled(t, k) != NoType)
    && forall j | 0 <= j < |data| ::
        |data[j]| == i && forall k | 0 <= k < i :: data[j][k] == ReadCell(fields[k].ty, t.raw[j][k])
  }

  method ReadColumn(t: Table, i: nat, bt: DataType, fields: seq<Field>, was: seq<seq<Cell>>)
    returns (data: seq<seq<Cell>>)
    requires Filling(t) && t.ndf == 0 && i < |t.fields| && bt == ColumnSettled(t, i) && bt != NoType
    requires ColumnsDone(t, i, fields, was)
    ensures ColumnsDone(t, i + 1, fields + [Field(t.fields[i].sym, bt)], data)
  {
    data := was;
    var j: nat := 0;
    while j < |t.raw|
      invariant j <= |t.raw| == |data|
      invariant ColumnUpto(t.raw, i, bt, was, data, j)
    {
      ghost var before := data;
      data := data[j := data[j] + [ReadCell(bt, t.raw[j][i])]];
      ColumnNext(t.raw, i, bt, was, before, data, j);
      j := j + 1;
    }
    ColumnAdded(t, i, bt, fields, was, data);
  }

  /** The first j rows have a cell more than they had. */
  ghost predicate ColumnUpto(raw: seq<seq<string>>, i: nat, bt: DataType, was: seq<seq<Cell>>, data: seq<seq<Cell>>,
      j: nat) {
    && |raw| == |was| == |data| && (forall m | 0 <= m < |raw| :: i < |raw[m]|)
    && forall m | 0 <= m < |data| :: data[m] == if m < j then was[m] + [ReadCell(bt, raw[m][i])] else was[m]
  }

  lemma ColumnNext(raw: seq<seq<string>>, i: nat, bt: DataType, was: seq<seq<Cell>>, data: seq<seq<Cell>>,
      data': seq<seq<Cell>>, j: nat)
    requires ColumnUpto(raw, i, bt, was, data, j) && j < |raw|
      && data' == data[j := data[j] + [ReadCell(bt, raw[j][i])]]
    ensures ColumnUpto(raw, i, bt, was, data', j + 1)
  {
  }

  lemma ColumnAdded(t: Table, i: nat, bt: DataType, fields: seq<Field>, was: seq<seq<Cell>>, data: seq<seq<Cell>>)
    requires Filling(t) && t.ndf == 0 && i < |t.fields| && bt == ColumnSettled(t, i) && bt != NoType
    requires ColumnsDone(t, i, fields, was)
    requires |data| == |was| && forall m | 0 <= m < |data| :: data[m] == was[m] + [ReadCell(bt, t.raw[m][i])]
    ensures ColumnsDone(t, i + 1, fields + [Field(t.fields[i].sym, bt)], data)
  {
    forall j | 0 <= j < |data|
      ensures |data[j]| == i + 1
      ensures forall k | 0 <= k < i + 1 ::
        data[j][k] == ReadCell((fields + [Field(t.fields[i].sym, bt)])[k].ty, t.raw[j][k])
    {
      CellAdded(fields, Field(t.fields[i].sym, bt), t.raw[j], was[j], data[j]);
    }
  }

  lemma CellAdded(fields: seq<Field>, f: Field, raw: seq<string>, was: seq<Cell>, now: seq<Cell>)
    requires |was| == |fields| < |raw| && forall k | 0 <= k < |fields| :: was[k] == ReadCell(fields[k].ty, raw[k])
    requires now == was + [ReadCell(f.ty, raw[|fields|])]
    ensures forall k | 0 <= k < |fields| + 1 :: now[k] == ReadCell((fields + [f])[k].ty, raw[k])
  {
  }

  /** A table with the types of its columns settled and its cells converted. */
  method ConvertTable(t: Table) returns (o: Outcome<Table>)
    requires Filling(t) && t.ndf == 0
    ensures o == Convert(t)
  {
    var fields: seq<Field>, data := [], seq(|t.raw|, _ => []);
    var i: nat := 0;
    while i < |t.fields|
      invariant ColumnsDone(t, i, fields, data)
    {
      var bt := SettleColumn(t, i);
      if bt == NoType {
        return Fail;
      }
      data := ReadColumn(t, i, bt, fields, data);
      fields := fields + [Field(t.fields[i].sym, bt)];
      i := i + 1;
    }
    var c := Convert(t).value;
    assert fields == c.fields;
    assert data == c.data by {
      forall j | 0 <= j < |data|
        ensures data[j] == ReadRow(fields, t.raw[j])
      {
      }
    }
    return Ok(t.(fields := fields, data := data));
  }
}
