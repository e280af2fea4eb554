/** The keywords that writing adds, and the round trip from what the caller built. */
module CgatsComplete {
  import opened Wrappers
  import opened Pars
  import opened Lexing
  import opened CgatsTables
  import opened CgatsWriter
  import opened CgatsReader
  import opened CgatsRun
  import opened CgatsRecover
  import opened CgatsRoundTrip
  import opened Quote

  /** Table t' is t with more keywords at the end. */
  ghost predicate Extends(t: Table, t': Table) {
    && t' == t.(kwords := t'.kwords) && |t.kwords| <= |t'.kwords|
    && forall i | 0 <= i < |t.kwords| :: t'.kwords[i] == t.kwords[i]
  }

  /** Whether a table with proper keywords stays so. */
  ghost predicate KwordsOk(t: Table, others: seq<string>) {
    (forall k | k in t.kwords :: KwordReadable(k, others)) && Distinct(t.kwords)
  }

  lemma StandardHead(s: string, others: seq<string>)
    requires StandardKword(s) && "" !in others && s !in others
    ensures HeadWord(s, others) && !ReservedKword(s) && s != "SAMPLE_ID" && |s| <= 18
  {
    var i :| 0 <= i < |STANDARD_KWORDS| && STANDARD_KWORDS[i] == s;
    CapitalsHead(s, others);
  }

  lemma {:induction false} DoubledShort(s: string)
    ensures |Doubled(s)| <= 2 * |s|
  {
    if s == [] {
    } else {
      DoubledShort(s[1..]);
    }
  }

  lemma WithKwordOk(t: Table, sym: string, data: string, others: seq<string>)
    requires KwordsOk(t, others) && StandardKword(sym) && "" !in others && sym !in others
    requires NUL !in data && (|Quoted(data)| <= LONGEST || |data| < 400)
    ensures Extends(t, WithKword(t, sym, data)) && KwordsOk(WithKword(t, sym, data), others)
    ensures FindKword(WithKword(t, sym, data).kwords, sym).Some?
  {
    StandardHead(sym, others);
    DoubledShort(sym);
    DoubledShort(data);
    var k := Kword(Some(sym), Some(data), None);
    if FindKword(t.kwords, sym).None? {
      assert KwordReadable(k, others);
      DistinctMore(t.kwords, k);
      assert Matches((t.kwords + [k])[|t.kwords|], sym);
    }
  }

  lemma DistinctMore(ks: seq<Kword>, k: Kword)
    requires Distinct(ks) && HasValue(k) && k.sym.value != "" && FindKword(ks, k.sym.value).None?
    ensures Distinct(ks + [k])
  {
  }

  lemma {:induction false} WithAllOk(t: Table, syms: seq<string>, others: seq<string>)
    requires KwordsOk(t, others) && "" !in others && forall s | s in syms :: StandardKword(s) && s !in others
    ensures Extends(t, WithAll(t, syms)) && KwordsOk(WithAll(t, syms), others)
    decreases |syms|
  {
    if syms == [] {
    } else {
      assert syms[0] in syms;
      WithKwordOk(t, syms[0], NOT_GIVEN, others);
      WithAllOk(WithKword(t, syms[0], NOT_GIVEN), syms[1..], others);
    }
  }

  /** No identifier of the user is a standard keyword, and today's date can be a value. */
  ghost predicate Datable(d: Doc, today: string) {
    (forall s | s in STANDARD_KWORDS :: s !in d.others) && NUL !in today && |Quoted(today)| <= LONGEST
  }

  lemma TypeKwordsStandard(tt: TableType)
    ensures forall s | s in TypeKwords(tt) :: StandardKword(s)
  {
    assert STANDARD_KWORDS[3] == "MANUFACTURER" && STANDARD_KWORDS[4] == "PROD_DATE" && STANDARD_KWORDS[5] == "SERIAL"
        && STANDARD_KWORDS[6] == "MATERIAL" && STANDARD_KWORDS[7] == "INSTRUMENTATION"
        && STANDARD_KWORDS[8] == "MEASUREMENT_SOURCE" && STANDARD_KWORDS[9] == "PRINT_CONDITIONS";
  }

  lemma ThreeOk(t: Table, a: string, b: string, c: string, none: string, today: string, others: seq<string>)
    requires KwordsOk(t, others) && "" !in others && (forall s | s in [a, b, c] :: StandardKword(s) && s !in others)
    requires NUL !in today && |Quoted(today)| <= LONGEST && NUL !in none && |none| < 400
    ensures var t' := WithKword(WithKword(WithKword(t, a, none), b, none), c, today);
      Extends(t, t') && KwordsOk(t', others)
  {
    assert a in [a, b, c] && b in [a, b, c] && c in [a, b, c];
    var t1 := WithKword(t, a, none);
    WithKwordOk(t, a, none, others);
    var t2 := WithKword(t1, b, none);
    WithKwordOk(t1, b, none, others);
    WithKwordOk(t2, c, today, others);
  }

  lemma BasicOk(t: Table, today: string, others: seq<string>)
    requires KwordsOk(t, others) && "" !in others && (forall s | s in STANDARD_KWORDS :: s !in others)
    requires NUL !in today && |Quoted(today)| <= LONGEST
    ensures Extends(t, WithBasic(t, today)) && KwordsOk(WithBasic(t, today), others)
  {
    assert STANDARD_KWORDS[0] == "ORIGINATOR" && STANDARD_KWORDS[1] == "DESCRIPTOR" && STANDARD_KWORDS[2] == "CREATED";
    ThreeOk(t, "ORIGINATOR", "DESCRIPTOR", "CREATED", NOT_GIVEN, today, others);
  }

  lemma CompletedOk(t: Table, today: string, d: Doc)
    requires KwordsOk(t, d.others) && OthersOk(d.others) && Datable(d, today)
    ensures Extends(t, Completed(t, today)) && KwordsOk(Completed(t, today), d.others)
  {
    if !t.supKwords {
      BasicOk(t, today, d.others);
      TypeKwordsStandard(t.tt);
      WithAllOk(WithBasic(t, today), TypeKwords(t.tt), d.others);
    }
  }

  /** The document with every table completed. */
  function CompletedDoc(d: Doc, today: string): (d': Doc)
    ensures |d'.tables| == |d.tables| && forall n | 0 <= n < |d.tables| :: d'.tables[n] == Completed(d.tables[n], today)
    ensures d' == d.(tables := d'.tables)
  {
    d.(tables := seq(|d.tables|, n requires 0 <= n < |d.tables| => Completed(d.tables[n], today)))
  }

  lemma CompletedReadable(d: Doc, today: string)
    requires DocReadable(d) && Datable(d, today)
    ensures DocReadable(CompletedDoc(d, today))
    ensures forall n | 0 <= n < |d.tables| :: Extends(d.tables[n], CompletedDoc(d, today).tables[n])
  {
    var d' := CompletedDoc(d, today);
    forall n | 0 <= n < |d.tables|
      ensures Extends(d.tables[n], d'.tables[n]) && TableReadable(d'.tables[n], d')
    {
      assert TableReadable(d.tables[n], d);
      CompletedOk(d.tables[n], today, d);
    }
    forall n | 0 <= n < |d.tables|
      ensures !Unwritable(d', n)
    {
      assert !Unwritable(d, n) && Extends(d.tables[n], d'.tables[n]);
      if n > 0 {
        assert Extends(d.tables[n - 1], d'.tables[n - 1]);
      }
    }
  }

  /** Every keyword that the caller gave a value to has that value in what is read back. */
  ghost predicate KeepsValues(t: Table, t': Table) {
    forall i | 0 <= i < |t.kwords| && HasValue(t.kwords[i]) ::
      ValueIs(t'.kwords, t.kwords[i].sym.value, t.kwords[i].data.value)
  }

  /** What the caller built, written on any day, is recovered by reading. */
  lemma WriteThenRead(d: Doc, today: string)
    requires DocReadable(d) && d.tables != [] && Datable(d, today)
    ensures var d' := CompletedDoc(d, today);
            && (forall t | t in d'.tables :: RowsOk(t)) && WriteAll(d').Ok?
            && var o := ReadAll(d.others, Lex(CGATS, WriteAll(d').value, Plain));
               && o.Ok? && Recovers(d', o.value)
               && forall n | 0 <= n < |d.tables| ::
                   DataRecovered(d.tables[n], o.value.tables[n]) && KeepsValues(d.tables[n], o.value.tables[n])
  {
    var d' := CompletedDoc(d, today);
    CompletedReadable(d, today);
    RoundTrip(d');
    var r := ReadAll(d.others, Lex(CGATS, WriteAll(d').value, Plain)).value;
    forall n | 0 <= n < |d.tables|
      ensures DataRecovered(d.tables[n], r.tables[n]) && KeepsValues(d.tables[n], r.tables[n])
    {
      assert Extends(d.tables[n], d'.tables[n]) && TableRecovered(d'.tables[n], r.tables[n]);
    }
  }

  // ----- which keywords are added -----

  lemma WithKwordHas(t: Table, sym: string, data: string, s: string)
    requires s != "" && (s == sym || FindKword(t.kwords, s).Some?)
    ensures FindKword(WithKword(t, sym, data).kwords, s).Some?
  {
    var ks := WithKword(t, sym, data).kwords;
    if FindKword(t.kwords, s).Some? {
      assert Matches(ks[FindKword(t.kwords, s).value], s);
    } else if FindKword(t.kwords, sym).None? {
      assert Matches(ks[|t.kwords|], s);
    }
  }

  lemma {:induction false} WithAllHas(t: Table, syms: seq<string>, s: string)
    requires s != "" && (s in syms || FindKword(t.kwords, s).Some?)
    ensures FindKword(WithAll(t, syms).kwords, s).Some?
    decreases |syms|
  {
    if syms == [] {
    } else {
      if s == syms[0] || FindKword(t.kwords, s).Some? {
        WithKwordHas(t, syms[0], NOT_GIVEN, s);
      }
      WithAllHas(WithKword(t, syms[0], NOT_GIVEN), syms[1..], s);
    }
  }

  /** The keywords that a table of a type needs. */
  predicate Needed(tt: TableType, s: string) {
    || s == "ORIGINATOR" || s == "DESCRIPTOR" || s == "CREATED"
    || ((tt == It8_1 || tt == It8_2)
        && (s == "MANUFACTURER" || s == "PROD_DATE" || s == "SERIAL" || s == "MATERIAL"))
    || ((tt == It8_3 || tt == It8_4 || tt == Cgats5 || tt == CgatsX)
        && (s == "INSTRUMENTATION" || s == "MEASUREMENT_SOURCE" || s == "PRINT_CONDITIONS"))
  }

  /** What may be added: a keyword needed, with the date if it is for that and else without a proper value. */
  predicate AddedOk(tt: TableType, today: string, k: Kword) {
    k.sym.Some? && Needed(tt, k.sym.value)
    && k == Kword(k.sym, Some(if k.sym.value == "CREATED" then today else "Not specified"), None)
  }

  ghost predicate AddsOnly(t: Table, t': Table, tt: TableType, today: string) {
    Extends(t, t') && forall i | |t.kwords| <= i < |t'.kwords| :: AddedOk(tt, today, t'.kwords[i])
  }

  lemma AddsOne(t0: Table, t: Table, tt: TableType, today: string, sym: string, data: string)
    requires AddsOnly(t0, t, tt, today) && AddedOk(tt, today, Kword(Some(sym), Some(data), None))
    ensures AddsOnly(t0, WithKword(t, sym, data), tt, today)
  {
  }

  lemma {:induction false} AddsAll(t0: Table, t: Table, tt: TableType, today: string, syms: seq<string>)
    requires AddsOnly(t0, t, tt, today) && forall s | s in syms :: Needed(tt, s) && s != "CREATED"
    ensures AddsOnly(t0, WithAll(t, syms), tt, today)
    decreases |syms|
  {
    if syms == [] {
    } else {
      assert syms[0] in syms;
      AddsOne(t0, t, tt, today, syms[0], NOT_GIVEN);
      AddsAll(t0, WithKword(t, syms[0], NOT_GIVEN), tt, today, syms[1..]);
    }
  }

  lemma BasicHas(t: Table, today: string, s: string)
    requires s == "ORIGINATOR" || s == "DESCRIPTOR" || s == "CREATED"
    ensures FindKword(WithBasic(t, today).kwords, s).Some?
  {
    var t1 := WithKword(t, "ORIGINATOR", NOT_GIVEN);
    var t2 := WithKword(t1, "DESCRIPTOR", NOT_GIVEN);
    if s == "ORIGINATOR" {
      WithKwordHas(t, "ORIGINATOR", NOT_GIVEN, s);
    }
    if s != "CREATED" {
      WithKwordHas(t1, "DESCRIPTOR", NOT_GIVEN, s);
    }
    WithKwordHas(t2, "CREATED", today, s);
  }

  lemma BasicAdds(t: Table, today: string)
    ensures AddsOnly(t, WithBasic(t, today), t.tt, today)
  {
    var t1 := WithKword(t, "ORIGINATOR", NOT_GIVEN);
    var t2 := WithKword(t1, "DESCRIPTOR", NOT_GIVEN);
    AddsOne(t, t, t.tt, today, "ORIGINATOR", NOT_GIVEN);
    AddsOne(t, t1, t.tt, today, "DESCRIPTOR", NOT_GIVEN);
    AddsOne(t, t2, t.tt, today, "CREATED", today);
  }

  /** Unless its keywords are suppressed, a table written has all the keywords that its type needs, and no others have
      been added. */
  lemma CompletedExactly(t: Table, today: string)
    requires !t.supKwords
    ensures forall s | Needed(t.tt, s) :: FindKword(Completed(t, today).kwords, s).Some?
    ensures AddsOnly(t, Completed(t, today), t.tt, today)
  {
    var b := WithBasic(t, today);
    forall s | Needed(t.tt, s)
      ensures FindKword(Completed(t, today).kwords, s).Some?
    {
      if s == "ORIGINATOR" || s == "DESCRIPTOR" || s == "CREATED" {
        BasicHas(t, today, s);
      }
      WithAllHas(b, TypeKwords(t.tt), s);
    }
    BasicAdds(t, today);
    AddsAll(t, b, t.tt, today, TypeKwords(t.tt));
  }
}
