/** What the tables read back have in common with the tables written. */
module CgatsRecover {
  import opened Wrappers
  import opened CellTypes
  import opened Decimal
  import opened CgatsTables
  import opened CgatsWriter
  import opened CgatsLines
  import opened CgatsColumns
  import opened CgatsReader
  import opened CgatsRun
  import opened CgatsRunData

  // ----- fields and cells -----

  /** A field read back: its name, and the type that its column reads back with. */
  predicate FieldRecovered(f: Field, cells: seq<Cell>, f': Field) {
    f' == Field(f.sym, TypeBack(f, cells))
  }

  ghost predicate RowRecovered(row: seq<Cell>, row': seq<Cell>) {
    |row'| == |row| && forall i | 0 <= i < |row| :: Recovered(row[i], row'[i])
  }

  /** Every row has a cell for every field. */
  predicate Wide(t: Table) {
    forall j | 0 <= j < |t.data| :: |t.data[j]| == |t.fields|
  }

  ghost predicate DataRecovered(t: Table, t': Table) {
    && Wide(t) && |t'.fields| == |t.fields|
    && (forall i | 0 <= i < |t.fields| :: FieldRecovered(t.fields[i], CellsOf(t, i), t'.fields[i]))
    && t'.nsets == |t'.data| == |t.data| && forall j | 0 <= j < |t.data| :: RowRecovered(t.data[j], t'.data[j])
  }

  /** What the sets and fields of a table must be to be read back. */
  ghost predicate SetsReadable(t: Table) {
    && t.data != [] && t.fields != [] && RowsOk(t) && RowsReadable(t.fields, t.data)
    && (forall f | f in t.fields :: FieldReadable(f))
    && |IntText(|t.data|)| <= LONGEST && |IntText(|t.fields|)| <= LONGEST
  }

  /** A table read up to the end of its data, its types not known yet. */
  ghost predicate FilledFrom(t: Table, f: Table)
    requires SetsReadable(t)
  {
    f.fields == Untyped(t.fields) && f.nsets == |t.data| && f.ndf == 0 && f.raw == RawRows(t.fields, t.data)
  }

  function CellsOf(t: Table, i: nat): (r: seq<Cell>)
    requires Wide(t) && i < |t.fields|
    ensures |r| == |t.data| && forall j | 0 <= j < |t.data| :: r[j] == t.data[j][i]
  {
    seq(|t.data|, j requires 0 <= j < |t.data| => t.data[j][i])
  }

  lemma RowsWide(t: Table)
    requires RowsOk(t)
    ensures Wide(t)
  {
    forall j | 0 <= j < |t.data|
      ensures |t.data[j]| == |t.fields|
    {
      assert t.data[j] in t.data;
    }
  }

  lemma ColumnWords(t: Table, f: Table, i: nat)
    requires SetsReadable(t) && FilledFrom(t, f) && i < |t.fields|
    requires Wide(t)
    ensures Filling(f) && WordsOf(t.fields[i], CellsOf(t, i), Column(f.raw, i))
  {
    assert t.fields[i] in t.fields;
    forall j | 0 <= j < |t.data|
      ensures CellFits(CellsOf(t, i)[j], t.fields[i].ty)
      ensures CellReadable(t.fields[i], CellsOf(t, i)[j])
      ensures Column(f.raw, i)[j] == CellWord(t.fields[i], CellsOf(t, i)[j]).1
    {
      assert t.data[j] in t.data;
      assert CellShort(t.fields[i], t.data[j][i]);
    }
  }

  lemma SettledBack(t: Table, f: Table, i: nat)
    requires SetsReadable(t) && FilledFrom(t, f) && i < |t.fields|
    ensures Filling(f) && Wide(t)
    ensures ColumnSettled(f, i) == TypeBack(t.fields[i], CellsOf(t, i)) && ColumnSettled(f, i) != NoType
  {
    RowsWide(t);
    ColumnWords(t, f, i);
    TypeReadsBack(t.fields[i], CellsOf(t, i), Column(f.raw, i));
    assert t.fields[i] in t.fields;
  }

  /** Conversion succeeds and recovers fields and cells. */
  lemma ConvertRecovers(t: Table, f: Table)
    requires SetsReadable(t) && FilledFrom(t, f)
    ensures Filling(f) && Convert(f).Ok? && DataRecovered(t, Convert(f).value)
    ensures Convert(f).value == f.(fields := Convert(f).value.fields, data := Convert(f).value.data)
  {
    SettledBack(t, f, 0);
    forall i | 0 <= i < |f.fields|
      ensures ColumnSettled(f, i) != NoType
      ensures FieldRecovered(t.fields[i], CellsOf(t, i), Field(f.fields[i].sym, ColumnSettled(f, i)))
    {
      SettledBack(t, f, i);
    }
    var t' := Convert(f).value;
    forall j | 0 <= j < |t.data|
      ensures RowRecovered(t.data[j], t'.data[j])
    {
      assert t.data[j] in t.data;
      RowReadsBack(t.fields, t.data[j], t'.fields);
    }
  }

  /** A type in which a cell of the field still reads back. */
  predicate KeepsKind(f: Field, f': Field) {
    f'.ty == f.ty || (f.ty == Bare && f'.ty == Quot)
  }

  lemma RowReadsBack(fs: seq<Field>, row: seq<Cell>, fs': seq<Field>)
    requires RowReadable(fs, row) && |fs'| == |fs| && (forall f | f in fs :: FieldReadable(f))
    requires forall i | 0 <= i < |fs| :: KeepsKind(fs[i], fs'[i])
    ensures RowRecovered(row, ReadRow(fs', RawRow(fs, row)))
  {
    forall i | 0 <= i < |row|
      ensures Recovered(row[i], ReadRow(fs', RawRow(fs, row))[i])
    {
      assert fs[i] in fs && CellShort(fs[i], row[i]) && KeepsKind(fs[i], fs'[i]);
      CellReadsBack(fs[i], row[i], fs'[i].ty);
    }
  }

  // ----- keywords -----

  predicate HasValue(k: Kword) {
    k.sym.Some? && k.data.Some?
  }

  /** The keywords that have values, without comments. */
  function Valued(ks: seq<Kword>): seq<Kword> {
    if ks == [] then []
    else (if HasValue(ks[0]) then [ks[0].(com := None)] else []) + Valued(ks[1..])
  }

  /** No two keywords with values have the same name, and none has the empty one. */
  ghost predicate Distinct(ks: seq<Kword>) {
    && (forall i | 0 <= i < |ks| && HasValue(ks[i]) :: ks[i].sym.value != "")
    && forall i, j | 0 <= i < j < |ks| && HasValue(ks[i]) && HasValue(ks[j]) :: ks[i].sym != ks[j].sym
  }

  /** The value that a keyword has. */
  predicate ValueIs(ks: seq<Kword>, sym: string, data: string) {
    FindKword(ks, sym).Some? && ks[FindKword(ks, sym).value].data == Some(data)
  }

  lemma OverlaidHas(base: seq<Kword>, sym: string, data: string)
    requires sym != ""
    ensures ValueIs(Overlaid(base, sym, data), sym, data)
  {
    var ks := Overlaid(base, sym, data);
    var i: int := if FindKword(base, sym).Some? then FindKword(base, sym).value else |base|;
    assert Matches(ks[i], sym);
  }

  lemma OverlaidOthers(base: seq<Kword>, sym: string, data: string, other: string, v: string)
    requires sym != "" && other != sym && ValueIs(base, other, v)
    ensures ValueIs(Overlaid(base, sym, data), other, v)
  {
    var ks := Overlaid(base, sym, data);
    var i := FindKword(base, other).value;
    assert ks[i] == base[i] && Matches(ks[i], other);
    forall k | 0 <= k < i
      ensures !Matches(ks[k], other)
    {
      assert ks[k] == base[k] || ks[k].sym == Some(sym);
    }
  }

  lemma {:induction false} OverlayKeeps(base: seq<Kword>, ks: seq<Kword>, other: string, v: string)
    requires Distinct(ks) && ValueIs(base, other, v)
    requires forall i | 0 <= i < |ks| && HasValue(ks[i]) :: ks[i].sym != Some(other)
    ensures ValueIs(Overlay(base, ks), other, v)
    decreases |ks|
  {
    if ks == [] {
    } else {
      if HasValue(ks[0]) {
        OverlaidOthers(base, ks[0].sym.value, ks[0].data.value, other, v);
      }
      OverlayKeeps(OverlayOne(base, ks[0]), ks[1..], other, v);
    }
  }

  /** Every keyword written has its value afterwards. */
  lemma {:induction false} OverlayHas(base: seq<Kword>, ks: seq<Kword>, i: nat)
    requires Distinct(ks) && i < |ks| && HasValue(ks[i])
    ensures ValueIs(Overlay(base, ks), ks[i].sym.value, ks[i].data.value)
    decreases |ks|
  {
    if i == 0 {
      OverlaidHas(base, ks[0].sym.value, ks[0].data.value);
      OverlayKeeps(OverlayOne(base, ks[0]), ks[1..], ks[0].sym.value, ks[0].data.value);
    } else {
      OverlayHas(OverlayOne(base, ks[0]), ks[1..], i - 1);
    }
  }

  ghost predicate Apart(base: seq<Kword>, ks: seq<Kword>) {
    forall b, i | b in base && 0 <= i < |ks| && HasValue(ks[i]) :: b.sym != ks[i].sym
  }

  lemma ApartNext(base: seq<Kword>, ks: seq<Kword>)
    requires ks != [] && Distinct(ks) && Apart(base, ks)
    ensures Distinct(ks[1..])
    ensures Apart(if HasValue(ks[0]) then base + [ks[0].(com := None)] else base, ks[1..])
  {
  }

  lemma OverlaidNew(base: seq<Kword>, ks: seq<Kword>)
    requires ks != [] && HasValue(ks[0]) && Apart(base, ks)
    ensures OverlayOne(base, ks[0]) == base + [ks[0].(com := None)]
  {
    AbsentKword(base, ks[0].sym.value);
  }

  lemma ValuedNext(base: seq<Kword>, ks: seq<Kword>)
    requires ks != []
    ensures (if HasValue(ks[0]) then base + [ks[0].(com := None)] else base) + Valued(ks[1..]) == base + Valued(ks)
  {
  }

  lemma {:induction false} OverlayAppends(base: seq<Kword>, ks: seq<Kword>)
    requires Distinct(ks) && Apart(base, ks)
    ensures Overlay(base, ks) == base + Valued(ks)
    decreases |ks|
  {
    if ks == [] {
      assert base + [] == base;
    } else {
      ApartNext(base, ks);
      ValuedNext(base, ks);
      if HasValue(ks[0]) {
        OverlaidNew(base, ks);
      }
      OverlayAppends(OverlayOne(base, ks[0]), ks[1..]);
    }
  }

  lemma AbsentKword(base: seq<Kword>, sym: string)
    requires forall b | b in base :: b.sym != Some(sym)
    ensures FindKword(base, sym) == None
  {
    forall i | 0 <= i < |base|
      ensures !Matches(base[i], sym)
    {
      assert base[i] in base;
    }
  }

  /** A table that names its type reads back with exactly its own keywords, in order. */
  lemma OverlayFresh(ks: seq<Kword>)
    requires Distinct(ks)
    ensures Overlay([], ks) == Valued(ks)
  {
    OverlayAppends([], ks);
    assert [] + Valued(ks) == Valued(ks);
  }

  lemma {:induction false} OverlayOk(base: seq<Kword>, ks: seq<Kword>, others: seq<string>)
    requires (forall k | k in base :: KwordOk(k)) && forall k | k in ks :: KwordReadable(k, others)
    ensures forall k | k in Overlay(base, ks) :: KwordOk(k)
    decreases |ks|
  {
    if ks == [] {
    } else {
      assert ks[0] in ks;
      OverlayOk(OverlayOne(base, ks[0]), ks[1..], others);
    }
  }
}
