/** CGATS tables: keywords, fields and sets, and the operations that build them. */
module CgatsTables {
  import opened Wrappers
  import opened CellTypes
  import opened Decimal
  import Quote

  // ----- the words of the format -----

  const NUMBER_OF_FIELDS: string := "NUMBER_OF_FIELDS"
  const BEGIN_DATA_FORMAT: string := "BEGIN_DATA_FORMAT"
  const END_DATA_FORMAT: string := "END_DATA_FORMAT"
  const NUMBER_OF_SETS: string := "NUMBER_OF_SETS"
  const BEGIN_DATA: string := "BEGIN_DATA"
  const END_DATA: string := "END_DATA"
  const KEYWORD: string := "KEYWORD"

  datatype Outcome<+T> = Ok(value: T) | Fail

  datatype TableType = It8_1 | It8_2 | It8_3 | It8_4 | Cgats5 | CgatsX | Other(oi: nat) | Unnamed

  /** A keyword with its value and comment; a comment alone has neither keyword nor value. */
  datatype Kword = Kword(sym: Option<string>, data: Option<string>, com: Option<string>)

  datatype Field = Field(sym: string, ty: DataType)

  datatype Cell = IntCell(n: int) | RealCell(v: real) | TextCell(s: string)

  /** A table: raw holds the text of cells read, ndf counts those of an unfinished set, and the flags suppress
      writing. */
  datatype Table = Table(tt: TableType, kwords: seq<Kword>, fields: seq<Field>, nsets: nat, ndf: nat,
                         raw: seq<seq<string>>, data: seq<seq<Cell>>, supId: bool, supKwords: bool, supFields: bool)

  function NewTable(tt: TableType): Table {
    Table(tt, [], [], 0, 0, [], [], false, false, false)
  }

  /** Whether a string has a blank, a line end, a quote or a comment character. */
  predicate HasSpecial(s: string) {
    exists c | c in s :: c in " \r\n\t\"#"
  }

  const STANDARD_KWORDS: seq<string> := ["ORIGINATOR", "DESCRIPTOR", "CREATED", "MANUFACTURER", "PROD_DATE", "SERIAL",
                                         "MATERIAL", "INSTRUMENTATION", "MEASUREMENT_SOURCE", "PRINT_CONDITIONS"]

  predicate StandardKword(s: string) {
    s in STANDARD_KWORDS
  }

  /** The keywords that are generated automatically. */
  predicate ReservedKword(s: string) {
    s in [NUMBER_OF_FIELDS, BEGIN_DATA_FORMAT, END_DATA_FORMAT, NUMBER_OF_SETS, BEGIN_DATA, END_DATA, KEYWORD]
  }

  predicate Matches(k: Kword, sym: string) {
    k.sym == Some(sym) && k.data.Some?
  }

  /** The first keyword sym that has a value; none for the empty name. */
  function FindKword(ks: seq<Kword>, sym: string): (r: Option<nat>)
    ensures r.Some? ==>
      r.value < |ks| && Matches(ks[r.value], sym) && forall k | 0 <= k < r.value :: !Matches(ks[k], sym)
    ensures r.None? ==> sym == "" || forall k | 0 <= k < |ks| :: !Matches(ks[k], sym)
  {
    if sym == "" then None else FindFrom(ks, sym, 0)
  }

  function FindFrom(ks: seq<Kword>, sym: string, i: nat): (r: Option<nat>)
    requires i <= |ks|
    ensures r.Some? ==>
      i <= r.value < |ks| && Matches(ks[r.value], sym) && forall k | i <= k < r.value :: !Matches(ks[k], sym)
    ensures r.None? ==> forall k | i <= k < |ks| :: !Matches(ks[k], sym)
    decreases |ks| - i
  {
    if i == |ks| then None else if Matches(ks[i], sym) then Some(i) else FindFrom(ks, sym, i + 1)
  }

  predicate KwordOk(k: Kword) {
    k.sym.Some? ==> !HasSpecial(k.sym.value) && !ReservedKword(k.sym.value)
  }

  /** The keywords with one put at a place, or at the end when there is no such place. */
  function PutKword(ks: seq<Kword>, pos: int, k: Kword): seq<Kword> {
    if 0 <= pos < |ks| then ks[pos := k] else ks + [k]
  }

  function AddKwordAt(t: Table, pos: int, k: Kword): Outcome<Table> {
    if !KwordOk(k) then Fail else Ok(t.(kwords := PutKword(t.kwords, pos, k)))
  }

  /** The type under which a field is added, if its type is allowed. */
  function FieldType(sym: string, ty: DataType): Option<DataType> {
    if ty == NoType then Some(Quot)
    else
      var st := StandardField(sym);
      var ty' := if st == Bare && ty == Quot then Bare else ty;
      if st != NoType && st != ty' then None else Some(ty')
  }

  function AddField(t: Table, sym: string, ty: DataType): Outcome<Table> {
    if t.nsets != 0 || HasSpecial(sym) || FieldType(sym, ty).None? then Fail
    else Ok(t.(fields := t.fields + [Field(sym, FieldType(sym, ty).value)]))
  }

  /** The fields as they are while their types are not known. */
  function Untyped(fs: seq<Field>): (r: seq<Field>)
    ensures |r| == |fs| && forall i | 0 <= i < |fs| :: r[i] == Field(fs[i].sym, Quot)
  {
    seq(|fs|, i requires 0 <= i < |fs| => Field(fs[i].sym, Quot))
  }

  function ClearFields(t: Table): Outcome<Table> {
    if t.nsets != 0 then Fail else Ok(t.(fields := []))
  }

  /** Whether a cell can be in a column. */
  predicate CellFits(c: Cell, ty: DataType) {
    match c
    case IntCell(_) => ty == Int
    case RealCell(_) => ty == Real
    case TextCell(_) => ty == Bare || ty == Quot
  }

  predicate RowFits(row: seq<Cell>, fields: seq<Field>) {
    |row| == |fields| && forall i | 0 <= i < |row| :: CellFits(row[i], fields[i].ty)
  }

  /** A set, its cells already of the types of their fields. */
  function AddSet(t: Table, row: seq<Cell>): Outcome<Table> {
    if t.fields == [] || !RowFits(row, t.fields) then Fail
    else Ok(t.(nsets := t.nsets + 1, data := t.data + [row]))
  }

  /** A table being read: every set but an unfinished last one has a text for every field. */
  ghost predicate Filling(t: Table) {
    && t.nsets == |t.raw|
    && (t.ndf > 0 ==> t.raw != [] && t.ndf < |t.fields|)
    && forall j | 0 <= j < |t.raw| :: |t.raw[j]| == if t.ndf > 0 && j == |t.raw| - 1 then t.ndf else |t.fields|
  }

  function AddDataItem(t: Table, s: string): (r: Outcome<Table>)
    requires Filling(t)
    ensures r.Ok? ==> Filling(r.value)
  {
    if t.fields == [] then Fail
    else
      var n := |t.raw|;
      var ndf := if t.ndf + 1 >= |t.fields| then 0 else t.ndf + 1;
      if t.ndf == 0 then Ok(t.(nsets := n + 1, raw := t.raw + [[s]], ndf := ndf))
      else Ok(t.(raw := t.raw[n - 1 := t.raw[n - 1] + [s]], ndf := ndf))
  }

  // ----- settling the types of a table read -----

  function Column(raw: seq<seq<string>>, i: nat): (c: seq<string>)
    requires forall j | 0 <= j < |raw| :: i < |raw[j]|
    ensures |c| == |raw| && forall j | 0 <= j < |raw| :: c[j] == raw[j][i]
  {
    seq(|raw|, j requires 0 <= j < |raw| => raw[j][i])
  }

  /** The cell that a text becomes in a column of a type. */
  function ReadCell(ty: DataType, s: string): Cell {
    match ty
    case Real => RealCell(Atof(s))
    case Int => IntCell(Atoi(s))
    case _ => TextCell(Quote.Unquoted(s))
  }

  function ReadRow(fields: seq<Field>, row: seq<string>): (r: seq<Cell>)
    requires |row| == |fields|
    ensures |r| == |row| && forall i | 0 <= i < |row| :: r[i] == ReadCell(fields[i].ty, row[i])
  {
    seq(|row|, i requires 0 <= i < |row| => ReadCell(fields[i].ty, row[i]))
  }

  function ColumnSettled(t: Table, i: nat): DataType
    requires i < |t.fields| && forall j | 0 <= j < |t.raw| :: |t.raw[j]| == |t.fields|
  {
    Settled(StandardField(t.fields[i].sym), ColumnGuess(Column(t.raw, i)))
  }

  /** A table whose sets are complete, with the types of its columns settled and its cells converted. */
  function Convert(t: Table): Outcome<Table>
    requires Filling(t) && t.ndf == 0
  {
    if exists i | 0 <= i < |t.fields| :: ColumnSettled(t, i) == NoType then Fail
    else
      var fields := seq(|t.fields|, i requires 0 <= i < |t.fields| => Field(t.fields[i].sym, ColumnSettled(t, i)));
      Ok(t.(fields := fields, data := seq(|t.raw|, j requires 0 <= j < |t.raw| => ReadRow(fields, t.raw[j]))))
  }
}
