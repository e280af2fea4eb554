/** The text that tables are written as, line by line. */
module CgatsWriter {
  import opened Wrappers
  import opened Lexing
  import opened CellTypes
  import opened Decimal
  import opened CgatsTables
  import opened Quote

  /** What is written: the tables, the identifiers of the user, the variable CGATS type, and whether keywords are
      declared. */
  datatype Doc = Doc(tables: seq<Table>, others: seq<string>, xtype: Option<string>, emit: bool)

  // ----- keywords that every table gets -----

  const NOT_GIVEN: string := "Not specified"

  function WithKword(t: Table, sym: string, data: string): Table {
    if FindKword(t.kwords, sym).Some? then t
    else t.(kwords := t.kwords + [Kword(Some(sym), Some(data), None)])
  }

  /** The keywords that a type of table needs besides the basic ones. */
  function TypeKwords(tt: TableType): seq<string> {
    match tt
    case It8_1 => ["MANUFACTURER", "PROD_DATE", "SERIAL", "MATERIAL"]
    case It8_2 => ["MANUFACTURER", "PROD_DATE", "SERIAL", "MATERIAL"]
    case It8_3 => ["INSTRUMENTATION", "MEASUREMENT_SOURCE", "PRINT_CONDITIONS"]
    case It8_4 => ["INSTRUMENTATION", "MEASUREMENT_SOURCE", "PRINT_CONDITIONS"]
    case Cgats5 => ["INSTRUMENTATION", "MEASUREMENT_SOURCE", "PRINT_CONDITIONS"]
    case CgatsX => ["INSTRUMENTATION", "MEASUREMENT_SOURCE", "PRINT_CONDITIONS"]
    case Other(_) => []
    case Unnamed => []
  }

  function WithAll(t: Table, syms: seq<string>): Table
    decreases |syms|
  {
    if syms == [] then t else WithAll(WithKword(t, syms[0], NOT_GIVEN), syms[1..])
  }

  /** The table with the keywords that every table needs. */
  function WithBasic(t: Table, today: string): Table {
    WithKword(WithKword(WithKword(t, "ORIGINATOR", NOT_GIVEN), "DESCRIPTOR", NOT_GIVEN), "CREATED", today)
  }

  /** The table with the keywords it lacks, unless they are suppressed. */
  function Completed(t: Table, today: string): Table {
    if t.supKwords then t else WithAll(WithBasic(t, today), TypeKwords(t.tt))
  }

  // ----- lines -----

  function Bare1(w: string): TextLine {
    TextLine(w, None)
  }

  /** The identifier of a table type; a variable type needs one to be set. */
  function IdText(tt: TableType, others: seq<string>, xtype: Option<string>): Option<string> {
    match tt
    case It8_1 => Some("IT8.7/1")
    case It8_2 => Some("IT8.7/2")
    case It8_3 => Some("IT8.7/3")
    case It8_4 => Some("IT8.7/4")
    case Cgats5 => Some("CGATS.5")
    case CgatsX => xtype
    case Other(oi) => if oi < |others| then Some(others[oi]) else None
    case Unnamed => None
  }

  function IdLines(t: Table, d: Doc): seq<TextLine> {
    if t.supId then [Bare1(""), Bare1("")]
    else match IdText(t.tt, d.others, d.xtype)
      case Some(s) => [Bare1(s + Blanks(7 - |s|)), Bare1("")]
      case None => []
  }

  function DeclareLines(sym: string, emit: bool): seq<TextLine> {
    if emit then [Bare1(KEYWORD + (" " + Quoted(sym)))] else []
  }

  function KwordLines(k: Kword, emit: bool): seq<TextLine> {
    var com := if k.com.Some? then Some(" " + k.com.value) else None;
    if k.sym.Some? && k.data.Some? then
      DeclareLines(k.sym.value, emit && !StandardKword(k.sym.value))
      + [TextLine(k.sym.value + (" " + (Quoted(k.data.value) + if com.Some? then "\t" else "")), com)]
    else if com.Some? then [TextLine("", com)]
    else []
  }

  function AllKwordLines(ks: seq<Kword>, emit: bool): seq<TextLine> {
    if ks == [] then [] else KwordLines(ks[0], emit) + AllKwordLines(ks[1..], emit)
  }

  function DeclareFields(fs: seq<Field>, emit: bool): seq<TextLine> {
    if fs == [] then []
    else DeclareLines(fs[0].sym, emit && StandardField(fs[0].sym) == NoType) + DeclareFields(fs[1..], emit)
  }

  /** Words of a line with the blanks before each, and one after each. */
  function Spaced(ws: seq<(string, string)>): string {
    if ws == [] then "" else ws[0].0 + (ws[0].1 + (" " + Spaced(ws[1..])))
  }

  function FieldWords(fs: seq<Field>): (r: seq<(string, string)>)
    ensures |r| == |fs| && forall i | 0 <= i < |fs| :: r[i] == ("", fs[i].sym)
  {
    seq(|fs|, i requires 0 <= i < |fs| => ("", fs[i].sym))
  }

  function CountLine(s: string, n: nat): TextLine {
    Bare1(s + (" " + IntText(n)))
  }

  function FormatLines(fs: seq<Field>): seq<TextLine> {
    [Bare1(BEGIN_DATA_FORMAT)] + ([Bare1(Spaced(FieldWords(fs)))] + [Bare1(END_DATA_FORMAT)])
  }

  function FieldLines(t: Table, emit: bool): seq<TextLine> {
    if t.supFields then []
    else [Bare1("")] + (DeclareFields(t.fields,
      emit) + ([CountLine(NUMBER_OF_FIELDS, |t.fields|)] + FormatLines(t.fields)))
  }

  /** Whether a string goes without quotes: in a field for that, if nothing in it is special and it is no number. */
  predicate Unquotable(f: Field, s: string) {
    f.ty == Bare && !HasSpecial(s) && (StandardField(f.sym) != NoType || (Guess(s) != Int && Guess(s) != Real))
  }

  /** A cell as it is written, and the blanks before it that pad a real. */
  function CellWord(f: Field, c: Cell): (string, string)
    requires CellFits(c, f.ty)
  {
    match c
    case RealCell(v) =>
      var fmt := FormatFor(v, REAL_SIGDIG);
      (Padding(v, fmt), CellText(v))
    case IntCell(n) => ("", IntText(n))
    case TextCell(s) => ("", if Unquotable(f, s) then s else Quoted(s))
  }

  function RowWords(fs: seq<Field>, row: seq<Cell>): (r: seq<(string, string)>)
    requires RowFits(row, fs)
    ensures |r| == |row| && forall i | 0 <= i < |row| :: r[i] == CellWord(fs[i], row[i])
  {
    seq(|row|, i requires 0 <= i < |row| => CellWord(fs[i], row[i]))
  }

  ghost predicate RowsOk(t: Table) {
    t.nsets == |t.data| && forall row | row in t.data :: RowFits(row, t.fields)
  }

  function RowLines(fs: seq<Field>, rows: seq<seq<Cell>>): seq<TextLine>
    requires forall row | row in rows :: RowFits(row, fs)
  {
    if rows == [] then []
    else
      assert rows[0] in rows;
      [Bare1(Spaced(RowWords(fs, rows[0])))] + RowLines(fs, rows[1..])
  }

  function DataLines(t: Table): seq<TextLine>
    requires RowsOk(t)
  {
    [Bare1("")] + ([CountLine(NUMBER_OF_SETS, |t.data|)]
      + ([Bare1(BEGIN_DATA)] + (RowLines(t.fields, t.data) + [Bare1(END_DATA)])))
  }

  function TableLines(t: Table, d: Doc): seq<TextLine>
    requires RowsOk(t)
  {
    IdLines(t, d) + (AllKwordLines(t.kwords, d.emit) + (FieldLines(t, d.emit) + DataLines(t)))
  }

  /** Whether table n cannot be written: what it suppresses must agree with the table before. */
  predicate Unwritable(d: Doc, n: nat)
    requires n < |d.tables|
  {
    var t := d.tables[n];
    || (t.supId && (n == 0 || t.tt != d.tables[n - 1].tt))
    || (!t.supId && t.tt == CgatsX && d.xtype.None?)
    || (t.supFields && (n == 0 || t.fields != d.tables[n - 1].fields))
  }

  function LinesFrom(d: Doc, n: nat): seq<TextLine>
    requires n <= |d.tables| && forall t | t in d.tables :: RowsOk(t)
    decreases |d.tables| - n
  {
    if n == |d.tables| then [] else TableLines(d.tables[n], d) + LinesFrom(d, n + 1)
  }

  /** The text of a file, or a failure. */
  function WriteAll(d: Doc): Outcome<string>
    requires forall t | t in d.tables :: RowsOk(t)
  {
    if exists n | 0 <= n < |d.tables| :: Unwritable(d, n) then Fail else Ok(Text(LinesFrom(d, 0)))
  }
}
