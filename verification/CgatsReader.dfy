/** The table reader: five states over the tokens of a file, with carry-over from one table to the next. */
module CgatsReader {
  import opened Wrappers
  import opened Pars
  import opened CellTypes
  import opened Decimal
  import opened CgatsTables

  datatype State = Ident | Kwords | Value | Fields | Data

  /** The reader: its state, the keyword waiting for a value, the tables done, the sets announced, and what it has
      read. */
  datatype Reader = Reader(st: State, kw: string, done: nat, expsets: int, tables: seq<Table>,
                           others: seq<string>, xtype: Option<string>)
  {
    ghost predicate Valid() {
      (st != Ident ==> tables != []) && (tables != [] ==> Filling(Last())) && done <= |tables|
    }

    function Last(): Table
      requires tables != []
    {
      tables[|tables| - 1]
    }

    /** The reader with its last table replaced, in another state. */
    function To(st': State, t: Table): Reader
      requires tables != []
    {
      this.(st := st', tables := tables[|tables| - 1 := t])
    }
  }

  function Start(others: seq<string>): Reader {
    Reader(Ident, "", 0, 0, [], others, None)
  }

  /** The length beyond which a token is refused. */
  const LONGEST: nat := 1000

  /** The first specific identifier of the user that equals s. */
  function FindOther(others: seq<string>, s: string, i: nat): (r: Option<nat>)
    requires i <= |others|
    ensures r.Some? ==>
      i <= r.value < |others| && others[r.value] == s != "" && forall k | i <= k < r.value :: others[k] != s
    ensures r.None? ==> s == "" || forall k | i <= k < |others| :: others[k] != s
    decreases |others| - i
  {
    if i == |others| then None
    else if others[i] != "" && others[i] == s then Some(i)
    else FindOther(others, s, i + 1)
  }

  function StandardIdent(s: string): Option<TableType> {
    if s == "IT8.7/1" then Some(It8_1)
    else if s == "IT8.7/2" then Some(It8_2)
    else if s == "IT8.7/3" then Some(It8_3)
    else if s == "IT8.7/4" then Some(It8_4)
    else if s == "CGATS.5" then Some(Cgats5)
    else None
  }

  predicate WildIdent(r: Reader, s: string) {
    "" in r.others && r.st == Ident && !StandardKword(s) && !ReservedKword(s)
  }

  /** The table type that a token names, and the reader with that noted. */
  function Identify(r: Reader, s: string): (Option<TableType>, Reader) {
    if StandardIdent(s).Some? then (StandardIdent(s), r)
    else if StartsWith(s, "CGATS.") then (Some(CgatsX), r.(xtype := Some(s), st := Kwords))
    else match FindOther(r.others, s, 0)
      case Some(oi) => (Some(Other(oi)), r.(st := Kwords))
      case None =>
        if WildIdent(r, s) then (Some(Other(|r.others|)), r.(others := r.others + [s], st := Kwords))
        else (None, r)
  }

  /** A new table with the keywords and the field names of the one before. */
  function Carried(prev: Table): Outcome<Table> {
    if (exists k | k in prev.kwords :: !KwordOk(k)) || (exists f | f in prev.fields :: HasSpecial(f.sym)) then Fail
    else Ok(NewTable(prev.tt).(kwords := prev.kwords, fields := Untyped(prev.fields)))
  }

  /** The tables with a new one added if the last one is done: of the type named, or carried over. */
  function Opened(r: Reader, tt: Option<TableType>): (o: Outcome<seq<Table>>)
    requires r.Valid() && (tt.None? ==> r.tables != [])
    ensures o.Ok? ==> o.value != [] && Filling(o.value[|o.value| - 1]) && r.done <= |o.value|
  {
    if |r.tables| != r.done then Ok(r.tables)
    else match tt
      case Some(t) => Ok(r.tables + [NewTable(t)])
      case None => match Carried(r.Last())
        case Fail => Fail
        case Ok(t) => Ok(r.tables + [t])
  }

  function StartFields(r: Reader): (o: Outcome<Reader>)
    requires r.Valid() && r.tables != []
    ensures o.Ok? ==> o.value.Valid() && o.value.tables != []
  {
    match ClearFields(r.Last())
    case Fail => Fail
    case Ok(t) => Ok(r.To(Fields, t))
  }

  function NewField(r: Reader, s: string): (o: Outcome<Reader>)
    requires r.Valid() && r.tables != []
    ensures o.Ok? ==> o.value.Valid()
  {
    match AddField(r.Last(), s, NoType)
    case Fail => Fail
    case Ok(t) => Ok(r.To(Fields, t))
  }

  /** A token where a file identifier or a keyword is expected, in a table that is open. */
  function HeadToken(r: Reader, s: string): (o: Outcome<Reader>)
    requires r.Valid() && r.tables != []
    ensures o.Ok? ==> o.value.Valid()
  {
    if s == BEGIN_DATA_FORMAT then StartFields(r)
    else if s == "SAMPLE_ID" then
      match StartFields(r)
      case Fail => Fail
      case Ok(r') => NewField(r', s)
    else if s == BEGIN_DATA then Ok(r.(st := Data))
    else Ok(r.(st := Value, kw := s))
  }

  function HeadStep(r: Reader, tok: Tok): (o: Outcome<Reader>)
    requires r.Valid()
    ensures o.Ok? ==> o.value.Valid()
  {
    if !tok.first then Ok(r)
    else
      var (tt, r1) := Identify(r, tok.s);
      if tt.None? && r.tables == [] then Fail
      else match Opened(r, tt)
        case Fail => Fail
        case Ok(ts) => if tt.Some? then Ok(r1.(tables := ts)) else HeadToken(r1.(tables := ts), tok.s)
  }

  function ValueStep(r: Reader, s: string): (o: Outcome<Reader>)
    requires r.Valid() && r.st == Value
    ensures o.Ok? ==> o.value.Valid()
  {
    var r1 := r.(kw := "", expsets := if r.kw == NUMBER_OF_SETS then Atoi(s) else r.expsets);
    if ReservedKword(r.kw) then Ok(r1.(st := Kwords))
    else
      var pos: int := match FindKword(r.Last().kwords, r.kw) case Some(i) => i case None => -1;
      match AddKwordAt(r.Last(), pos, Kword(Some(r.kw), Some(Quote.Unquoted(s)), None))
      case Fail => Fail
      case Ok(t) => Ok(r1.To(Kwords, t))
  }

  function FieldStep(r: Reader, s: string): (o: Outcome<Reader>)
    requires r.Valid() && r.st == Fields
    ensures o.Ok? ==> o.value.Valid()
  {
    if s == END_DATA_FORMAT then Ok(r.(st := Kwords))
    else if s == BEGIN_DATA then Ok(r.(st := Data))
    else if s == "DEVICE_NAME" then Ok(r.(st := Value, kw := s))
    else NewField(r, s)
  }

  function DataStep(r: Reader, s: string): (o: Outcome<Reader>)
    requires r.Valid() && r.st == Data
    ensures o.Ok? ==> o.value.Valid()
  {
    var t := r.Last();
    if s == END_DATA then
      if (r.expsets != 0 && t.nsets != r.expsets) || t.ndf != 0 then Fail
      else match Convert(t)
        case Fail => Fail
        case Ok(t') => Ok(r.To(Ident, t').(done := |r.tables|))
    else match AddDataItem(t, s)
      case Fail => Fail
      case Ok(t') => Ok(r.To(Data, t'))
  }

  /** What one token does. */
  function Step(r: Reader, tok: Tok): (o: Outcome<Reader>)
    requires r.Valid()
    ensures o.Ok? ==> o.value.Valid()
  {
    if |tok.s| > LONGEST then Fail
    else match r.st
      case Ident => HeadStep(r, tok)
      case Kwords => HeadStep(r, tok)
      case Value => ValueStep(r, tok.s)
      case Fields => FieldStep(r, tok.s)
      case Data => DataStep(r, tok.s)
  }

  function Run(r: Reader, toks: seq<Tok>): (o: Outcome<Reader>)
    requires r.Valid()
    ensures o.Ok? ==> o.value.Valid()
    decreases |toks|
  {
    if toks == [] then Ok(r)
    else match Step(r, toks[0])
      case Fail => Fail
      case Ok(r') => Run(r', toks[1..])
  }

  lemma {:induction false} RunJoin(r: Reader, a: seq<Tok>, b: seq<Tok>)
    requires r.Valid()
    ensures Run(r, a + b) == match Run(r, a) { case Fail => Fail case Ok(r') => Run(r', b) }
    decreases |a|
  {
    if a == [] {
      assert a + b == b;
    } else {
      assert (a + b)[1..] == a[1..] + b;
      match Step(r, a[0])
      case Fail =>
      case Ok(r') => RunJoin(r', a[1..], b);
    }
  }

  /** Reading a whole file: it must hold a table. */
  function ReadAll(others: seq<string>, toks: seq<Tok>): Outcome<Reader> {
    match Run(Start(others), toks)
    case Fail => Fail
    case Ok(r) => if r.tables == [] then Fail else Ok(r)
  }
}
