/** A CGATS object written and read into another one. */
module CgatsCopy {
  import opened Wrappers
  import opened Pars
  import opened Lexing
  import opened CgatsTables
  import opened CgatsWriter
  import opened CgatsReader
  import opened CgatsComplete
  import opened CgatsFile
  import opened CgatsRecover
  import opened CgatsRoundTrip

  /** Tables ts' hold what tables ts held: types, fields, sets and the value of every keyword. */
  ghost predicate Copied(ts: seq<Table>, ts': seq<Table>) {
    && |ts'| == |ts|
    && forall n | 0 <= n < |ts| :: ts'[n].tt == ts[n].tt && DataRecovered(ts[n], ts'[n]) && KeepsValues(ts[n], ts'[n])
  }

  /** The text written holds no NUL. */
  lemma WrittenNoNul(d: Doc)
    requires DocReadable(d) && (forall t | t in d.tables :: RowsOk(t)) && WriteAll(d).Ok?
    ensures NUL !in WriteAll(d).value
  {
    AllLinesOk(d, 0);
    TextNoNul(LinesFrom(d, 0));
  }

  lemma CopyIs(d: Doc, today: string)
    requires DocReadable(d) && d.tables != [] && Datable(d, today) && CompletedRows(d, today)
    ensures var w := WriteAll(CompletedDoc(d, today));
            && w.Ok? && NUL !in w.value && ReadAll(d.others, Lex(CGATS, w.value, Plain)).Ok?
            && Copied(d.tables, ReadAll(d.others, Lex(CGATS, w.value, Plain)).value.tables)
            && ReadAll(d.others, Lex(CGATS, w.value, Plain)).value.others == d.others
  {
    var d' := CompletedDoc(d, today);
    WriteThenRead(d, today);
    CompletedReadable(d, today);
    WrittenNoNul(d');
    var r := ReadAll(d.others, Lex(CGATS, WriteAll(d').value, Plain)).value;
    forall n | 0 <= n < |d.tables|
      ensures r.tables[n].tt == d.tables[n].tt
    {
      assert Extends(d.tables[n], d'.tables[n]) && TableRecovered(d'.tables[n], r.tables[n]);
    }
  }

  /** A new object that knows the same identifiers. */
  method Alike(others: seq<string>, emit: bool) returns (c: Cgats)
    ensures fresh(c) && c.others == others && c.tables == [] && c.xtype == None
  {
    c := new Cgats(emit);
    var i: nat := 0;
    while i < |others|
      invariant i <= |others| && c.others == others[..i] && c.tables == [] && c.xtype == None
    {
      assert others[..i + 1] == others[..i] + [others[i]];
      var _ := c.AddOther(others[i]);
      i := i + 1;
    }
    assert others[..i] == others;
  }

  /** Writes object c and reads the text into a new object that knows the same identifiers. */
  method Copy(c: Cgats, today: string) returns (c': Cgats, rc: int)
    requires DocReadable(c.Document()) && c.tables != [] && Datable(c.Document(), today)
    modifies c`tables
    ensures rc == 0 && fresh(c') && c'.others == c.others && Copied(old(c.tables), c'.tables)
  {
    ghost var d := c.Document();
    ReadableWritable(d);
    c' := Alike(c.others, c.emit);
    var o := c.Write(today);
    CopyIs(d, today);
    rc := c'.Read(o.value);
  }
}
