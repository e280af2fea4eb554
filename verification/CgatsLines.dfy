/** Every line of a written file is calm, and its tokens are the words that were written. */
module CgatsLines {
  import opened PowersOfTen
  import opened Pars
  import opened Lexing
  import opened CellTypes
  import opened Decimal
  import opened CgatsTables
  import opened CgatsWriter
  import opened Quote

  ghost predicate GoodWord(w: string) {
    Solid(w, false) && w != ""
  }

  predicate AllBlank(s: string) {
    forall c | c in s :: Blank(c)
  }

  lemma BlankLine(s: string)
    requires AllBlank(s)
    ensures TokensOf(CGATS, s) == [] && Calm(s, false)
  {
    BlanksSkipped(s, []);
    assert s + [] == s;
    BlanksCalm(s);
  }

  lemma OneWord(w: string, tail: string)
    requires GoodWord(w) && AllBlank(tail)
    ensures TokensOf(CGATS, w + tail) == [w] && Calm(w + tail, false)
  {
    WordFirst(w, tail);
    BlankLine(tail);
    SolidCalm(w, false);
    CalmJoin(w, tail, false);
  }

  lemma SpaceThen(s: string)
    requires Calm(s, false)
    ensures TokensOf(CGATS, " " + s) == TokensOf(CGATS, s) && Calm(" " + s, false)
  {
    BlankSkipped(' ', s);
    BlanksCalm(" ");
    CalmJoin(" ", s, false);
  }

  lemma TwoWords(a: string, b: string, tail: string)
    requires GoodWord(a) && GoodWord(b) && AllBlank(tail)
    ensures TokensOf(CGATS, a + (" " + (b + tail))) == [a, b] && Calm(a + (" " + (b + tail)), false)
  {
    OneWord(b, tail);
    SpaceThen(b + tail);
    WordFirst(a, " " + (b + tail));
    SolidCalm(a, false);
    CalmJoin(a, " " + (b + tail), false);
  }

  ghost predicate GoodSpaced(ws: seq<(string, string)>) {
    forall i | 0 <= i < |ws| :: AllBlank(ws[i].0) && GoodWord(ws[i].1)
  }

  function Seconds(ws: seq<(string, string)>): (r: seq<string>)
    ensures |r| == |ws| && forall i | 0 <= i < |ws| :: r[i] == ws[i].1
  {
    seq(|ws|, i requires 0 <= i < |ws| => ws[i].1)
  }

  lemma {:induction false} SpacedWords(ws: seq<(string, string)>)
    requires GoodSpaced(ws)
    ensures TokensOf(CGATS, Spaced(ws)) == Seconds(ws) && Calm(Spaced(ws), false)
  {
    if ws == [] {
      BlankLine("");
    } else {
      SpacedWords(ws[1..]);
      SpacedStep(ws[0].0, ws[0].1, Spaced(ws[1..]));
      assert Seconds(ws) == [ws[0].1] + Seconds(ws[1..]);
    }
  }

  lemma SpacedStep(pad: string, w: string, more: string)
    requires AllBlank(pad) && GoodWord(w) && Calm(more, false)
    ensures TokensOf(CGATS, pad + (w + (" " + more))) == [w] + TokensOf(CGATS, more)
    ensures Calm(pad + (w + (" " + more)), false)
  {
    SpaceThen(more);
    WordFirst(w, " " + more);
    SolidCalm(w, false);
    CalmJoin(w, " " + more, false);
    BlanksSkipped(pad, w + (" " + more));
    BlanksCalm(pad);
    CalmJoin(pad, w + (" " + more), false);
  }

  // ----- the words -----

  lemma PlainGood(w: string)
    requires !HasSpecial(w) && NUL !in w && w != ""
    ensures GoodWord(w)
  {
    PlainSolid(w);
  }

  lemma QuotedGood(s: string)
    requires NUL !in s
    ensures GoodWord(Quoted(s))
  {
    QuotedSolid(s);
  }

  lemma DigitsPlain(s: string)
    requires forall c | c in s :: Digit(c) || c in "+-.e"
    ensures !HasSpecial(s) && NUL !in s
  {
  }

  lemma IntGood(n: int)
    ensures GoodWord(IntText(n))
  {
    var d := Digits(if n < 0 then -n else n);
    assert IntText(n) == "-" + d || IntText(n) == d;
    DigitsPlain(IntText(n));
    PlainGood(IntText(n));
  }

  lemma PointedPlain(n: nat, p: nat)
    ensures forall c | c in Pointed(n, p) :: Digit(c) || c in "+-.e"
  {
  }

  lemma RealGood(v: real)
    ensures GoodWord(CellText(v))
  {
    CellTextIs(v);
    forall c | c in CellText(v)
      ensures Digit(c) || c in "+-.e"
    {
      if v == 0.0 {
        FixedPlain(0.0, 5, c);
      } else if FormatFor(v, REAL_SIGDIG).FixedFmt? {
        FixedPlain(v, REAL_SIGDIG - LogTrunc(Abs(v)), c);
      } else if FormatFor(v, REAL_SIGDIG).SciFmt? {
        SciPlain(v, 5, c);
      } else {
        GeneralPlain(v, c);
      }
    }
    DigitsPlain(CellText(v));
    RealLooksReal(v, CellText(v));
    PlainGood(CellText(v));
  }

  lemma FixedPlain(v: real, p: nat, c: char)
    requires c in Fixed(v, p)
    ensures Digit(c) || c in "+-.e"
  {
    PointedPlain(NearestNat(Shift(Abs(v), p)), p);
  }

  lemma SciPlain(v: real, p: nat, c: char)
    requires v != 0.0 && c in Sci(v, p)
    ensures Digit(c) || c in "+-.e"
  {
    PointedPlain(Scientific(Abs(v), p).0, p);
    ExpPlain(Scientific(Abs(v), p).1);
  }

  lemma GeneralPlain(v: real, c: char)
    requires v != 0.0 && c in General(v)
    ensures Digit(c) || c in "+-.e"
  {
    var s := Scientific(Abs(v), 5);
    PointedPlain(Trimmed(s.0, 5).0, Trimmed(s.0, 5).1);
    ExpPlain(s.1);
  }

  lemma ExpPlain(x: int)
    ensures forall c | c in ExpPart(x) :: Digit(c) || c in "+-.e"
  {
  }

  /** A cell whose text is a word of a line. */
  ghost predicate CellReadable(f: Field, c: Cell)
    requires CellFits(c, f.ty)
  {
    c.TextCell? ==> NUL !in c.s && (Unquotable(f, c.s) ==> c.s != "" && c.s != END_DATA)
  }

  lemma EndNoReal(s: string)
    requires s == END_DATA
    ensures Guess(s) == Bare
  {
    assert s[0] == 'E' && s[1..][0] == 'N';
  }

  lemma RealCellGood(v: real)
    ensures GoodWord(CellText(v)) && CellText(v) != END_DATA
  {
    RealGood(v);
    RealLooksReal(v, CellText(v));
    EndNoReal(END_DATA);
  }

  lemma IntCellGood(n: int)
    ensures GoodWord(IntText(n)) && IntText(n) != END_DATA
  {
    IntGood(n);
    assert IntText(n)[|IntText(n)| - 1] in Digits(if n < 0 then -n else n);
  }

  lemma CellGood(f: Field, c: Cell)
    requires CellFits(c, f.ty) && CellReadable(f, c)
    ensures AllBlank(CellWord(f, c).0) && GoodWord(CellWord(f, c).1) && CellWord(f, c).1 != END_DATA
  {
    match c
    case RealCell(v) => RealCellGood(v);
    case IntCell(n) => IntCellGood(n);
    case TextCell(s) =>
      if Unquotable(f, s) {
        PlainGood(s);
      } else {
        QuotedGood(s);
      }
  }
}
