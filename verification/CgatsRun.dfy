/** What the reader does with the lines of one written table. */
module CgatsRun {
  import opened Wrappers
  import opened Pars
  import opened Lexing
  import opened CellTypes
  import opened Decimal
  import opened CgatsTables
  import opened CgatsWriter
  import opened CgatsLines
  import opened CgatsReader
  import opened Quote

  /** A word that can start a line of a table's head without being taken for a file identifier. */
  ghost predicate HeadWord(s: string, others: seq<string>) {
    && s != "" && !HasSpecial(s) && NUL !in s
    && StandardIdent(s).None? && !StartsWith(s, "CGATS.") && s !in others && "" !in others
  }

  /** Reader r is in the head of a table, where x is: r may still have to open that table as a copy of the one
      before. */
  ghost predicate AtHead(r: Reader, x: Reader) {
    && r.Valid() && x.Valid() && x.st == Kwords && x.kw == "" && |x.tables| == x.done + 1
    && (r.st == Ident || r.st == Kwords)
    && (r.(st := Kwords) == x || Lagging(r, x))
  }

  ghost predicate Lagging(r: Reader, x: Reader) {
    && r.st == Ident && r.tables != [] && |r.tables| == r.done && Carried(r.Last()).Ok?
    && r.(st := Kwords, tables := r.tables + [Carried(r.Last()).value]) == x
  }

  lemma NotOther(others: seq<string>, s: string, i: nat)
    requires i <= |others| && s !in others
    ensures FindOther(others, s, i) == None
    decreases |others| - i
  {
    if i < |others| {
      assert others[i] in others;
      NotOther(others, s, i + 1);
    }
  }

  /** A head word is no identifier; what it does is what it does in the open table. */
  lemma HeadAt(r: Reader, x: Reader, s: string)
    requires AtHead(r, x) && HeadWord(s, r.others) && |s| <= LONGEST
    ensures Step(r, Tok(s, true)) == HeadToken(x, s)
  {
    NotOther(r.others, s, 0);
    assert Identify(r, s) == (None, r);
    if Lagging(r, x) {
      assert Opened(r, None) == Ok(x.tables);
    } else {
      assert Opened(r, None) == Ok(x.tables);
    }
    HeadTokenAnyState(r.(tables := x.tables), x, s);
  }

  lemma HeadTokenAnyState(r: Reader, x: Reader, s: string)
    requires r.Valid() && x.Valid() && r.tables != [] && r.(st := Kwords) == x
    ensures HeadToken(r, s) == HeadToken(x, s)
  {
    var f := ClearFields(x.Last());
    if f.Ok? {
      assert r.To(Fields, f.value) == x.To(Fields, f.value);
    }
  }

  lemma RunOne(r: Reader, t: Tok)
    requires r.Valid()
    ensures Run(r, [t]) == Step(r, t)
  {
    if Step(r, t).Ok? {
      assert [t][1..] == [];
    }
  }

  lemma RunTwo(r: Reader, t: Tok, u: Tok)
    requires r.Valid() && Step(r, t).Ok?
    ensures Run(r, [t, u]) == Step(Step(r, t).value, u)
  {
    assert [t, u] == [t] + [u];
    RunJoin(r, [t], [u]);
    RunOne(r, t);
    RunOne(Step(r, t).value, u);
  }

  // ----- keywords -----

  function Overlaid(ks: seq<Kword>, sym: string, data: string): seq<Kword> {
    var pos: int := match FindKword(ks, sym) case Some(i) => i case None => -1;
    PutKword(ks, pos, Kword(Some(sym), Some(data), None))
  }

  predicate HeadKword(s: string) {
    s != BEGIN_DATA_FORMAT && s != "SAMPLE_ID" && s != BEGIN_DATA
  }

  /** The reader after a keyword and its value. */
  function AfterKword(x: Reader, s: string, q: string): Reader
    requires x.tables != []
  {
    if ReservedKword(s) then x.(expsets := if s == NUMBER_OF_SETS then Atoi(q) else x.expsets)
    else x.To(Kwords, x.Last().(kwords := Overlaid(x.Last().kwords, s, Unquoted(q))))
  }

  lemma KwordHead(r: Reader, x: Reader, s: string)
    requires AtHead(r, x) && HeadWord(s, r.others) && HeadKword(s) && |s| <= LONGEST
    ensures Step(r, Tok(s, true)) == Ok(x.(st := Value, kw := s))
  {
    HeadAt(r, x, s);
  }

  lemma KwordValue(x: Reader, s: string, q: string)
    requires x.Valid() && x.st == Kwords && x.kw == "" && |x.tables| == x.done + 1
    requires s != "" && !HasSpecial(s) && NUL !in s && |q| <= LONGEST
    ensures ValueStep(x.(st := Value, kw := s), q) == Ok(AfterKword(x, s, q))
    ensures AtHead(AfterKword(x, s, q), AfterKword(x, s, q))
  {
    if !ReservedKword(s) {
      var k := Kword(Some(s), Some(Unquoted(q)), None);
      assert KwordOk(k);
    }
  }

  lemma KwordRun(r: Reader, x: Reader, s: string, q: string)
    requires AtHead(r, x) && HeadWord(s, r.others) && HeadKword(s) && |s| <= LONGEST && |q| <= LONGEST
    ensures Run(r, Marked([s, q])) == Ok(AfterKword(x, s, q)) && AtHead(AfterKword(x, s, q), AfterKword(x, s, q))
  {
    KwordHead(r, x, s);
    KwordValue(x, s, q);
    assert Marked([s, q]) == [Tok(s, true), Tok(q, false)];
    RunTwo(r, Tok(s, true), Tok(q, false));
  }

  /** A word of capitals and underlines is no identifier: those all have a point. */
  lemma CapitalsHead(s: string, others: seq<string>)
    requires s != "" && "" !in others && s !in others
    requires forall i | 0 <= i < |s| :: 'A' <= s[i] <= 'Z' || s[i] == '_'
    ensures HeadWord(s, others)
  {
    assert |s| > 2 ==> 'A' <= s[2] <= 'Z' || s[2] == '_';
    if StartsWith(s, "CGATS.") {
      StartsAt(s, "CGATS.", 5);
    }
  }

  lemma StartsAt(s: string, p: string, i: nat)
    requires StartsWith(s, p) && i < |p|
    ensures i < |s| && s[i] == p[i]
  {
    assert s[i] == s[..|p|][i];
  }

  lemma ReservedHead(s: string, others: seq<string>)
    requires "" !in others && ReservedKword(s) && s !in others
    ensures HeadWord(s, others) && |s| <= 20
  {
    CapitalsHead(s, others);
  }

  // ----- lines of keywords -----

  lemma WordsOne(l: TextLine)
    ensures Words([l]) == Marked(TokensOf(CGATS, l.w))
  {
    assert [l][1..] == [];
  }

  /** The user's identifiers: none is a wildcard or a reserved word. */
  ghost predicate OthersOk(others: seq<string>) {
    "" !in others && forall s | s in others :: !ReservedKword(s)
  }

  ghost predicate KwordReadable(k: Kword, others: seq<string>) {
    && (k.sym.Some? && k.data.Some? ==>
          && HeadWord(k.sym.value, others) && k.sym.value != "SAMPLE_ID" && !ReservedKword(k.sym.value)
          && NUL !in k.data.value && |Quoted(k.data.value)| <= LONGEST && |Quoted(k.sym.value)| <= LONGEST)
    && (k.com.Some? ==> CommentText(k.com.value))
  }

  /** The line of a generated keyword and its value. */
  lemma KwordLine(s: string, q: string, tail: string, com: Option<string>)
    requires GoodWord(s) && GoodWord(q) && AllBlank(tail) && (com.Some? ==> CommentText(com.value))
    ensures var l := TextLine(s + (" " + (q + tail)), com); LineOk(l) && Words([l]) == Marked([s, q])
  {
    TwoWords(s, q, tail);
    WordsOne(TextLine(s + (" " + (q + tail)), com));
  }

  lemma DeclareLineOk(sym: string, emit: bool)
    requires NUL !in sym
    ensures Words(DeclareLines(sym, emit)) == (if emit then Marked([KEYWORD, Quoted(sym)]) else [])
    ensures AllOk(DeclareLines(sym, emit))
  {
    if emit {
      QuotedGood(sym);
      PlainGood(KEYWORD);
      KwordLine(KEYWORD, Quoted(sym), "", None);
      assert Quoted(sym) + "" == Quoted(sym);
    }
  }

  /** Running the lines of two parts is running one after the other. */
  lemma RunLines(r: Reader, ls: seq<TextLine>, ms: seq<TextLine>)
    requires r.Valid()
    ensures Run(r, Words(ls + ms)) == match Run(r, Words(ls)) { case Fail => Fail case Ok(r') => Run(r', Words(ms)) }
  {
    WordsJoin(ls, ms);
    RunJoin(r, Words(ls), Words(ms));
  }

  lemma {:induction false} QuotedLonger(s: string)
    ensures |Doubled(s)| >= |s|
  {
    if s == [] {
    } else {
      QuotedLonger(s[1..]);
    }
  }

  lemma DeclareRun(r: Reader, x: Reader, sym: string, emit: bool)
    requires AtHead(r, x) && OthersOk(r.others) && NUL !in sym && |Quoted(sym)| <= LONGEST
    ensures var o := Run(r, Words(DeclareLines(sym, emit))); o.Ok? && AtHead(o.value, x)
  {
    DeclareLineOk(sym, emit);
    if emit {
      ReservedHead(KEYWORD, r.others);
      KwordRun(r, x, KEYWORD, Quoted(sym));
    }
  }

  function OverlayOne(ks: seq<Kword>, k: Kword): seq<Kword> {
    if k.sym.Some? && k.data.Some? then Overlaid(ks, k.sym.value, k.data.value) else ks
  }

  /** Keywords replaced or added one after the other. */
  function Overlay(base: seq<Kword>, ks: seq<Kword>): seq<Kword>
    decreases |ks|
  {
    if ks == [] then base else Overlay(OverlayOne(base, ks[0]), ks[1..])
  }

  /** The reader in the head of a table with other keywords. */
  function WithKwords(x: Reader, ks: seq<Kword>): Reader
    requires x.tables != []
  {
    x.To(Kwords, x.Last().(kwords := ks))
  }

  /** The last line of a keyword: itself and its value, or only a comment. */
  function LastLine(k: Kword): seq<TextLine> {
    KwordLines(Kword(k.sym, k.data, k.com), false)
  }

  lemma KwordLinesParts(k: Kword, emit: bool)
    requires k.sym.Some? && k.data.Some?
    ensures KwordLines(k, emit) == DeclareLines(k.sym.value, emit && !StandardKword(k.sym.value)) + LastLine(k)
  {
  }

  lemma CommentLineOk(k: Kword)
    requires !(k.sym.Some? && k.data.Some?) && (k.com.Some? ==> CommentText(k.com.value))
    ensures AllOk(LastLine(k))
    ensures Words(LastLine(k)) == []
  {
    if k.com.Some? {
      BlankLine("");
      WordsOne(TextLine("", Some(" " + k.com.value)));
    }
  }

  lemma LastLineOk(k: Kword)
    requires k.sym.Some? && k.data.Some? && GoodWord(k.sym.value) && GoodWord(Quoted(k.data.value))
    requires k.com.Some? ==> CommentText(k.com.value)
    ensures AllOk(LastLine(k))
    ensures Words(LastLine(k)) == Marked([k.sym.value, Quoted(k.data.value)])
  {
    var com := if k.com.Some? then Some(" " + k.com.value) else None;
    KwordLine(k.sym.value, Quoted(k.data.value), if com.Some? then "\t" else "", com);
  }

  lemma KwordLinesOk(k: Kword, emit: bool, others: seq<string>)
    requires KwordReadable(k, others)
    ensures AllOk(KwordLines(k, emit))
  {
    if k.sym.Some? && k.data.Some? {
      PlainGood(k.sym.value);
      QuotedGood(k.data.value);
      LastLineOk(k);
      DeclareLineOk(k.sym.value, emit && !StandardKword(k.sym.value));
      KwordLinesParts(k, emit);
    } else {
      CommentLineOk(k);
    }
  }

  lemma ValueLineRun(r: Reader, x: Reader, k: Kword)
    requires AtHead(r, x) && OthersOk(r.others) && KwordReadable(k, r.others) && k.sym.Some? && k.data.Some?
    ensures Run(r, Words(LastLine(k))) == Ok(WithKwords(x, OverlayOne(x.Last().kwords, k)))
    ensures AtHead(WithKwords(x, OverlayOne(x.Last().kwords, k)), WithKwords(x, OverlayOne(x.Last().kwords, k)))
  {
    PlainGood(k.sym.value);
    QuotedGood(k.data.value);
    QuotedLonger(k.sym.value);
    KwordRun(r, x, k.sym.value, Quoted(k.data.value));
    LastLineOk(k);
    UnquotedQuoted(k.data.value);
  }

  lemma KwordLinesRun(r: Reader, x: Reader, k: Kword, emit: bool)
    requires AtHead(r, x) && OthersOk(r.others) && KwordReadable(k, r.others)
    ensures var o := Run(r, Words(KwordLines(k, emit)));
            o.Ok? && AtHead(o.value, WithKwords(x, OverlayOne(x.Last().kwords, k)))
  {
    if k.sym.Some? && k.data.Some? {
      var e := emit && !StandardKword(k.sym.value);
      DeclareRun(r, x, k.sym.value, e);
      var r1 := Run(r, Words(DeclareLines(k.sym.value, e))).value;
      ValueLineRun(r1, x, k);
      KwordLinesParts(k, emit);
      RunLines(r, DeclareLines(k.sym.value, e), LastLine(k));
    } else {
      CommentLineOk(k);
      assert x.tables[|x.tables| - 1 := x.Last()] == x.tables;
    }
  }

  lemma {:induction false} AllKwordLinesOk(ks: seq<Kword>, emit: bool, others: seq<string>)
    requires forall k | k in ks :: KwordReadable(k, others)
    ensures AllOk(AllKwordLines(ks, emit))
    decreases |ks|
  {
    if ks == [] {
    } else {
      assert ks[0] in ks;
      KwordLinesOk(ks[0], emit, others);
      AllKwordLinesOk(ks[1..], emit, others);
    }
  }

  lemma {:induction false} AllKwordsRun(r: Reader, x: Reader, ks: seq<Kword>, emit: bool)
    requires AtHead(r, x) && OthersOk(r.others) && forall k | k in ks :: KwordReadable(k, r.others)
    ensures var o := Run(r, Words(AllKwordLines(ks, emit)));
            o.Ok? && AtHead(o.value, WithKwords(x, Overlay(x.Last().kwords, ks)))
    decreases |ks|
  {
    if ks == [] {
      assert x.tables[|x.tables| - 1 := x.Last()] == x.tables;
    } else {
      assert ks[0] in ks;
      KwordLinesRun(r, x, ks[0], emit);
      var r1 := Run(r, Words(KwordLines(ks[0], emit))).value;
      var x1 := WithKwords(x, OverlayOne(x.Last().kwords, ks[0]));
      AllKwordsRun(r1, x1, ks[1..], emit);
      RunLines(r, KwordLines(ks[0], emit), AllKwordLines(ks[1..], emit));
      TwiceKwords(x, OverlayOne(x.Last().kwords, ks[0]), Overlay(x.Last().kwords, ks));
    }
  }

  lemma TwiceKwords(x: Reader, a: seq<Kword>, b: seq<Kword>)
    requires x.tables != []
    ensures WithKwords(WithKwords(x, a), b) == WithKwords(x, b)
  {
  }
}
