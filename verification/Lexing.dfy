/** How CGATS text reads back: lines of blank separated words, quoted where they must be, with comments at their
    ends. */
module Lexing {
  import opened Wrappers
  import opened Pars

  /** The character classes of CGATS files. */
  const CGATS: Delims := Delims({NUL} + {' ', '\t'}, {' ', '\t'}, {'#'}, {'"'})

  predicate Blank(c: char) {
    c == ' ' || c == '\t'
  }

  function Flip(q: bool, c: char): bool {
    if c == '"' then !q else q
  }

  function Q(q: bool): char {
    if q then '"' else NUL
  }

  /** Blanks, line ends and comment starts stand only inside quotes, and all quotes are closed. */
  ghost predicate Solid(w: string, q: bool)
    decreases |w|
  {
    if w == [] then !q
    else (Flip(q, w[0]) || !(Blank(w[0]) || w[0] in "\r\n#")) && w[0] != NUL && Solid(w[1..], Flip(q, w[0]))
  }

  /** The same with blanks allowed anywhere. */
  ghost predicate Calm(w: string, q: bool)
    decreases |w|
  {
    if w == [] then !q
    else (Flip(q, w[0]) || !(w[0] in "\r\n#")) && w[0] != NUL && Calm(w[1..], Flip(q, w[0]))
  }

  lemma {:induction false} SolidCalm(w: string, q: bool)
    requires Solid(w, q)
    ensures Calm(w, q)
    decreases |w|
  {
    if w == [] {
    } else {
      SolidCalm(w[1..], Flip(q, w[0]));
    }
  }

  lemma {:induction false} CalmJoin(v: string, w: string, q: bool)
    requires Calm(v, q) && Calm(w, false)
    ensures Calm(v + w, q)
    decreases |v|
  {
    if v == [] {
      assert v + w == w;
    } else {
      CalmJoin(v[1..], w, Flip(q, v[0]));
      assert (v + w)[1..] == v[1..] + w;
    }
  }

  lemma {:induction false} BlanksCalm(w: string)
    requires forall c | c in w :: Blank(c)
    ensures Calm(w, false)
    decreases |w|
  {
    if w == [] {
    } else {
      assert w[0] in w;
      BlanksCalm(w[1..]);
    }
  }

  /** Words without any special character are solid. */
  predicate PlainWord(w: string) {
    forall c | c in w :: !Blank(c) && c !in "\r\n#\"" && c != NUL
  }

  lemma {:induction false} PlainSolid(w: string)
    requires PlainWord(w)
    ensures Solid(w, false)
    decreases |w|
  {
    if w == [] {
    } else {
      assert w[0] in w;
      forall c | c in w[1..]
        ensures c in w
      {
      }
      PlainSolid(w[1..]);
    }
  }

  // ----- tokens -----

  lemma {:induction false} SolidToken(w: string, q: bool, sofar: string, rest: string)
    requires Solid(w, q) && sofar + w != [] && (rest == [] || Blank(rest[0]))
    ensures ScanToken(CGATS, w + rest, Q(q), sofar) == Some(Token(sofar + w, if rest == [] then [] else rest[1..]))
    decreases |w|
  {
    if w == [] {
      assert w + rest == rest && sofar + w == sofar;
    } else {
      var c, q' := w[0], Flip(q, w[0]);
      assert (w + rest)[0] == c && (w + rest)[1..] == w[1..] + rest;
      assert Quoting(CGATS, Q(q), c) == Q(q');
      SolidToken(w[1..], q', sofar + [c], rest);
      assert sofar + [c] + w[1..] == sofar + w;
    }
  }

  lemma BlankSkipped(c: char, rest: string)
    requires Blank(c)
    ensures NextToken(CGATS, [c] + rest) == NextToken(CGATS, rest)
    ensures TokensOf(CGATS, [c] + rest) == TokensOf(CGATS, rest)
  {
    assert ([c] + rest)[1..] == rest;
    assert NextToken(CGATS, [c] + rest) == ScanToken(CGATS, ([c] + rest)[1..], NUL, []);
  }

  lemma {:induction false} BlanksSkipped(w: string, rest: string)
    requires forall c | c in w :: Blank(c)
    ensures TokensOf(CGATS, w + rest) == TokensOf(CGATS, rest)
    decreases |w|
  {
    if w == [] {
      assert w + rest == rest;
    } else {
      assert w[0] in w;
      BlanksSkipped(w[1..], rest);
      BlankSkipped(w[0], w[1..] + rest);
      assert w + rest == [w[0]] + (w[1..] + rest);
    }
  }

  /** A solid word at the start of a line is its first token, exactly as written. */
  lemma WordFirst(w: string, rest: string)
    requires Solid(w, false) && w != [] && (rest == [] || Blank(rest[0]))
    ensures TokensOf(CGATS, w + rest) == [w] + TokensOf(CGATS, rest)
  {
    assert [] + w == w;
    SolidToken(w, false, [], rest);
    if rest != [] {
      BlankSkipped(rest[0], rest[1..]);
      assert rest == [rest[0]] + rest[1..];
    }
  }

  // ----- lines -----

  lemma {:induction false} CalmLine(w: string, q: bool, after: After, sofar: string, rest: string)
    requires Calm(w, q) && after != Comment && (after == Cr ==> q)
    ensures ScanLine(CGATS, w + rest, after, Q(q), sofar) == ScanLine(CGATS, rest, Plain, NUL, sofar + w)
    decreases |w|
  {
    if w == [] {
      assert w + rest == rest && sofar + w == sofar;
    } else {
      var c, q' := w[0], Flip(q, w[0]);
      assert (w + rest)[0] == c && (w + rest)[1..] == w[1..] + rest;
      assert Quoting(CGATS, Q(q), c) == Q(q');
      CalmLine(w[1..], q', if c == '\r' then Cr else Plain, sofar + [c], rest);
      assert sofar + [c] + w[1..] == sofar + w;
    }
  }

  predicate CommentText(com: string) {
    '\r' !in com && '\n' !in com && NUL !in com
  }

  lemma {:induction false} CommentSkipped(com: string, c: char, rest: string)
    requires CommentText(com) && (c == '\r' || c == '\n')
    ensures ScanLine(CGATS, com + ([c] + rest), Comment, NUL, []) ==
      ScanLine(CGATS, rest, if c == '\r' then Cr else Plain, NUL, [])
    decreases |com|
  {
    var s := com + ([c] + rest);
    if com == [] {
      assert s[1..] == rest;
    } else {
      assert com[0] in com;
      CommentSkipped(com[1..], c, rest);
      assert s[1..] == com[1..] + ([c] + rest);
    }
  }

  lemma {:induction false} CommentLast(com: string)
    requires CommentText(com)
    ensures NextLine(CGATS, com, Comment) == None
    decreases |com|
  {
    if com == [] {
    } else {
      assert com[0] in com;
      CommentLast(com[1..]);
    }
  }

  /** A line of text: its words with the blanks around them, and its comment. */
  datatype TextLine = TextLine(w: string, com: Option<string>)

  function LineBody(l: TextLine): string {
    l.w + (if l.com.Some? then "#" + l.com.value else "")
  }

  /** The three ways to end a line. */
  datatype Ending = LineFeed | Return | ReturnFeed

  function EndText(e: Ending): string {
    match e
    case LineFeed => "\n"
    case Return => "\r"
    case ReturnFeed => "\r\n"
  }

  /** The text of the lines when each ends in its own way. */
  function Ended(ls: seq<TextLine>, es: seq<Ending>): string
    requires |ls| == |es|
  {
    if ls == [] then "" else LineBody(ls[0]) + (EndText(es[0]) + Ended(ls[1..], es[1..]))
  }

  function LineText(l: TextLine): string {
    LineBody(l) + "\n"
  }

  function Text(ls: seq<TextLine>): string {
    if ls == [] then "" else LineText(ls[0]) + Text(ls[1..])
  }

  function LineFeeds(n: nat): (es: seq<Ending>)
    ensures |es| == n && forall e | e in es :: e == LineFeed
  {
    seq(n, i => LineFeed)
  }

  /** The writer's text is that of its lines with a line feed at the end of each. */
  lemma {:induction false} TextEnded(ls: seq<TextLine>)
    ensures Text(ls) == Ended(ls, LineFeeds(|ls|))
  {
    if ls == [] {
    } else {
      TextEnded(ls[1..]);
      assert LineFeeds(|ls|)[1..] == LineFeeds(|ls[1..]|);
      Assoc(LineBody(ls[0]), "\n", Text(ls[1..]));
    }
  }

  /** The tokens of the lines. */
  function Words(ls: seq<TextLine>): seq<Tok> {
    if ls == [] then [] else Marked(TokensOf(CGATS, ls[0].w)) + Words(ls[1..])
  }

  ghost predicate LineOk(l: TextLine) {
    Calm(l.w, false) && (l.com.Some? ==> CommentText(l.com.value))
  }

  ghost predicate AllOk(ls: seq<TextLine>) {
    forall l | l in ls :: LineOk(l)
  }

  lemma OkJoin(ls: seq<TextLine>, ms: seq<TextLine>)
    requires AllOk(ls) && AllOk(ms)
    ensures AllOk(ls + ms)
  {
  }

  lemma Assoc<A>(a: seq<A>, b: seq<A>, c: seq<A>)
    ensures (a + b) + c == a + (b + c)
  {
  }

  lemma LineRead(w: string, c: char, rest: string)
    requires Calm(w, false) && (c == '\n' || c == '\r' || c == '#')
    ensures NextLine(CGATS, w + ([c] + rest), Plain) ==
      Some(Line(w, rest, if c == '#' then Comment else if c == '\r' then Cr else Plain))
  {
    assert [] + w == w && ([c] + rest)[1..] == rest;
    CalmLine(w, false, Plain, [], [c] + rest);
  }

  /** The lines that follow when a line has just ended at a carriage return: one line feed still belongs to it. */
  function Past(rest: string): string {
    if rest != [] && rest[0] == '\n' then rest[1..] else rest
  }

  lemma PastReturn(rest: string)
    ensures NextLine(CGATS, rest, Cr) == NextLine(CGATS, Past(rest), Plain)
    ensures Lex(CGATS, rest, Cr) == Lex(CGATS, Past(rest), Plain) == Lex(CGATS, rest, Plain)
  {
    if rest != [] && rest[0] == '\n' {
      assert NextLine(CGATS, rest, Plain) == Some(Line([], rest[1..], Plain));
    }
  }

  /** Where reading goes on once a line with ending e has been read. */
  function Behind(e: Ending, rest: string): string {
    if e == Return then Past(rest) else rest
  }

  lemma LineStops(l: TextLine, c: char, more: string)
    requires LineOk(l) && (c == '\r' || c == '\n')
    ensures var r := NextLine(CGATS, LineBody(l) + ([c] + more), Plain);
            && r.Some? && r.value.s == l.w
            && NextLine(CGATS, r.value.rest, r.value.after) == NextLine(CGATS, more, if c == '\r' then Cr else Plain)
  {
    if l.com.None? {
      LineRead(l.w, c, more);
      assert LineBody(l) == l.w;
    } else {
      var com := l.com.value;
      LineRead(l.w, '#', com + ([c] + more));
      assert LineBody(l) + ([c] + more) == l.w + (['#'] + (com + ([c] + more)));
      CommentSkipped(com, c, more);
    }
  }

  /** Whatever its ending, a line is read as its words and nothing more, and the lines behind the ending follow. */
  lemma LineEnds(l: TextLine, e: Ending, rest: string)
    requires LineOk(l)
    ensures var r := NextLine(CGATS, LineBody(l) + (EndText(e) + rest), Plain);
            && r.Some? && r.value.s == l.w
            && NextLine(CGATS, r.value.rest, r.value.after) == NextLine(CGATS, Behind(e, rest), Plain)
  {
    var c, more := EndText(e)[0], EndText(e)[1..] + rest;
    assert EndText(e) + rest == [c] + more;
    LineStops(l, c, more);
    PastReturn(more);
    assert if e == ReturnFeed then more == ['\n'] + rest && Past(more) == rest else more == rest;
  }

  lemma SameNext(s: string, after: After, s': string, after': After)
    requires NextLine(CGATS, s, after) == NextLine(CGATS, s', after')
    ensures Lex(CGATS, s, after) == Lex(CGATS, s', after')
  {
  }

  lemma LexLine(l: TextLine, e: Ending, rest: string)
    requires LineOk(l)
    ensures Lex(CGATS, LineBody(l) + (EndText(e) + rest), Plain) ==
      Marked(TokensOf(CGATS, l.w)) + Lex(CGATS, rest, Plain)
  {
    LineEnds(l, e, rest);
    var r := NextLine(CGATS, LineBody(l) + (EndText(e) + rest), Plain).value;
    SameNext(r.rest, r.after, Behind(e, rest), Plain);
    PastReturn(rest);
  }

  /** Reading some lines, whatever the ending of each, gives their tokens. */
  lemma {:induction false} LexEnded(ls: seq<TextLine>, es: seq<Ending>, rest: string)
    requires AllOk(ls) && |ls| == |es|
    ensures Lex(CGATS, Ended(ls, es) + rest, Plain) == Words(ls) + Lex(CGATS, rest, Plain)
    decreases |ls|
  {
    if ls == [] {
      assert Ended(ls, es) + rest == rest;
    } else {
      assert ls[0] in ls;
      var more := Ended(ls[1..], es[1..]) + rest;
      LexEnded(ls[1..], es[1..], rest);
      LexLine(ls[0], es[0], more);
      assert Ended(ls, es) + rest == LineBody(ls[0]) + (EndText(es[0]) + more);
      Assoc(Marked(TokensOf(CGATS, ls[0].w)), Words(ls[1..]), Lex(CGATS, rest, Plain));
    }
  }

  /** The same when a last line l has no ending. */
  lemma LexText(ls: seq<TextLine>, es: seq<Ending>, l: TextLine)
    requires AllOk(ls) && |ls| == |es| && LineOk(l)
    ensures Lex(CGATS, Ended(ls, es) + LineBody(l), Plain) == Words(ls) + Marked(TokensOf(CGATS, l.w))
  {
    LexEnded(ls, es, LineBody(l));
    assert [] + l.w == l.w;
    if l.com.None? {
      assert LineBody(l) == l.w && l.w + [] == l.w;
      CalmLine(l.w, false, Plain, [], []);
      assert Lex(CGATS, [], Plain) == [];
    } else {
      assert LineBody(l) == l.w + (['#'] + l.com.value);
      LineRead(l.w, '#', l.com.value);
      CommentLast(l.com.value);
    }
  }

  lemma {:induction false} TextJoin(ls: seq<TextLine>, ms: seq<TextLine>)
    ensures Text(ls + ms) == Text(ls) + Text(ms)
  {
    if ls == [] {
      assert ls + ms == ms;
    } else {
      TextJoin(ls[1..], ms);
      assert (ls + ms)[1..] == ls[1..] + ms && (ls + ms)[0] == ls[0];
      Assoc(LineText(ls[0]), Text(ls[1..]), Text(ms));
    }
  }

  lemma {:induction false} WordsJoin(ls: seq<TextLine>, ms: seq<TextLine>)
    ensures Words(ls + ms) == Words(ls) + Words(ms)
  {
    if ls == [] {
      assert ls + ms == ms;
    } else {
      WordsJoin(ls[1..], ms);
      assert (ls + ms)[1..] == ls[1..] + ms && (ls + ms)[0] == ls[0];
      Assoc(Marked(TokensOf(CGATS, ls[0].w)), Words(ls[1..]), Words(ms));
    }
  }

  lemma {:induction false} CalmNoNul(w: string, q: bool)
    requires Calm(w, q)
    ensures NUL !in w
    decreases |w|
  {
    if w == [] {
    } else {
      CalmNoNul(w[1..], Flip(q, w[0]));
      assert w == [w[0]] + w[1..];
    }
  }

  /** No line has a NUL in it, so the text can be read to its end. */
  lemma {:induction false} TextNoNul(ls: seq<TextLine>)
    requires AllOk(ls)
    ensures NUL !in Text(ls)
  {
    if ls == [] {
    } else {
      assert ls[0] in ls;
      CalmNoNul(ls[0].w, false);
      TextNoNul(ls[1..]);
    }
  }
}
