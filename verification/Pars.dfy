/** The line reader and tokenizer: what one line and one token are, as functions of the characters still to be read. */
module Pars {
  import opened Wrappers

  /** The characters that end a token, are not kept, start a comment, and open or close quotes. */
  datatype Delims = Delims(term: set<char>, skip: set<char>, comm: set<char>, quote: set<char>)

  const NUL: char := '\0'

  /** The quote character in force after c: NUL when not inside quotes. */
  function Quoting(d: Delims, q: char, c: char): char {
    if c in d.quote then (if q == NUL then c else if c == q then NUL else q) else q
  }

  /** What follows the end of a line: nothing special, a line feed that belongs to it, or the rest of a comment. */
  datatype After = Plain | Cr | Comment

  /** A line read, the text left and what it begins with. */
  datatype Line = Line(s: string, rest: string, after: After)

  /** The next line, given the part of it read so far and the quote character in force. */
  function ScanLine(d: Delims, s: string, after: After, q: char, sofar: string): (r: Option<Line>)
    ensures r.Some? ==> |r.value.rest| <= |s|
    ensures r.Some? && s != [] ==> |r.value.rest| < |s|
    ensures r.None? ==> sofar == []
    decreases |s|
  {
    if s == [] then
      if sofar == [] then None else Some(Line(sofar, [], if after == Cr then Plain else after))
    else
      var c, s' := s[0], s[1..];
      if after == Cr && c == '\n' && q == NUL then ScanLine(d, s', Plain, q, sofar)
      else if after == Comment then
        ScanLine(d, s', if c == '\r' then Cr else if c == '\n' then Plain else Comment, q, sofar)
      else if c == '\r' && q == NUL then Some(Line(sofar, s', Cr))
      else if c != '\r' && q == NUL && c in d.comm then Some(Line(sofar, s', Comment))
      else if c == '\n' && q == NUL then Some(Line(sofar, s', Plain))
      else ScanLine(d, s', if c == '\r' then Cr else Plain, Quoting(d, q, c), sofar + [c])
  }

  function NextLine(d: Delims, s: string, after: After): (r: Option<Line>)
    ensures r.Some? ==> |r.value.rest| < |s|
  {
    ScanLine(d, s, after, NUL, [])
  }

  /** A token read and what is left of its line. */
  datatype Token = Token(s: string, rest: string)

  /** Whether get_token keeps character c, the quote character being q once c is seen. */
  predicate Keeps(d: Delims, q: char, c: char, sofar: string) {
    || (q != NUL && (q != c || c !in d.skip))
    || (!(sofar == [] && c in d.term && c in d.skip) && c !in d.skip)
  }

  /** The next token of a line, given the part of it read so far and the quote character in force. */
  function ScanToken(d: Delims, s: string, q: char, sofar: string): (r: Option<Token>)
    ensures r.Some? ==> |r.value.rest| <= |s|
    ensures r.Some? && s != [] ==> |r.value.rest| < |s|
    ensures r.Some? ==> r.value.s != []
    ensures r.None? ==> sofar == []
    decreases |s|
  {
    if s == [] then
      if sofar == [] then None else Some(Token(sofar, []))
    else
      var c := s[0];
      var q' := Quoting(d, q, c);
      var sofar' := if Keeps(d, q', c, sofar) then sofar + [c] else sofar;
      if q' == NUL && sofar' != [] && c in d.term then Some(Token(sofar', s[1..]))
      else ScanToken(d, s[1..], q', sofar')
  }

  function NextToken(d: Delims, s: string): (r: Option<Token>)
    ensures r.Some? ==> |r.value.rest| < |s| && r.value.s != []
  {
    ScanToken(d, s, NUL, [])
  }

  /** The tokens of a line. */
  function TokensOf(d: Delims, s: string): (ts: seq<string>)
    decreases |s|
  {
    match NextToken(d, s)
    case None => []
    case Some(t) => [t.s] + TokensOf(d, t.rest)
  }

  /** A token and whether it is the first of its line. */
  datatype Tok = Tok(s: string, first: bool)

  function Marked(ts: seq<string>): (r: seq<Tok>)
    ensures |r| == |ts| && forall k | 0 <= k < |ts| :: r[k] == Tok(ts[k], k == 0)
  {
    seq(|ts|, k requires 0 <= k < |ts| => Tok(ts[k], k == 0))
  }

  /** All the tokens of a text. */
  function Lex(d: Delims, s: string, after: After): (r: seq<Tok>)
    decreases |s|
  {
    match NextLine(d, s, after)
    case None => []
    case Some(l) => Marked(TokensOf(d, l.s)) + Lex(d, l.rest, l.after)
  }

  /** Tokens numbered from n on: only number 0 is the first of its line. */
  function Numbered(ts: seq<string>, n: nat): (r: seq<Tok>)
    ensures |r| == |ts| && forall k | 0 <= k < |ts| :: r[k] == Tok(ts[k], n + k == 0)
  {
    seq(|ts|, k requires 0 <= k < |ts| => Tok(ts[k], n + k == 0))
  }

  /** The tokens still to come, when n tokens of the line have been read. */
  function Ahead(d: Delims, left: string, n: nat, text: string, after: After): seq<Tok> {
    Numbered(TokensOf(d, left), n) + Lex(d, text, after)
  }

  lemma AheadNext(d: Delims, left: string, n: nat, text: string, after: After)
    ensures match NextToken(d, left)
            case Some(t) => Ahead(d, left, n, text, after) == [Tok(t.s, n == 0)] + Ahead(d, t.rest, n + 1, text, after)
            case None => match NextLine(d, text, after)
              case None => Ahead(d, left, n, text, after) == []
              case Some(l) => Ahead(d, left, n, text, after) == Ahead(d, l.s, 0, l.rest, l.after)
  {
    match NextToken(d, left)
    case Some(t) =>
      assert Numbered(TokensOf(d, left), n) == [Tok(t.s, n == 0)] + Numbered(TokensOf(d, t.rest), n + 1);
    case None =>
      if NextLine(d, text, after).Some? {
        assert Marked(TokensOf(d, NextLine(d, text, after).value.s)) ==
          Numbered(TokensOf(d, NextLine(d, text, after).value.s), 0);
      }
  }

  /** How far get_token is: tb is the token so far, its NUL included once the token has ended. */
  ghost predicate Reading(d: Delims, left: string, whole: Option<Token>, q: char, tb: string, term: bool, ended: bool) {
    if ended then tb != "" && (|tb| == 1 ==> left == "") && NUL !in tb[..|tb| - 1]
                  && whole == if |tb| == 1 then None else Some(Token(tb[..|tb| - 1], left))
    else if term then NUL !in tb && tb != "" && whole == Some(Token(tb, left))
    else NUL !in tb && ScanToken(d, left, q, tb) == whole
  }

  lemma ReadingStep(d: Delims, left: string, whole: Option<Token>, q: char, tb: string, term: bool, c: char)
    requires Reading(d, left, whole, q, tb, term, false)
    requires NUL in d.term && NUL !in d.quote && NUL !in d.skip && NUL !in left
    requires c == if term || left == "" then NUL else left[0]
    ensures
      var q' := Quoting(d, q, c);
      var tb' := if Keeps(d, q', c, tb) then tb + [c] else tb;
      Reading(d, if c == NUL then left else left[1..], whole, q', tb',
              term || (q' == NUL && tb' != "" && c in d.term), c == NUL)
  {
  }

  /** The parser object: the file with the position in it, the line buffer with its NUL, and the position in that. */
  class Parse {
    const text: string
    var at: nat
    var delf: Delims
    var b: Option<string>
    var to: nat
    var after: After
    var token: nat

    ghost predicate Valid()
      reads this
    {
      && at <= |text| && NUL !in text && (b.None? ==> token == 0)
      && NUL in delf.term && NUL !in delf.quote && NUL !in delf.skip && NUL !in delf.comm
      && (b.Some? ==> b.value != [] && to < |b.value| && b.value[|b.value| - 1] == NUL
                      && forall k | 0 <= k < |b.value| - 1 :: b.value[k] != NUL)
    }

    /** What is left of the line, without its NUL. */
    ghost function LineLeft(): string
      reads this
      requires Valid()
    {
      if b.None? then [] else b.value[to..|b.value| - 1]
    }

    /** The tokens still to come: those left on the line, then those of the text left. */
    ghost function Left(): seq<Tok>
      reads this
      requires Valid()
    {
      Ahead(delf, LineLeft(), token, text[at..], after)
    }

    constructor (text: string)
      requires NUL !in text
      ensures Valid() && this.text == text && at == 0 && b == None && after == Plain && token == 0
      ensures delf == Delims({NUL}, {}, {}, {})
    {
      this.text := text;
      at, to, b, after, token := 0, 0, None, Plain, 0;
      new;
      ResetDel();
    }

    /** Only the NUL separates tokens. */
    method ResetDel()
      modifies `delf
      ensures delf == Delims({NUL}, {}, {}, {})
    {
      delf := Delims({NUL}, {}, {}, {});
    }

    /** Adds to the character classes. */
    method AddDel(t: string, nr: string, c: string, q: string)
      requires Valid() && NUL !in nr && NUL !in c && NUL !in q
      modifies `delf
      ensures Valid()
      ensures delf == Delims(old(delf).term + (set x | x in t), old(delf).skip + (set x | x in nr),
                             old(delf).comm + (set x | x in c), old(delf).quote + (set x | x in q))
    {
      delf := Delims(delf.term + (set x | x in t), delf.skip + (set x | x in nr),
                     delf.comm + (set x | x in c), delf.quote + (set x | x in q));
    }

    /** Reads the next line into the line buffer. */
    method ReadLine() returns (ok: bool)
      requires Valid()
      modifies `at, `b, `to, `after
      ensures Valid()
      ensures match NextLine(delf, old(text[at..]), old(after))
              case None => !ok && b == old(b) && to == old(to) && at == |text|
              case Some(l) => ok && LineLeft() == l.s && text[at..] == l.rest && after == l.after
    {
      var q, buf, done := NUL, "", false;
      ghost var whole := NextLine(delf, text[at..], after);
      while !done
        invariant at <= |text| && NUL !in buf && b == old(b) && to == old(to)
        invariant done ==> whole == Some(Line(buf, text[at..], after))
        invariant !done ==> ScanLine(delf, text[at..], after, q, buf) == whole
        decreases !done, |text| - at
      {
        if at == |text| {
          if buf == "" {
            return false;
          }
          if after == Cr {
            after := Plain;
          }
          done := true;
        } else {
          var c := text[at];
          assert text[at..][0] == c && text[at..][1..] == text[at + 1..];
          at := at + 1;
          if after == Cr && c == '\n' && q == NUL {
            after := Plain;
          } else if after == Comment {
            if c == '\r' {
              after := Cr;
            } else if c == '\n' {
              after := Plain;
            }
          } else {
            if after == Cr {
              after := Plain;
            }
            if c == '\r' {
              after := Cr;
              done := q == NUL;
            } else if q == NUL && c in delf.comm {
              after := Comment;
              done := true;
            } else if c == '\n' {
              done := q == NUL;
            }
            if !done {
              q := Quoting(delf, q, c);
              buf := buf + [c];
            }
          }
        }
      }
      b, to := Some(buf + [NUL]), 0;
      ok := true;
      assert LineLeft() == buf;
    }

    /** Reads the next token of the line, and numbers it; without one the numbering starts again. */
    method GetToken() returns (r: Option<string>)
      requires Valid()
      modifies `to, `token
      ensures Valid()
      ensures match NextToken(delf, old(LineLeft()))
              case None => r == None && token == 0 && LineLeft() == ""
              case Some(t) => r == Some(t.s) && token == old(token) + 1 && LineLeft() == t.rest && NUL !in t.s
    {
      if b == None {
        return None;
      }
      token := token + 1;
      var q, tb, term, c := NUL, "", false, ' ';
      ghost var whole, left := NextToken(delf, LineLeft()), LineLeft();
      while c != NUL
        invariant Valid() && b.Some? && b == old(b) && token == old(token) + 1 && left == LineLeft()
        invariant Reading(delf, left, whole, q, tb, term, c == NUL)
        decreases c != NUL, !term, |b.value| - to
      {
        if term {
          c := NUL;
        } else {
          c := b.value[to];
          if c != NUL {
            to := to + 1;
          }
        }
        ReadingStep(delf, left, whole, q, tb, term, c);
        left := if c == NUL then left else left[1..];
        q := Quoting(delf, q, c);
        if Keeps(delf, q, c, tb) {
          tb := tb + [c];
        }
        if q == NUL && tb != "" && c in delf.term {
          term := true;
        }
      }
      if |tb| <= 1 {
        token := 0;
        return None;
      }
      return Some(tb[..|tb| - 1]);
    }

    /** The next token of the line with its place. */
    method Take() returns (r: Option<Tok>)
      requires Valid()
      modifies `to, `token
      ensures Valid() && (r.None? ==> token == 0 && NextToken(delf, LineLeft()) == None && Left() == old(Left()))
      ensures r.Some? ==> old(Left()) == [r.value] + Left() && NUL !in r.value.s
    {
      AheadNext(delf, LineLeft(), token, text[at..], after);
      var t := GetToken();
      if t.Some? {
        return Some(Tok(t.value, token == 1));
      }
      return None;
    }

    /** The next line once the last one is used up. */
    method Refill() returns (ok: bool)
      requires Valid() && token == 0 && NextToken(delf, LineLeft()) == None
      modifies `at, `b, `to, `after
      ensures Valid() && (if ok then Left() == old(Left()) && at > old(at) else old(Left()) == [])
    {
      AheadNext(delf, LineLeft(), token, text[at..], after);
      ok := ReadLine();
    }

    /** The next token of the file, reading lines as long as the line left has none. */
    method Fetch() returns (r: Option<Tok>)
      requires Valid()
      modifies `at, `b, `to, `after, `token
      ensures Valid()
      ensures if old(Left()) == [] then r == None else r == Some(old(Left())[0]) && Left() == old(Left())[1..]
      ensures r.Some? ==> NUL !in r.value.s
    {
      while true
        invariant Valid() && Left() == old(Left())
        decreases |text| - at
      {
        var t := Take();
        if t.Some? {
          return t;
        }
        var ok := Refill();
        if !ok {
          return None;
        }
      }
    }
  }
}
