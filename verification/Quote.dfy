/** Quoting a string for a CGATS file, and taking the quotes off again in place. */
module Quote {
  import opened Wrappers
  import opened Pars
  import opened Lexing

  function Doubled(s: string): string {
    if s == [] then [] else (if s[0] == '"' then "\"\"" else [s[0]]) + Doubled(s[1..])
  }

  /** The string between quotes, every quote inside doubled. */
  function Quoted(s: string): string {
    "\"" + Doubled(s) + "\""
  }

  /** What is left of t when the second of two quotes in a row is dropped; prev comes before t. */
  function Undoubled(prev: char, skipped: bool, t: string): string
    decreases |t|
  {
    if t == [] then []
    else if skipped || prev != '"' || t[0] != '"' then [t[0]] + Undoubled(t[0], false, t[1..])
    else Undoubled(t[0], true, t[1..])
  }

  predicate InQuotes(s: string) {
    |s| >= 2 && s[0] == '"' && s[|s| - 1] == '"'
  }

  /** A string without its quotes; one that is not quoted stays as it is. */
  function Unquoted(s: string): string {
    if InQuotes(s) then Undoubled('"', true, s[1..|s| - 1]) else s
  }

  lemma UndoubledPlain(prev: char, skipped: bool, c: char, d: string)
    requires (skipped || prev != '"') && c != '"'
    ensures Undoubled(prev, skipped, [c] + d) == [c] + Undoubled(c, false, d)
  {
    assert ([c] + d)[1..] == d;
  }

  lemma UndoubledQuote(prev: char, skipped: bool, d: string)
    requires skipped || prev != '"'
    ensures Undoubled(prev, skipped, "\"\"" + d) == "\"" + Undoubled('"', true, d)
  {
    assert ("\"\"" + d)[1..] == "\"" + d && ("\"" + d)[1..] == d;
    assert Undoubled('"', false, "\"" + d) == Undoubled('"', true, d);
  }

  lemma {:induction false} UndoubledDoubled(prev: char, skipped: bool, s: string)
    requires skipped || prev != '"'
    ensures Undoubled(prev, skipped, Doubled(s)) == s
    decreases |s|
  {
    if s == [] {
    } else if s[0] == '"' {
      UndoubledQuote(prev, skipped, Doubled(s[1..]));
      UndoubledDoubled('"', true, s[1..]);
    } else {
      UndoubledPlain(prev, skipped, s[0], Doubled(s[1..]));
      UndoubledDoubled(s[0], false, s[1..]);
    }
  }

  /** The text with one quote for every two in a row, taken from the left. */
  function Paired(t: string): string
    decreases |t|
  {
    if t == [] then []
    else if |t| >= 2 && t[0] == '"' && t[1] == '"' then "\"" + Paired(t[2..])
    else [t[0]] + Paired(t[1..])
  }

  lemma {:induction false} UndoubledPaired(prev: char, skipped: bool, t: string)
    requires skipped || prev != '"'
    ensures Undoubled(prev, skipped, t) == Paired(t)
    decreases |t|
  {
    if |t| >= 2 && t[0] == '"' {
      assert t[1..][0] == t[1] && t[1..][1..] == t[2..];
      UndoubledPaired(t[1], t[1] == '"', t[2..]);
    } else if t != [] && t[0] != '"' {
      UndoubledPaired(t[0], false, t[1..]);
    }
  }

  /** Whatever stands between two quotes at the ends is left with its quotes paired off; any other string stays. */
  lemma UnquotedIs(s: string)
    ensures Unquoted(s) ==
      if |s| >= 2 && s[0] == '"' && s[|s| - 1] == '"' then Paired(s[1..|s| - 1]) else s
  {
    if InQuotes(s) {
      UndoubledPaired('"', true, s[1..|s| - 1]);
    }
  }

  /** Quoting loses nothing. */
  lemma UnquotedQuoted(s: string)
    ensures Unquoted(Quoted(s)) == s
  {
    UndoubledDoubled('"', true, s);
    assert Quoted(s)[1..|Quoted(s)| - 1] == Doubled(s);
  }

  lemma {:induction false} DoubledSolid(s: string)
    requires NUL !in s
    ensures Solid(Doubled(s) + "\"", true)
    decreases |s|
  {
    var w := Doubled(s) + "\"";
    if s == [] {
      assert w == "\"" && w[1..] == [];
    } else {
      var d := Doubled(s[1..]) + "\"";
      assert s[0] in s;
      DoubledSolid(s[1..]);
      if s[0] == '"' {
        assert w == "\"\"" + d && w[1..] == ['"'] + d && w[1..][1..] == d;
      } else {
        assert w == [s[0]] + d && w[1..] == d;
      }
    }
  }

  /** Whatever is in a quoted string, blanks and line ends included, it is one word of one line. */
  lemma QuotedSolid(s: string)
    requires NUL !in s
    ensures Solid(Quoted(s), false)
  {
    DoubledSolid(s);
    assert Quoted(s)[1..] == Doubled(s) + "\"";
  }

  /** A solid word at the start of a line, with a delimiter after it, is read as one token, exactly as written. */
  lemma WordReadsBack(w: string, delim: char, line: string, rest: string)
    requires Solid(w, false) && w != [] && Blank(delim) && Calm(line, false)
    ensures NextLine(CGATS, w + ([delim] + line) + (['\n'] + rest), Plain) ==
      Some(Line(w + ([delim] + line), rest, Plain))
    ensures NextToken(CGATS, w + ([delim] + line)) == Some(Token(w, line))
  {
    SolidCalm(w, false);
    BlanksCalm([delim]);
    CalmJoin([delim], line, false);
    CalmJoin(w, [delim] + line, false);
    LineRead(w + ([delim] + line), '\n', rest);
    assert ([delim] + line)[1..] == line && [] + w == w;
    SolidToken(w, false, [], [delim] + line);
  }

  /** So whatever a string holds, its quoted form is read as one token, and unquoting that gives the string back. */
  lemma QuotedReadsBack(s: string, delim: char, line: string, rest: string)
    requires NUL !in s && Blank(delim) && Calm(line, false)
    ensures var l := Quoted(s) + ([delim] + line);
            && NextLine(CGATS, l + (['\n'] + rest), Plain) == Some(Line(l, rest, Plain))
            && NextToken(CGATS, l).Some? && Unquoted(NextToken(CGATS, l).value.s) == s
            && NextToken(CGATS, l).value.rest == line
  {
    UnquotedQuoted(s);
    QuotedSolid(s);
    WordReadsBack(Quoted(s), delim, line, rest);
  }

  // ----- the buffers -----

  lemma {:induction false} DoubledJoin(s: string, c: char)
    ensures Doubled(s + [c]) == Doubled(s) + if c == '"' then "\"\"" else [c]
    decreases |s|
  {
    if s == [] {
      assert (s + [c])[1..] == [];
    } else {
      DoubledJoin(s[1..], c);
      assert (s + [c])[1..] == s[1..] + [c];
    }
  }

  method QuotedSpace(cs: string) returns (j: nat)
    ensures j == |Quoted(cs)| + 1
  {
    var i: nat := 0;
    j := 3;
    while i < |cs|
      invariant i <= |cs| && j == 3 + |Doubled(cs[..i])|
    {
      DoubledJoin(cs[..i], cs[i]);
      assert cs[..i + 1] == cs[..i] + [cs[i]];
      if cs[i] == '"' {
        j := j + 1;
      }
      i, j := i + 1, j + 1;
    }
    assert cs[..|cs|] == cs;
  }

  lemma DoubledUpto(cs: string, i: nat)
    requires i < |cs|
    ensures Doubled(cs[..i + 1]) == Doubled(cs[..i]) + if cs[i] == '"' then "\"\"" else [cs[i]]
    ensures |Doubled(cs[..i + 1])| <= |Doubled(cs)|
  {
    DoubledJoin(cs[..i], cs[i]);
    assert cs[..i + 1] == cs[..i] + [cs[i]];
    DoubledGrows(cs, i + 1);
  }

  lemma {:induction false} DoubledGrows(cs: string, i: nat)
    requires i <= |cs|
    ensures |Doubled(cs[..i])| <= |Doubled(cs)|
    decreases |cs|
  {
    if i == 0 {
    } else {
      DoubledGrows(cs[1..], i - 1);
      assert cs[..i][1..] == cs[1..][..i - 1];
    }
  }

  /** A new buffer with the quoted string and its NUL, and no room to spare. */
  method QuoteCs(cs: string) returns (rs: array<char>)
    ensures fresh(rs) && rs[..] == Quoted(cs) + [NUL]
  {
    var n := QuotedSpace(cs);
    rs := new char[n](_ => NUL);
    rs[0] := '"';
    var i: nat, j: nat := 0, 1;
    while i < |cs|
      invariant i <= |cs| && rs.Length == 3 + |Doubled(cs)|
      invariant j == 1 + |Doubled(cs[..i])| <= 1 + |Doubled(cs)| && rs[..j] == "\"" + Doubled(cs[..i])
    {
      DoubledUpto(cs, i);
      ghost var head := rs[..j];
      if cs[i] == '"' {
        rs[j] := '"';
        j := j + 1;
        assert rs[..j] == head + "\"";
      }
      ghost var head' := rs[..j];
      rs[j] := cs[i];
      i, j := i + 1, j + 1;
      assert rs[..j] == head' + [cs[i - 1]];
    }
    assert cs[..i] == cs;
    rs[j] := '"';
    j := j + 1;
    rs[j] := NUL;
    assert rs[..] == rs[..j - 1] + ['"', NUL];
  }

  /** The string in a buffer: its characters before the first NUL. */
  function Str(b: string): string {
    if b == [] || b[0] == NUL then [] else [b[0]] + Str(b[1..])
  }

  lemma {:induction false} StrIs(b: string, n: nat)
    requires n < |b| && b[n] == NUL && forall k | 0 <= k < n :: b[k] != NUL
    ensures Str(b) == b[..n]
  {
    if n == 0 {
    } else {
      StrIs(b[1..], n - 1);
      assert b[..n] == [b[0]] + b[1..][..n - 1];
    }
  }

  method StrLen(cs: array<char>) returns (n: nat)
    requires NUL in cs[..]
    ensures n < cs.Length && cs[n] == NUL && (forall k | 0 <= k < n :: cs[k] != NUL) && Str(cs[..]) == cs[..n]
  {
    n := 0;
    while cs[n] != NUL
      invariant n < cs.Length && (forall k | 0 <= k < n :: cs[k] != NUL) && NUL in cs[..]
      decreases cs.Length - n
    {
      n := n + 1;
      if n == cs.Length {
        assert forall k | 0 <= k < cs.Length :: cs[..][k] != NUL;
      }
    }
    StrIs(cs[..], n);
  }

  /** The buffer b while the quotes of was are being taken off: j characters are done, and from i on it is unread. */
  ghost predicate Unquoting(was: string, b: string, i: nat, j: nat, skipped: bool) {
    && InQuotes(was) && 1 <= i < |was| <= |b| && j < i
    && (forall k | i - 1 <= k < |was| :: b[k] == was[k])
    && (forall k | 0 <= k < j :: b[k] != NUL)
    && b[..j] + Undoubled(was[i - 1], skipped, was[i..|was| - 1]) == Unquoted(was)
  }

  lemma UnquotingStep(was: string, b: string, i: nat, j: nat, skipped: bool)
    requires Unquoting(was, b, i, j, skipped) && i < |was| - 1 && NUL !in was
    ensures if skipped || b[i - 1] != '"' || b[i] != '"' then Unquoting(was, b[j := b[i]], i + 1, j + 1, false)
            else Unquoting(was, b, i + 1, j, true)
  {
    var t := was[i..|was| - 1];
    assert t[0] == was[i] && t[1..] == was[i + 1..|was| - 1];
    if skipped || b[i - 1] != '"' || b[i] != '"' {
      assert b[j := b[i]][..j + 1] == b[..j] + [was[i]];
      assert was[i] in was;
      Assoc(b[..j], [was[i]], Undoubled(was[i], false, t[1..]));
    }
  }

  /** Takes the quotes off the string in the buffer. */
  method UnquoteCs(cs: array<char>)
    requires NUL in cs[..]
    modifies cs
    ensures NUL in cs[..] && Str(cs[..]) == Unquoted(old(Str(cs[..])))
  {
    var sl := StrLen(cs);
    assert cs[sl] in cs[..];
    if sl < 2 || cs[0] != '"' || cs[sl - 1] != '"' {
      return;
    }
    ghost var was := cs[..sl];
    var i: nat, j: nat, s := 1, 0, true;
    assert cs[..][..0] + Undoubled(was[0], true, was[1..sl - 1]) == Unquoted(was);
    while i < sl - 1
      invariant 1 <= i <= sl - 1 < cs.Length && Unquoting(was, cs[..], i, j, s)
    {
      UnquotingStep(was, cs[..], i, j, s);
      if s || cs[i - 1] != '"' || cs[i] != '"' {
        ghost var b := cs[..];
        cs[j] := cs[i];
        assert cs[..] == b[j := b[i]];
        j, s := j + 1, false;
      } else {
        s := true;
      }
      i := i + 1;
    }
    UnquotingEnds(was, cs[..], i, j, s);
    cs[j] := NUL;
    StrIs(cs[..], j);
    assert cs[j] in cs[..];
  }

  lemma UnquotingEnds(was: string, b: string, i: nat, j: nat, skipped: bool)
    requires Unquoting(was, b, i, j, skipped) && i == |was| - 1
    ensures b[..j] == Unquoted(was)
  {
    assert was[i..|was| - 1] == [];
  }
}
