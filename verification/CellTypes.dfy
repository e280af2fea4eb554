/** The types of cells: guessing one from the text of a cell, and one for a column from all its cells. */
module CellTypes {
  import opened Wrappers

  datatype DataType = Int | Real | Bare | Quot | NoType
  {
    /** The order in which a column's type grows: integer, real, unquoted string, quoted string. */
    function Rank(): nat {
      match this
      case Int => 0
      case Real => 1
      case Bare => 2
      case Quot => 3
      case NoType => 4
    }
  }

  predicate Digit(c: char) {
    '0' <= c <= '9'
  }

  predicate IsE(c: char) {
    c == 'e' || c == 'E'
  }

  /** The type of the number t, seen after prev: dot and exp say whether a point and an exponent came before. */
  function Kind(prev: char, t: string, dot: bool, exp: bool): DataType
    decreases |t|
  {
    if t == [] then (if dot || exp then Real else Int)
    else if Digit(t[0]) || ((t[0] == '-' || t[0] == '+') && IsE(prev)) then Kind(t[0], t[1..], dot, exp)
    else if t[0] == '.' && !dot && !exp then Kind(t[0], t[1..], true, exp)
    else if IsE(t[0]) && !exp then Kind(t[0], t[1..], dot, true)
    else Bare
  }

  /** The type that the text of a cell seems to have. */
  function Guess(cs: string): DataType {
    if cs != [] && cs[0] == '"' then (if |cs| >= 2 && cs[|cs| - 1] == '"' then Quot else Bare)
    else Kind('e', cs, false, false)
  }

  method GuessType(cs: string) returns (ty: DataType)
    ensures ty == Guess(cs)
  {
    if cs != "" && cs[0] == '"' {
      return if |cs| >= 2 && cs[|cs| - 1] == '"' then Quot else Bare;
    }
    var dot, exp, i: nat := false, false, 0;
    assert cs[0..] == cs;
    while i < |cs|
      invariant i <= |cs|
      invariant Kind(if i == 0 then 'e' else cs[i - 1], cs[i..], dot, exp) == Guess(cs)
    {
      var c := cs[i];
      assert cs[i..][1..] == cs[i + 1..];
      if Digit(c) {
      } else if c == '-' && (i == 0 || IsE(cs[i - 1])) {
      } else if c == '+' && (i == 0 || IsE(cs[i - 1])) {
      } else if !dot && !exp && c == '.' {
        dot := true;
      } else if !exp && IsE(c) {
        exp := true;
      } else {
        return Bare;
      }
      i := i + 1;
    }
    return if dot || exp then Real else Int;
  }

  // ----- the numbers that are guessed -----

  /** An exponent: its letter, its sign and its digits. */
  datatype Expo = Expo(letter: char, sign: string, digits: string)

  /** A number as text: a sign, digits, a point with more digits, and an exponent, each of which may be missing. */
  datatype Numeral = Numeral(sign: string, whole: string, frac: Option<string>, expo: Option<Expo>) {
    predicate Valid() {
      && sign in ["", "-", "+"] && (forall c | c in whole :: '0' <= c <= '9')
      && (frac.Some? ==> forall c | c in frac.value :: '0' <= c <= '9')
      && (expo.Some? ==> expo.value.letter in "eE" && expo.value.sign in ["", "-", "+"]
                         && forall c | c in expo.value.digits :: '0' <= c <= '9')
    }

    function Tail(): string {
      if expo.None? then "" else [expo.value.letter] + (expo.value.sign + expo.value.digits)
    }

    function Rest(): string {
      if frac.None? then Tail() else "." + (frac.value + Tail())
    }

    function Text(): string {
      sign + (whole + Rest())
    }

    predicate Plain() {
      frac.None? && expo.None?
    }
  }

  ghost predicate Spells(n: Numeral, s: string) {
    n.Valid() && n.Text() == s
  }

  ghost predicate IsNumber(s: string) {
    exists n :: Spells(n, s)
  }

  function KindOf(n: Numeral, dot: bool, exp: bool): DataType {
    if dot || exp || !n.Plain() then Real else Int
  }

  lemma WholeFirst(n: Numeral)
    requires n.sign == "" && n.whole != ""
    ensures n.Text() == [n.whole[0]] + n.(whole := n.whole[1..]).Text()
  {
    assert n.whole + n.Rest() == [n.whole[0]] + (n.whole[1..] + n.Rest());
  }

  lemma PointFirst(n: Numeral)
    requires n.sign == n.whole == "" && n.frac.Some?
    ensures n.Text() == "." + Numeral("", n.frac.value, None, n.expo).Text()
  {
    var m := Numeral("", n.frac.value, None, n.expo);
    assert m.Text() == n.frac.value + n.Tail();
    assert n.Text() == n.Rest();
  }

  lemma LetterFirst(n: Numeral)
    requires n.sign == n.whole == "" && n.frac.None? && n.expo.Some?
    ensures n.Text() == [n.expo.value.letter] + Numeral(n.expo.value.sign, n.expo.value.digits, None, None).Text()
  {
    var x := n.expo.value;
    assert Numeral(x.sign, x.digits, None, None).Text() == x.sign + x.digits;
  }

  lemma SignFirst(n: Numeral)
    requires n.sign != ""
    ensures n.Text() == n.sign + n.(sign := "").Text()
  {
  }

  /** The text of a number is taken for one. */
  lemma {:induction false} NumberKind(n: Numeral, prev: char, dot: bool, exp: bool)
    requires n.Valid() && (n.sign != "" ==> IsE(prev)) && (dot || exp ==> n.frac.None?) && (exp ==> n.expo.None?)
    ensures Kind(prev, n.Text(), dot, exp) == KindOf(n, dot, exp)
    decreases |n.Text()|
  {
    var t := n.Text();
    if n.sign != "" {
      SignFirst(n);
      assert t[1..] == n.(sign := "").Text();
      NumberKind(n.(sign := ""), t[0], dot, exp);
    } else if n.whole != "" {
      WholeFirst(n);
      assert t[0] in n.whole && t[1..] == n.(whole := n.whole[1..]).Text();
      assert forall c | c in n.whole[1..] :: c in n.whole;
      NumberKind(n.(whole := n.whole[1..]), t[0], dot, exp);
    } else if n.frac.Some? {
      PointFirst(n);
      assert t[1..] == Numeral("", n.frac.value, None, n.expo).Text();
      NumberKind(Numeral("", n.frac.value, None, n.expo), '.', true, exp);
    } else if n.expo.Some? {
      var m := Numeral(n.expo.value.sign, n.expo.value.digits, None, None);
      LetterFirst(n);
      assert t[1..] == m.Text();
      NumberKind(m, t[0], dot, true);
    }
  }

  /** What is taken for a number is the text of one. */
  lemma {:induction false} KindNumber(prev: char, t: string, dot: bool, exp: bool) returns (n: Numeral)
    requires Kind(prev, t, dot, exp) != Bare
    ensures Spells(n, t) && (n.sign != "" ==> IsE(prev)) && (dot || exp ==> n.frac.None?) && (exp ==> n.expo.None?)
    decreases |t|
  {
    if t == [] {
      n := Numeral("", "", None, None);
    } else {
      var c := t[0];
      assert t == [c] + t[1..];
      if Digit(c) {
        var m := KindNumber(c, t[1..], dot, exp);
        n := m.(whole := [c] + m.whole);
        assert n.whole[1..] == m.whole;
        WholeFirst(n);
      } else if c == '-' || c == '+' {
        var m := KindNumber(c, t[1..], dot, exp);
        n := m.(sign := [c]);
        assert [c] == if c == '-' then "-" else "+";
        SignFirst(n);
      } else if c == '.' {
        var m := KindNumber(c, t[1..], true, exp);
        n := Numeral("", "", Some(m.whole), m.expo);
        PointFirst(n);
      } else {
        var m := KindNumber(c, t[1..], dot, true);
        n := Numeral("", "", None, Some(Expo(c, m.sign, m.whole)));
        LetterFirst(n);
      }
    }
  }

  /** A text is guessed to be an integer if it is a number without point and exponent, even with no digits at all, a
      real if it is another number, a quoted string if a quote begins and another one ends it, and else an unquoted
      one. */
  lemma GuessIs(cs: string)
    ensures Guess(cs) == Int <==> exists n :: Spells(n, cs) && n.Plain()
    ensures Guess(cs) == Real <==> exists n :: Spells(n, cs) && !n.Plain()
    ensures Guess(cs) == Quot <==> |cs| >= 2 && cs[0] == '"' && cs[|cs| - 1] == '"'
    ensures Guess(cs) != NoType
  {
    KindKnown('e', cs, false, false);
    forall n | Spells(n, cs)
      ensures Guess(cs) == KindOf(n, false, false)
    {
      NumberKind(n, 'e', false, false);
    }
    if Guess(cs) == Int || Guess(cs) == Real {
      var n := KindNumber('e', cs, false, false);
    }
  }

  // ----- the type of a column -----

  function Larger(a: DataType, b: DataType): DataType {
    if a.Rank() >= b.Rank() then a else b
  }

  /** The largest type guessed, an integer for no cells. */
  function ColumnGuess(cells: seq<string>): DataType {
    if cells == [] then Int else Larger(ColumnGuess(cells[..|cells| - 1]), Guess(cells[|cells| - 1]))
  }

  lemma {:induction false} ColumnGuessMax(cells: seq<string>)
    ensures forall c | c in cells :: Guess(c).Rank() <= ColumnGuess(cells).Rank()
    ensures ColumnGuess(cells) == Int || exists c | c in cells :: Guess(c) == ColumnGuess(cells)
  {
    if cells == [] {
    } else {
      var init, last := cells[..|cells| - 1], cells[|cells| - 1];
      ColumnGuessMax(init);
      assert cells == init + [last];
      assert last in cells;
      if ColumnGuess(cells) != Guess(last) && ColumnGuess(init) != Int {
        var c :| c in init && Guess(c) == ColumnGuess(init);
        assert c in cells;
      }
    }
  }

  /** The order of the cells does not matter, nor how often one occurs. */
  lemma ColumnGuessOrder(cells: seq<string>, cells': seq<string>)
    requires forall c :: c in cells <==> c in cells'
    ensures ColumnGuess(cells) == ColumnGuess(cells')
  {
    ColumnGuessMax(cells);
    ColumnGuessMax(cells');
    GuessKnown(cells);
    GuessKnown(cells');
  }

  lemma {:induction false} KindKnown(prev: char, t: string, dot: bool, exp: bool)
    ensures Kind(prev, t, dot, exp) != NoType && Kind(prev, t, dot, exp) != Quot
    decreases |t|
  {
    if t == [] {
    } else {
      KindKnown(t[0], t[1..], dot, exp);
      KindKnown(t[0], t[1..], true, exp);
      KindKnown(t[0], t[1..], dot, true);
    }
  }

  lemma {:induction false} GuessKnown(cells: seq<string>)
    ensures ColumnGuess(cells) != NoType
  {
    if cells == [] {
    } else {
      GuessKnown(cells[..|cells| - 1]);
      KindKnown('e', cells[|cells| - 1], false, false);
    }
  }

  lemma {:induction false} QuotStays(cells: seq<string>, j: nat)
    requires j <= |cells| && ColumnGuess(cells[..j]) == Quot
    ensures ColumnGuess(cells) == Quot
    decreases |cells|
  {
    if j < |cells| {
      var init := cells[..|cells| - 1];
      assert init[..j] == cells[..j];
      QuotStays(init, j);
      KindKnown('e', cells[|cells| - 1], false, false);
    } else {
      assert cells[..j] == cells;
    }
  }

  /** The loop of cgats_read over a column, which stops at the first quoted cell. */
  method ColumnType(cells: seq<string>) returns (bt: DataType)
    ensures bt == ColumnGuess(cells)
  {
    bt := Int;
    var j: nat := 0;
    while j < |cells|
      invariant j <= |cells| && bt == ColumnGuess(cells[..j]) && bt != Quot && bt != NoType
    {
      var ty := GuessType(cells[j]);
      assert cells[..j + 1][..j] == cells[..j];
      KindKnown('e', cells[j], false, false);
      if ty == Quot {
        QuotStays(cells, j + 1);
        return Quot;
      } else if ty == Bare {
        if bt == Int || bt == Real {
          bt := ty;
        }
      } else if ty == Real {
        if bt == Int {
          bt := ty;
        }
      }
      j := j + 1;
    }
    assert cells[..j] == cells;
  }

  // ----- standard fields -----

  predicate StartsWith(s: string, p: string) {
    |p| <= |s| && s[..|p|] == p
  }

  /** Whether the character of s after a prefix of n is one of cs. */
  predicate Then(s: string, n: nat, cs: string) {
    n < |s| && s[n] in cs
  }

  function RealIf(b: bool): DataType {
    if b then Real else NoType
  }

  /** The type that the standard gives a field name, if any. */
  function StandardField(f: string): DataType {
    if f == "SAMPLE_ID" then Bare
    else if f == "STRING" then Quot
    else if StartsWith(f, "CMYK_") then RealIf(Then(f, 5, "CMYK"))
    else if StartsWith(f, "CMY_") then RealIf(Then(f, 4, "CMY"))
    else if StartsWith(f, "D_") then RealIf(f[2..] == "RED" || f[2..] == "GREEN" || f[2..] == "BLUE" || f[2..] == "VIS")
    else if StartsWith(f, "RGB_") then RealIf(Then(f, 4, "RGB"))
    else if StartsWith(f, "SPECTRAL_") then RealIf(f[9..] == "NM" || f[9..] == "PCT")
    else if StartsWith(f, "XYZ_") then RealIf(Then(f, 4, "XYZ"))
    else if StartsWith(f, "XYY_") then RealIf(Then(f, 4, "XY") || f[4..] == "CAPY")
    else if StartsWith(f, "LAB_") then RealIf(Then(f, 4, "LABCH") || f[4..] == "DE")
    else if StartsWith(f, "STDEV_") then RealIf(Then(f, 6, "XYZLAB") || f[6..] == "DE")
    else NoType
  }

  /** The type a column gets, given the standard type st of its field and the guess bt; none if they clash. */
  function Settled(st: DataType, bt: DataType): DataType {
    var b := if (st == Real && bt == Int) || ((st == Quot || st == Bare) && (bt == Int || bt == Real))
                || (st == Bare && bt == Quot) || (st == Quot && bt == Bare) then st else bt;
    if st != NoType && st != b then NoType else b
  }

  /** Only a standard real field can clash, and only with a column that holds text. */
  lemma ClashOnly(f: string, bt: DataType)
    requires bt != NoType
    ensures Settled(StandardField(f), bt) == NoType <==> StandardField(f) == Real && (bt == Bare || bt == Quot)
    ensures StandardField(f) != Int
  {
  }
}
