/** Decimal text of integers and reals, as printf writes it, and as atoi and atof read it. */
module Decimal {
  import opened Wrappers
  import opened CellTypes
  import opened PowersOfTen

  // ----- digits -----

  function DigitOf(d: nat): char
    requires d < 10
  {
    ['0', '1', '2', '3', '4', '5', '6', '7', '8', '9'][d]
  }

  function ValueOf(c: char): (d: nat)
    requires Digit(c)
    ensures d < 10
  {
    c as int - '0' as int
  }

  predicate AllDigits(s: string) {
    forall c | c in s :: Digit(c)
  }

  /** The number that digits denote. */
  function Number(s: string): nat
    requires AllDigits(s)
  {
    if s == [] then 0 else 10 * Number(s[..|s| - 1]) + ValueOf(s[|s| - 1])
  }

  /** The last k digits of n. */
  function LastDigits(n: nat, k: nat): (s: string)
    ensures AllDigits(s) && |s| == k
  {
    if k == 0 then [] else LastDigits(n / 10, k - 1) + [DigitOf(n % 10)]
  }

  function Digits(n: nat): (s: string)
    ensures AllDigits(s) && s != []
  {
    if n < 10 then [DigitOf(n)] else Digits(n / 10) + [DigitOf(n % 10)]
  }

  /** n without its last k digits. */
  function Without(n: nat, k: nat): nat {
    if k == 0 then n else Without(n / 10, k - 1)
  }

  lemma NumberStep(s: string, d: nat)
    requires AllDigits(s) && d < 10
    ensures AllDigits(s + [DigitOf(d)]) && Number(s + [DigitOf(d)]) == 10 * Number(s) + d
  {
    assert (s + [DigitOf(d)])[..|s|] == s;
  }

  lemma {:induction false} NumberDigits(n: nat)
    ensures Number(Digits(n)) == n
  {
    if n < 10 {
      NumberStep([], n);
      assert [] + [DigitOf(n)] == [DigitOf(n)];
    } else {
      NumberDigits(n / 10);
      NumberStep(Digits(n / 10), n % 10);
    }
  }

  /** Cutting the digits of n before the last k loses nothing. */
  lemma {:induction false} NumberSplit(n: nat, k: nat)
    ensures AllDigits(Digits(Without(n, k)) + LastDigits(n, k))
    ensures Number(Digits(Without(n, k)) + LastDigits(n, k)) == n
  {
    if k == 0 {
      NumberDigits(n);
      assert Digits(n) + [] == Digits(n);
    } else {
      NumberSplit(n / 10, k - 1);
      var s := Digits(Without(n / 10, k - 1)) + LastDigits(n / 10, k - 1);
      NumberStep(s, n % 10);
      assert Digits(Without(n, k)) + LastDigits(n, k) == s + [DigitOf(n % 10)];
    }
  }

  // ----- integers -----

  function IntText(n: int): string {
    if n < 0 then "-" + Digits(-n) else Digits(n)
  }

  function LeadingDigits(s: string): (d: string)
    ensures AllDigits(d) && |d| <= |s| && s[..|d|] == d
  {
    if s != [] && Digit(s[0]) then [s[0]] + LeadingDigits(s[1..]) else []
  }

  lemma {:induction false} LeadingIs(d: string, rest: string)
    requires AllDigits(d) && (rest == [] || !Digit(rest[0]))
    ensures LeadingDigits(d + rest) == d
    decreases |d|
  {
    if d == [] {
      assert d + rest == rest;
    } else {
      assert d[0] in d;
      LeadingIs(d[1..], rest);
      assert (d + rest)[1..] == d[1..] + rest;
    }
  }

  predicate Space(c: char) {
    c == ' ' || 9 <= c as int <= 13
  }

  function SkipSpace(s: string): string {
    if s != [] && Space(s[0]) then SkipSpace(s[1..]) else s
  }

  predicate Signed(s: string) {
    s != [] && (s[0] == '-' || s[0] == '+')
  }

  function SkipSign(s: string): string {
    if Signed(s) then s[1..] else s
  }

  /** The integer at the start of a text. */
  function Atoi(s: string): int {
    var t := SkipSpace(s);
    var n: int := Number(LeadingDigits(SkipSign(t)));
    if t != [] && t[0] == '-' then -n else n
  }

  lemma DigitsStart(d: string)
    requires AllDigits(d) && d != []
    ensures SkipSpace(d) == d && SkipSign(d) == d && d[0] != '-' && LeadingDigits(d) == d
  {
    assert d[0] in d;
    LeadingIs(d, []);
    assert d + [] == d;
  }

  lemma MinusStart(d: string)
    ensures SkipSpace("-" + d) == "-" + d && SkipSign("-" + d) == d
  {
    assert ("-" + d)[1..] == d;
  }

  lemma IntReadsBack(n: int)
    ensures Atoi(IntText(n)) == n
  {
    var m := if n < 0 then -n else n;
    DigitsStart(Digits(m));
    MinusStart(Digits(m));
    NumberDigits(m);
  }

  lemma {:induction false} KindDigits(prev: char, d: string, rest: string, dot: bool, exp: bool)
    requires AllDigits(d) && d != []
    ensures Kind(prev, d + rest, dot, exp) == Kind('0', rest, dot, exp)
    decreases |d|
  {
    assert d[0] in d;
    assert (d + rest)[1..] == d[1..] + rest;
    if |d| == 1 {
      assert d[1..] + rest == rest;
      KindPrev(d[0], '0', rest, dot, exp);
    } else {
      KindDigits(d[0], d[1..], rest, dot, exp);
    }
  }

  lemma KindPrev(p: char, p': char, t: string, dot: bool, exp: bool)
    requires IsE(p) == IsE(p')
    ensures Kind(p, t, dot, exp) == Kind(p', t, dot, exp)
  {
  }

  /** A printed integer looks like an integer. */
  lemma IntLooksInt(n: int)
    ensures Guess(IntText(n)) == Int
  {
    var d := Digits(if n < 0 then -n else n);
    assert d[0] in d;
    assert d + [] == d;
    KindDigits(if n < 0 then '-' else 'e', d, [], false, false);
    if n < 0 {
      assert IntText(n)[1..] == d;
    }
  }

  // ----- reals -----

  /** v times ten to the power k. */
  function Shift(v: real, k: int): real
    decreases if k < 0 then -k else k
  {
    if k > 0 then Shift(10.0 * v, k - 1) else if k < 0 then Shift(v / 10.0, k + 1) else v
  }

  /** The exponent of the first digit of v, when v is at least one. */
  function ExponentUp(v: real): (k: nat)
    requires v >= 1.0
    decreases v.Floor
  {
    if v < 10.0 then 0 else 1 + ExponentUp(v / 10.0)
  }

  lemma TenthInverse(v: real)
    requires 0.0 < v <= 1.0
    ensures 1.0 / v >= 1.0 && 1.0 / (10.0 * v) == 1.0 / v / 10.0
  {
  }

  /** How often v can be multiplied by ten before it is at least one. */
  function Below1(v: real): (k: nat)
    requires v > 0.0
    decreases if v < 1.0 then (1.0 / v).Floor else 0
  {
    if v >= 1.0 then 0 else
      TenthInverse(v);
      1 + Below1(10.0 * v)
  }

  /** How often v can be multiplied by ten without exceeding one. */
  function Upto1(v: real): (k: nat)
    requires 0.0 < v <= 1.0
    decreases (1.0 / v).Floor
  {
    TenthInverse(v);
    if 10.0 * v > 1.0 then 0 else 1 + Upto1(10.0 * v)
  }

  /** log10(v) without its fraction. */
  function LogTrunc(v: real): int
    requires v > 0.0
  {
    if v >= 1.0 then ExponentUp(v) else
      var k: int := Upto1(v);
      -k
  }

  /** The power of ten of the first digit of v. */
  function Exponent(v: real): int
    requires v > 0.0
  {
    if v >= 1.0 then ExponentUp(v) else
      var k: int := Below1(v);
      -k
  }

  /** The nearest integer, the even one of two equally near. */
  function Nearest(x: real): (n: int)
    ensures -0.5 <= n as real - x <= 0.5
    ensures x >= 0.0 ==> n >= 0
  {
    var f := x.Floor;
    var d := x - f as real;
    if d < 0.5 then f else if d > 0.5 then f + 1 else if f % 2 == 0 then f else f + 1
  }

  function NearestNat(x: real): (n: nat) {
    if x >= 0.0 then Nearest(x) else 0
  }

  /** n with a decimal point before its last p digits. */
  function Pointed(n: nat, p: nat): string {
    Digits(Without(n, p)) + "." + LastDigits(n, p)
  }

  function Sign(v: real): string {
    if v < 0.0 then "-" else ""
  }

  /** The text of %.pf. */
  function Fixed(v: real, p: nat): string {
    Sign(v) + Pointed(NearestNat(Shift(Abs(v), p)), p)
  }

  /** The exponent part: a sign and at least two digits. */
  function ExpPart(x: int): string {
    ['e', if x < 0 then '-' else '+'] + TwoDigits(if x < 0 then -x else x)
  }

  /** The digits and the exponent that %.pe prints: rounding may carry into the next power of ten. */
  function Scientific(v: real, p: nat): (nat, int)
    requires v > 0.0
  {
    var x := Exponent(v);
    var n := NearestNat(Shift(v, p - x));
    if n >= Pow(p + 1) then (Pow(p), x + 1) else (n, x)
  }

  /** Ten to the power k. */
  function Pow(k: nat): nat {
    if k == 0 then 1 else 10 * Pow(k - 1)
  }

  /** The text of %.pe. */
  function Sci(v: real, p: nat): string
    requires v != 0.0
  {
    var s := Scientific(Abs(v), p);
    Sign(v) + (Pointed(s.0, p) + ExpPart(s.1))
  }

  /** The format chosen: a width, and the digits after the point; or the general one. */
  datatype Format = FixedFmt(width: int, prec: nat) | SciFmt(width: int, prec: nat) | GeneralFmt

  method RealFormat(value: real, nsd: nat) returns (fmt: Format)
    requires nsd >= 1
    ensures fmt == FormatFor(value, nsd)
  {
    var tot: int := nsd + 1;
    var xtot := tot;
    var v := value;
    if v == 0.0 {
      return FixedFmt(tot, nsd - 1);
    }
    if v < 0.0 {
      v := -v;
      xtot := xtot + 1;
    }
    var ndigs := LogTrunc(v);
    if ndigs > 310 || ndigs < -310 {
      return GeneralFmt;
    }
    if v < 1.0 {
      if ndigs <= -5 {
        return SciFmt(xtot, nsd - 1);
      }
      return FixedFmt(xtot - ndigs, nsd - ndigs);
    } else {
      if ndigs >= nsd {
        return SciFmt(xtot, nsd - 1);
      }
      return FixedFmt(xtot, nsd - ndigs);
    }
  }

  function FormatFor(value: real, nsd: nat): Format
    requires nsd >= 1
  {
    var v := Abs(value);
    var w := if value < 0.0 then nsd + 2 else nsd + 1;
    if v == 0.0 then FixedFmt(nsd + 1, nsd - 1)
    else if LogTrunc(v) > 310 || LogTrunc(v) < -310 then GeneralFmt
    else if LogTrunc(v) >= nsd || LogTrunc(v) <= -5 then SciFmt(w, nsd - 1)
    else FixedFmt(if v < 1.0 then w - LogTrunc(v) else w, nsd - LogTrunc(v))
  }

  /** n and p without the zeros at the end of the p digits after the point. */
  function Trimmed(n: nat, p: nat): (nat, nat) {
    if p > 0 && n % 10 == 0 then Trimmed(n / 10, p - 1) else (n, p)
  }

  /** n with a decimal point before its last p digits, if there are any. */
  function Mantissa(n: nat, p: nat): string {
    if p == 0 then Digits(n) else Pointed(n, p)
  }

  /** The text of %g, which has six digits less any zeros at the end, where that takes the form with an exponent. */
  function General(v: real): string
    requires v != 0.0
  {
    var s := Scientific(Abs(v), 5);
    var t := Trimmed(s.0, 5);
    Sign(v) + (Mantissa(t.0, t.1) + ExpPart(s.1))
  }

  /** The text that a format gives, without the blanks that pad it to its width. The general format is for numbers
      so large or small that it takes the form with an exponent. */
  function RealText(v: real, fmt: Format): string
    requires fmt.FixedFmt? || v != 0.0
  {
    match fmt
    case FixedFmt(_, prec) => Fixed(v, prec)
    case SciFmt(_, prec) => Sci(v, prec)
    case GeneralFmt => General(v)
  }

  function Blanks(n: int): (s: string)
    ensures forall c | c in s :: c == ' '
  {
    if n <= 0 then "" else " " + Blanks(n - 1)
  }

  /** The text padded on the left to the format's width. */
  function Printed(v: real, fmt: Format): string
    requires fmt.FixedFmt? || v != 0.0
  {
    Padding(v, fmt) + RealText(v, fmt)
  }

  /** The blanks that pad the text. */
  function Padding(v: real, fmt: Format): string
    requires fmt.FixedFmt? || v != 0.0
  {
    if fmt.GeneralFmt? then "" else Blanks(fmt.width - |RealText(v, fmt)|)
  }

  // ----- reading a real -----

  /** The exponent at the start of a text, if there is one. */
  function ExponentOf(s: string): int {
    if s != [] && IsE(s[0]) && LeadingDigits(SkipSign(s[1..])) != [] then
      var x: int := Number(LeadingDigits(SkipSign(s[1..])));
      if s[1] == '-' then -x else x
    else 0
  }

  /** A decimal number: its sign, its digits, how many of them follow the point, and its power of ten. */
  datatype Num = Num(neg: bool, digits: nat, scale: nat, x: int)

  /** The number at the start of an unsigned text. No digits read as zero. */
  function ParseUnsigned(s: string): Num {
    var a := LeadingDigits(s);
    var s' := s[|a|..];
    var b := if s' != [] && s'[0] == '.' then LeadingDigits(s'[1..]) else "";
    var tail := if s' != [] && s'[0] == '.' then s'[1..][|b|..] else s';
    if a + b == [] then Num(false, 0, 0, 0) else Num(false, Number(a + b), |b|, ExponentOf(tail))
  }

  function ParseReal(s: string): Num {
    var t := SkipSpace(s);
    ParseUnsigned(SkipSign(t)).(neg := t != [] && t[0] == '-')
  }

  function Value(d: Num): real {
    var v := Shift(d.digits as real, d.x - d.scale);
    if d.neg then -v else v
  }

  /** The real at the start of a text. */
  function Atof(s: string): real {
    Value(ParseReal(s))
  }

  lemma LastPart(b: string, tail: string)
    requires AllDigits(b) && (tail == [] || tail[0] == 'e')
    ensures ("." + (b + tail))[1..] == b + tail && LeadingDigits(b + tail) == b && (b + tail)[|b|..] == tail
  {
    LeadingIs(b, tail);
  }

  lemma FirstPart(a: string, rest: string)
    requires AllDigits(a)
    ensures LeadingDigits(a + ("." + rest)) == a && (a + ("." + rest))[|a|..] == "." + rest
  {
    LeadingIs(a, "." + rest);
  }

  lemma ParseParts(a: string, b: string, tail: string)
    requires AllDigits(a) && AllDigits(b) && AllDigits(a + b) && a != [] && (tail == [] || tail[0] == 'e')
    ensures ParseUnsigned(a + ("." + (b + tail))) == Num(false, Number(a + b), |b|, ExponentOf(tail))
  {
    FirstPart(a, b + tail);
    LastPart(b, tail);
  }

  lemma ParsePointed(n: nat, p: nat, tail: string)
    requires tail == [] || tail[0] == 'e'
    ensures ParseUnsigned(Pointed(n, p) + tail) == Num(false, n, p, ExponentOf(tail))
  {
    var a, b := Digits(Without(n, p)), LastDigits(n, p);
    assert Pointed(n, p) + tail == a + ("." + (b + tail));
    NumberSplit(n, p);
    ParseParts(a, b, tail);
  }

  lemma ParseWhole(n: nat, tail: string)
    requires tail == [] || tail[0] == 'e'
    ensures ParseUnsigned(Digits(n) + tail) == Num(false, n, 0, ExponentOf(tail))
  {
    LeadingIs(Digits(n), tail);
    NumberDigits(n);
    assert (Digits(n) + tail)[|Digits(n)|..] == tail;
    assert Digits(n) + "" == Digits(n);
  }

  lemma ParseMantissa(n: nat, p: nat, tail: string)
    requires tail == [] || tail[0] == 'e'
    ensures ParseUnsigned(Mantissa(n, p) + tail) == Num(false, n, p, ExponentOf(tail))
  {
    if p == 0 {
      ParseWhole(n, tail);
    } else {
      ParsePointed(n, p, tail);
    }
  }

  lemma StripSigned(v: real, s: string)
    requires s != [] && Digit(s[0])
    ensures SkipSpace(Sign(v) + s) == Sign(v) + s && SkipSign(Sign(v) + s) == s
    ensures (Sign(v) + s)[0] == '-' <==> v < 0.0
  {
    if v < 0.0 {
      assert (Sign(v) + s)[1..] == s;
    } else {
      assert Sign(v) + s == s;
    }
  }

  lemma ParseSigned(v: real, s: string)
    requires s != [] && Digit(s[0])
    ensures ParseReal(Sign(v) + s) == ParseUnsigned(s).(neg := v < 0.0)
  {
    StripSigned(v, s);
  }

  /** The digits of an exponent: two at least. */
  function TwoDigits(m: nat): (d: string)
    ensures AllDigits(d) && d != []
  {
    if |Digits(m)| < 2 then "0" + Digits(m) else Digits(m)
  }

  lemma NumberTwo(m: nat)
    ensures Number(TwoDigits(m)) == m && LeadingDigits(TwoDigits(m)) == TwoDigits(m)
  {
    LeadingIs(TwoDigits(m), []);
    assert TwoDigits(m) + [] == TwoDigits(m);
    NumberDigits(m);
    if |Digits(m)| < 2 {
      assert Digits(m) == [DigitOf(m)];
      NumberStep("0", m);
      NumberStep([], 0);
      assert [] + [DigitOf(0)] == "0";
    }
  }

  lemma ExpPartRead(x: int)
    ensures ExponentOf(ExpPart(x)) == x
  {
    NumberTwo(if x < 0 then -x else x);
    var dd := TwoDigits(if x < 0 then -x else x);
    assert ExpPart(x)[1..] == [if x < 0 then '-' else '+'] + dd && ExpPart(x)[1..][1..] == dd;
  }

  // ----- what the texts look like -----

  lemma KindPointed(prev: char, n: nat, p: nat, tail: string)
    requires p >= 1
    ensures Kind(prev, Pointed(n, p) + tail, false, false) == Kind('0', tail, true, false)
  {
    var a, b := Digits(Without(n, p)), LastDigits(n, p);
    assert Pointed(n, p) + tail == a + ("." + (b + tail));
    KindDigits(prev, a, "." + (b + tail), false, false);
    assert ("." + (b + tail))[1..] == b + tail;
    KindDigits('.', b, tail, true, false);
  }

  lemma KindExpPart(x: int, dot: bool)
    ensures Kind('0', ExpPart(x), dot, false) == Real
  {
    var dd := TwoDigits(if x < 0 then -x else x);
    assert ExpPart(x)[1..] == [if x < 0 then '-' else '+'] + dd && ExpPart(x)[1..][1..] == dd;
    assert dd + [] == dd;
    KindDigits(if x < 0 then '-' else '+', dd, [], dot, true);
  }

  lemma SignedLooks(v: real, s: string)
    requires s != [] && Digit(s[0])
    ensures Guess(Sign(v) + s) == Kind('e', s, false, false)
  {
    if v < 0.0 {
      assert (Sign(v) + s)[1..] == s;
      KindFirst(s);
    } else {
      assert Sign(v) + s == s;
    }
  }

  lemma KindFirst(s: string)
    requires s != [] && Digit(s[0])
    ensures Kind('-', s, false, false) == Kind('e', s, false, false)
  {
  }

  lemma MantissaFirst(n: nat, p: nat, tail: string)
    ensures Mantissa(n, p) + tail != [] && Digit((Mantissa(n, p) + tail)[0])
  {
    if p == 0 {
      assert (Mantissa(n, p) + tail)[0] in Digits(n);
    } else {
      PointedFirst(n, p, tail);
    }
  }

  lemma PointedFirst(n: nat, p: nat, tail: string)
    ensures Pointed(n, p) + tail != [] && Digit((Pointed(n, p) + tail)[0])
  {
    assert (Pointed(n, p) + tail)[0] in Digits(Without(n, p));
  }

  // ----- how close a printed real is -----

  /** The number of significant digits that reals are written with. */
  const REAL_SIGDIG: nat := 6

  ghost predicate Close(a: real, v: real) {
    -0.000005 * Abs(v) <= a - v <= 0.000005 * Abs(v)
  }

  lemma {:induction false} ShiftSum(v: real, a: int, b: int)
    ensures Shift(Shift(v, a), b) == Shift(v, a + b)
    decreases if a < 0 then -a else a
  {
    if a > 0 {
      ShiftSum(10.0 * v, a - 1, b);
      ShiftUp(v, a + b);
    } else if a < 0 {
      ShiftSum(v / 10.0, a + 1, b);
      ShiftUp(v / 10.0, a + b + 1);
    }
  }

  lemma ShiftUp(v: real, k: int)
    ensures Shift(10.0 * v, k - 1) == Shift(v, k)
  {
    if k <= 0 {
      assert 10.0 * v / 10.0 == v;
    }
  }

  lemma {:induction false} ShiftClose(a: real, b: real, k: int)
    requires b > 0.0 && Close(a, b)
    ensures Shift(b, k) > 0.0 && Close(Shift(a, k), Shift(b, k))
    decreases if k < 0 then -k else k
  {
    if k > 0 {
      ShiftClose(10.0 * a, 10.0 * b, k - 1);
    } else if k < 0 {
      ShiftClose(a / 10.0, b / 10.0, k + 1);
    }
  }

  lemma {:induction false} ShiftOrder(a: real, b: real, k: int)
    requires a < b
    ensures Shift(a, k) < Shift(b, k)
    decreases if k < 0 then -k else k
  {
    if k > 0 {
      ShiftOrder(10.0 * a, 10.0 * b, k - 1);
    } else if k < 0 {
      ShiftOrder(a / 10.0, b / 10.0, k + 1);
    }
  }

  lemma {:induction false} ShiftPow(k: nat)
    ensures Shift(1.0, k) == Pow(k) as real && Shift(10.0, k) == Pow(k + 1) as real
  {
    if k == 0 {
    } else {
      ShiftTenfold(1.0, k - 1);
      ShiftTenfold(10.0, k - 1);
      ShiftPow(k - 1);
    }
  }

  lemma {:induction false} ShiftTenfold(v: real, k: int)
    ensures Shift(10.0 * v, k) == 10.0 * Shift(v, k)
    decreases if k < 0 then -k else k
  {
    if k > 0 {
      ShiftTenfold(10.0 * v, k - 1);
    } else if k < 0 {
      ShiftTenfold(v / 10.0, k + 1);
    }
  }

  /** Rounding a shifted value of at least 100000 to an integer is a relative error of 0.000005 at most. */
  lemma Rounded(v: real, k: int)
    requires v > 0.0 && Shift(v, k) >= 100000.0
    ensures Close(Shift(NearestNat(Shift(v, k)) as real, -k), v)
  {
    var y := Shift(v, k);
    ShiftClose(NearestNat(y) as real, y, -k);
    ShiftSum(v, k, -k);
  }

  lemma {:induction false} ExponentUpRange(v: real)
    requires v >= 1.0
    ensures var k: int := ExponentUp(v); 1.0 <= Shift(v, -k) < 10.0
    decreases v.Floor
  {
    if v >= 10.0 {
      ExponentUpRange(v / 10.0);
    }
  }

  lemma {:induction false} Below1Range(v: real)
    requires 0.0 < v < 10.0
    ensures 1.0 <= Shift(v, Below1(v)) < 10.0
    decreases Below1(v)
  {
    if v < 1.0 {
      Below1Range(10.0 * v);
    }
  }

  lemma {:induction false} Upto1Range(v: real)
    requires 0.0 < v <= 1.0
    ensures 0.1 < Shift(v, Upto1(v)) <= 1.0
    decreases Upto1(v)
  {
    if 10.0 * v <= 1.0 {
      Upto1Range(10.0 * v);
    }
  }

  /** The first digit of v stands before the point once v is shifted by its exponent. */
  lemma ExponentRange(v: real)
    requires v > 0.0
    ensures 1.0 <= Shift(v, -Exponent(v)) < 10.0
  {
    if v >= 1.0 {
      ExponentUpRange(v);
    } else {
      Below1Range(v);
    }
  }

  lemma ShiftAtLeast(y: real, b: real, k: int)
    requires y >= b
    ensures Shift(y, k) >= Shift(b, k)
  {
    if y > b {
      ShiftOrder(b, y, k);
    }
  }

  /** In the fixed formats, at least six digits of v are printed, or five when v is below one. */
  lemma FixedRange(v: real)
    requires v > 0.0 && -5 < LogTrunc(v) < REAL_SIGDIG
    ensures Shift(v, REAL_SIGDIG - LogTrunc(v)) >= 100000.0
  {
    ShiftPow(5);
    ShiftPow(6);
    if v >= 1.0 {
      ExponentUpRange(v);
      ShiftSum(v, -LogTrunc(v), 6);
      ShiftAtLeast(Shift(v, -LogTrunc(v)), 1.0, 6);
    } else {
      Upto1Range(v);
      ShiftSum(v, -LogTrunc(v), 6);
      ShiftUp(0.1, 6);
      ShiftAtLeast(Shift(v, -LogTrunc(v)), 0.1, 6);
    }
  }

  lemma FixedClose(v: real)
    requires v > 0.0 && -5 < LogTrunc(v) < REAL_SIGDIG
    ensures var p := REAL_SIGDIG - LogTrunc(v); Close(Value(Num(false, NearestNat(Shift(v, p)), p, 0)), v)
  {
    FixedRange(v);
    Rounded(v, REAL_SIGDIG - LogTrunc(v));
  }

  lemma SciClose(v: real)
    requires v > 0.0
    ensures var s := Scientific(v, 5); Close(Value(Num(false, s.0, 5, s.1)), v)
  {
    var x := Exponent(v);
    var y := Shift(v, 5 - x);
    ExponentRange(v);
    ShiftSum(v, -x, 5);
    ShiftPow(5);
    ShiftAtLeast(Shift(v, -x), 1.0, 5);
    ShiftOrder(Shift(v, -x), 10.0, 5);
    Rounded(v, 5 - x);
    if NearestNat(y) >= Pow(6) {
      assert NearestNat(y) == Pow(6) == 10 * Pow(5);
      ShiftUp(Pow(5) as real, x - 4);
    }
  }

  lemma Negated(d: Num, v: real)
    requires !d.neg && Close(Value(d), Abs(v))
    ensures Close(Value(d.(neg := v < 0.0)), v)
  {
  }

  /** The value of the text of a signed number. */
  lemma ParseText(v: real, n: nat, p: nat, tail: string)
    requires tail == [] || tail[0] == 'e'
    ensures ParseReal(Sign(v) + (Pointed(n, p) + tail)) == Num(v < 0.0, n, p, ExponentOf(tail))
  {
    PointedFirst(n, p, tail);
    ParseSigned(v, Pointed(n, p) + tail);
    ParsePointed(n, p, tail);
  }

  lemma ParseFixed(v: real, p: nat)
    ensures ParseReal(Fixed(v, p)) == Num(v < 0.0, NearestNat(Shift(Abs(v), p)), p, 0)
  {
    var n := NearestNat(Shift(Abs(v), p));
    ParseText(v, n, p, []);
    assert Pointed(n, p) + [] == Pointed(n, p);
  }

  lemma ParseSci(v: real, p: nat)
    requires v != 0.0
    ensures ParseReal(Sci(v, p)) == Num(v < 0.0, Scientific(Abs(v), p).0, p, Scientific(Abs(v), p).1)
  {
    var s := Scientific(Abs(v), p);
    ParseText(v, s.0, p, ExpPart(s.1));
    ExpPartRead(s.1);
  }

  lemma LooksReal(v: real, n: nat, p: nat, tail: string)
    requires p >= 1 && Kind('0', tail, true, false) == Real
    ensures Guess(Sign(v) + (Pointed(n, p) + tail)) == Real
  {
    PointedFirst(n, p, tail);
    SignedLooks(v, Pointed(n, p) + tail);
    KindPointed('e', n, p, tail);
  }

  lemma FixedLooksReal(v: real, p: nat)
    requires p >= 1
    ensures Guess(Fixed(v, p)) == Real
  {
    var n := NearestNat(Shift(Abs(v), p));
    LooksReal(v, n, p, []);
    assert Pointed(n, p) + [] == Pointed(n, p);
  }

  lemma SciLooksReal(v: real, p: nat)
    requires p >= 1 && v != 0.0
    ensures Guess(Sci(v, p)) == Real
  {
    var s := Scientific(Abs(v), p);
    KindExpPart(s.1, true);
    LooksReal(v, s.0, p, ExpPart(s.1));
  }

  lemma MantissaLooks(n: nat, p: nat, x: int)
    ensures Kind('e', Mantissa(n, p) + ExpPart(x), false, false) == Real
  {
    KindExpPart(x, p > 0);
    if p == 0 {
      KindDigits('e', Digits(n), ExpPart(x), false, false);
    } else {
      KindPointed('e', n, p, ExpPart(x));
    }
  }

  lemma GeneralLooksReal(v: real)
    requires v != 0.0
    ensures Guess(General(v)) == Real
  {
    var s := Scientific(Abs(v), 5);
    var t := Trimmed(s.0, 5);
    MantissaFirst(t.0, t.1, ExpPart(s.1));
    SignedLooks(v, Mantissa(t.0, t.1) + ExpPart(s.1));
    MantissaLooks(t.0, t.1, s.1);
  }

  /** The zeros left out make no difference. */
  lemma {:induction false} TrimmedValue(neg: bool, n: nat, p: nat, x: int)
    ensures Value(Num(neg, Trimmed(n, p).0, Trimmed(n, p).1, x)) == Value(Num(neg, n, p, x))
    decreases p
  {
    if p > 0 && n % 10 == 0 {
      TrimmedValue(neg, n / 10, p - 1, x);
      ShiftUp((n / 10) as real, x - p + 1);
      assert n as real == 10.0 * (n / 10) as real;
    }
  }

  lemma {:induction false} ShiftZero(k: int)
    ensures Shift(0.0, k) == 0.0
    decreases if k < 0 then -k else k
  {
    if k > 0 {
      ShiftZero(k - 1);
    } else if k < 0 {
      ShiftZero(k + 1);
    }
  }

  lemma ZeroReadsBack()
    ensures Atof(Fixed(0.0, 5)) == 0.0
  {
    ParseFixed(0.0, 5);
    ShiftZero(5);
    ShiftZero(-5);
  }

  lemma FixedReadsBack(v: real)
    requires v != 0.0 && -5 < LogTrunc(Abs(v)) < REAL_SIGDIG
    ensures Close(Atof(Fixed(v, REAL_SIGDIG - LogTrunc(Abs(v)))), v)
  {
    var p := REAL_SIGDIG - LogTrunc(Abs(v));
    ParseFixed(v, p);
    FixedClose(Abs(v));
    Negated(Num(false, NearestNat(Shift(Abs(v), p)), p, 0), v);
  }

  lemma SciReadsBack(v: real)
    requires v != 0.0
    ensures Close(Atof(Sci(v, 5)), v)
  {
    ParseSci(v, 5);
    SciClose(Abs(v));
    var s := Scientific(Abs(v), 5);
    Negated(Num(false, s.0, 5, s.1), v);
  }

  lemma GeneralReadsBack(v: real)
    requires v != 0.0
    ensures Close(Atof(General(v)), v)
  {
    var s := Scientific(Abs(v), 5);
    var t := Trimmed(s.0, 5);
    MantissaFirst(t.0, t.1, ExpPart(s.1));
    ParseSigned(v, Mantissa(t.0, t.1) + ExpPart(s.1));
    ParseMantissa(t.0, t.1, ExpPart(s.1));
    ExpPartRead(s.1);
    TrimmedValue(v < 0.0, s.0, 5, s.1);
    SciClose(Abs(v));
    Negated(Num(false, s.0, 5, s.1), v);
  }

  // ----- which format a real gets -----

  lemma {:induction false} ShiftGrows(v: real, k: nat)
    requires v > 0.0
    ensures Shift(v, k) >= v
    decreases k
  {
    if k > 0 {
      ShiftGrows(10.0 * v, k - 1);
    }
  }

  lemma {:induction false} UpAtLeast(v: real, n: nat)
    requires v >= 1.0
    ensures ExponentUp(v) >= n <==> v >= Shift(1.0, n)
    decreases n
  {
    if n > 0 {
      ShiftUp(1.0, n);
      ShiftTenfold(1.0, n - 1);
      ShiftGrows(1.0, n - 1);
      if v >= 10.0 {
        UpAtLeast(v / 10.0, n - 1);
      }
    }
  }

  lemma {:induction false} UptoAtLeast(v: real, n: nat)
    requires 0.0 < v <= 1.0
    ensures Upto1(v) >= n <==> Shift(v, n) <= 1.0
    decreases n
  {
    if n > 0 {
      if 10.0 * v <= 1.0 {
        UptoAtLeast(10.0 * v, n - 1);
      } else {
        ShiftGrows(10.0 * v, n - 1);
      }
    }
  }

  lemma ShiftFive(v: real)
    ensures Shift(v, 5) == 100000.0 * v && Shift(v, 6) == 1000000.0 * v
  {
    ShiftUp(v, 6);
    ShiftUp(10.0 * v, 5);
    ShiftUp(100.0 * v, 4);
    ShiftUp(1000.0 * v, 3);
    ShiftUp(10000.0 * v, 2);
    ShiftUp(100000.0 * v, 1);
    ShiftUp(v, 5);
    ShiftUp(10.0 * v, 4);
    ShiftUp(100.0 * v, 3);
    ShiftUp(1000.0 * v, 2);
    ShiftUp(10000.0 * v, 1);
  }

  /** Numbers from a hundred thousandth to a million are written with a fixed point, so that six of their digits show
      besides the first one, or five or six below one. All others get an exponent: after five decimals, or without
      zeros at the end when they are so large or small that the general format is used. */
  lemma FormatIs(v: real)
    requires v != 0.0
    ensures var fmt, a, neg := FormatFor(v, REAL_SIGDIG), Abs(v), if v < 0.0 then 1 else 0;
      && (fmt.FixedFmt? <==> 0.00001 < a < 1000000.0)
      && (fmt.GeneralFmt? <==> a >= Shift(1.0, 311) || Shift(a, 311) <= 1.0)
      && (fmt.FixedFmt? && a >= 1.0 ==> fmt.width == 7 + neg && 1.0 <= Shift(a, fmt.prec - 6) < 10.0)
      && (fmt.FixedFmt? && a < 1.0 ==> fmt.width == fmt.prec + 1 + neg && 0.1 < Shift(a, fmt.prec - 6) <= 1.0)
      && (fmt.SciFmt? ==> fmt.width == 7 + neg && fmt.prec == 5)
  {
    var a := Abs(v);
    ShiftFive(1.0);
    ShiftFive(a);
    if a >= 1.0 {
      UpAtLeast(a, 6);
      UpAtLeast(a, 311);
      ExponentUpRange(a);
      ShiftGrows(10.0 * a, 310);
    } else {
      UptoAtLeast(a, 5);
      UptoAtLeast(a, 311);
      Upto1Range(a);
      ShiftGrows(1.0, 311);
    }
  }

  // ----- any number that is guessed -----

  function Fraction(n: Numeral): string {
    if n.frac.Some? then n.frac.value else ""
  }

  /** The power of ten that an exponent gives, none if it has no digits. */
  function PowerOf(n: Numeral): int
    requires n.Valid()
  {
    if n.expo.None? then 0
    else
      var x: int := Number(n.expo.value.digits);
      if n.expo.value.sign == "-" then -x else x
  }

  lemma SignSkipped(n: Numeral, rest: string)
    requires n.Valid() && (rest == [] || !(Space(rest[0]) || rest[0] == '-' || rest[0] == '+'))
    ensures var t := n.sign + rest; SkipSpace(t) == t && SkipSign(t) == rest
    ensures var t := n.sign + rest; (t != [] && t[0] == '-') == (n.sign == "-")
  {
    if n.sign == "" {
      assert n.sign + rest == rest;
    } else {
      assert (n.sign + rest)[0] == n.sign[0] && (n.sign + rest)[1..] == rest;
    }
  }

  lemma PowerRead(m: Numeral)
    requires m.Valid() && m.Plain()
    ensures AllDigits(m.whole) && LeadingDigits(SkipSign(m.sign + m.whole)) == m.whole
    ensures m.whole != [] ==> ((m.sign + m.whole)[0] == '-' <==> m.sign == "-")
  {
    LeadingIs(m.whole, []);
    assert m.whole + [] == m.whole;
    if m.whole != [] {
      assert m.whole[0] in m.whole;
    }
    SignSkipped(m, m.whole);
  }

  lemma TailRead(n: Numeral)
    requires n.Valid()
    ensures ExponentOf(n.Tail()) == PowerOf(n)
  {
    if n.expo.Some? {
      var x := n.expo.value;
      PowerRead(Numeral(x.sign, x.digits, None, None));
      assert n.Tail()[1..] == x.sign + x.digits;
      assert x.digits != [] ==> n.Tail()[1] == (x.sign + x.digits)[0];
    }
  }

  lemma PartsRead(n: Numeral)
    requires n.Valid()
    ensures var a, b := n.whole, Fraction(n);
      && AllDigits(a) && AllDigits(b) && AllDigits(a + b)
      && ParseUnsigned(a + n.Rest()) ==
         if a + b == [] then Num(false, 0, 0, 0) else Num(false, Number(a + b), |b|, PowerOf(n))
  {
    var a, b := n.whole, Fraction(n);
    assert n.Tail() == [] || IsE(n.Tail()[0]);
    LeadingIs(a, n.Rest());
    assert (a + n.Rest())[|a|..] == n.Rest();
    TailRead(n);
    if n.frac.Some? {
      LeadingIs(b, n.Tail());
      assert n.Rest()[1..] == b + n.Tail() && (b + n.Tail())[|b|..] == n.Tail();
    }
  }

  lemma NumeralParsed(n: Numeral)
    requires n.Valid()
    ensures ParseReal(n.Text()) == ParseUnsigned(n.whole + n.Rest()).(neg := n.sign == "-")
    ensures n.Plain() ==> SkipSign(SkipSpace(n.Text())) == n.whole
  {
    var rest := n.whole + n.Rest();
    if n.whole != [] {
      assert rest[0] == n.whole[0] && n.whole[0] in n.whole;
    } else {
      assert rest == n.Rest();
    }
    SignSkipped(n, rest);
    if n.Plain() {
      assert rest == n.whole;
    }
  }

  /** The value that a number says: its digits with the point among them, its sign and its power of ten. */
  function Said(n: Numeral): real
    requires n.Valid() && AllDigits(n.whole + Fraction(n))
  {
    var v := Shift(Number(n.whole + Fraction(n)) as real, PowerOf(n) - |Fraction(n)|);
    if n.sign == "-" then -v else v
  }

  lemma ZeroValue(d: Num)
    requires d.digits == 0
    ensures Value(d) == 0.0
  {
    ShiftZero(d.x - d.scale);
  }

  lemma SaidIs(n: Numeral, d: Num)
    requires n.Valid() && AllDigits(n.whole + Fraction(n))
    requires d == Num(n.sign == "-", Number(n.whole + Fraction(n)), |Fraction(n)|, PowerOf(n))
    ensures Said(n) == Value(d)
  {
  }

  /** A number in whichever form is read as what it says, a missing part counting as zero. */
  lemma NumeralRead(n: Numeral)
    requires n.Valid()
    ensures AllDigits(n.whole + Fraction(n)) && Atof(n.Text()) == Said(n)
  {
    NumeralParsed(n);
    PartsRead(n);
    var d := Num(n.sign == "-", Number(n.whole + Fraction(n)), |Fraction(n)|, PowerOf(n));
    SaidIs(n, d);
    if n.whole + Fraction(n) == [] {
      ZeroValue(ParseReal(n.Text()));
      ZeroValue(d);
    }
  }

  /** So is an integer. */
  lemma IntegerRead(n: Numeral)
    requires n.Valid() && n.Plain()
    ensures var m: int := Number(n.whole); Atoi(n.Text()) == if n.sign == "-" then -m else m
  {
    NumeralParsed(n);
    PowerRead(n);
    if n.whole != [] {
      assert n.whole[0] in n.whole;
    }
    SignSkipped(n, n.whole);
    assert n.Text() == n.sign + n.whole;
  }

  /** The text that cgats_write prints for a real, before padding. */
  function CellText(v: real): string {
    RealText(v, FormatFor(v, REAL_SIGDIG))
  }

  lemma CellTextIs(v: real)
    ensures v == 0.0 ==> CellText(v) == Fixed(0.0, 5)
    ensures v != 0.0 && FormatFor(v, REAL_SIGDIG).FixedFmt? ==>
              -5 < LogTrunc(Abs(v)) < REAL_SIGDIG && CellText(v) == Fixed(v, REAL_SIGDIG - LogTrunc(Abs(v)))
    ensures v != 0.0 && FormatFor(v, REAL_SIGDIG).SciFmt? ==> CellText(v) == Sci(v, 5)
    ensures v != 0.0 && FormatFor(v, REAL_SIGDIG).GeneralFmt? ==> CellText(v) == General(v)
  {
  }

  lemma FormatLooksReal(v: real, fmt: Format)
    requires v != 0.0 && (fmt.GeneralFmt? || fmt.prec >= 1)
    ensures Guess(RealText(v, fmt)) == Real
  {
    match fmt
    case FixedFmt(_, p) => FixedLooksReal(v, p);
    case SciFmt(_, p) => SciLooksReal(v, p);
    case GeneralFmt => GeneralLooksReal(v);
  }

  /** Every real looks like a real when it is written. */
  lemma RealLooksReal(v: real, s: string)
    requires s == CellText(v)
    ensures Guess(s) == Real
  {
    if v == 0.0 {
      CellTextIs(v);
      FixedLooksReal(0.0, 5);
    } else {
      FormatLooksReal(v, FormatFor(v, REAL_SIGDIG));
    }
  }

  /** The text of a real reads back within a relative error of 0.000005, and that of zero as zero. */
  lemma RealReadsBack(v: real, s: string)
    requires s == CellText(v)
    ensures Close(Atof(s), v)
  {
    CellTextIs(v);
    if v == 0.0 {
      ZeroReadsBack();
    } else if FormatFor(v, REAL_SIGDIG).FixedFmt? {
      FixedReadsBack(v);
    } else if FormatFor(v, REAL_SIGDIG).SciFmt? {
      SciReadsBack(v);
    } else {
      GeneralReadsBack(v);
    }
  }
}
