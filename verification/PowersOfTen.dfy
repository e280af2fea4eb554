/** Powers of ten, absolute values, signs and squares. */
module PowersOfTen {
  function Abs(x: real): real {
    if x < 0.0 then -x else x
  }

  function Ten(n: nat): (r: real)
    ensures r >= 1.0
  {
    if n == 0 then 1.0 else 10.0 * Ten(n - 1)
  }

  lemma {:induction false} TenSum(m: nat, n: nat)
    ensures Ten(m + n) == Ten(m) * Ten(n)
  {
    if m == 0 {
    } else {
      TenSum(m - 1, n);
      assert Ten(m + n) == 10.0 * Ten(m - 1 + n);
    }
  }

  lemma {:induction false} TenUp(m: nat, n: nat)
    requires m <= n
    ensures Ten(m) <= Ten(n)
  {
    if m < n {
      TenUp(m, n - 1);
    }
  }

  lemma SignTimes(x: real, y: real)
    ensures x > 0.0 && y > 0.0 ==> x * y > 0.0
    ensures x > 0.0 && y < 0.0 ==> x * y < 0.0
    ensures x < 0.0 && y > 0.0 ==> x * y < 0.0
    ensures x < 0.0 && y < 0.0 ==> x * y > 0.0
    ensures y == 0.0 ==> x * y == 0.0
  {
  }

  function Square(x: real): real {
    x * x
  }

  lemma SquareOfAbs(x: real)
    ensures Square(Abs(x)) == Square(x)
  {
  }

  lemma SquareLess(a: real, b: real)
    requires 0.0 <= a < b
    ensures Square(a) < Square(b)
  {
    SignTimes(b - a, b + a);
    assert (b - a) * (b + a) == b * b - a * a;
  }

  lemma SquareAbs(x: real, y: real)
    ensures Abs(x) >= Abs(y) <==> Square(x) >= Square(y)
  {
    SquareOfAbs(x);
    SquareOfAbs(y);
    if Abs(x) < Abs(y) {
      SquareLess(Abs(x), Abs(y));
    } else if Abs(y) < Abs(x) {
      SquareLess(Abs(y), Abs(x));
    }
  }
}
