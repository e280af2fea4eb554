/** Triangles with bounding boxes, and the distance that a box guarantees. */
module Boxes {
  import opened PlaneEq
  import opened PowersOfTen

  function At(v: Vec, f: nat): real
    requires f < 3
  {
    if f == 0 then v.0 else if f == 1 then v.1 else v.2
  }

  /** The bound within which box edges are initialised. */
  const FAR_DIGITS: nat := 38
  const FAR: real := Ten(FAR_DIGITS)

  const SIX: nat := 6

  /** The mark of an exhausted window, and the distance that any triangle improves on. */
  const INF_DIGITS: nat := 307
  const GNN_INF: real := Ten(INF_DIGITS)
  const WORST_DIGITS: nat := 308
  const WORST: real := Ten(WORST_DIGITS)

  ghost predicate Near(v: Vec) {
    forall f: nat | f < 3 :: -FAR < At(v, f) < FAR
  }

  lemma SignedSqPos(x: real)
    requires x >= 0.0
    ensures SignedSq(x) == x * x
  {
  }

  lemma SquareTen(a: nat)
    ensures SignedSq(Ten(a)) == Ten(a + a)
  {
    SignedSqPos(Ten(a));
    TenSum(a, a);
  }

  lemma TenSquare(a: nat, b: nat)
    requires 2 * a < b
    ensures SignedSq(Ten(a)) < Ten(b)
  {
    SquareTen(a);
    TenMore(a + a, b);
  }

  lemma TenOver(a: nat, b: nat, x: real)
    requires x < Ten(a) + Ten(a) && 2 * a + 2 < b
    ensures x < Ten(b) && SignedSq(x) < Ten(b)
  {
    var y := Ten(a + 1);
    assert y == 10.0 * Ten(a);
    assert x <= y;
    TenUp(a + 1, b - 1);
    assert Ten(b) == 10.0 * Ten(b - 1);
    SignedSqUp(x, y);
    TenSquare(a + 1, b);
  }

  /** Distances and squared distances between points in range are below the mark of an exhausted window. */
  lemma InRange(x: real)
    requires x < FAR + FAR
    ensures x < GNN_INF && SignedSq(x) < GNN_INF
  {
    TenOver(FAR_DIGITS, INF_DIGITS, x);
  }

  lemma InfBig()
    ensures GNN_INF > 0.0 && SignedSq(GNN_INF) > WORST
  {
    TenSquareOver(INF_DIGITS, WORST_DIGITS);
  }

  lemma TenSquareOver(a: nat, b: nat)
    requires b < 2 * a
    ensures Ten(a) > 0.0 && SignedSq(Ten(a)) > Ten(b)
  {
    SquareTen(a);
    TenMore(b, a + a);
  }

  lemma TenMore(m: nat, n: nat)
    requires m < n
    ensures Ten(m) < Ten(n)
  {
    TenUp(m, n - 1);
    assert Ten(n) == 10.0 * Ten(n - 1);
  }

  lemma TenTen(n: nat)
    requires n >= 1
    ensures Ten(n) >= 10.0
  {
    TenUp(1, n);
  }

  lemma WorstBig()
    ensures WORST >= 10.0
  {
    TenTen(WORST_DIGITS);
  }

  lemma FarBig()
    ensures FAR >= 10.0
  {
    TenTen(FAR_DIGITS);
  }

  /** Every point with coordinates below a million is near enough. */
  lemma NearEnough(v: Vec)
    requires forall f: nat | f < 3 :: -1000000.0 < At(v, f) < 1000000.0
    ensures Near(v)
  {
    TenUp(SIX, FAR_DIGITS);
    assert FAR >= 1000000.0 by {
      assert Ten(SIX) == 1000000.0;
    }
    forall f: nat | f < 3
      ensures -FAR < At(v, f) < FAR
    {
      assert -1000000.0 < At(v, f) < 1000000.0;
    }
  }

  function Lower(a: real, b: real): real {
    if b < a then b else a
  }

  function Upper(a: real, b: real): real {
    if b > a then b else a
  }

  /** The lower edge of the box of three vertices: the least of their coordinates, starting from FAR. */
  function LowEdge(t: (Vec, Vec, Vec), f: nat): real
    requires f < 3
  {
    Lower(Lower(Lower(FAR, At(t.0, f)), At(t.1, f)), At(t.2, f))
  }

  function HighEdge(t: (Vec, Vec, Vec), f: nat): real
    requires f < 3
  {
    Upper(Upper(Upper(-FAR, At(t.0, f)), At(t.1, f)), At(t.2, f))
  }

  /** Barycentric weights of a point on a triangle. */
  type Weights = w: (real, real, real) | w.0 >= 0.0 && w.1 >= 0.0 && w.2 >= 0.0 && w.0 + w.1 + w.2 == 1.0
    witness (1.0, 0.0, 0.0)

  function Blend(w: Weights, a: real, b: real, c: real): real {
    w.0 * a + w.1 * b + w.2 * c
  }

  function PointOn(t: (Vec, Vec, Vec), w: Weights): Vec {
    (Blend(w, At(t.0, 0), At(t.1, 0), At(t.2, 0)), Blend(w, At(t.0, 1), At(t.1, 1), At(t.2, 1)),
      Blend(w, At(t.0, 2), At(t.1, 2), At(t.2, 2)))
  }

  /** The distance to the weighted mean of the corners, written out. */
  lemma DistanceIs(t: (Vec, Vec, Vec), w: Weights, q: Vec)
    ensures SqDist(PointOn(t, w), q) ==
      Square(w.0 * t.0.0 + w.1 * t.1.0 + w.2 * t.2.0 - q.0) + Square(w.0 * t.0.1 + w.1 * t.1.1 + w.2 * t.2.1 - q.1)
      + Square(w.0 * t.0.2 + w.1 * t.1.2 + w.2 * t.2.2 - q.2)
  {
  }

  /** A length squared, keeping its sign. */
  function SignedSq(x: real): real {
    Abs(x) * x
  }

  lemma Scale(k: real, x: real, y: real)
    requires k >= 0.0 && x <= y
    ensures k * x <= k * y
  {
  }

  lemma ScaleSum(u: real, v: real, w: real, m: real)
    requires u + v + w == 1.0
    ensures u * m + v * m + w * m == m
  {
    assert u * m + v * m + w * m == (u + v + w) * m;
  }

  lemma SumBelow(u: real, v: real, w: real, a: real, b: real, c: real, m: real)
    requires u >= 0.0 && v >= 0.0 && w >= 0.0 && u + v + w == 1.0 && a <= m && b <= m && c <= m
    ensures u * a + v * b + w * c <= m
  {
    ScaleSum(u, v, w, m);
    var (x, y, z) := (u * m, v * m, w * m);
    assert u * a <= x by {
      Scale(u, a, m);
    }
    assert v * b <= y by {
      Scale(v, b, m);
    }
    assert w * c <= z by {
      Scale(w, c, m);
    }
    SumOrder(u * a, v * b, w * c, x, y, z);
  }

  lemma SumsBetween(u: real, v: real, w: real, a: real, b: real, c: real, lo: real, hi: real)
    requires u >= 0.0 && v >= 0.0 && w >= 0.0 && u + v + w == 1.0
    requires lo <= a <= hi && lo <= b <= hi && lo <= c <= hi
    ensures lo <= u * a + v * b + w * c <= hi
  {
    SumBelow(u, v, w, a, b, c, hi);
    SumBelow(u, v, w, -a, -b, -c, -lo);
    assert u * -a == -(u * a) && v * -b == -(v * b) && w * -c == -(w * c);
  }

  lemma SumOrder(a: real, b: real, c: real, x: real, y: real, z: real)
    requires a <= x && b <= y && c <= z
    ensures a + b + c <= x + y + z
  {
  }

  /** A weighted mean lies between the least and the largest of what it blends. */
  lemma BlendBetween(w: Weights, a: real, b: real, c: real, lo: real, hi: real)
    requires lo <= a <= hi && lo <= b <= hi && lo <= c <= hi
    ensures lo <= Blend(w, a, b, c) <= hi
  {
    SumsBetween(w.0, w.1, w.2, a, b, c, lo, hi);
  }

  lemma EdgeOrder(t: (Vec, Vec, Vec), f: nat)
    requires f < 3 && Near(t.0) && Near(t.1) && Near(t.2)
    ensures LowEdge(t, f) <= At(t.0, f) <= HighEdge(t, f)
    ensures LowEdge(t, f) <= At(t.1, f) <= HighEdge(t, f)
    ensures LowEdge(t, f) <= At(t.2, f) <= HighEdge(t, f)
    ensures -FAR < LowEdge(t, f) <= HighEdge(t, f) < FAR
  {
  }

  /** Every point of the triangle is in its box. */
  lemma InBox(t: (Vec, Vec, Vec), w: Weights, f: nat)
    requires f < 3 && Near(t.0) && Near(t.1) && Near(t.2)
    ensures LowEdge(t, f) <= At(PointOn(t, w), f) <= HighEdge(t, f)
  {
    EdgeOrder(t, f);
    BlendBetween(w, At(t.0, f), At(t.1, f), At(t.2, f), LowEdge(t, f), HighEdge(t, f));
  }

  lemma SquareUp(x: real, y: real)
    requires 0.0 <= x <= y
    ensures x * x <= y * y
  {
    Scale(x, x, y);
    Scale(y, x, y);
  }

  lemma SignedSqUp(x: real, y: real)
    requires x <= y
    ensures SignedSq(x) <= SignedSq(y)
  {
    if 0.0 <= x {
      SquareUp(x, y);
    } else if y < 0.0 {
      SquareUp(-y, -x);
      assert (-x) * (-x) == x * x && (-y) * (-y) == y * y;
    } else {
      assert x * x >= 0.0 && y * y >= 0.0;
    }
  }

  lemma AxisDist(x: Vec, y: Vec, f: nat)
    requires f < 3
    ensures SqDist(x, y) >= SignedSq(At(x, f) - At(y, f)) && SqDist(x, y) >= SignedSq(At(y, f) - At(x, f))
      && SqDist(x, y) >= 0.0
  {
    var d := Minus(x, y);
    assert d.0 * d.0 >= 0.0 && d.1 * d.1 >= 0.0 && d.2 * d.2 >= 0.0;
    var e := At(x, f) - At(y, f);
    assert e * e <= SqDist(x, y);
    assert (-e) * (-e) == e * e;
    assert At(y, f) - At(x, f) == -e;
  }

  /** No point of the triangle is nearer to q than the gap between q and the box on any axis. */
  lemma GapBound(t: (Vec, Vec, Vec), w: Weights, q: Vec, f: nat)
    requires f < 3 && Near(t.0) && Near(t.1) && Near(t.2)
    ensures SqDist(PointOn(t, w), q) >= SignedSq(At(q, f) - HighEdge(t, f))
    ensures SqDist(PointOn(t, w), q) >= SignedSq(LowEdge(t, f) - At(q, f))
    ensures SqDist(PointOn(t, w), q) >= 0.0
  {
    var x := PointOn(t, w);
    InBox(t, w, f);
    AxisDist(x, q, f);
    SignedSqUp(At(q, f) - HighEdge(t, f), At(q, f) - At(x, f));
    SignedSqUp(LowEdge(t, f) - At(q, f), At(x, f) - At(q, f));
  }
}
