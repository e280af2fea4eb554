/** Plane equations through three points. */
module PlaneEq {
  type Vec = (real, real, real)

  datatype Plane = Plane(a: real, b: real, c: real, d: real)

  /** The centre, and the plane x = 0 through it. */
  const CENTRE: Vec := (0.0, 0.0, 0.0)
  const SIDE: Plane := Plane(1.0, 0.0, 0.0, 0.0)

  /** How far a point lies on the positive side of a plane. */
  function Margin(p: Plane, x: Vec): real {
    p.a * x.0 + p.b * x.1 + p.c * x.2 + p.d
  }

  function Minus(x: Vec, y: Vec): Vec {
    (x.0 - y.0, x.1 - y.1, x.2 - y.2)
  }

  function Dot(x: Vec, y: Vec): real {
    x.0 * y.0 + x.1 * y.1 + x.2 * y.2
  }

  function SqDist(x: Vec, y: Vec): real {
    Dot(Minus(x, y), Minus(x, y))
  }

  function Cross(x: Vec, y: Vec): Vec {
    (x.1 * y.2 - x.2 * y.1, x.2 * y.0 - x.0 * y.2, x.0 * y.1 - x.1 * y.0)
  }

  /** The plane equation of three points, whose normal has length ll. */
  function PlaneThrough(p0: Vec, p1: Vec, p2: Vec, ll: real): Plane
    requires ll > 0.0
  {
    var n := Cross(Minus(p1, p0), Minus(p2, p0));
    var (a, b, c) := (n.0 / ll, n.1 / ll, n.2 / ll);
    Plane(a, b, c, -(a * p0.0) - b * p0.1 - c * p0.2)
  }

  /** The normal is the same whichever point comes first, and square to the sides. */
  lemma CrossTurn(p0: Vec, p1: Vec, p2: Vec)
    ensures Cross(Minus(p1, p0), Minus(p2, p0)) == Cross(Minus(p2, p1), Minus(p0, p1))
  {
    var x, y := Minus(p1, p0), Minus(p2, p0);
    assert Minus(p2, p1) == (y.0 - x.0, y.1 - x.1, y.2 - x.2);
    assert Minus(p0, p1) == (-x.0, -x.1, -x.2);
    SidesTurn(x, y);
  }

  lemma SidesTurn(x: Vec, y: Vec)
    ensures Cross(x, y) == Cross((y.0 - x.0, y.1 - x.1, y.2 - x.2), (-x.0, -x.1, -x.2))
  {
    var (a, b, c) := (y.0 - x.0, y.1 - x.1, y.2 - x.2);
    assert x.1 * y.2 - x.2 * y.1 == b * (-x.2) - c * (-x.1) by { MinorTurn(x.1, x.2, y.1, y.2); }
    assert x.2 * y.0 - x.0 * y.2 == c * (-x.0) - a * (-x.2) by { MinorTurn(x.2, x.0, y.2, y.0); }
    assert x.0 * y.1 - x.1 * y.0 == a * (-x.1) - b * (-x.0) by { MinorTurn(x.0, x.1, y.0, y.1); }
    var l, r := Cross(x, y), Cross((a, b, c), (-x.0, -x.1, -x.2));
    assert l.0 == r.0;
    assert l.1 == r.1;
    assert l.2 == r.2;
  }

  lemma MinorTurn(a: real, b: real, c: real, d: real)
    ensures a * d - b * c == (c - a) * (-b) - (d - b) * (-a)
  {
    assert (c - a) * (-b) == a * b - c * b;
    assert (d - b) * (-a) == b * a - d * a;
  }

  lemma CrossSquare(x: Vec, y: Vec)
    ensures Dot(Cross(x, y), x) == 0.0 && Dot(Cross(x, y), y) == 0.0
  {
  }

  lemma DivDot(n: Vec, x: Vec, ll: real)
    requires ll > 0.0
    ensures Dot((n.0 / ll, n.1 / ll, n.2 / ll), x) == Dot(n, x) / ll
  {
  }

  lemma DotMinus(n: Vec, x: Vec, y: Vec)
    ensures Dot(n, Minus(x, y)) == Dot(n, x) - Dot(n, y)
  {
  }

  /** The equation does not depend on which of the three points comes first, and all three lie on the plane. */
  lemma PlaneTurn(p0: Vec, p1: Vec, p2: Vec, ll: real)
    requires ll > 0.0
    ensures PlaneThrough(p0, p1, p2, ll) == PlaneThrough(p1, p2, p0, ll)
    ensures var p := PlaneThrough(p0, p1, p2, ll); Margin(p, p0) == Margin(p, p1) == Margin(p, p2) == 0.0
  {
    var v1, v2 := Minus(p1, p0), Minus(p2, p0);
    var n := Cross(v1, v2);
    var u := (n.0 / ll, n.1 / ll, n.2 / ll);
    CrossTurn(p0, p1, p2);
    CrossSquare(v1, v2);
    DivDot(n, v1, ll);
    DivDot(n, v2, ll);
    DotMinus(u, p1, p0);
    DotMinus(u, p2, p0);
  }
}
