/** The radius range of a triangle holds every point at which a line hits it. */
module HitRange {
  import opened PlaneEq
  import opened Boxes
  import opened Bsp
  import opened Cone
  import opened BspSearch
  import opened BspVector

  /** The corners of a triangle, relative to the centre. */
  type Corners = (Vec, Vec, Vec)

  /** sp is q, moved towards or away from the centre. */
  ghost predicate Radially(sp: Vec, q: Vec) {
    exists m: real :: m > 0.0 && sp == Times(m, q)
  }

  /** The attributes of a triangle with corners q: the corners projected towards the centre, the plane through them,
      which misses the centre, and a radius range that reaches from the nearest of its points to the furthest of its
      corners. */
  ghost predicate Solid(t: Tri, q: Corners, cent: Vec) {
    && Wedge(t) && Radially(t.sp[0], q.0) && Radially(t.sp[1], q.1) && Radially(t.sp[2], q.2)
    && Margin(t.pe, Plus(q.0, cent)) == Margin(t.pe, Plus(q.1, cent)) == Margin(t.pe, Plus(q.2, cent)) == 0.0
    && Margin(t.pe, cent) != 0.0
    && Dot(q.0, q.0) <= t.rs1 && Dot(q.1, q.1) <= t.rs1 && Dot(q.2, q.2) <= t.rs1
    && forall w: Weights :: t.rs0 <= SqDist(PointOn(q, w), CENTRE)
  }

  lemma Deviation(w: real, a: real, m: real)
    requires w >= 0.0
    ensures 0.0 <= w * (a * a) - 2.0 * (m * (w * a)) + w * (m * m)
  {
    assert (a - m) * (a - m) >= 0.0;
    assert w * ((a - m) * (a - m)) >= 0.0;
    assert w * ((a - m) * (a - m)) == w * (a * a) - 2.0 * (m * (w * a)) + w * (m * m);
  }

  /** The square of a mean is at most the mean of the squares. */
  lemma MeanSquare(w: Weights, a: real, b: real, c: real)
    ensures Blend(w, a, b, c) * Blend(w, a, b, c) <= Blend(w, a * a, b * b, c * c)
  {
    var m := Blend(w, a, b, c);
    Deviation(w.0, a, m);
    Deviation(w.1, b, m);
    Deviation(w.2, c, m);
    ScaleSum(w.0, w.1, w.2, m * m);
    TimesSum(m, w.0 * a, w.1 * b, w.2 * c);
  }

  lemma TimesSum(k: real, a: real, b: real, c: real)
    ensures k * a + k * b + k * c == k * (a + b + c)
  {
  }

  lemma BlendAdds(w: Weights, a: Vec, b: Vec, c: Vec)
    ensures Blend(w, a.0 + b.0 + c.0, a.1 + b.1 + c.1, a.2 + b.2 + c.2)
         == Blend(w, a.0, a.1, a.2) + Blend(w, b.0, b.1, b.2) + Blend(w, c.0, c.1, c.2)
  {
  }

  lemma PointCoords(q: Corners, w: Weights)
    ensures PointOn(q, w) == (Blend(w, q.0.0, q.1.0, q.2.0), Blend(w, q.0.1, q.1.1, q.2.1),
      Blend(w, q.0.2, q.1.2, q.2.2))
  {
  }

  lemma SquareBelow(x: real, w: Weights, a: real, b: real, c: real)
    requires x == Blend(w, a, b, c)
    ensures x * x <= Blend(w, a * a, b * b, c * c)
  {
    MeanSquare(w, a, b, c);
  }

  /** The squared distance of a point of the triangle is at most the mean of those of the corners. */
  lemma DistBelow(x: Vec, q: Corners, w: Weights)
    requires x.0 == Blend(w, q.0.0, q.1.0, q.2.0) && x.1 == Blend(w, q.0.1, q.1.1, q.2.1)
      && x.2 == Blend(w, q.0.2, q.1.2, q.2.2)
    ensures Dot(x, x) <= Blend(w, Dot(q.0, q.0), Dot(q.1, q.1), Dot(q.2, q.2))
  {
    SquareBelow(x.0, w, q.0.0, q.1.0, q.2.0);
    SquareBelow(x.1, w, q.0.1, q.1.1, q.2.1);
    SquareBelow(x.2, w, q.0.2, q.1.2, q.2.2);
    BlendAdds(w, (q.0.0 * q.0.0, q.1.0 * q.1.0, q.2.0 * q.2.0), (q.0.1 * q.0.1, q.1.1 * q.1.1, q.2.1 * q.2.1),
              (q.0.2 * q.0.2, q.1.2 * q.1.2, q.2.2 * q.2.2));
  }

  /** No point of a triangle is further from the centre than the furthest corner. */
  lemma CornersFurthest(q: Corners, w: Weights, hi: real)
    requires Dot(q.0, q.0) <= hi && Dot(q.1, q.1) <= hi && Dot(q.2, q.2) <= hi
    ensures Dot(PointOn(q, w), PointOn(q, w)) <= hi
  {
    PointCoords(q, w);
    DistBelow(PointOn(q, w), q, w);
    BlendBelow(w, Dot(q.0, q.0), Dot(q.1, q.1), Dot(q.2, q.2), hi);
  }

  lemma BlendBelow(w: Weights, a: real, b: real, c: real, hi: real)
    requires a <= hi && b <= hi && c <= hi
    ensures Blend(w, a, b, c) <= hi
  {
    BlendBetween(w, a, b, c, Lower(Lower(a, b), c), hi);
  }

  /** On a plane that misses the centre, the weights of a point in terms of the corners add up to one. */
  lemma WeightsSum(p: Plane, q: Corners, cent: Vec, a: real, b: real, c: real)
    requires Margin(p, Plus(q.0, cent)) == Margin(p, Plus(q.1, cent)) == Margin(p, Plus(q.2, cent)) == 0.0
      && Margin(p, cent) != 0.0
    requires Margin(p, Plus(Mix(q.0, q.1, q.2, a, b, c), cent)) == 0.0
    ensures a + b + c == 1.0
  {
    var k := -Margin(p, cent);
    OnPlane(p, q.0, cent);
    OnPlane(p, q.1, cent);
    OnPlane(p, q.2, cent);
    OnPlane(p, Mix(q.0, q.1, q.2, a, b, c), cent);
    var r := Plane(p.a, p.b, p.c, 0.0);
    MixMargin(r, q.0, q.1, q.2, a, b, c);
    SumIsOne(a, b, c, Margin(r, q.0), Margin(r, q.1), Margin(r, q.2), k);
  }

  lemma OnPlane(p: Plane, x: Vec, cent: Vec)
    requires Margin(p, Plus(x, cent)) == 0.0
    ensures Margin(Plane(p.a, p.b, p.c, 0.0), x) == -Margin(p, cent)
  {
    MarginPlus(p, x, cent);
  }

  lemma SumIsOne(a: real, b: real, c: real, x: real, y: real, z: real, k: real)
    requires k != 0.0 && x == y == z == k && a * x + b * y + c * z == k
    ensures a + b + c == 1.0
  {
    TimesSum(k, a, b, c);
    assert k * (a + b + c - 1.0) == 0.0;
  }

  /** A point of the cone that is on the plane of the triangle is on the triangle. */
  lemma OnTriangle(t: Tri, q: Corners, cent: Vec, x: Vec) returns (w: Weights)
    requires Solid(t, q, cent) && InCone(t, x) && Margin(t.pe, Plus(x, cent)) == 0.0
    ensures x == PointOn(q, w)
  {
    var a, b, c :| a >= 0.0 && b >= 0.0 && c >= 0.0 && x == Mix(t.sp[0], t.sp[1], t.sp[2], a, b, c);
    var i :| i > 0.0 && t.sp[0] == Times(i, q.0);
    var j :| j > 0.0 && t.sp[1] == Times(j, q.1);
    var k :| k > 0.0 && t.sp[2] == Times(k, q.2);
    MixTimes(q, a, b, c, i, j, k);
    WeightsSum(t.pe, q, cent, a * i, b * j, c * k);
    w := (a * i, b * j, c * k);
    MixPoint(q, w);
  }

  lemma MixPoint(q: Corners, w: Weights)
    ensures Mix(q.0, q.1, q.2, w.0, w.1, w.2) == PointOn(q, w)
  {
    PointCoords(q, w);
    var x, y := Mix(q.0, q.1, q.2, w.0, w.1, w.2), PointOn(q, w);
    assert x.0 == y.0 && x.1 == y.1 && x.2 == y.2;
  }

  lemma MixTimes(q: Corners, a: real, b: real, c: real, i: real, j: real, k: real)
    ensures Mix(Times(i, q.0), Times(j, q.1), Times(k, q.2), a, b, c) == Mix(q.0, q.1, q.2, a * i, b * j, c * k)
  {
    TermTimes(a, i, q.0);
    TermTimes(b, j, q.1);
    TermTimes(c, k, q.2);
    var x, y := Mix(Times(i, q.0), Times(j, q.1), Times(k, q.2), a, b, c), Mix(q.0, q.1, q.2, a * i, b * j, c * k);
    assert x.0 == y.0;
    assert x.1 == y.1;
    assert x.2 == y.2;
  }

  lemma TermTimes(a: real, i: real, x: Vec)
    ensures a * (i * x.0) == (a * i) * x.0 && a * (i * x.1) == (a * i) * x.1 && a * (i * x.2) == (a * i) * x.2
  {
  }

  /** The line hits t only where it passes the edge test without slack. */
  ghost predicate NoSlack(t: Tri, l: Line) {
    Hit(t, l, FLAT).Some? ==> Passes(t, PointAt(l, Hit(t, l, FLAT).value), 0.0)
  }

  /** Every hit on a solid triangle is in its cone and its radius range. */
  lemma SolidHit(t: Tri, q: Corners, l: Line)
    requires Solid(t, q, l.cent) && NoSlack(t, l)
    ensures HitOk(t, l)
  {
    if Hit(t, l, FLAT).Some? {
      var x := PointAt(l, MeetTri(t, l));
      PassesExactly(t, x);
      MeetsPlane(t, l);
      var w := OnTriangle(t, q, l.cent, x);
      CornersFurthest(q, w, t.rs1);
      FromCentre(x);
      assert t.rs0 <= SqDist(PointOn(q, w), CENTRE);
    }
  }

  lemma FromCentre(x: Vec)
    ensures SqDist(x, CENTRE) == Dot(x, x)
  {
    assert Minus(x, CENTRE) == x;
  }

  ghost predicate AllSolid(S: set<Tri>, corners: map<Tri, Corners>, cent: Vec) {
    forall t | t in S :: t in corners && Solid(t, corners[t], cent)
  }

  /** On a tree built for solid triangles, a line that runs in no split plane and hits without slack is searched
      exactly. */
  lemma SolidExact(n: Tree, list: seq<Tri>, corners: map<Tri, Corners>, l: Line)
    requires TreeOf(n, list) && Clean(n) && LineClear(n, l)
    requires AllSolid(Held(n), corners, l.cent) && forall t | t in Held(n) :: NoSlack(t, l)
    ensures Exact(n, l)
  {
    TreeUsable(n, list);
    forall t | t in Held(n)
      ensures HitOk(t, l)
    {
      SolidHit(t, corners[t], l);
    }
  }
}
