/** The edge test of a triangle: the planes through the centre and its edges bound the cone from the centre through
    it. */
module Cone {
  import opened PlaneEq
  import opened Bsp

  predicate WithinEdge(p: Plane, x: Vec, slack: real) {
    Margin(p, x) <= slack
  }

  /** x passes the edge test of t. */
  predicate Passes(t: Tri, x: Vec, slack: real) {
    forall p | p in t.ee :: WithinEdge(p, x, slack)
  }

  /** x is a combination, with no negative weight, of the vertices of t: it lies in the cone from the centre through
      t. */
  ghost predicate InCone(t: Tri, x: Vec) {
    && |t.sp| == 3
    && exists a: real, b: real, c: real ::
        a >= 0.0 && b >= 0.0 && c >= 0.0 && x == Mix(t.sp[0], t.sp[1], t.sp[2], a, b, c)
  }

  function Mix(u: Vec, v: Vec, w: Vec, a: real, b: real, c: real): Vec {
    (a * u.0 + b * v.0 + c * w.0, a * u.1 + b * v.1 + c * w.1, a * u.2 + b * v.2 + c * w.2)
  }

  /** The edge planes of t face outwards: no vertex is outside. */
  ghost predicate FacesOut(t: Tri) {
    && Proper(t)
    && (forall p | p in t.ee :: p.d == 0.0)
    && forall p, v | p in t.ee && v in t.sp :: Margin(p, v) <= 0.0
  }

  /** On a plane through the centre, a combination of points has the combination of their margins. */
  lemma MixMargin(p: Plane, u: Vec, v: Vec, w: Vec, a: real, b: real, c: real)
    requires p.d == 0.0
    ensures Margin(p, Mix(u, v, w, a, b, c)) == a * Margin(p, u) + b * Margin(p, v) + c * Margin(p, w)
  {
    Spread(p.a, u.0, v.0, w.0, a, b, c);
    Spread(p.b, u.1, v.1, w.1, a, b, c);
    Spread(p.c, u.2, v.2, w.2, a, b, c);
    Gather(a, p, u);
    Gather(b, p, v);
    Gather(c, p, w);
  }

  lemma Spread(k: real, x: real, y: real, z: real, a: real, b: real, c: real)
    ensures k * (a * x + b * y + c * z) == a * (k * x) + b * (k * y) + c * (k * z)
  {
  }

  lemma Gather(a: real, p: Plane, u: Vec)
    requires p.d == 0.0
    ensures a * Margin(p, u) == a * (p.a * u.0) + a * (p.b * u.1) + a * (p.c * u.2)
  {
  }

  /** A point in the cone of t is on a side of p on which t has a vertex. */
  lemma ConeSide(p: Plane, t: Tri, x: Vec)
    requires p.d == 0.0 && InCone(t, x)
    ensures (forall v | v in t.sp :: Margin(p, v) >= 0.0) ==> Margin(p, x) >= 0.0
    ensures (forall v | v in t.sp :: Margin(p, v) <= 0.0) ==> Margin(p, x) <= 0.0
  {
    var a, b, c :| a >= 0.0 && b >= 0.0 && c >= 0.0 && x == Mix(t.sp[0], t.sp[1], t.sp[2], a, b, c);
    MixMargin(p, t.sp[0], t.sp[1], t.sp[2], a, b, c);
    assert t.sp[0] in t.sp && t.sp[1] in t.sp && t.sp[2] in t.sp;
    SignedSum(a, Margin(p, t.sp[0]), b, Margin(p, t.sp[1]), c, Margin(p, t.sp[2]));
  }

  lemma SignedSum(a: real, x: real, b: real, y: real, c: real, z: real)
    requires a >= 0.0 && b >= 0.0 && c >= 0.0
    ensures x >= 0.0 && y >= 0.0 && z >= 0.0 ==> a * x + b * y + c * z >= 0.0
    ensures x <= 0.0 && y <= 0.0 && z <= 0.0 ==> a * x + b * y + c * z <= 0.0
  {
  }

  /** A point in the cone of t passes its edge test. */
  lemma ConePasses(t: Tri, x: Vec)
    requires FacesOut(t) && InCone(t, x)
    ensures Passes(t, x, 0.0) && Passes(t, x, CLEAR)
  {
    forall p | p in t.ee
      ensures Margin(p, x) <= 0.0
    {
      ConeSide(p, t, x);
    }
  }

  // ---- the edge planes of a triangle

  function Det(u: Vec, v: Vec, w: Vec): real {
    Dot(Cross(u, v), w)
  }

  /** p is the plane through the centre and the points u and v, in that order. */
  ghost predicate EdgePlane(p: Plane, u: Vec, v: Vec) {
    exists ll: real :: ll > 0.0 && p == PlaneThrough(CENTRE, u, v, ll)
  }

  lemma DivBack(k: real, a: real)
    requires k > 0.0
    ensures k * a / k == a
  {
  }

  lemma EdgeIs(u: Vec, v: Vec, ll: real, p: Plane)
    requires ll > 0.0 && p.d == 0.0
    requires var n := Cross(u, v); n.0 == ll * p.a && n.1 == ll * p.b && n.2 == ll * p.c
    ensures EdgePlane(p, u, v)
  {
    assert Minus(u, CENTRE) == u && Minus(v, CENTRE) == v;
    DivBack(ll, p.a);
    DivBack(ll, p.b);
    DivBack(ll, p.c);
    assert p == PlaneThrough(CENTRE, u, v, ll);
  }

  /** The triangle is not flat as seen from the centre, its vertices go round the right way, and its edge planes
      are those through the centre and the edges. */
  ghost predicate Wedge(t: Tri) {
    && Proper(t) && Det(t.sp[0], t.sp[1], t.sp[2]) < 0.0
    && EdgePlane(t.ee[0], t.sp[1], t.sp[2]) && EdgePlane(t.ee[1], t.sp[2], t.sp[0])
    && EdgePlane(t.ee[2], t.sp[0], t.sp[1])
  }

  lemma DetTurn(u: Vec, v: Vec, w: Vec)
    ensures Det(u, v, w) == Det(v, w, u)
  {
  }

  lemma DetTwice(u: Vec, v: Vec)
    ensures Det(u, v, u) == 0.0 && Det(u, v, v) == 0.0
  {
  }

  /** The side of x of an edge plane is the sign of a determinant. */
  lemma EdgeMargin(p: Plane, u: Vec, v: Vec, ll: real, x: Vec)
    requires ll > 0.0 && p == PlaneThrough(CENTRE, u, v, ll)
    ensures p.d == 0.0 && Margin(p, x) == Det(u, v, x) / ll
  {
    assert Minus(u, CENTRE) == u && Minus(v, CENTRE) == v;
    DivDot(Cross(u, v), x, ll);
  }

  lemma EdgeSide(p: Plane, u: Vec, v: Vec, x: Vec)
    requires EdgePlane(p, u, v)
    ensures p.d == 0.0 && (Margin(p, x) <= 0.0 <==> Det(u, v, x) <= 0.0)
  {
    var ll :| ll > 0.0 && p == PlaneThrough(CENTRE, u, v, ll);
    EdgeMargin(p, u, v, ll, x);
  }

  lemma SameColumn(l: real, m: real, n: real, a: real, b: real, c: real, d: real, e: real, f: real)
    requires l == c * f - d * e && m == e * b - f * a && n == a * d - b * c
    ensures l * a + m * c + n * e == 0.0 && l * b + m * d + n * f == 0.0
  {
  }

  lemma MinorsSwap(l: real, m: real, n: real, o: real, a: real, b: real, c: real, d: real, e: real, f: real, g: real,
      h: real)
    requires l == d * h - e * g && m == g * b - h * a && n == b * f - c * e && o == c * d - a * f
    ensures l * c + m * f == n * g + o * h
  {
  }

  lemma Off0(u: Vec, v: Vec, w: Vec)
    ensures Cross(v, w).0 * u.1 + Cross(w, u).0 * v.1 + Cross(u, v).0 * w.1 == 0.0
    ensures Cross(v, w).0 * u.2 + Cross(w, u).0 * v.2 + Cross(u, v).0 * w.2 == 0.0
  {
    SameColumn(Cross(v, w).0, Cross(w, u).0, Cross(u, v).0, u.1, u.2, v.1, v.2, w.1, w.2);
  }

  lemma Diagonal0(u: Vec, v: Vec, w: Vec)
    ensures Cross(v, w).0 * u.0 + Cross(w, u).0 * v.0 + Cross(u, v).0 * w.0 == Det(u, v, w)
  {
    var n := Cross(u, v);
    MinorsSwap(Cross(v, w).0, Cross(w, u).0, n.1, n.2, u.1, u.2, u.0, v.1, v.2, v.0, w.1, w.2);
  }

  lemma Off1(u: Vec, v: Vec, w: Vec)
    ensures Cross(v, w).1 * u.2 + Cross(w, u).1 * v.2 + Cross(u, v).1 * w.2 == 0.0
    ensures Cross(v, w).1 * u.0 + Cross(w, u).1 * v.0 + Cross(u, v).1 * w.0 == 0.0
  {
    SameColumn(Cross(v, w).1, Cross(w, u).1, Cross(u, v).1, u.2, u.0, v.2, v.0, w.2, w.0);
  }

  lemma Diagonal1(u: Vec, v: Vec, w: Vec)
    ensures Cross(v, w).1 * u.1 + Cross(w, u).1 * v.1 + Cross(u, v).1 * w.1 == Det(u, v, w)
  {
    var n := Cross(u, v);
    MinorsSwap(Cross(v, w).1, Cross(w, u).1, n.2, n.0, u.2, u.0, u.1, v.2, v.0, v.1, w.2, w.0);
  }

  lemma Off2(u: Vec, v: Vec, w: Vec)
    ensures Cross(v, w).2 * u.0 + Cross(w, u).2 * v.0 + Cross(u, v).2 * w.0 == 0.0
    ensures Cross(v, w).2 * u.1 + Cross(w, u).2 * v.1 + Cross(u, v).2 * w.1 == 0.0
  {
    SameColumn(Cross(v, w).2, Cross(w, u).2, Cross(u, v).2, u.0, u.1, v.0, v.1, w.0, w.1);
  }

  lemma Diagonal2(u: Vec, v: Vec, w: Vec)
    ensures Cross(v, w).2 * u.2 + Cross(w, u).2 * v.2 + Cross(u, v).2 * w.2 == Det(u, v, w)
  {
    var n := Cross(u, v);
    MinorsSwap(Cross(v, w).2, Cross(w, u).2, n.0, n.1, u.0, u.1, u.2, v.0, v.1, v.2, w.0, w.1);
  }

  lemma ScaledDot(n: Vec, x: Vec, k: real)
    ensures Dot(n, x) * k == (n.0 * k) * x.0 + (n.1 * k) * x.1 + (n.2 * k) * x.2
  {
  }

  lemma Collect(a: Vec, b: Vec, c: Vec, x: Vec)
    ensures (a.0 * x.0 + a.1 * x.1 + a.2 * x.2) + (b.0 * x.0 + b.1 * x.1 + b.2 * x.2)
            + (c.0 * x.0 + c.1 * x.1 + c.2 * x.2)
         == (a.0 + b.0 + c.0) * x.0 + (a.1 + b.1 + c.1) * x.1 + (a.2 + b.2 + c.2) * x.2
  {
  }

  /** Three inner products with x, weighted, are one inner product with the weighted sum. */
  lemma Weighed(n: Vec, m: Vec, o: Vec, x: Vec, p: real, q: real, r: real)
    ensures Dot(n, x) * p + Dot(m, x) * q + Dot(o, x) * r
         == (n.0 * p + m.0 * q + o.0 * r) * x.0 + (n.1 * p + m.1 * q + o.1 * r) * x.1
            + (n.2 * p + m.2 * q + o.2 * r) * x.2
  {
    ScaledDot(n, x, p);
    ScaledDot(m, x, q);
    ScaledDot(o, x, r);
    Collect((n.0 * p, n.1 * p, n.2 * p), (m.0 * q, m.1 * q, m.2 * q), (o.0 * r, o.1 * r, o.2 * r), x);
  }

  /** Cramer's rule. */
  lemma Cramer(u: Vec, v: Vec, w: Vec, x: Vec)
    ensures Det(v, w, x) * u.0 + Det(w, u, x) * v.0 + Det(u, v, x) * w.0 == Det(u, v, w) * x.0
    ensures Det(v, w, x) * u.1 + Det(w, u, x) * v.1 + Det(u, v, x) * w.1 == Det(u, v, w) * x.1
    ensures Det(v, w, x) * u.2 + Det(w, u, x) * v.2 + Det(u, v, x) * w.2 == Det(u, v, w) * x.2
  {
    var n, m, o := Cross(v, w), Cross(w, u), Cross(u, v);
    Off0(u, v, w);
    Off1(u, v, w);
    Off2(u, v, w);
    Diagonal0(u, v, w);
    Diagonal1(u, v, w);
    Diagonal2(u, v, w);
    Weighed(n, m, o, x, u.0, v.0, w.0);
    Weighed(n, m, o, x, u.1, v.1, w.1);
    Weighed(n, m, o, x, u.2, v.2, w.2);
  }

  lemma Ratio(d: real, i: real, j: real, k: real, a: real, b: real, c: real, p: real, q: real, r: real, x: real)
    requires d != 0.0 && i == d * a && j == d * b && k == d * c && i * p + j * q + k * r == d * x
    ensures a * p + b * q + c * r == x
  {
    assert i * p == d * (a * p) && j * q == d * (b * q) && k * r == d * (c * r);
    var y := a * p + b * q + c * r;
    assert d * y == d * x;
  }

  lemma RatioSign(a: real, d: real)
    requires d < 0.0 && a <= 0.0
    ensures a / d >= 0.0
  {
  }

  /** A point that passes the edge test of a triangle lies in its cone: the weights are Cramer's. */
  lemma PassesCone(t: Tri, x: Vec)
    requires Wedge(t) && Passes(t, x, 0.0)
    ensures InCone(t, x)
  {
    var u, v, w := t.sp[0], t.sp[1], t.sp[2];
    assert t.ee[0] in t.ee && t.ee[1] in t.ee && t.ee[2] in t.ee;
    assert WithinEdge(t.ee[0], x, 0.0) && WithinEdge(t.ee[1], x, 0.0) && WithinEdge(t.ee[2], x, 0.0);
    EdgeSide(t.ee[0], v, w, x);
    EdgeSide(t.ee[1], w, u, x);
    EdgeSide(t.ee[2], u, v, x);
    ConeWeights(t, x);
  }

  lemma ConeWeights(t: Tri, x: Vec)
    requires |t.sp| == 3 && Det(t.sp[0], t.sp[1], t.sp[2]) < 0.0
    requires Det(t.sp[1], t.sp[2], x) <= 0.0 && Det(t.sp[2], t.sp[0], x) <= 0.0 && Det(t.sp[0], t.sp[1], x) <= 0.0
    ensures InCone(t, x)
  {
    var u, v, w := t.sp[0], t.sp[1], t.sp[2];
    var d, i, j, k := Det(u, v, w), Det(v, w, x), Det(w, u, x), Det(u, v, x);
    var a, b, c := i / d, j / d, k / d;
    Cramer(u, v, w, x);
    Ratio(d, i, j, k, a, b, c, u.0, v.0, w.0, x.0);
    Ratio(d, i, j, k, a, b, c, u.1, v.1, w.1, x.1);
    Ratio(d, i, j, k, a, b, c, u.2, v.2, w.2, x.2);
    RatioSign(i, d);
    RatioSign(j, d);
    RatioSign(k, d);
    MixIs(u, v, w, a, b, c, x);
  }

  lemma MixIs(u: Vec, v: Vec, w: Vec, a: real, b: real, c: real, x: Vec)
    requires a * u.0 + b * v.0 + c * w.0 == x.0 && a * u.1 + b * v.1 + c * w.1 == x.1
      && a * u.2 + b * v.2 + c * w.2 == x.2
    ensures Mix(u, v, w, a, b, c) == x
  {
    var y := Mix(u, v, w, a, b, c);
    assert y.0 == x.0 && y.1 == x.1 && y.2 == x.2;
  }

  lemma WedgeFaces(t: Tri)
    requires Wedge(t)
    ensures FacesOut(t)
  {
    var u, v, w := t.sp[0], t.sp[1], t.sp[2];
    DetTwice(u, v);
    DetTwice(v, w);
    DetTwice(w, u);
    DetTurn(u, v, w);
    DetTurn(v, w, u);
    forall y | y in t.sp
      ensures Det(v, w, y) <= 0.0 && Det(w, u, y) <= 0.0 && Det(u, v, y) <= 0.0
    {
      assert y == u || y == v || y == w;
    }
    forall p, y | p in t.ee && y in t.sp
      ensures p.d == 0.0 && Margin(p, y) <= 0.0
    {
      WedgeEdge(t, p, y);
    }
  }

  lemma WedgeEdge(t: Tri, p: Plane, y: Vec)
    requires Wedge(t) && p in t.ee
    requires Det(t.sp[1], t.sp[2], y) <= 0.0 && Det(t.sp[2], t.sp[0], y) <= 0.0 && Det(t.sp[0], t.sp[1], y) <= 0.0
    ensures p.d == 0.0 && Margin(p, y) <= 0.0
  {
    EdgeSide(t.ee[0], t.sp[1], t.sp[2], y);
    EdgeSide(t.ee[1], t.sp[2], t.sp[0], y);
    EdgeSide(t.ee[2], t.sp[0], t.sp[1], y);
    assert p == t.ee[0] || p == t.ee[1] || p == t.ee[2];
  }

  lemma PassesMore(t: Tri, x: Vec)
    requires Passes(t, x, 0.0)
    ensures Passes(t, x, CLEAR)
  {
    forall p | p in t.ee
      ensures WithinEdge(p, x, CLEAR)
    {
      assert WithinEdge(p, x, 0.0);
    }
  }

  /** For a triangle that is not flat the edge test without slack is exactly the cone. */
  lemma PassesExactly(t: Tri, x: Vec)
    requires Wedge(t)
    ensures Passes(t, x, 0.0) <==> InCone(t, x)
  {
    WedgeFaces(t);
    if Passes(t, x, 0.0) {
      PassesCone(t, x);
    }
    if InCone(t, x) {
      ConePasses(t, x);
    }
  }
}
