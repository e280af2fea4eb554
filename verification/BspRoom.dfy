/** A list whose best split fills more entries than were counted. */
module BspRoom {
  import opened PlaneEq
  import opened Bsp
  import opened Cone

  const OTHER_SIDE: Plane := Plane(-1.0, 0.0, 0.0, 0.0)

  /** A triangle seen edge-on from the centre, in the plane x = 0. */
  const SP_F: seq<Vec> := [(0.0, 1.0, 0.0), (0.0, 0.6, 0.8), (0.0, 0.0, 1.0)]

  /** Three directions square to each other. */
  const SQUARE: seq<Vec> :=
    [(2.0 / 3.0, -1.0 / 3.0, 2.0 / 3.0), (2.0 / 3.0, 2.0 / 3.0, -1.0 / 3.0), (1.0 / 3.0, -2.0 / 3.0, -2.0 / 3.0)]

  function Mirror(v: Vec): Vec {
    (-v.0, v.1, v.2)
  }

  function Corner(m: bool, v: Vec): Vec {
    if m then Mirror(v) else v
  }

  /** The triangle with its corners in these directions, or its mirror image in the plane x = 0. */
  function Corners(m: bool): seq<Vec> {
    seq(3, k requires 0 <= k < 3 => Corner(m, SQUARE[k]))
  }

  /** The plane square to a direction, or to its mirror image, with the sign that the edges give it. */
  function SquareTo(m: bool, v: Vec): Plane {
    if m then Plane(-v.0, v.1, v.2, 0.0) else Plane(-v.0, -v.1, -v.2, 0.0)
  }

  /** The planes of the edges, edge k joining corners k and k + 1. */
  function Edges(m: bool): seq<Plane> {
    [SquareTo(m, SQUARE[2]), SquareTo(m, SQUARE[0]), SquareTo(m, SQUARE[1])]
  }

  predicate Across(p: Plane, t: Tri) {
    HasPos(p, t) && HasNeg(p, t)
  }

  lemma Has(p: Plane, t: Tri, i: nat)
    requires i < |t.sp|
    ensures Margin(p, t.sp[i]) > CLEAR ==> HasPos(p, t)
    ensures Margin(p, t.sp[i]) < -CLEAR ==> HasNeg(p, t)
  {
  }

  lemma MirrorMargins(u: Vec, v: Vec, d: real, e: real)
    requires Dot(u, v) == d && u.0 * v.0 == e
    ensures Margin(SquareTo(false, u), v) == -d && Margin(SquareTo(true, u), Mirror(v)) == d
    ensures Margin(SquareTo(false, u), Mirror(v)) == 2.0 * e - d && Margin(SquareTo(true, u), v) == d - 2.0 * e
  {
    assert u.0 * -v.0 == -e && -u.0 * v.0 == -e && -u.0 * -v.0 == e;
  }

  /** What is needed of two of the directions, the same one or not. */
  predicate Directions(u: Vec, v: Vec, same: bool) {
    && Dot(u, v) == (if same then 1.0 else 0.0)
    && u.0 * v.0 >= 1.0 / 9.0 && (same ==> u.0 * v.0 <= 4.0 / 9.0)
  }

  lemma CornerMargins(m: bool, u: Vec, v: Vec, same: bool)
    requires Directions(u, v, same)
    ensures Margin(SquareTo(m, u), Corner(m, v)) == if !same then 0.0 else if m then 1.0 else -1.0
    ensures var x := Margin(SquareTo(m, u), Corner(!m, v)); if same == m then x >= 1.0 / 9.0 else x <= -1.0 / 9.0
  {
    MirrorMargins(u, v, Dot(u, v), u.0 * v.0);
  }

  lemma SquareDots(i: nat, j: nat)
    requires i < 3 && j < 3
    ensures Directions(SQUARE[i], SQUARE[j], i == j)
  {
  }

  lemma SquareMargins(m: bool, i: nat, j: nat)
    requires i < 3 && j < 3
    ensures Margin(SquareTo(m, SQUARE[i]), Corners(m)[j]) == if j != i then 0.0 else if m then 1.0 else -1.0
    ensures var x := Margin(SquareTo(m, SQUARE[i]), Corners(!m)[j]);
      if (j == i) == m then x >= 1.0 / 9.0 else x <= -1.0 / 9.0
  {
    SquareDots(i, j);
    CornerMargins(m, SQUARE[i], SQUARE[j], i == j);
  }

  /** The plane square to one direction crosses the mirror image of the triangle, and does not cross the triangle. */
  lemma SquareCrosses(m: bool, i: nat, s: Tri, t: Tri)
    requires i < 3 && s.sp == Corners(m) && t.sp == Corners(!m)
    ensures Across(SquareTo(m, SQUARE[i]), t) && !Across(SquareTo(m, SQUARE[i]), s)
  {
    var p, o: nat := SquareTo(m, SQUARE[i]), if i == 0 then 1 else 0;
    SquareMargins(m, i, i);
    SquareMargins(m, i, o);
    Has(p, t, i);
    Has(p, t, o);
    forall v | v in s.sp
      ensures if m then Margin(p, v) >= 0.0 else Margin(p, v) <= 0.0
    {
      var j :| 0 <= j < 3 && s.sp[j] == v;
      SquareMargins(m, i, j);
    }
  }

  lemma EdgesCross(m: bool, s: Tri, t: Tri, p: Plane)
    requires s.sp == Corners(m) && t.sp == Corners(!m) && p in Edges(m)
    ensures Across(p, t) && !Across(p, s)
  {
    SquareCrosses(m, 0, s, t);
    SquareCrosses(m, 1, s, t);
    SquareCrosses(m, 2, s, t);
  }

  ghost predicate Unit(v: Vec) {
    Dot(v, v) == 1.0
  }

  /** The vertices are on the unit sphere, and the edge planes are those through the centre, of unit normal. */
  ghost predicate OnSphere(t: Tri) {
    && |t.sp| == |t.re| == 3 && (forall v | v in t.sp :: Unit(v))
    && (forall p | p in t.re :: Unit((p.a, p.b, p.c)))
    && EdgePlane(t.re[0], t.sp[0], t.sp[1]) && EdgePlane(t.re[1], t.sp[1], t.sp[2])
    && EdgePlane(t.re[2], t.sp[2], t.sp[0])
  }

  lemma SquareEdge(m: bool, u: Vec, v: Vec, w: Vec)
    requires var n := Cross(u, v); n.0 == -w.0 && n.1 == -w.1 && n.2 == -w.2
    ensures EdgePlane(SquareTo(m, w), Corner(m, u), Corner(m, v))
  {
    var n, n', p := Cross(u, v), Cross(Corner(m, u), Corner(m, v)), SquareTo(m, w);
    assert n.0 == -w.0 && n.1 == -w.1 && n.2 == -w.2;
    assert u.2 * -v.0 == -(u.2 * v.0) && -u.0 * v.2 == -(u.0 * v.2);
    assert -u.0 * v.1 == -(u.0 * v.1) && u.1 * -v.0 == -(u.1 * v.0);
    assert n'.0 == 1.0 * p.a && n'.1 == 1.0 * p.b && n'.2 == 1.0 * p.c;
    EdgeIs(Corner(m, u), Corner(m, v), 1.0, p);
  }

  lemma SquareTurns(u: Vec, v: Vec, w: Vec)
    requires u == SQUARE[0] && v == SQUARE[1] && w == SQUARE[2]
    ensures var n := Cross(u, v); n.0 == -w.0 && n.1 == -w.1 && n.2 == -w.2
    ensures var n := Cross(v, w); n.0 == -u.0 && n.1 == -u.1 && n.2 == -u.2
    ensures var n := Cross(w, u); n.0 == -v.0 && n.1 == -v.1 && n.2 == -v.2
  {
  }

  lemma SquareEdges(m: bool, u: Vec, v: Vec, w: Vec)
    requires u == SQUARE[0] && v == SQUARE[1] && w == SQUARE[2]
    ensures EdgePlane(SquareTo(m, w), Corner(m, u), Corner(m, v))
    ensures EdgePlane(SquareTo(m, u), Corner(m, v), Corner(m, w))
    ensures EdgePlane(SquareTo(m, v), Corner(m, w), Corner(m, u))
  {
    SquareTurns(u, v, w);
    SquareEdge(m, u, v, w);
    SquareEdge(m, v, w, u);
    SquareEdge(m, w, u, v);
  }

  lemma UnitCorner(m: bool, v: Vec)
    requires Unit(v)
    ensures Unit(Corner(m, v)) && var p := SquareTo(m, v); Unit((p.a, p.b, p.c))
  {
    assert -v.0 * -v.0 == v.0 * v.0 && -v.1 * -v.1 == v.1 * v.1 && -v.2 * -v.2 == v.2 * v.2;
  }

  lemma SquareUnits(m: bool, j: nat)
    requires j < 3
    ensures Unit(Corners(m)[j]) && var p := SquareTo(m, SQUARE[j]); Unit((p.a, p.b, p.c))
  {
    SquareDots(j, j);
    UnitCorner(m, SQUARE[j]);
  }

  lemma SphereFrom(t: Tri, u: Vec, v: Vec, w: Vec)
    requires t.sp == [u, v, w] && |t.re| == 3 && Unit(u) && Unit(v) && Unit(w)
    requires EdgePlane(t.re[0], u, v) && EdgePlane(t.re[1], v, w) && EdgePlane(t.re[2], w, u)
    requires forall k | 0 <= k < 3 :: Unit((t.re[k].a, t.re[k].b, t.re[k].c))
    ensures OnSphere(t)
  {
  }

  lemma SquareOnSphere(m: bool, t: Tri)
    requires t.sp == Corners(m) && t.re == Edges(m)
    ensures OnSphere(t)
  {
    SquareUnits(m, 0);
    SquareUnits(m, 1);
    SquareUnits(m, 2);
    SquareEdges(m, SQUARE[0], SQUARE[1], SQUARE[2]);
    SphereFrom(t, Corner(m, SQUARE[0]), Corner(m, SQUARE[1]), Corner(m, SQUARE[2]));
  }

  lemma CountSnoc(p: Plane, list: seq<Tri>, t: Tri)
    ensures Pc(p, list + [t]) == Pc(p, list) + One(HasPos(p, t))
    ensures Nc(p, list + [t]) == Nc(p, list) + One(HasNeg(p, t))
    ensures Bc(p, list + [t]) == Bc(p, list) + One(HasPos(p, t) == HasNeg(p, t))
    ensures Neither(p, list + [t]) == Neither(p, list) + One(!HasPos(p, t) && !HasNeg(p, t))
  {
    var l := list + [t];
    assert l[..|l| - 1] == list && l[|l| - 1] == t;
  }

  function Five(f: Tri, a: Tri, b: Tri, c: Tri, d: Tri): seq<Tri> {
    [] + [f] + [a] + [b] + [c] + [d]
  }

  lemma FiveCounts(p: Plane, f: Tri, a: Tri, b: Tri, c: Tri, d: Tri)
    ensures var l := Five(f, a, b, c, d);
      && Pc(p, l) == One(HasPos(p, f)) + One(HasPos(p, a)) + One(HasPos(p, b)) + One(HasPos(p, c)) + One(HasPos(p, d))
      && Nc(p, l) == One(HasNeg(p, f)) + One(HasNeg(p, a)) + One(HasNeg(p, b)) + One(HasNeg(p, c)) + One(HasNeg(p, d))
  {
    CountSnoc(p, [], f);
    CountSnoc(p, [] + [f], a);
    CountSnoc(p, [] + [f] + [a], b);
    CountSnoc(p, [] + [f] + [a] + [b], c);
    CountSnoc(p, [] + [f] + [a] + [b] + [c], d);
  }

  lemma FiveOverlaps(p: Plane, f: Tri, a: Tri, b: Tri, c: Tri, d: Tri)
    ensures var l := Five(f, a, b, c, d);
      && Bc(p, l) == One(HasPos(p, f) == HasNeg(p, f)) + One(HasPos(p, a) == HasNeg(p, a))
                   + One(HasPos(p, b) == HasNeg(p, b)) + One(HasPos(p, c) == HasNeg(p, c))
                   + One(HasPos(p, d) == HasNeg(p, d))
      && (!HasPos(p, f) && !HasNeg(p, f) ==> Neither(p, l) >= 1)
  {
    CountSnoc(p, [], f);
    CountSnoc(p, [] + [f], a);
    CountSnoc(p, [] + [f] + [a], b);
    CountSnoc(p, [] + [f] + [a] + [b], c);
    CountSnoc(p, [] + [f] + [a] + [b] + [c], d);
  }

  /** A triangle edge-on in the plane x = 0, two on one side of it and two on the other. */
  ghost predicate Crowd(f: Tri, a: Tri, b: Tri, c: Tri, d: Tri) {
    && f.sp == SP_F && f.re == [SIDE, SIDE, OTHER_SIDE]
    && a.sp == b.sp == Corners(false) && a.re == b.re == Edges(false)
    && c.sp == d.sp == Corners(true) && c.re == d.re == Edges(true)
  }

  lemma FiveIs(f: Tri, a: Tri, b: Tri, c: Tri, d: Tri, t: Tri)
    requires t in Five(f, a, b, c, d)
    ensures t == f || t == a || t == b || t == c || t == d
  {
  }

  lemma CrowdOnSphere(f: Tri, a: Tri, b: Tri, c: Tri, d: Tri, t: Tri)
    requires Crowd(f, a, b, c, d) && t in Five(f, a, b, c, d)
    ensures OnSphere(t)
  {
    if t == f {
      EdgeIs(SP_F[0], SP_F[1], 0.8, SIDE);
      EdgeIs(SP_F[1], SP_F[2], 0.6, SIDE);
      EdgeIs(SP_F[2], SP_F[0], 1.0, OTHER_SIDE);
    } else {
      FiveIs(f, a, b, c, d, t);
      SquareOnSphere(t != a && t != b, t);
    }
  }

  lemma Flat(f: Tri, p: Plane)
    requires f.sp == SP_F && p.b == p.c == p.d == 0.0
    ensures !HasPos(p, f) && !HasNeg(p, f)
  {
    forall v | v in f.sp
      ensures Margin(p, v) == 0.0
    {
      assert v.0 == 0.0;
    }
  }

  lemma OnSide(m: bool, t: Tri, p: Plane)
    requires (p == SIDE || p == OTHER_SIDE) && t.sp == Corners(m)
    ensures if (p == SIDE) != m then HasPos(p, t) && !HasNeg(p, t) else HasNeg(p, t) && !HasPos(p, t)
  {
    Has(p, t, 0);
  }

  /** No edge plane scores better than the plane x = 0, which is tried first. */
  lemma CrowdScores(f: Tri, a: Tri, b: Tri, c: Tri, d: Tri, p: Plane)
    requires Crowd(f, a, b, c, d) && (p in f.re || p in a.re || p in c.re)
    ensures Score(p, Five(f, a, b, c, d)) <= 1
    ensures p == SIDE ==> Score(p, Five(f, a, b, c, d)) == 1 && Neither(p, Five(f, a, b, c, d)) >= 1
  {
    FiveCounts(p, f, a, b, c, d);
    FiveOverlaps(p, f, a, b, c, d);
    if p in f.re {
      Flat(f, p);
      OnSide(false, a, p);
      OnSide(false, b, p);
      OnSide(true, c, p);
      OnSide(true, d, p);
    } else if p in a.re {
      EdgesCross(false, a, c, p);
      EdgesCross(false, b, d, p);
    } else {
      EdgesCross(true, c, a, p);
      EdgesCross(true, d, b, p);
    }
  }

  lemma CrowdTried(f: Tri, a: Tri, b: Tri, c: Tri, d: Tri, q: Plane)
    requires Crowd(f, a, b, c, d) && Tried(Five(f, a, b, c, d), |Five(f, a, b, c, d)|, 0, q)
    ensures Score(q, Five(f, a, b, c, d)) <= 1
  {
    var list := Five(f, a, b, c, d);
    var i, k :| 0 <= i < |list| && 0 <= k < |list[i].re| && list[i].re[k] == q;
    FiveIs(f, a, b, c, d, list[i]);
    assert q in list[i].re;
    CrowdScores(f, a, b, c, d, q);
  }

  /** These triangles have their vertices on the unit sphere and unit edge planes. Their tree splits them by
      the plane x = 0, and both sub-lists need more room than was counted. */
  lemma CrowdOverflows(np: Tree, f: Tri, a: Tri, b: Tri, c: Tri, d: Tri)
    requires Crowd(f, a, b, c, d) && TreeOf(np, Five(f, a, b, c, d))
    ensures forall t | t in Five(f, a, b, c, d) :: OnSphere(t)
    ensures var l := Five(f, a, b, c, d); np.Node? && |Pos(np.pe, l)| > Pc(np.pe, l) && |Neg(np.pe, l)| > Nc(np.pe, l)
  {
    var list := Five(f, a, b, c, d);
    forall t | t in list
      ensures OnSphere(t)
    {
      CrowdOnSphere(f, a, b, c, d, t);
    }
    CrowdScores(f, a, b, c, d, SIDE);
    assert list[0] == f && |list| == 5;
    forall q | Tried(list, |list|, 0, q)
      ensures Score(q, list) <= 1
    {
      CrowdTried(f, a, b, c, d, q);
    }
    FirstPlane(np, list, SIDE);
    ListSizes(SIDE, list);
  }
}
