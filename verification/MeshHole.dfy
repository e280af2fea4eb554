/** An insertion that leaves nothing of the surface. */
module MeshHole {
  import opened PlaneEq
  import opened Surface
  import opened Lists
  import opened Horizon
  import opened Tetra
  import opened Mesh

  /** Everything that every covering set holds is held by such a set itself. */
  lemma LeastCovers<V>(C: set<(V, V, V)>, seen: set<(V, V, V)>, poor: set<(V, V)>)
    requires Whole(C) && seen <= C
    ensures HitRegion(C, seen, poor, LeastCovering(C, seen, poor))
  {
    var R := LeastCovering(C, seen, poor);
    forall c | c in R
      ensures Turn(c) in R
    {
    }
    forall c | c in C && Crossed(R, poor, c)
      ensures c in R
    {
      forall S: set<(V, V, V)> | S <= C && Covering(C, seen, poor, S)
        ensures c in S
      {
        var r :| r in R && (r.0, r.1) == (c.1, c.0);
        assert r in S && Crossed(S, poor, c);
      }
    }
  }

  /** The triangle across a poor edge of the region is in the region. */
  lemma AcrossPoor<V>(C: set<(V, V, V)>, R: set<(V, V, V)>, poor: set<(V, V)>, r: (V, V, V), c: (V, V, V))
    requires Spread(C, R, poor) && Whole(R) && r in R && c in C && (r.0, r.1) == (c.1, c.0) && (c.1, c.0) in poor
    ensures c in R && Turn(c) in R && Turn(Turn(c)) in R
  {
    assert Crossed(R, poor, c);
  }

  /** On a tetrahedron the vertex sees one face and makes poor triangles with one edge of that and with two more:
      then all four triangles are removed. */
  lemma AllRemoved(p: Planes, a: GVert, b: GVert, c: GVert, d: GVert, v: GVert)
    requires Different(a, b, c, d) && (a, b, c) in VisibleCorners(p, TetraCorners(a, b, c, d), v)
    requires {(a, b), (a, d), (d, b)} <= PoorEdges(p, TetraCorners(a, b, c, d), v)
    ensures Removed(p, TetraCorners(a, b, c, d), v) == TetraCorners(a, b, c, d)
    ensures !SimpleHole(p, TetraCorners(a, b, c, d), v)
  {
    var C := TetraCorners(a, b, c, d);
    var seen, poor, R := VisibleCorners(p, C, v), PoorEdges(p, C, v), Removed(p, C, v);
    TetraManifold(a, b, c, d);
    LeastCovers(C, seen, poor);
    assert Turn((a, b, c)) in R && Turn(Turn((a, b, c))) in R;
    AcrossPoor(C, R, poor, (a, b, c), (b, a, d));
    AcrossPoor(C, R, poor, (a, d, b), (d, a, c));
    AcrossPoor(C, R, poor, (d, b, a), (b, d, c));
    assert Boundary(Edges(C)) == {} by {
      TetraClosed(a, b, c, d);
      forall e | e in Edges(C)
        ensures (e.1, e.0) in Edges(C)
      {
        var x :| x in C && (x.0, x.1) == e;
        assert Met(C, x);
      }
    }
  }

  // ---- such a tetrahedron and vertex

  /** The plane equation of three points, with a normal of length 1. */
  ghost predicate UnitPlane(e: Plane, p0: Vec, p1: Vec, p2: Vec) {
    exists ll: real ::
      ll > 0.0 && SquareOf(ll, Cross(Minus(p1, p0), Minus(p2, p0))) && e == PlaneThrough(p0, p1, p2, ll)
  }

  predicate SquareOf(ll: real, n: Vec) {
    ll * ll == Dot(n, n)
  }

  /** Half the tolerance. */
  const SMALL: real := 0.00000000005

  /** The centre is inside this tetrahedron, but close to the face over a, b and d; v is above the face over a, b
      and c, close to the plane through the centre and the edge from a to b, and d is straight opposite to it. */
  ghost predicate Opposite(p: Planes, a: GVert, b: GVert, c: GVert, d: GVert, v: GVert) {
    && a.ch == (1.0, 0.0, 1.0) && b.ch == (-1.0, 0.0, 1.0) && c.ch == (0.0, 1.0, 1.0)
    && d.ch == (0.0, -SMALL, -2.0) && v.ch == (0.0, SMALL, 2.0)
    && UnitPlane(p.hull(a, b, c), a.ch, b.ch, c.ch)
    && UnitPlane(p.edge(a, b), CENTRE, a.ch, b.ch) && UnitPlane(p.edge(a, d), CENTRE, a.ch, d.ch)
    && UnitPlane(p.edge(d, b), CENTRE, d.ch, b.ch)
  }

  lemma LengthTwo(ll: real)
    requires ll > 0.0 && ll * ll == 4.0
    ensures ll == 2.0
  {
    assert (ll - 2.0) * (ll + 2.0) == 0.0;
  }

  lemma SeesTop(e: Plane, v: Vec)
    requires UnitPlane(e, (1.0, 0.0, 1.0), (-1.0, 0.0, 1.0), (0.0, 1.0, 1.0)) && v.2 == 2.0
    ensures Margin(e, v) == -1.0
  {
    var p0, p1, p2: Vec := (1.0, 0.0, 1.0), (-1.0, 0.0, 1.0), (0.0, 1.0, 1.0);
    var ll :| ll > 0.0 && SquareOf(ll, Cross(Minus(p1, p0), Minus(p2, p0))) && e == PlaneThrough(p0, p1, p2, ll);
    assert Cross(Minus(p1, p0), Minus(p2, p0)) == (0.0, 0.0, -2.0);
    LengthTwo(ll);
  }

  lemma NearEdge(e: Plane, v: Vec)
    requires UnitPlane(e, CENTRE, (1.0, 0.0, 1.0), (-1.0, 0.0, 1.0))
    ensures Margin(e, v) == -v.1
  {
    var p1, p2: Vec := (1.0, 0.0, 1.0), (-1.0, 0.0, 1.0);
    var ll :| ll > 0.0 && SquareOf(ll, Cross(Minus(p1, CENTRE), Minus(p2, CENTRE)))
      && e == PlaneThrough(CENTRE, p1, p2, ll);
    assert Cross(Minus(p1, CENTRE), Minus(p2, CENTRE)) == (0.0, -2.0, 0.0);
    LengthTwo(ll);
  }

  lemma MarginOpposite(e: Plane, x: Vec)
    ensures Margin(e, CENTRE) == 0.0 ==> Margin(e, (-x.0, -x.1, -x.2)) == -Margin(e, x)
  {
    assert e.a * -x.0 == -(e.a * x.0) && e.b * -x.1 == -(e.b * x.1) && e.c * -x.2 == -(e.c * x.2);
  }

  /** A plane through the centre and a point holds the point straight opposite to that. */
  lemma OppositeOn(e: Plane, x: Vec, y: Vec, v: Vec)
    requires UnitPlane(e, CENTRE, x, y) && (v == (-x.0, -x.1, -x.2) || v == (-y.0, -y.1, -y.2))
    ensures Margin(e, v) == 0.0
  {
    var ll :| ll > 0.0 && SquareOf(ll, Cross(Minus(x, CENTRE), Minus(y, CENTRE)))
      && e == PlaneThrough(CENTRE, x, y, ll);
    PlaneTurn(CENTRE, x, y, ll);
    MarginOpposite(e, x);
    MarginOpposite(e, y);
  }

  /** The vertex leaves no surface at all. */
  lemma NothingLeft(p: Planes, a: GVert, b: GVert, c: GVert, d: GVert, v: GVert)
    requires Opposite(p, a, b, c, d, v) && Different(a, b, c, d)
    ensures Removed(p, TetraCorners(a, b, c, d), v) == TetraCorners(a, b, c, d)
    ensures VisibleCorners(p, TetraCorners(a, b, c, d), v) != {} && !SimpleHole(p, TetraCorners(a, b, c, d), v)
  {
    var C := TetraCorners(a, b, c, d);
    SeesTop(p.hull(a, b, c), v.ch);
    NearEdge(p.edge(a, b), v.ch);
    OppositeOn(p.edge(a, d), a.ch, d.ch, v.ch);
    OppositeOn(p.edge(d, b), d.ch, b.ch, v.ch);
    assert (a, b, c) in C && (a, d, b) in C && (d, b, a) in C;
    assert (a, b) in Edges(C) && (a, d) in Edges(C) && (d, b) in Edges(C);
    AllRemoved(p, a, b, c, d, v);
  }

  /** The centre is inside the tetrahedron: it is a mean of the vertices, with no weight zero. */
  lemma CentreInside(a: Vec, b: Vec, c: Vec, d: Vec) returns (x: real, y: real, z: real, w: real)
    requires a == (1.0, 0.0, 1.0) && b == (-1.0, 0.0, 1.0) && c == (0.0, 1.0, 1.0) && d == (0.0, -SMALL, -2.0)
    ensures x > 0.0 && y > 0.0 && z > 0.0 && w > 0.0 && x + y + z + w == 1.0
    ensures x * a.0 + y * b.0 + z * c.0 + w * d.0 == 0.0
    ensures x * a.1 + y * b.1 + z * c.1 + w * d.1 == 0.0
    ensures x * a.2 + y * b.2 + z * c.2 + w * d.2 == 0.0
  {
    w, z := 1.0 / 3.0, SMALL / 3.0;
    x := (1.0 - w - z) / 2.0;
    y := x;
  }

  /** Built and extended as the program does, the mesh is no longer valid. */
  method BreakMesh(m: Mesh, a: GVert, b: GVert, c: GVert, d: GVert, v: GVert, ghost vs: set<GVert>)
    requires vs == Elems(m.verts) && {a, b, c, d, v} <= vs && Symmetric(m.p, vs) && Flags(vs, {}, {})
    requires Opposite(m.p, a, b, c, d, v) && Different(a, b, c, d)
    modifies m`tris, m`edges, m`net, vs
    ensures !m.Valid()
  {
    m.Base(a, b, c, d, vs);
    NothingLeft(m.p, a, b, c, d, v);
    var hit;
    ghost var R;
    hit, R := m.InsertVertex(v);
    HitRegionLeast(TetraCorners(a, b, c, d), VisibleCorners(m.p, TetraCorners(a, b, c, d), v),
                   PoorEdges(m.p, TetraCorners(a, b, c, d), v), R);
  }
}
