/** The triangle/edge adjacency mesh of the hull triangulator, updated in place. */
module Mesh {
  import opened PlaneEq
  import opened Surface
  import opened SurfaceCount
  import opened Lists
  import opened Wiring
  import opened Corners
  import opened HitList
  import opened Closing
  import opened Horizon
  import opened Tetra
  import opened MeshCount
  import opened OneFace

  class GVert {
    const ch: Vec
    var tri: bool
    var inside: bool

    constructor (ch: Vec)
      ensures this.ch == ch && !tri && !inside
    {
      this.ch := ch;
      tri, inside := false, false;
    }
  }

  /** A triangle of the surface, or a face on the hit list: a face has v[0], v[1], e[0], ei[0] and ee[2] only. */
  class GTri {
    var v: seq<GVert>
    var e: seq<GEdge?>
    var ei: seq<nat>
    var che: Plane
    var ee: seq<Plane>

    constructor (v: seq<GVert>, e: GEdge?, ei: nat, che: Plane, ee: Plane)
      ensures this.v == v && this.e == [e, null, null] && this.ei == [ei, 0, 0]
      ensures this.che == che && this.ee == [ee, ee, ee]
    {
      this.v, this.e, this.ei, this.che, this.ee := v, [e, null, null], [ei, 0, 0], che, [ee, ee, ee];
    }
  }

  class GEdge {
    var v: seq<GVert>
    var t: seq<GTri>
    var ti: seq<nat>

    constructor (v: seq<GVert>, t: seq<GTri>, ti: seq<nat>)
      ensures this.v == v && this.t == t && this.ti == ti
    {
      this.v, this.t, this.ti := v, t, ti;
    }
  }

  // ---- the records in the objects, against a wiring

  type Side = (GTri, nat)
  type Net = Wires<GTri, GEdge?, GVert>

  /** The directed vertex pair of a side. */
  ghost function Dir(t: GTri, i: nat): (GVert, GVert)
    reads t
    requires i < 3 && |t.v| >= 2 && (i == 0 || |t.v| == 3)
  {
    (t.v[i], if i == 2 then t.v[0] else t.v[i + 1])
  }

  /** The plane equations of a triangle, computed from its vertices. */
  datatype Planes = Planes(hull: (GVert, GVert, GVert) -> Plane, edge: (GVert, GVert) -> Plane)

  function Opp(i: nat): nat
    requires i < 3
  {
    if i == 0 then 2 else i - 1
  }

  /** Side 2 of a face may be wired before the face gets its third vertex. */
  ghost predicate SideRec(p: Planes, w: Net, s: Side)
    reads s.0
  {
    && s.1 < 3 && |s.0.e| == 3 && |s.0.ei| == 3 && |s.0.ee| == 3 && 2 <= |s.0.v| <= 3
    && s in w.at && w.at[s] == (s.0.e[s.1], s.0.ei[s.1])
    && s in w.dir
    && (s.1 == 1 ==> |s.0.v| == 3)
    && (s.1 != 2 || |s.0.v| == 3 ==>
      w.dir[s] == Dir(s.0, s.1) && s.0.ee[Opp(s.1)] == p.edge(w.dir[s].0, w.dir[s].1))
  }

  /** Live triangles have three vertices and their hull plane; faces have two vertices. */
  ghost predicate ShapeRec(p: Planes, w: Net, s: Side)
    reads s.0
  {
    && ((s.0, 1) !in w.at ==> |s.0.v| == 2)
    && ((s.0, 1) in w.at ==> |s.0.v| == 3 && s.0.che == p.hull(s.0.v[0], s.0.v[1], s.0.v[2]))
  }

  ghost predicate EdgeRec(w: Net, e: GEdge?)
    reads if e == null then {} else {e}
  {
    && e != null
    && |e.v| == 2 && |e.t| == 2 && |e.ti| == 2
    && (e, 0) in w.ends && w.ends[(e, 0)] == (e.t[0], e.ti[0])
    && (e, 1) in w.ends && w.ends[(e, 1)] == (e.t[1], e.ti[1])
    && e in w.verts && w.verts[e] == (e.v[0], e.v[1])
  }

  ghost function TriObjects(w: Net): set<GTri> {
    set s | s in w.at :: s.0
  }

  ghost function EdgeObjects(w: Net): set<GEdge> {
    set e: GEdge | e in w.verts
  }

  /** The triangles and the edges record exactly the wiring w. */
  ghost predicate Records(p: Planes, w: Net)
    reads TriObjects(w), EdgeObjects(w)
  {
    && (forall s {:trigger SideRec(p, w, s)} | s in w.at :: SideRec(p, w, s))
    && (forall e {:trigger EdgeRec(w, e)} | e in w.verts :: EdgeRec(w, e))
  }

  ghost predicate Shaped(p: Planes, w: Net)
    reads TriObjects(w), EdgeObjects(w)
  {
    forall s {:trigger ShapeRec(p, w, s)} | s in w.at :: ShapeRec(p, w, s)
  }

  /** Move the i-th edge of tp to a new face record, fixing the edge's record of its triangle. */
  method MoveSide(tp: GTri, i: nat, ghost p: Planes, ghost w: Net) returns (t: GTri)
    requires Sound(w) && Records(p, w) && i < 3 && (tp, i) in w.at && |tp.v| == 3 && |tp.ee| == 3
    modifies EdgeObjects(w)
    ensures fresh(t) && |t.v| == 2
    ensures (t, 0) !in w.at && (tp, i) in w.dir && Records(p, Rename(w, (tp, i), (t, 0)))
  {
    assert SideSound(w, (tp, i)) && SideRec(p, w, (tp, i));
    var e := tp.e[i];
    assert EndSound(w, (e, tp.ei[i])) && EdgeRec(w, e);
    t := new GTri([tp.v[i], tp.v[(i + 1) % 3]], e, tp.ei[i], tp.che, tp.ee[Opp(i)]);
    label before:
    e.t := e.t[t.ei[0] := t];
    e.ti := e.ti[t.ei[0] := 0];
    ghost var w' := Rename(w, (tp, i), (t, 0));
    forall s | s in w'.at
      ensures SideRec(p, w', s)
    {
      if s != (t, 0) {
        assert old@before(SideRec(p, w, s));
      }
    }
    forall f | f in w'.verts
      ensures EdgeRec(w', f)
    {
      assert old@before(EdgeRec(w, f));
    }
  }

  lemma CancelRecords(p: Planes, w: Net, e: GEdge?)
    requires Records(p, w)
    ensures Records(p, Cancel(w, e))
  {
    var w' := Cancel(w, e);
    forall s | s in w'.at
      ensures SideRec(p, w', s)
    {
      assert SideRec(p, w, s);
    }
    forall f | f in w'.verts
      ensures EdgeRec(w', f)
    {
      assert EdgeRec(w, f);
    }
  }

  /** Of the vertices vs, exactly T are flagged as triangulated and exactly I as inside. */
  ghost predicate Flags(vs: set<GVert>, T: set<GVert>, I: set<GVert>)
    reads vs
  {
    forall x | x in vs :: (x.tri <==> x in T) && (x.inside <==> x in I)
  }

  /** The vertices of the surface are flagged as such, and no vertex has both flags. */
  ghost predicate Tagged(vs: set<GVert>, T: set<GVert>)
    reads vs
  {
    forall x | x in vs :: (x.tri <==> x in T) && !(x.tri && x.inside)
  }

  ghost function Turns(t: GTri): set<(GVert, GVert, GVert)>
    reads t
  {
    if |t.v| == 3 then {(t.v[0], t.v[1], t.v[2]), (t.v[1], t.v[2], t.v[0]), (t.v[2], t.v[0], t.v[1])} else {}
  }

  /** The corners of a set of triangles, as their vertex records have them. */
  ghost function CornersOf(L: set<GTri>): set<(GVert, GVert, GVert)>
    reads L
  {
    set t, c | t in L && c in Turns(t) :: c
  }

  lemma RecordedCorners(p: Planes, w: Net, L: set<GTri>, H: set<GTri>)
    requires Records(p, w) && Covers(w, L, H) && Rings(w, L)
    ensures CornersOf(L) == CornerSet(w, L)
  {
    forall t | t in L
      ensures Ring(w, t) && TriCorners(w, t) == Turns(t)
    {
      assert HasTri(w, t) && Ring(w, t);
      CornerVerts(p, w, t);
    }
  }

  lemma CornersUnion(L: set<GTri>, M: set<GTri>)
    ensures CornersOf(L + M) == CornersOf(L) + CornersOf(M)
  {
  }

  /** The triangulation tolerance. */
  const TOL: real := 0.0000000001

  /** v is above the hull plane of t. */
  ghost predicate Sees(v: GVert, t: GTri)
    reads t
  {
    Margin(t.che, v.ch) < -TOL
  }

  /** The corners whose hull plane v is above. */
  ghost function VisibleCorners(p: Planes, C: set<(GVert, GVert, GVert)>, v: GVert): set<(GVert, GVert, GVert)> {
    set c | c in C && Margin(p.hull(c.0, c.1, c.2), v.ch) < -TOL
  }

  /** The directed edges that v is not clearly to the right of. */
  ghost function PoorEdges(p: Planes, C: set<(GVert, GVert, GVert)>, v: GVert): set<(GVert, GVert)> {
    set d | d in Edges(C) && Margin(p.edge(d.0, d.1), v.ch) > -TOL
  }

  /** The hull plane of a triangle does not depend on which of its vertices comes first. */
  ghost predicate Symmetric(p: Planes, vs: set<GVert>) {
    forall a, b, c | a in vs && b in vs && c in vs :: p.hull(a, b, c) == p.hull(b, c, a)
  }

  /** Planes through the three points are symmetric, whatever length the normals are divided by. */
  lemma ThroughSymmetric(p: Planes, vs: set<GVert>, length: Vec -> real)
    requires forall n :: length(n) > 0.0
    requires forall a, b, c | a in vs && b in vs && c in vs ::
               p.hull(a, b, c) == PlaneThrough(a.ch, b.ch, c.ch, length(Cross(Minus(b.ch, a.ch), Minus(c.ch, a.ch))))
    ensures Symmetric(p, vs)
  {
    forall a, b, c | a in vs && b in vs && c in vs
      ensures p.hull(a, b, c) == p.hull(b, c, a)
    {
      CrossTurn(a.ch, b.ch, c.ch);
      PlaneTurn(a.ch, b.ch, c.ch, length(Cross(Minus(b.ch, a.ch), Minus(c.ch, a.ch))));
    }
  }

  lemma LiveVisible(p: Planes, w: Net, L: set<GTri>, hl: seq<GTri>, t: GTri, C: set<(GVert, GVert, GVert)>,
                    R: set<(GVert, GVert, GVert)>, vs: set<GVert>, v: GVert)
    requires Records(p, w) && Shaped(p, w) && Hitting(w, L, hl, C, R) && t in L && Verts(C) <= vs && Symmetric(p, vs)
    ensures Ring(w, t) && TriCorners(w, t) <= C
    ensures if Sees(v, t) then TriCorners(w, t) <= VisibleCorners(p, C, v)
      else TriCorners(w, t) !! VisibleCorners(p, C, v)
  {
    LiveVerts(p, w, L, hl, t, C, R);
    CornerVerts(p, w, t);
    DropTriangle(w, L, t);
    assert HasTri(w, t) && ShapeRec(p, w, (t, 0));
    TurnsVisible(p, t, C, vs, v);
  }

  lemma TurnsVisible(p: Planes, t: GTri, C: set<(GVert, GVert, GVert)>, vs: set<GVert>, v: GVert)
    requires |t.v| == 3 && t.che == p.hull(t.v[0], t.v[1], t.v[2]) && Elems(t.v) <= vs && Symmetric(p, vs)
      && Turns(t) <= C
    ensures if Sees(v, t) then Turns(t) <= VisibleCorners(p, C, v) else Turns(t) !! VisibleCorners(p, C, v)
  {
    assert t.v[0] in Elems(t.v) && t.v[1] in Elems(t.v) && t.v[2] in Elems(t.v);
  }

  /** When no live triangle is seen, the removed region holds every visible corner. */
  lemma AllVisibleRemoved(p: Planes, w: Net, L: set<GTri>, hl: seq<GTri>, C: set<(GVert, GVert, GVert)>,
                          R: set<(GVert, GVert, GVert)>, vs: set<GVert>, v: GVert)
    requires Records(p, w) && Shaped(p, w) && Hitting(w, L, hl, C, R) && Verts(C) <= vs && Symmetric(p, vs)
    requires forall t | t in L :: !Sees(v, t)
    ensures VisibleCorners(p, C, v) <= R
  {
    forall c | c in C - R
      ensures c !in VisibleCorners(p, C, v)
    {
      var t :| t in L && Ring(w, t) && c in TriCorners(w, t);
      LiveVisible(p, w, L, hl, t, C, R, vs, v);
    }
  }

  // ---- runs, as sequences of surfaces

  /** The region that inserting v removes from the surface C. */
  ghost function Removed(p: Planes, C: set<(GVert, GVert, GVert)>, v: GVert): set<(GVert, GVert, GVert)> {
    LeastCovering(C, VisibleCorners(p, C, v), PoorEdges(p, C, v))
  }

  /** The surface after v: unchanged if v sees none of it. */
  ghost function Inserted(p: Planes, C: set<(GVert, GVert, GVert)>, v: GVert): set<(GVert, GVert, GVert)> {
    if VisibleCorners(p, C, v) == {} then C else Cone(C, Removed(p, C, v), v)
  }

  /** Whether vertex i of vs is passed over: it is in P, or occurs before. */
  ghost predicate Passed(P: set<GVert>, vs: seq<GVert>, i: nat)
    requires i < |vs|
  {
    vs[i] in P + Elems(vs[..i])
  }

  /** The surface after the first n vertices. */
  ghost function SurfaceAfter(p: Planes, C: set<(GVert, GVert, GVert)>, P: set<GVert>, vs: seq<GVert>,
      n: nat): set<(GVert, GVert, GVert)>
    requires n <= |vs|
  {
    if n == 0 then C
    else if Passed(P, vs, n - 1) then SurfaceAfter(p, C, P, vs, n - 1)
    else Inserted(p, SurfaceAfter(p, C, P, vs, n - 1), vs[n - 1])
  }

  /** The hole that v makes in the surface C, if it makes one, has one simple boundary. */
  ghost predicate SimpleHole(p: Planes, C: set<(GVert, GVert, GVert)>, v: GVert) {
    VisibleCorners(p, C, v) != {} ==> SimpleCycle(Boundary(Edges(Removed(p, C, v))))
  }

  /** So has every hole made while the first n vertices are inserted. */
  ghost predicate SimpleHoles(p: Planes, C: set<(GVert, GVert, GVert)>, P: set<GVert>, vs: seq<GVert>, n: nat)
    requires n <= |vs|
  {
    n == 0 ||
    (SimpleHoles(p, C, P, vs, n - 1)
      && (Passed(P, vs, n - 1) || SimpleHole(p, SurfaceAfter(p, C, P, vs, n - 1), vs[n - 1])))
  }

  /** No hole made before the last vertex breaks the surface. */
  ghost predicate SimpleSoFar(p: Planes, C: set<(GVert, GVert, GVert)>, P: set<GVert>, vs: seq<GVert>) {
    vs == [] || SimpleHoles(p, C, P, vs, |vs| - 1)
  }

  /** The hole that v makes in the surface C, if it makes one, has V - E + F == 1, as a disc has. */
  ghost predicate DiscHole(p: Planes, C: set<(GVert, GVert, GVert)>, v: GVert) {
    VisibleCorners(p, C, v) != {} ==> SixChiRegion(Removed(p, C, v)) == 6
  }

  ghost predicate DiscHoles(p: Planes, C: set<(GVert, GVert, GVert)>, P: set<GVert>, vs: seq<GVert>, n: nat)
    requires n <= |vs|
  {
    n == 0 ||
    (DiscHoles(p, C, P, vs, n - 1)
      && (Passed(P, vs, n - 1) || DiscHole(p, SurfaceAfter(p, C, P, vs, n - 1), vs[n - 1])))
  }

  /** What the region removed says about the step; no edge of the hole is one that v would make a poor triangle with. */
  lemma HoleIs(p: Planes, C: set<(GVert, GVert, GVert)>, v: GVert, R: set<(GVert, GVert, GVert)>)
    requires HitRegion(C, VisibleCorners(p, C, v), PoorEdges(p, C, v), R) && Manifold(C)
    ensures Removed(p, C, v) == R && Boundary(Edges(R)) !! PoorEdges(p, C, v)
    ensures if VisibleCorners(p, C, v) == {} then Inserted(p, C, v) == C && SimpleHole(p, C, v)
            else Inserted(p, C, v) == Cone(C, R, v) && (SimpleHole(p, C, v) <==> SimpleCycle(Boundary(Edges(R))))
    ensures VisibleCorners(p, C, v) != {} && DiscHole(p, C, v) ==> SixChiRegion(R) == 6
  {
    HitRegionLeast(C, VisibleCorners(p, C, v), PoorEdges(p, C, v), R);
    PoorInside(C, R, PoorEdges(p, C, v));
  }

  /** Inserting v takes the surface C to D. If v is above no face, nothing happens. Otherwise D is the cone over a
      region which holds every face that v is above, and whose edges v is clearly to the right of. */
  ghost predicate Grown(p: Planes, C: set<(GVert, GVert, GVert)>, v: GVert, D: set<(GVert, GVert, GVert)>) {
    if exists c :: c in C && Margin(p.hull(c.0, c.1, c.2), v.ch) < -0.0000000001
    then exists R :: R <= C && D == Cone(C, R, v) && OverHole(p, C, v, R)
    else D == C
  }

  ghost predicate OverHole(p: Planes, C: set<(GVert, GVert, GVert)>, v: GVert, R: set<(GVert, GVert, GVert)>) {
    && (forall c | c in C - R :: Margin(p.hull(c.0, c.1, c.2), v.ch) >= -0.0000000001)
    && (forall d | d in Boundary(Edges(R)) :: Margin(p.edge(d.0, d.1), v.ch) <= -0.0000000001)
  }

  /** The hit region in terms of the margins. */
  lemma HoleMargins(p: Planes, C: set<(GVert, GVert, GVert)>, v: GVert, R: set<(GVert, GVert, GVert)>)
    requires HitRegion(C, VisibleCorners(p, C, v), PoorEdges(p, C, v), R) && Manifold(C)
    ensures HitRegion(C, (set c | c in C && Margin(p.hull(c.0, c.1, c.2), v.ch) < -0.0000000001),
                      (set d | d in Edges(C) && Margin(p.edge(d.0, d.1), v.ch) > -0.0000000001), R)
    ensures VisibleCorners(p, C, v) != {} <==> exists c :: c in C && Margin(p.hull(c.0, c.1, c.2), v.ch) < -0.0000000001
    ensures OverHole(p, C, v, R)
  {
    PoorInside(C, R, PoorEdges(p, C, v));
    var seen := set c | c in C && Margin(p.hull(c.0, c.1, c.2), v.ch) < -0.0000000001;
    var poor := set d | d in Edges(C) && Margin(p.edge(d.0, d.1), v.ch) > -0.0000000001;
    assert seen == VisibleCorners(p, C, v) && poor == PoorEdges(p, C, v);
    if c :| c in C && Margin(p.hull(c.0, c.1, c.2), v.ch) < -0.0000000001 {
      assert c in seen;
    }
    forall d | d in Boundary(Edges(R))
      ensures Margin(p.edge(d.0, d.1), v.ch) <= -0.0000000001
    {
      var c :| c in R && d == (c.0, c.1);
      assert c in C;
    }
    forall c | c in C - R
      ensures Margin(p.hull(c.0, c.1, c.2), v.ch) >= -0.0000000001
    {
      assert c !in VisibleCorners(p, C, v);
    }
  }

  /** The simplest case of both: v sees one triangle, and makes no poor triangle with its edges. */
  lemma OneFaceHole(p: Planes, C: set<(GVert, GVert, GVert)>, v: GVert, c: (GVert, GVert, GVert))
    requires Manifold(C) && c in C && VisibleCorners(p, C, v) == Face(c) && Edges(Face(c)) !! PoorEdges(p, C, v)
    ensures Removed(p, C, v) == Face(c) && SimpleHole(p, C, v) && DiscHole(p, C, v)
  {
    FaceDistinct(C, c);
    FaceRemoved(C, c, PoorEdges(p, C, v));
    FaceCycle(c);
    FaceDisc(c);
  }

  /** A mesh with surface D and the vertices Q placed after v was inserted into one with surface C and P placed. */
  ghost predicate Stepped(p: Planes, valid: bool, D: set<(GVert, GVert, GVert)>, Q: set<GVert>,
                          C: set<(GVert, GVert, GVert)>, P: set<GVert>, v: GVert) {
    && D == Inserted(p, C, v) && Grown(p, C, v, D) && (valid <==> SimpleHole(p, C, v))
    && Boundary(Edges(Removed(p, C, v))) !! PoorEdges(p, C, v)
    && (valid ==> Q == P + {v})
    && (valid && DiscHole(p, C, v) ==> SixChi(D) == SixChi(C))
  }

  /** Each of the first n vertices that is not passed over grows the surface. */
  ghost predicate GrownSteps(p: Planes, C: set<(GVert, GVert, GVert)>, P: set<GVert>, vs: seq<GVert>, n: nat)
    requires n <= |vs|
  {
    n == 0 ||
    (GrownSteps(p, C, P, vs, n - 1)
      && (Passed(P, vs, n - 1)
          || Grown(p, SurfaceAfter(p, C, P, vs, n - 1), vs[n - 1], SurfaceAfter(p, C, P, vs, n))))
  }

  /** A mesh with surface D and the vertices Q placed after the first n vertices, from surface C with P placed. */
  ghost predicate Reached(p: Planes, valid: bool, D: set<(GVert, GVert, GVert)>, Q: set<GVert>,
                          C: set<(GVert, GVert, GVert)>, P: set<GVert>, vs: seq<GVert>, n: nat)
    requires n <= |vs|
  {
    && D == SurfaceAfter(p, C, P, vs, n) && (valid <==> SimpleHoles(p, C, P, vs, n))
    && GrownSteps(p, C, P, vs, n)
    && (valid ==> Q == P + Elems(vs[..n]))
    && (valid && DiscHoles(p, C, P, vs, n) ==> SixChi(D) == SixChi(C))
  }

  lemma ReachedStart(p: Planes, C: set<(GVert, GVert, GVert)>, P: set<GVert>, vs: seq<GVert>)
    ensures Reached(p, true, C, P, C, P, vs, 0)
  {
  }

  lemma ReachedNext(p: Planes, D: set<(GVert, GVert, GVert)>, Q: set<GVert>, C: set<(GVert, GVert, GVert)>,
      P: set<GVert>, vs: seq<GVert>, i: nat, valid: bool, D': set<(GVert, GVert, GVert)>, Q': set<GVert>)
    requires i < |vs| && Reached(p, true, D, Q, C, P, vs, i)
    requires if vs[i] in Q then valid && D' == D && Q' == Q else Stepped(p, valid, D', Q', D, Q, vs[i])
    ensures Reached(p, valid, D', Q', C, P, vs, i + 1)
  {
    Prefix(vs, i);
    AppendElems(vs[..i], vs[i]);
    assert Passed(P, vs, i) <==> vs[i] in Q;
  }

  /** The vertices that are either on the surface or known to be inside. */
  ghost function Placed(vs: set<GVert>): set<GVert>
    reads vs
  {
    set x | x in vs && (x.tri || x.inside)
  }

  class Mesh {
    const p: Planes
    var tris: seq<GTri>
    var edges: seq<GEdge>
    var verts: seq<GVert>
    ghost var net: Net

    constructor (p: Planes, verts: seq<GVert>)
      ensures this.p == p && this.verts == verts && tris == [] && edges == []
    {
      this.p, this.verts, tris, edges := p, verts, [], [];
      net := Wires(map[], map[], map[], map[]);
    }

    ghost predicate EdgeList()
      reads this
    {
      NoDup(edges) && Elems(edges) == net.verts.Keys
    }

    // ---- removing triangles

    /** The position of the reverse of face cf on the hit list, or its length. */
    method FindFace(hl: seq<GTri>, cf: GTri) returns (m: nat)
      requires Records(p, net) && CanMerge(net, hl, cf)
      ensures m == FaceIndex(net, hl, cf)
      ensures m < |hl| ==> |cf.e| == |hl[m].e| == 3 && cf.e[0] == hl[m].e[0]
    {
      assert SideSound(net, (cf, 0)) && SideRec(p, net, (cf, 0));
      var c0, c1 := cf.v[0], cf.v[1];
      m := 0;
      while m < |hl|
        invariant m <= |hl|
        invariant forall n | 0 <= n < m :: !Facing(net, hl[n], cf)
      {
        var tp := hl[m];
        assert SideSound(net, (tp, 0)) && SideRec(p, net, (tp, 0));
        assert !SameDir(net, (cf, 0), (tp, 0));
        if (c0 == tp.v[0] && c1 == tp.v[1]) || (c0 == tp.v[1] && c1 == tp.v[0]) {
          Opposite(net, (cf, 0), (tp, 0));
          assert Facing(net, tp, cf);
          break;
        }
        m := m + 1;
      }
    }

    /** Add a face to the hit list; if its reverse is already there, both faces and their edge go. */
    method AddToHitList(hl: seq<GTri>, cf: GTri) returns (r: seq<GTri>)
      requires Records(p, net) && EdgeList() && CanMerge(net, hl, cf)
      modifies this`edges, this`net
      ensures (r, net) == Merge(old(net), hl, cf)
      ensures Records(p, net) && EdgeList() && net.verts.Keys <= old(net).verts.Keys
    {
      var m := FindFace(hl, cf);
      if m < |hl| {
        // add_to_hit_list checks that the two faces share their edge, and exits if not; that never happens
        assert cf.e[0] == hl[m].e[0];
        var e := cf.e[0];
        assert SideSound(net, (cf, 0)) && SideRec(p, net, (cf, 0)) && EndSound(net, net.at[(cf, 0)]) && EdgeRec(net, e);
        var i := IndexOf(edges, e);
        WithoutElems(edges, i);
        edges := Without(edges, i);
        CancelRecords(p, net, e);
        net := Cancel(net, e);
        r := Without(hl, m);
      } else {
        r := hl + [cf];
      }
    }

    /** Put the three faces of a decomposed triangle on the hit list. */
    method AddFaces(hl: seq<GTri>, tp: GTri, t1: GTri, t2: GTri) returns (r: seq<GTri>)
      requires Records(p, net) && EdgeList() && CanMergeAll(net, hl, tp, t1, t2)
      modifies this`edges, this`net
      ensures (r, net) == MergeAll(old(net), hl, tp, t1, t2)
      ensures Records(p, net) && EdgeList() && net.verts.Keys <= old(net).verts.Keys
      ensures old(Shaped(p, MergeAll(net, hl, tp, t1, t2).1)) ==> Shaped(p, net)
    {
      r := AddToHitList(hl, tp);
      r := AddToHitList(r, t1);
      r := AddToHitList(r, t2);
    }

    /** Forget what a triangle record no longer holds when only its side 0 is left. */
    method Trim(tp: GTri)
      requires Sound(net) && Records(p, net) && |tp.v| == 3
      requires (tp, 0) in net.at && (tp, 1) !in net.at && (tp, 2) !in net.at
      modifies tp
      ensures Records(p, net) && |tp.v| == 2
    {
      assert SideRec(p, net, (tp, 0));
      tp.e := [tp.e[0], null, null];
      tp.v := tp.v[..2];
      forall s | s in net.at
        ensures SideRec(p, net, s)
      {
        assert old(SideRec(p, net, s));
      }
      forall f | f in net.verts
        ensures EdgeRec(net, f)
      {
        assert old(EdgeRec(net, f));
      }
    }

    /** Decompose a triangle into three faces, on the triangle itself and on two new face records. */
    method DecomposeTri(tp: GTri) returns (t1: GTri, t2: GTri)
      requires Sound(net) && Records(p, net) && HasTri(net, tp) && Ring(net, tp)
      modifies this`net, tp, EdgeObjects(net)
      ensures fresh(t1) && fresh(t2) && t1 != t2
      ensures net == HitList.Decompose(old(net), tp, t1, t2) && Records(p, net)
      ensures |tp.v| == |t1.v| == |t2.v| == 2
    {
      assert SideRec(p, net, (tp, 1));
      t1 := MoveSide(tp, 1, p, net);
      RenameSound(net, (tp, 1), (t1, 0));
      net := Rename(net, (tp, 1), (t1, 0));
      t2 := MoveSide(tp, 2, p, net);
      RenameSound(net, (tp, 2), (t2, 0));
      net := Rename(net, (tp, 2), (t2, 0));
      Trim(tp);
    }

    /** The state of insert_vertex while R of the corners C have been removed. */
    ghost predicate HitState(hl: seq<GTri>, C: set<(GVert, GVert, GVert)>, R: set<(GVert, GVert, GVert)>)
      reads this, TriObjects(net), EdgeObjects(net)
    {
      && Records(p, net) && Shaped(p, net) && EdgeList() && NoDup(tris)
      && Hitting(net, Elems(tris), hl, C, R)
    }

    method MarkInside(x: GVert)
      modifies x
      ensures !x.tri && x.inside
    {
      x.tri := false;
      x.inside := true;
    }

    /** Drop a triangle from the list and mark its vertices as inside, until they turn up in a new one. */
    method Unlist(tp: GTri, ghost vs: set<GVert>, ghost T: set<GVert>, ghost I: set<GVert>)
      requires |tp.v| == 3 && tp in tris && NoDup(tris) && Flags(vs, T, I) && Elems(tp.v) <= vs
      modifies this`tris, vs
      ensures NoDup(tris) && Elems(tris) == old(Elems(tris)) - {tp}
      ensures Flags(vs, T - Elems(tp.v), I + Elems(tp.v))
    {
      for j := 0 to 3
        invariant tris == old(tris)
        invariant Flags(vs, T - Elems(tp.v[..j]), I + Elems(tp.v[..j]))
      {
        Prefix(tp.v, j);
        AppendElems(tp.v[..j], tp.v[j]);
        assert tp.v[j] in Elems(tp.v);
        MarkInside(tp.v[j]);
      }
      assert tp.v[..3] == tp.v;
      var k := IndexOf(tris, tp);
      WithoutElems(tris, k);
      tris := Without(tris, k);
    }

    /** As DecomposeTri; the three records then have the shape of faces. */
    method SplitTri(tp: GTri) returns (t1: GTri, t2: GTri)
      requires Sound(net) && Records(p, net) && Shaped(p, net) && HasTri(net, tp) && Ring(net, tp)
      modifies this`net, tp, EdgeObjects(net)
      ensures fresh(t1) && fresh(t2) && t1 != t2
      ensures net == HitList.Decompose(old(net), tp, t1, t2) && Records(p, net) && Shaped(p, net)
    {
      ghost var w := net;
      t1, t2 := DecomposeTri(tp);
      forall s | s in net.at
        ensures ShapeRec(p, net, s)
      {
        assert s in w.at ==> old(ShapeRec(p, net, s));
      }
    }

    /** As Unlist, when the region R has been removed before. */
    method DropTri(hl: seq<GTri>, tp: GTri, ghost C: set<(GVert, GVert, GVert)>, ghost R: set<(GVert, GVert, GVert)>,
                   ghost vs: set<GVert>, ghost T0: set<GVert>, ghost I0: set<GVert>)
      requires HitState(hl, C, R) && Verts(C) <= vs && Flags(vs, T0 - Verts(R), I0 + Verts(R)) && tp in Elems(tris)
      modifies this`tris, vs
      ensures Ring(net, tp) && NoDup(tris) && Elems(tris) == old(Elems(tris)) - {tp}
      ensures Flags(vs, T0 - Verts(R + TriCorners(net, tp)), I0 + Verts(R + TriCorners(net, tp)))
    {
      LiveVerts(p, net, Elems(tris), hl, tp, C, R);
      Unlist(tp, vs, T0 - Verts(R), I0 + Verts(R));
    }

    /** Split a live triangle, so that merging its three faces removes it from the surface. */
    method StartHit(hl: seq<GTri>, tp: GTri, ghost L: set<GTri>,
                    ghost C: set<(GVert, GVert, GVert)>, ghost R: set<(GVert, GVert, GVert)>)
      returns (t1: GTri, t2: GTri)
      requires Records(p, net) && Shaped(p, net) && Hitting(net, L, hl, C, R) && tp in L
      modifies this`net, tp, EdgeObjects(net)
      ensures Records(p, net) && net.verts == old(net).verts && fresh(t1) && fresh(t2)
      ensures CanMergeAll(net, hl, tp, t1, t2) && Ring(old(net), tp)
      ensures var (r, w') := MergeAll(net, hl, tp, t1, t2);
        && Hitting(w', L - {tp}, r, C, R + TriCorners(old(net), tp)) && Shaped(p, w')
        && (forall h | h in r :: h in hl || h == tp || h == t1 || h == t2)
    {
      ghost var w := net;
      assert HasTri(w, tp) && Ring(w, tp) && tp !in Elems(hl);
      t1, t2 := SplitTri(tp);
      HitTriangle(w, L, hl, tp, t1, t2, C, R);
      ghost var after := MergeAll(net, hl, tp, t1, t2);
      ShapedBelow(p, net, after.1, L - {tp}, Elems(hl) + {tp, t1, t2}, Elems(after.0));
    }

    /** Split a live triangle and merge its faces into the hit list. */
    method HitFaces(hl: seq<GTri>, tp: GTri, ghost L: set<GTri>,
                    ghost C: set<(GVert, GVert, GVert)>, ghost R: set<(GVert, GVert, GVert)>)
      returns (r: seq<GTri>)
      requires Records(p, net) && Shaped(p, net) && EdgeList() && Hitting(net, L, hl, C, R) && tp in L
      modifies this`edges, this`net, tp, EdgeObjects(net)
      ensures Records(p, net) && EdgeList() && Ring(old(net), tp)
      ensures Shaped(p, net) && net.verts.Keys <= old(net).verts.Keys
      ensures Hitting(net, L - {tp}, r, C, R + TriCorners(old(net), tp))
      ensures forall h | h in r :: h in hl || h == tp || fresh(h)
    {
      var t1, t2 := StartHit(hl, tp, L, C, R);
      r := AddFaces(hl, tp, t1, t2);
    }

    /** Take a live triangle off the surface and put its three faces on the hit list. */
    method AddTriToHitList(hl: seq<GTri>, tp: GTri, ghost C: set<(GVert, GVert, GVert)>,
        ghost R: set<(GVert, GVert, GVert)>, ghost vs: set<GVert>, ghost T0: set<GVert>, ghost I0: set<GVert>)
      returns (r: seq<GTri>, ghost R': set<(GVert, GVert, GVert)>)
      requires HitState(hl, C, R) && Verts(C) <= vs && Flags(vs, T0 - Verts(R), I0 + Verts(R)) && tp in Elems(tris)
      modifies this`tris, this`edges, this`net, tp, vs, EdgeObjects(net)
      ensures Ring(old(net), tp) && R' == R + TriCorners(old(net), tp)
      ensures HitState(r, C, R') && Flags(vs, T0 - Verts(R'), I0 + Verts(R')) && net.verts.Keys <= old(net).verts.Keys
      ensures Elems(tris) == old(Elems(tris)) - {tp}
      ensures forall h | h in r :: h in hl || h == tp || fresh(h)
    {
      ghost var L := Elems(tris);
      DropTri(hl, tp, C, R, vs, T0, I0);
      R' := R + TriCorners(net, tp);
      r := HitFaces(hl, tp, L, C, R);
    }

    /** One step of the search for visible triangles. */
    method HitIfSeen(hl: seq<GTri>, tp: GTri, v: GVert, ghost C: set<(GVert, GVert, GVert)>,
        ghost R: set<(GVert, GVert, GVert)>, ghost vs: set<GVert>, ghost T0: set<GVert>, ghost I0: set<GVert>)
      returns (r: seq<GTri>, seen: bool, ghost R': set<(GVert, GVert, GVert)>)
      requires HitState(hl, C, R) && Verts(C) <= vs && Flags(vs, T0 - Verts(R), I0 + Verts(R)) && tp in Elems(tris)
      requires Symmetric(p, vs)
      modifies this`tris, this`edges, this`net, tp, vs, EdgeObjects(net)
      ensures HitState(r, C, R') && Flags(vs, T0 - Verts(R'), I0 + Verts(R')) && net.verts.Keys <= old(net).verts.Keys
      ensures R' - R <= VisibleCorners(p, C, v) && R <= R' && (seen ==> R' != {})
      ensures Elems(tris) == if seen then old(Elems(tris)) - {tp} else old(Elems(tris))
      ensures !seen ==> !Sees(v, tp) && tris == old(tris) && r == hl && R' == R
      ensures forall h | h in r :: h in hl || h == tp || fresh(h)
    {
      seen := Margin(tp.che, v.ch) < -TOL;
      r, R' := hl, R;
      if seen {
        LiveVisible(p, net, Elems(tris), hl, tp, C, R, vs, v);
        assert Corner(net, tp, 0) in TriCorners(net, tp);
        r, R' := AddTriToHitList(hl, tp, C, R, vs, T0, I0);
      }
    }

    /** Of the first n triangles of all, v sees none that is left; the others are all left. */
    ghost predicate Scanned(all: seq<GTri>, n: nat, v: GVert)
      reads this, Elems(tris)
    {
      && n <= |all| && NoDup(all) && Elems(tris) <= Elems(all)
      && (forall t | t in Elems(tris) && t in Elems(all[..n]) :: !Sees(v, t))
      && (forall t | t in Elems(all) && t !in Elems(all[..n]) :: t in Elems(tris))
    }

    method HitNext(hl: seq<GTri>, hit: bool, all: seq<GTri>, n: nat, v: GVert, ghost C: set<(GVert, GVert, GVert)>,
        ghost R: set<(GVert, GVert, GVert)>, ghost vs: set<GVert>, ghost T0: set<GVert>, ghost I0: set<GVert>)
      returns (r: seq<GTri>, hit': bool, ghost R': set<(GVert, GVert, GVert)>)
      requires HitState(hl, C, R) && Verts(C) <= vs && Flags(vs, T0 - Verts(R), I0 + Verts(R)) && Symmetric(p, vs)
      requires n < |all| && Scanned(all, n, v) && R <= VisibleCorners(p, C, v) && (hit <==> R != {})
      modifies this`tris, this`edges, this`net, all[n], vs, EdgeObjects(net)
      ensures HitState(r, C, R') && Flags(vs, T0 - Verts(R'), I0 + Verts(R')) && net.verts.Keys <= old(net).verts.Keys
      ensures R' <= VisibleCorners(p, C, v) && (hit' <==> R' != {}) && (hit ==> hit') && (!hit' ==> tris == old(tris))
      ensures Scanned(all, n + 1, v)
      ensures forall h | h in r :: h in hl || h in Elems(all) || fresh(h)
    {
      PrefixElems(all, n);
      assert all[n] in Elems(all);
      var seen;
      r, seen, R' := HitIfSeen(hl, all[n], v, C, R, vs, T0, I0);
      hit' := hit || seen;
    }

    /** Put every triangle that is visible from v on the hit list. */
    method RemoveVisible(v: GVert, ghost C: set<(GVert, GVert, GVert)>, ghost vs: set<GVert>, ghost T0: set<GVert>,
        ghost I0: set<GVert>)
      returns (hl: seq<GTri>, hit: bool, ghost R: set<(GVert, GVert, GVert)>)
      requires HitState([], C, {}) && Verts(C) <= vs && Flags(vs, T0, I0) && Symmetric(p, vs)
      modifies this`tris, this`edges, this`net, Elems(tris), vs, EdgeObjects(net)
      ensures HitState(hl, C, R) && Flags(vs, T0 - Verts(R), I0 + Verts(R)) && net.verts.Keys <= old(net).verts.Keys
      ensures R == VisibleCorners(p, C, v)
      ensures hit <==> R != {}
      ensures !hit ==> tris == old(tris)
      ensures Elems(tris) <= old(Elems(tris)) && forall h | h in hl :: h in old(Elems(tris)) || fresh(h)
    {
      hl, R, hit := [], {}, false;
      var all := tris;
      for n := 0 to |all|
        invariant HitState(hl, C, R) && Flags(vs, T0 - Verts(R), I0 + Verts(R)) && net.verts.Keys <= old(net).verts.Keys
        invariant R <= VisibleCorners(p, C, v) && (hit <==> R != {}) && (!hit ==> tris == all)
        invariant Scanned(all, n, v)
        invariant forall h | h in hl :: h in Elems(all) || fresh(h)
      {
        hl, hit, R := HitNext(hl, hit, all, n, v, C, R, vs, T0, I0);
      }
      assert all[..|all|] == all;
      AllVisibleRemoved(p, net, Elems(tris), hl, C, R, vs, v);
    }

    /** The triangle on the other side of a face of the hit list. */
    method Across(hl: seq<GTri>, tp: GTri, ghost C: set<(GVert, GVert, GVert)>, ghost R: set<(GVert, GVert, GVert)>)
      returns (xtp: GTri)
      requires HitState(hl, C, R) && tp in hl
      ensures xtp in Elems(tris) && Ring(net, xtp) && Wired(net, tp)
      ensures Rev(net.dir[(tp, 0)]) in Edges(TriCorners(net, xtp))
    {
      LiveAcross(net, Elems(tris), hl, C, R, tp);
      ghost var x := net.at[(tp, 0)];
      assert tp in Elems(hl);
      assert SideSound(net, (tp, 0)) && SideRec(p, net, (tp, 0)) && EndSound(net, x) && EdgeRec(net, x.0);
      if tp.e[0].t[0] != tp {
        xtp := tp.e[0].t[0];
      } else {
        xtp := tp.e[0].t[1];
      }
      AcrossEdges(net, Elems(tris), hl, C, R, tp);
    }

    /** A face that would make a wrongly oriented triangle with v. */
    ghost predicate Bad(v: GVert, h: GTri)
      reads h
    {
      |h.ee| == 3 && Margin(h.ee[2], v.ch) > -TOL
    }

    /** The position of a face that v is not clearly to the right of, or the length of the list. */
    method BadFace(hl: seq<GTri>, v: GVert) returns (m: nat)
      requires forall h | h in hl :: |h.ee| == 3
      ensures m <= |hl| && (m < |hl| ==> Bad(v, hl[m]))
      ensures m == |hl| ==> forall h | h in hl :: !Bad(v, h)
    {
      m := 0;
      while m < |hl|
        invariant m <= |hl| && forall n | 0 <= n < m :: !Bad(v, hl[n])
      {
        if Margin(hl[m].ee[2], v.ch) > -TOL {
          return;
        }
        m := m + 1;
      }
    }

    /** The live triangle across some bad face, if there is one, and its corner c on that face. */
    method NextHit(v: GVert, hl: seq<GTri>, ghost C: set<(GVert, GVert, GVert)>, ghost R: set<(GVert, GVert, GVert)>)
      returns (found: bool, xtp: GTri?, ghost c: (GVert, GVert, GVert))
      requires HitState(hl, C, R)
      ensures found ==> xtp != null && xtp in Elems(tris) && Ring(net, xtp)
      ensures found ==>
        TriCorners(net, xtp) == {c, Turn(c), Turn(Turn(c))} && c in C && Crossed(R, PoorEdges(p, C, v), c)
      ensures !found ==> Spread(C, R, PoorEdges(p, C, v))
    {
      FacePlanes(p, net, Elems(tris), hl);
      var m := BadFace(hl, v);
      if m == |hl| {
        NoBadFace(p, net, Elems(tris), hl, C, R, v);
        return false, null, (v, v, v);
      }
      xtp := Across(hl, hl[m], C, R);
      found := true;
      c := BadAcross(p, net, Elems(tris), hl, C, R, v, hl[m], xtp);
    }

    /** Remove the triangle across some bad face, if there is one. */
    method ExpandStep(v: GVert, hl: seq<GTri>, ghost C: set<(GVert, GVert, GVert)>,
        ghost R0: set<(GVert, GVert, GVert)>, ghost R: set<(GVert, GVert, GVert)>, ghost vs: set<GVert>,
        ghost T0: set<GVert>, ghost I0: set<GVert>)
      returns (more: bool, r: seq<GTri>, ghost R': set<(GVert, GVert, GVert)>)
      requires HitState(hl, C, R) && Verts(C) <= vs && Flags(vs, T0 - Verts(R), I0 + Verts(R))
      requires R0 <= R && Within(C, R0, PoorEdges(p, C, v), R)
      modifies this`tris, this`edges, this`net, Elems(tris), vs, EdgeObjects(net)
      ensures HitState(r, C, R') && Flags(vs, T0 - Verts(R'), I0 + Verts(R')) && net.verts.Keys <= old(net).verts.Keys
      ensures R0 <= R' && Within(C, R0, PoorEdges(p, C, v), R')
      ensures Elems(tris) <= old(Elems(tris)) && (more ==> Elems(tris) != old(Elems(tris)))
      ensures !more ==> Spread(C, R', PoorEdges(p, C, v))
      ensures forall h | h in r :: h in hl || h in old(Elems(tris)) || fresh(h)
    {
      r, R' := hl, R;
      var xtp: GTri?;
      ghost var c;
      more, xtp, c := NextHit(v, hl, C, R);
      if more {
        CrossWithin(C, R0, PoorEdges(p, C, v), R, c);
        r, R' := AddTriToHitList(hl, xtp, C, R, vs, T0, I0);
      }
    }

    /** Remove the triangle across any such face, until every face makes a correctly oriented triangle with v. */
    method ExpandHits(v: GVert, hl: seq<GTri>, ghost C: set<(GVert, GVert, GVert)>, ghost R: set<(GVert, GVert, GVert)>,
                      ghost vs: set<GVert>, ghost T0: set<GVert>, ghost I0: set<GVert>)
      returns (r: seq<GTri>, ghost R': set<(GVert, GVert, GVert)>)
      requires HitState(hl, C, R) && Verts(C) <= vs && Flags(vs, T0 - Verts(R), I0 + Verts(R))
      requires R == VisibleCorners(p, C, v)
      modifies this`tris, this`edges, this`net, Elems(tris), vs, EdgeObjects(net)
      ensures HitState(r, C, R') && Flags(vs, T0 - Verts(R'), I0 + Verts(R')) && net.verts.Keys <= old(net).verts.Keys
      ensures HitRegion(C, R, PoorEdges(p, C, v), R') && Elems(tris) <= old(Elems(tris))
      ensures forall h | h in r :: h in hl || h in old(Elems(tris)) || fresh(h)
    {
      r, R' := hl, R;
      var more := true;
      while more
        invariant HitState(r, C, R') && Flags(vs, T0 - Verts(R'), I0 + Verts(R'))
          && net.verts.Keys <= old(net).verts.Keys
        invariant R <= R' && Elems(tris) <= old(Elems(tris))
        invariant Within(C, R, PoorEdges(p, C, v), R') && (!more ==> Spread(C, R', PoorEdges(p, C, v)))
        invariant forall h | h in r :: h in hl || h in old(Elems(tris)) || fresh(h)
        decreases Elems(tris), more
      {
        more, r, R' := ExpandStep(v, r, C, R, R', vs, T0, I0);
      }
    }

    // ---- closing the hole

    /** All plane equations of a triangle are those of its vertices. */
    ghost predicate Full(t: GTri)
      reads t
    {
      && |t.v| == 3 && t.che == p.hull(t.v[0], t.v[1], t.v[2])
      && t.ee == [p.edge(t.v[1], t.v[2]), p.edge(t.v[2], t.v[0]), p.edge(t.v[0], t.v[1])]
    }

    ghost predicate Linkable(t: GTri)
      reads t
    {
      |t.e| == |t.ei| == |t.ee| == 3
    }

    /** Give a face its third vertex and recompute its planes. */
    method Complete(tp: GTri, v: GVert, ghost ok: bool, ghost w: Net)
      requires |tp.v| == 2
      requires ok ==> Records(p, w) && (tp, 1) !in w.at && ((tp, 2) in w.dir ==> w.dir[(tp, 2)] == (v, tp.v[0]))
      modifies tp`v, tp`che, tp`ee
      ensures tp.v == old(tp.v) + [v] && Full(tp)
      ensures ok ==> Records(p, w)
    {
      tp.v := tp.v + [v];
      tp.che := p.hull(tp.v[0], tp.v[1], tp.v[2]);
      tp.ee := [p.edge(tp.v[1], tp.v[2]), p.edge(tp.v[2], tp.v[0]), p.edge(tp.v[0], tp.v[1])];
      if ok {
        forall s | s in w.at
          ensures SideRec(p, w, s)
        {
          assert old(SideRec(p, w, s));
        }
        forall e | e in w.verts
          ensures EdgeRec(w, e)
        {
          assert old(EdgeRec(w, e));
        }
      }
    }

    /** A new edge from v to the end of face tp, shared with the face tp2 that starts there. */
    method NewEdge(tp: GTri, tp2: GTri, v: GVert, ghost w: Net) returns (e: GEdge)
      requires tp != tp2 && Linkable(tp) && Linkable(tp2) && |tp.v| == 3
      modifies this`edges, tp`e, tp`ei, tp2`e, tp2`ei
      ensures fresh(e) && edges == old(edges) + [e] && Linkable(tp) && Linkable(tp2)
      ensures e.v == [v, tp.v[1]] && e.t == [tp, tp2] && e.ti == [1, 2]
      ensures tp.e[1] == e && tp.ei[1] == 0 && tp2.e[2] == e && tp2.ei[2] == 1
      ensures old(Records(p, w)) && (tp, 1) !in w.at && (tp2, 2) !in w.at ==> Records(p, w)
    {
      e := new GEdge([v, tp.v[1]], [tp, tp2], [1, 2]);
      edges := edges + [e];
      tp.e := tp.e[1 := e];
      tp.ei := tp.ei[1 := 0];
      tp2.e := tp2.e[2 := e];
      tp2.ei := tp2.ei[2 := 1];
      if old(Records(p, w)) && (tp, 1) !in w.at && (tp2, 2) !in w.at {
        forall s | s in w.at
          ensures SideRec(p, w, s)
        {
          assert old(SideRec(p, w, s));
        }
        forall f | f in w.verts
          ensures EdgeRec(w, f)
        {
          assert old(EdgeRec(w, f));
        }
      }
    }

    lemma JoinRecords(w: Net, e: GEdge, tp: GTri, tp2: GTri, v: GVert)
      requires tp != tp2 && Linkable(tp) && Linkable(tp2) && Full(tp) && tp.v[2] == v
      requires 2 <= |tp2.v| <= 3 && tp2.v[0] == tp.v[1] && (|tp2.v| == 3 ==> Full(tp2) && tp2.v[2] == v)
      requires e !in w.verts && (tp, 1) !in w.at && (tp2, 2) !in w.at
      requires e.v == [v, tp.v[1]] && e.t == [tp, tp2] && e.ti == [1, 2]
      requires tp.e[1] == e && tp2.e[2] == e && tp.ei[1] == 0 && tp2.ei[2] == 1
      requires Records(p, w)
      ensures Records(p, Join(w, e, (tp, 1), (tp2, 2), (tp.v[1], v)))
    {
      var w' := Join(w, e, (tp, 1), (tp2, 2), (tp.v[1], v));
      forall s | s in w'.at
        ensures SideRec(p, w', s)
      {
        assert s in w.at ==> SideRec(p, w, s);
      }
      forall f | f in w'.verts
        ensures EdgeRec(w', f)
      {
        assert f in w.verts ==> EdgeRec(w, f);
      }
    }

    /** As NewEdge; the records then are the wiring with the new edge. */
    method JoinFaces(tp: GTri, tp2: GTri, v: GVert, ghost w: Net) returns (e: GEdge)
      requires tp != tp2 && Linkable(tp) && Linkable(tp2) && Full(tp) && tp.v[2] == v
      requires 2 <= |tp2.v| <= 3 && tp2.v[0] == tp.v[1] && (|tp2.v| == 3 ==> Full(tp2) && tp2.v[2] == v)
      modifies this`edges, tp`e, tp`ei, tp2`e, tp2`ei
      ensures fresh(e) && edges == old(edges) + [e] && Linkable(tp) && Linkable(tp2)
      ensures old(Records(p, w)) && (tp, 1) !in w.at && (tp2, 2) !in w.at ==>
        e !in w.verts && Records(p, Join(w, e, (tp, 1), (tp2, 2), (tp.v[1], v)))
    {
      e := NewEdge(tp, tp2, v, w);
      if old(Records(p, w)) && (tp, 1) !in w.at && (tp2, 2) !in w.at {
        JoinRecords(w, e, tp, tp2, v);
      }
    }

    ghost predicate Edged(w: Net)
      reads this
    {
      NoDup(edges) && Elems(edges) == w.verts.Keys
    }

    /** Join face k to its follower n. */
    method JoinPair(hl: seq<GTri>, k: nat, n: nat, tp: GTri, tp2: GTri, v: GVert, ghost ok: bool, ghost w0: Net,
        ghost w: Net, ghost L: set<GTri>, ghost C: set<(GVert, GVert, GVert)>, ghost R: set<(GVert, GVert, GVert)>)
      returns (ghost w': Net)
      requires k < |hl| && n < |hl| && tp == hl[k] && tp2 == hl[n]
      requires tp != tp2 && Linkable(tp) && Linkable(tp2) && Full(tp) && tp.v[2] == v
      requires 2 <= |tp2.v| <= 3 && tp2.v[0] == tp.v[1] && (|tp2.v| == 3 ==> Full(tp2) && tp2.v[2] == v)
      requires ok ==> Hole(w0, L, hl, C, R, v) && ClosedTo(w0, w, hl, k, v) && Follows(w0, hl, k, n)
      requires ok ==> Records(p, w) && Edged(w) && tp.v[1] == w0.dir[(tp, 0)].1
      modifies this`edges, tp`e, tp`ei, tp2`e, tp2`ei
      ensures Linkable(tp) && Linkable(tp2)
      ensures ok ==> ClosedTo(w0, w', hl, k + 1, v) && Records(p, w') && Edged(w')
      ensures (forall e | e in edges :: e in old(edges) || fresh(e))
    {
      ghost var E0 := edges;
      var e := JoinFaces(tp, tp2, v, w);
      AppendElems(E0, e);
      w' := w;
      if ok {
        UnwiredYet(w0, w, L, hl, C, R, v, k, n);
        CloseStep(w0, w, L, hl, C, R, v, k, n, e);
        w' := Joined(w0, w, hl, v, k, n, e);
      }
    }

    /** Triangle t is the face f, or a complete triangle over it. */
    ghost predicate FaceAs(t: GTri, f: (GVert, GVert), complete: bool, v: GVert)
      reads t
    {
      && Linkable(t) && f.0 != f.1
      && if complete then Full(t) && t.v == [f.0, f.1, v] else t.v == [f.0, f.1]
    }

    /** The first k faces are complete triangles over the faces F; the others still are faces. */
    ghost predicate Faces(hl: seq<GTri>, F: seq<(GVert, GVert)>, k: nat, v: GVert)
      reads hl
    {
      |F| == |hl| && forall j | 0 <= j < |hl| :: FaceAs(hl[j], F[j], j < k, v)
    }

    /** The wiring w has joined the first k faces; the faces of w0 run along F. */
    ghost predicate Joining(w0: Net, w: Net, L: set<GTri>, hl: seq<GTri>, F: seq<(GVert, GVert)>, k: nat, v: GVert,
                            C: set<(GVert, GVert, GVert)>, R: set<(GVert, GVert, GVert)>)
    {
      && Hole(w0, L, hl, C, R, v) && ClosedTo(w0, w, hl, k, v)
      && |F| == |hl| && forall j | 0 <= j < |hl| :: Wired(w0, hl[j]) && w0.dir[(hl[j], 0)] == F[j]
    }

    /** Join face k to face n, if that starts where face k ends. */
    method LinkStep(hl: seq<GTri>, k: nat, n: nat, v: GVert, ghost F: seq<(GVert, GVert)>, ghost ok: bool,
        ghost done: nat, ghost w0: Net, ghost w: Net, ghost L: set<GTri>, ghost C: set<(GVert, GVert, GVert)>,
        ghost R: set<(GVert, GVert, GVert)>)
      returns (ghost w': Net)
      requires NoDup(hl) && k < |hl| && n < |hl| && Faces(hl, F, k + 1, v)
      requires ok ==>
        Records(p, w) && Edged(w) && Joining(w0, w, L, hl, F, done, v, C, R) && (Follows(w0, hl, k, n) ==> done == k)
      modifies this`edges, hl
      ensures Faces(hl, F, k + 1, v)
      ensures ok ==> Joining(w0, w', L, hl, F, if Follows(w0, hl, k, n) then k + 1 else done, v, C, R)
      ensures ok ==> Records(p, w') && Edged(w')
      ensures (forall e | e in edges :: e in old(edges) || fresh(e))
    {
      w' := w;
      if hl[n].v[0] == hl[k].v[1] {
        assert hl[k] != hl[n];
        w' := JoinPair(hl, k, n, hl[k], hl[n], v, ok, w0, w, L, C, R);
      }
    }

    /** Join face k to every face that starts where it ends. */
    method LinkFace(hl: seq<GTri>, k: nat, v: GVert, ghost F: seq<(GVert, GVert)>, ghost ok: bool, ghost w0: Net,
        ghost w: Net, ghost L: set<GTri>, ghost C: set<(GVert, GVert, GVert)>, ghost R: set<(GVert, GVert, GVert)>)
      returns (ghost w': Net)
      requires NoDup(hl) && k < |hl| && Faces(hl, F, k + 1, v)
      requires ok ==> Records(p, w) && Edged(w) && Joining(w0, w, L, hl, F, k, v, C, R)
      modifies this`edges, hl
      ensures Faces(hl, F, k + 1, v)
      ensures ok ==> Records(p, w') && Edged(w') && Joining(w0, w', L, hl, F, k + 1, v, C, R)
      ensures (forall e | e in edges :: e in old(edges) || fresh(e))
    {
      w' := w;
      ghost var m: nat, done := 0, k;
      if ok {
        m := Follower(w0, L, hl, C, R, v, k);
        OnlyFollower(w0, L, hl, C, R, v, k, m);
      }
      for n := 0 to |hl|
        invariant Faces(hl, F, k + 1, v) && (forall e | e in edges :: e in old(edges) || fresh(e))
        invariant done == if m < n then k + 1 else k
        invariant ok ==> Records(p, w') && Edged(w') && Joining(w0, w', L, hl, F, done, v, C, R)
      {
        w' := LinkStep(hl, k, n, v, F, ok, done, w0, w', L, C, R);
        done := if m == n then k + 1 else done;
      }
    }

    /** Turn every face on the hit list into a triangle with v, joined to its neighbours. */
    method CloseFaces(hl: seq<GTri>, v: GVert, ghost F: seq<(GVert, GVert)>, ghost ok: bool, ghost w0: Net,
                      ghost L: set<GTri>, ghost C: set<(GVert, GVert, GVert)>, ghost R: set<(GVert, GVert, GVert)>)
      returns (ghost w: Net)
      requires NoDup(hl) && Faces(hl, F, 0, v)
      requires ok ==> Records(p, w0) && Edged(w0) && Joining(w0, w0, L, hl, F, 0, v, C, R)
      modifies this`edges, hl
      ensures Faces(hl, F, |hl|, v)
      ensures ok ==> Records(p, w) && Edged(w) && Joining(w0, w, L, hl, F, |hl|, v, C, R)
      ensures (forall e | e in edges :: e in old(edges) || fresh(e))
    {
      w := w0;
      for k := 0 to |hl|
        invariant Faces(hl, F, k, v) && (forall e | e in edges :: e in old(edges) || fresh(e))
        invariant ok ==> Records(p, w) && Edged(w) && Joining(w0, w, L, hl, F, k, v, C, R)
      {
        w := CloseFace(hl, k, v, F, ok, w0, w, L, C, R);
      }
    }

    /** Turn face k into a triangle with v and join it. */
    method CloseFace(hl: seq<GTri>, k: nat, v: GVert, ghost F: seq<(GVert, GVert)>, ghost ok: bool, ghost w0: Net,
        ghost w: Net, ghost L: set<GTri>, ghost C: set<(GVert, GVert, GVert)>, ghost R: set<(GVert, GVert, GVert)>)
      returns (ghost w': Net)
      requires NoDup(hl) && k < |hl| && Faces(hl, F, k, v)
      requires ok ==> Records(p, w) && Edged(w) && Joining(w0, w, L, hl, F, k, v, C, R)
      modifies this`edges, hl
      ensures Faces(hl, F, k + 1, v)
      ensures ok ==> Records(p, w') && Edged(w') && Joining(w0, w', L, hl, F, k + 1, v, C, R)
      ensures (forall e | e in edges :: e in old(edges) || fresh(e))
    {
      CompleteFace(hl, k, v, F, ok, w0, w, L, C, R);
      w' := LinkFace(hl, k, v, F, ok, w0, w, L, C, R);
    }

    method CompleteFace(hl: seq<GTri>, k: nat, v: GVert, ghost F: seq<(GVert, GVert)>, ghost ok: bool, ghost w0: Net,
        ghost w: Net, ghost L: set<GTri>, ghost C: set<(GVert, GVert, GVert)>, ghost R: set<(GVert, GVert, GVert)>)
      requires NoDup(hl) && k < |hl| && Faces(hl, F, k, v)
      requires ok ==> Records(p, w) && Joining(w0, w, L, hl, F, k, v, C, R)
      modifies hl
      ensures Faces(hl, F, k + 1, v)
      ensures ok ==> Records(p, w)
    {
      if ok {
        TurnOf(w0, w, L, hl, C, R, v, k);
      }
      assert FaceAs(hl[k], F[k], false, v);
      Complete(hl[k], v, ok, w);
      forall j | 0 <= j < |hl|
        ensures FaceAs(hl[j], F[j], j < k + 1, v)
      {
        assert old(FaceAs(hl[j], F[j], j < k, v));
        assert j != k ==> hl[j] != hl[k];
      }
    }

    method MarkTri(x: GVert)
      modifies x
      ensures x.tri && !x.inside
    {
      x.tri := true;
      x.inside := false;
    }

    method MarkVerts(tp: GTri, ghost vs: set<GVert>, ghost T: set<GVert>, ghost I: set<GVert>)
      requires |tp.v| == 3 && Flags(vs, T, I) && Elems(tp.v) <= vs
      modifies vs
      ensures Flags(vs, T + Elems(tp.v), I - Elems(tp.v))
    {
      for j := 0 to 3
        invariant Flags(vs, T + Elems(tp.v[..j]), I - Elems(tp.v[..j]))
      {
        Prefix(tp.v, j);
        AppendElems(tp.v[..j], tp.v[j]);
        assert tp.v[j] in Elems(tp.v);
        MarkTri(tp.v[j]);
      }
      assert tp.v[..3] == tp.v;
    }

    /** The vertices of the first k new triangles. */
    ghost function NewVerts(F: seq<(GVert, GVert)>, k: nat, v: GVert): set<GVert>
      requires k <= |F|
    {
      Tails(Elems(F[..k])) + Heads(Elems(F[..k])) + (if k == 0 then {} else {v})
    }

    lemma NextVerts(F: seq<(GVert, GVert)>, k: nat, v: GVert)
      requires k < |F|
      ensures NewVerts(F, k + 1, v) == NewVerts(F, k, v) + {F[k].0, F[k].1, v}
    {
      assert F[..k + 1] == F[..k] + [F[k]];
      AppendElems(F[..k], F[k]);
      var D := Elems(F[..k]);
      assert Tails(D + {F[k]}) == Tails(D) + {F[k].0};
      assert Heads(D + {F[k]}) == Heads(D) + {F[k].1};
    }

    /** Move the finished triangles to the triangulation and mark their vertices as part of it. */
    method MoveFaces(hl: seq<GTri>, v: GVert, ghost F: seq<(GVert, GVert)>, ghost vs: set<GVert>, ghost T: set<GVert>,
        ghost I: set<GVert>)
      requires Faces(hl, F, |hl|, v) && Flags(vs, T, I)
      requires v in vs && forall d | d in F :: d.0 in vs && d.1 in vs
      modifies this`tris, vs
      ensures tris == old(tris) + hl
      ensures Flags(vs, T + NewVerts(F, |hl|, v), I - NewVerts(F, |hl|, v))
    {
      for k := 0 to |hl|
        invariant tris == old(tris) + hl[..k]
        invariant Flags(vs, T + NewVerts(F, k, v), I - NewVerts(F, k, v))
      {
        var tp := hl[k];
        tris := tris + [tp];
        assert F[k] in F;
        TripleElems(F[k].0, F[k].1, v);
        NextVerts(F, k, v);
        ghost var N := NewVerts(F, k, v);
        MarkVerts(tp, vs, T + N, I - N);
        Shift(T, I, N, Elems(tp.v));
        Prefix(hl, k);
      }
      assert hl[..|hl|] == hl;
    }

    /** The finished faces are the fan from v over the boundary. */
    lemma FacesFan(hl: seq<GTri>, F: seq<(GVert, GVert)>, v: GVert)
      requires Faces(hl, F, |hl|, v)
      ensures CornersOf(Elems(hl)) == Fan(Elems(F), v)
    {
      forall c | c in CornersOf(Elems(hl))
        ensures c in Fan(Elems(F), v)
      {
        var t :| t in Elems(hl) && c in Turns(t);
        var j :| 0 <= j < |hl| && hl[j] == t;
        assert F[j] in Elems(F);
        FanHolds(Elems(F), F[j], v);
      }
      forall c | c in Fan(Elems(F), v)
        ensures c in CornersOf(Elems(hl))
      {
        var d :| d in Elems(F) && (c == (d.0, d.1, v) || c == (d.1, v, d.0) || c == (v, d.0, d.1));
        var j :| 0 <= j < |F| && F[j] == d;
        assert hl[j] in Elems(hl) && c in Turns(hl[j]);
      }
    }

    /** The faces of a finished hit list run along the boundary of the removed region. */
    lemma HitPairs(hl: seq<GTri>, v: GVert, C: set<(GVert, GVert, GVert)>, R: set<(GVert, GVert, GVert)>)
      returns (F: seq<(GVert, GVert)>)
      requires HitState(hl, C, R)
      ensures Faces(hl, F, 0, v) && Elems(F) == Boundary(Edges(R))
      ensures forall j | 0 <= j < |hl| :: Wired(net, hl[j]) && net.dir[(hl[j], 0)] == F[j]
    {
      forall j | 0 <= j < |hl|
        ensures (hl[j], 0) in net.at && (hl[j], 0) in net.dir && (hl[j], 1) !in net.at
        ensures net.dir[(hl[j], 0)].0 != net.dir[(hl[j], 0)].1
      {
        assert hl[j] in Elems(hl);
        assert HasFace(net, hl[j]) && SideSound(net, (hl[j], 0)) && !Known(Elems(tris), Elems(hl), (hl[j], 1));
      }
      var w := net;
      F := seq(|hl|, j requires 0 <= j < |hl| && (hl[j], 0) in w.dir => w.dir[(hl[j], 0)]);
      forall j | 0 <= j < |hl|
        ensures Linkable(hl[j]) && hl[j].v == [F[j].0, F[j].1]
      {
        assert SideRec(p, net, (hl[j], 0)) && ShapeRec(p, net, (hl[j], 0));
      }
      forall d
        ensures d in Elems(F) <==> d in FaceDirs(net, Elems(hl))
      {
        if d in FaceDirs(net, Elems(hl)) {
          var h :| h in Elems(hl) && (h, 0) in net.dir && net.dir[(h, 0)] == d;
          var j :| 0 <= j < |hl| && hl[j] == h;
          assert F[j] == d;
        }
      }
    }

    ghost predicate LiveShape(t: GTri)
      reads t
    {
      |t.v| == 3 && t.che == p.hull(t.v[0], t.v[1], t.v[2])
    }

    lemma LiveShapes(L: set<GTri>, H: set<GTri>, w: Net)
      requires Shaped(p, w) && Covers(w, L, H)
      ensures forall t | t in L :: LiveShape(t)
    {
      forall t | t in L
        ensures LiveShape(t)
      {
        assert HasTri(w, t);
        assert ShapeRec(p, w, (t, 0));
      }
    }

    lemma ClosedShapes(w: Net, L: set<GTri>, hl: seq<GTri>, F: seq<(GVert, GVert)>, v: GVert)
      requires Covers(w, L + Elems(hl), {}) && Faces(hl, F, |hl|, v) && forall t | t in L :: LiveShape(t)
      ensures Shaped(p, w)
    {
      forall s | s in w.at
        ensures ShapeRec(p, w, s)
      {
        assert Known(L + Elems(hl), {}, s) && HasTri(w, s.0);
        if s.0 in Elems(hl) {
          var j :| 0 <= j < |hl| && hl[j] == s.0;
          assert Full(hl[j]);
        }
      }
    }

    /** The records are those of a whole triangulated surface with the triangles L. */
    ghost predicate Intact(w: Net, L: set<GTri>)
      reads TriObjects(w), EdgeObjects(w)
    {
      Sound(w) && Covers(w, L, {}) && Rings(w, L) && Records(p, w) && Shaped(p, w)
    }

    ghost predicate Lives(L: set<GTri>)
      reads L
    {
      forall t | t in L :: LiveShape(t)
    }

    /** A finished hit list, as the closing step needs it; ok says that the boundary is one simple cycle. */
    ghost predicate Prepared(hl: seq<GTri>, v: GVert, F: seq<(GVert, GVert)>, ok: bool, w: Net, L: set<GTri>,
                             C: set<(GVert, GVert, GVert)>, R: set<(GVert, GVert, GVert)>)
      reads L, hl
    {
      && NoDup(hl) && (forall h | h in hl :: h !in L) && Faces(hl, F, 0, v) && Elems(F) == Boundary(Edges(R))
      && CornersOf(L) == C - R && Lives(L)
      && (ok ==> Joining(w, w, L, hl, F, 0, v, C, R))
    }

    lemma Prepare(hl: seq<GTri>, v: GVert, C: set<(GVert, GVert, GVert)>, R: set<(GVert, GVert, GVert)>)
      returns (F: seq<(GVert, GVert)>)
      requires HitState(hl, C, R) && Region(C, R, v)
      ensures Prepared(hl, v, F, SimpleCycle(Boundary(Edges(R))), net, Elems(tris), C, R)
    {
      F := HitPairs(hl, v, C, R);
      RecordedCorners(p, net, Elems(tris), Elems(hl));
      LiveShapes(Elems(tris), Elems(hl), net);
      CloseStart(net, hl, v);
    }

    lemma Rejoined(w0: Net, w: Net, L: set<GTri>, hl: seq<GTri>, F: seq<(GVert, GVert)>, v: GVert,
                   C: set<(GVert, GVert, GVert)>, R: set<(GVert, GVert, GVert)>)
      requires Joining(w0, w, L, hl, F, |hl|, v, C, R) && Records(p, w) && Faces(hl, F, |hl|, v) && Lives(L)
      ensures Intact(w, L + Elems(hl))
    {
      ClosedCovers(w0, w, L, hl, C, R, v);
      ClosedShapes(w, L, hl, F, v);
    }

    /** Make the fan from v over the faces; the live triangles L are not touched. */
    method MakeFan(hl: seq<GTri>, v: GVert, ghost F: seq<(GVert, GVert)>, ghost ok: bool, ghost w0: Net,
        ghost L: set<GTri>, ghost C: set<(GVert, GVert, GVert)>, ghost R: set<(GVert, GVert, GVert)>)
      returns (ghost w: Net)
      requires Prepared(hl, v, F, ok, w0, L, C, R) && (ok ==> Records(p, w0) && Edged(w0))
      modifies this`edges, hl
      ensures Faces(hl, F, |hl|, v) && Lives(L) && CornersOf(L) == C - R
      ensures ok ==> Joining(w0, w, L, hl, F, |hl|, v, C, R) && Records(p, w) && Edged(w)
      ensures (forall e | e in edges :: e in old(edges) || fresh(e))
    {
      w := CloseFaces(hl, v, F, ok, w0, L, C, R);
    }

    lemma Fanned(w0: Net, w: Net, L: set<GTri>, hl: seq<GTri>, F: seq<(GVert, GVert)>, v: GVert, ok: bool,
                 C: set<(GVert, GVert, GVert)>, R: set<(GVert, GVert, GVert)>)
      requires Faces(hl, F, |hl|, v) && Lives(L) && CornersOf(L) == C - R && Elems(F) == Boundary(Edges(R))
      requires ok ==> Joining(w0, w, L, hl, F, |hl|, v, C, R) && Records(p, w)
      ensures CornersOf(L + Elems(hl)) == Cone(C, R, v)
      ensures ok ==> Intact(w, L + Elems(hl))
    {
      FacesFan(hl, F, v);
      CornersUnion(L, Elems(hl));
      if ok {
        Rejoined(w0, w, L, hl, F, v, C, R);
      }
    }

    /** Close the hole with the fan from v; when the boundary is one simple cycle the records are intact again. */
    method JoinHole(hl: seq<GTri>, v: GVert, ghost F: seq<(GVert, GVert)>, ghost ok: bool, ghost w0: Net,
        ghost L: set<GTri>, ghost C: set<(GVert, GVert, GVert)>, ghost R: set<(GVert, GVert, GVert)>)
      returns (ghost w: Net)
      requires Prepared(hl, v, F, ok, w0, L, C, R) && (ok ==> Records(p, w0) && Edged(w0))
      modifies this`edges, hl
      ensures Faces(hl, F, |hl|, v)
      ensures CornersOf(L + Elems(hl)) == Cone(C, R, v)
      ensures ok ==> Intact(w, L + Elems(hl)) && Edged(w)
      ensures (forall e | e in edges :: e in old(edges) || fresh(e))
    {
      w := MakeFan(hl, v, F, ok, w0, L, C, R);
      Fanned(w0, w, L, hl, F, v, ok, C, R);
    }

    /** Move the finished triangles and flag their vertices; no triangle or edge record changes. */
    method Settle(hl: seq<GTri>, v: GVert, ghost F: seq<(GVert, GVert)>, ghost vs: set<GVert>, ghost T: set<GVert>,
        ghost I: set<GVert>, ghost w: Net, ghost L: set<GTri>, ghost ok: bool)
      requires Faces(hl, F, |hl|, v) && Flags(vs, T, I)
      requires v in vs && forall d | d in F :: d.0 in vs && d.1 in vs
      requires ok ==> Intact(w, L)
      modifies this`tris, vs
      ensures tris == old(tris) + hl
      ensures var N := Tails(Elems(F)) + Heads(Elems(F)) + {v}; Flags(vs, T + N, I - N)
      ensures CornersOf(L) == old(CornersOf(L))
      ensures ok ==> Intact(w, L)
    {
      MoveFaces(hl, v, F, vs, T, I);
      MarkTri(v);
      assert F[..|hl|] == F;
      if ok {
        forall s | s in w.at
          ensures SideRec(p, w, s) && ShapeRec(p, w, s)
        {
          assert old(SideRec(p, w, s)) && old(ShapeRec(p, w, s));
        }
        forall e | e in w.verts
          ensures EdgeRec(w, e)
        {
          assert old(EdgeRec(w, e));
        }
      }
      forall t | t in L
        ensures Turns(t) == old(Turns(t))
      {
      }
    }

    lemma PrepareLists(hl: seq<GTri>, v: GVert, F: seq<(GVert, GVert)>, ok: bool, w: Net, C: set<(GVert, GVert, GVert)>,
                       R: set<(GVert, GVert, GVert)>, vs: set<GVert>)
      requires Prepared(hl, v, F, ok, w, Elems(tris), C, R) && NoDup(tris) && Region(C, R, v) && Verts(C) <= vs
      ensures NoDup(tris + hl) && Elems(tris + hl) == Elems(tris) + Elems(hl)
      ensures forall d | d in F :: d.0 in vs && d.1 in vs
    {
      ConcatElems(tris, hl);
      BoundaryWithin(F, C, R, v, vs);
    }

    /** The triangulation has the corners C, and if ok the wiring w is that of a whole surface. */
    ghost predicate Restored(ok: bool, w: Net, C: set<(GVert, GVert, GVert)>)
      reads this, Elems(tris), TriObjects(w), EdgeObjects(w)
    {
      && CornersOf(Elems(tris)) == C
      && (ok ==> Intact(w, Elems(tris)) && Edged(w))
    }

    /** Move the new triangles to the triangulation and flag their vertices. */
    method SettleAll(hl: seq<GTri>, v: GVert, ghost F: seq<(GVert, GVert)>, ghost ok: bool, ghost w: Net,
        ghost C': set<(GVert, GVert, GVert)>, ghost vs: set<GVert>, ghost T: set<GVert>, ghost I: set<GVert>)
      requires Faces(hl, F, |hl|, v) && Flags(vs, T, I)
      requires v in vs && forall d | d in F :: d.0 in vs && d.1 in vs
      requires CornersOf(Elems(tris + hl)) == C' && (ok ==> Intact(w, Elems(tris + hl)) && Edged(w))
      modifies this`tris, vs
      ensures tris == old(tris) + hl && Restored(ok, w, C')
      ensures var N := Tails(Elems(F)) + Heads(Elems(F)) + {v}; Flags(vs, T + N, I - N)
    {
      Settle(hl, v, F, vs, T, I, w, Elems(tris + hl), ok);
    }

    /** Close the hole, move the new triangles to the triangulation and flag their vertices. */
    method CloseHole(hl: seq<GTri>, v: GVert, ghost F: seq<(GVert, GVert)>, ghost ok: bool, ghost w0: Net,
        ghost C: set<(GVert, GVert, GVert)>, ghost R: set<(GVert, GVert, GVert)>, ghost vs: set<GVert>,
        ghost T: set<GVert>, ghost I: set<GVert>)
      returns (ghost w: Net)
      requires Prepared(hl, v, F, ok, w0, Elems(tris), C, R) && (ok ==> Records(p, w0) && Edged(w0))
      requires Elems(tris + hl) == Elems(tris) + Elems(hl)
      requires Flags(vs, T, I) && v in vs && forall d | d in F :: d.0 in vs && d.1 in vs
      modifies this`tris, this`edges, hl, vs
      ensures tris == old(tris) + hl && Restored(ok, w, Cone(C, R, v))
      ensures var N := Tails(Elems(F)) + Heads(Elems(F)) + {v}; Flags(vs, T + N, I - N)
      ensures (forall e | e in edges :: e in old(edges) || fresh(e))
    {
      w := JoinHole(hl, v, F, ok, w0, Elems(tris), C, R);
      SettleAll(hl, v, F, ok, w, Cone(C, R, v), vs, T, I);
    }

    /** Turn the finished hit list into triangles with v. */
    method Rebuild(hl: seq<GTri>, v: GVert, ghost C: set<(GVert, GVert, GVert)>, ghost R: set<(GVert, GVert, GVert)>,
                   ghost vs: set<GVert>, ghost T: set<GVert>, ghost I: set<GVert>) returns (ghost w: Net)
      requires HitState(hl, C, R) && Region(C, R, v) && Flags(vs, T, I) && v in vs && Verts(C) <= vs
      modifies this`tris, this`edges, hl, vs
      ensures CornersOf(Elems(tris)) == Cone(C, R, v) && NoDup(tris)
      ensures var N := Tails(Boundary(Edges(R))) + Heads(Boundary(Edges(R))) + {v}; Flags(vs, T + N, I - N)
      ensures SimpleCycle(Boundary(Edges(R))) ==> Edged(w) && Intact(w, Elems(tris))
      ensures (forall e | e in edges :: e in old(edges) || fresh(e))
      ensures tris == old(tris) + hl
    {
      ghost var F := Prepare(hl, v, C, R);
      PrepareLists(hl, v, F, SimpleCycle(Boundary(Edges(R))), net, C, R, vs);
      w := CloseHole(hl, v, F, SimpleCycle(Boundary(Edges(R))), net, C, R, vs, T, I);
    }

    // ---- inserting a vertex

    /** The corners of the triangulation. */
    ghost function Shell(): set<(GVert, GVert, GVert)>
      reads this, Elems(tris)
    {
      CornersOf(Elems(tris))
    }

    /** The invariant of the triangulator: records that point at each other, on a closed oriented 2-manifold. */
    ghost predicate Valid()
      reads this, Elems(tris), TriObjects(net), EdgeObjects(net), Elems(verts)
    {
      && Restored(true, net, Shell()) && NoDup(tris)
      && Manifold(Shell()) && Verts(Shell()) <= Elems(verts)
      && Symmetric(p, Elems(verts)) && Tagged(Elems(verts), Verts(Shell()))
    }

    lemma StartHits()
      requires Intact(net, Elems(tris)) && Edged(net) && NoDup(tris) && Manifold(Shell())
      ensures HitState([], Shell(), {})
    {
      RecordedCorners(p, net, Elems(tris), {});
      var none: seq<GTri> := [];
      assert Elems(none) == {};
    }

    /** The first half of insert_vertex: the hit region is taken off the surface. */
    method InsertHits(v: GVert, ghost C: set<(GVert, GVert, GVert)>, ghost vs: set<GVert>, ghost I0: set<GVert>)
      returns (hl: seq<GTri>, hit: bool, ghost R: set<(GVert, GVert, GVert)>)
      requires HitState([], C, {}) && Verts(C) <= vs && Flags(vs, Verts(C), I0) && Symmetric(p, vs)
      modifies this`tris, this`edges, this`net, Elems(tris), vs, EdgeObjects(net)
      ensures HitState(hl, C, R) && Flags(vs, Verts(C) - Verts(R), I0 + Verts(R))
        && net.verts.Keys <= old(net).verts.Keys
      ensures HitRegion(C, VisibleCorners(p, C, v), PoorEdges(p, C, v), R)
      ensures hit <==> VisibleCorners(p, C, v) != {}
      ensures !hit ==> tris == old(tris) && R == {}
      ensures (forall t | t in tris :: t in old(tris)) && (forall h | h in hl :: h in old(tris) || fresh(h))
      ensures forall e | e in edges :: e in old(edges)
    {
      hl, hit, R := RemoveVisible(v, C, vs, Verts(C), I0);
      if hit {
        hl, R := ExpandHits(v, hl, C, R, vs, Verts(C), I0);
      }
      OldElems(old(edges), edges);
      OldElems(old(tris), tris);
    }

    /** The flags after a region R has been replaced by the fan from v. */
    ghost predicate Reflagged(vs: set<GVert>, I0: set<GVert>, C: set<(GVert, GVert, GVert)>,
        R: set<(GVert, GVert, GVert)>, v: GVert)
      reads vs
    {
      var N := Tails(Boundary(Edges(R))) + Heads(Boundary(Edges(R))) + {v};
      Flags(vs, (Verts(C) - Verts(R)) + N, (I0 + Verts(R)) - N)
    }

    /** The second half: the hit region becomes the fan from v over its boundary. */
    method InsertFan(hl: seq<GTri>, v: GVert, ghost C: set<(GVert, GVert, GVert)>, ghost R: set<(GVert, GVert, GVert)>,
                     ghost vs: set<GVert>, ghost I0: set<GVert>) returns (ghost w: Net)
      requires HitState(hl, C, R) && Flags(vs, Verts(C) - Verts(R), I0 + Verts(R)) && v in vs && Verts(C) <= vs
      requires Manifold(C) && v !in Verts(C)
      modifies this`tris, this`edges, hl, vs
      ensures Restored(SimpleCycle(Boundary(Edges(R))), w, Cone(C, R, v)) && NoDup(tris)
      ensures Reflagged(vs, I0, C, R, v)
      ensures (forall e | e in edges :: e in old(edges) || fresh(e))
      ensures tris == old(tris) + hl
    {
      w := Rebuild(hl, v, C, R, vs, Verts(C) - Verts(R), I0 + Verts(R));
    }

    /** With nothing removed, nothing is left on the hit list. */
    lemma NothingHit(hl: seq<GTri>, C: set<(GVert, GVert, GVert)>)
      requires HitState(hl, C, {})
      ensures Restored(true, net, C) && NoDup(tris)
    {
      if hl != [] {
        FaceMeansHit(net, Elems(tris), hl, C, {}, hl[0]);
        assert false;
      }
      assert Elems(hl) == {};
      RecordedCorners(p, net, Elems(tris), {});
    }

    /** Make w the recorded wiring. */
    method Adopt(ghost ok: bool, ghost w: Net, ghost C: set<(GVert, GVert, GVert)>)
      requires Restored(ok, w, C)
      modifies this`net
      ensures net == w && Restored(ok, net, C)
    {
      net := w;
    }

    ghost function Inside(vs: set<GVert>): set<GVert>
      reads vs
    {
      set x | x in vs && x.inside
    }

    /** After a hit, the flags agree with the new surface. */
    lemma Retagged(C: set<(GVert, GVert, GVert)>, R: set<(GVert, GVert, GVert)>, v: GVert, vs: set<GVert>,
        I0: set<GVert>)
      requires Region(C, R, v) && SimpleCycle(Boundary(Edges(R))) && Verts(C) <= vs && v in vs
      requires Reflagged(vs, I0, C, R, v) && I0 !! Verts(C)
      ensures Tagged(vs, Verts(Cone(C, R, v))) && Verts(Cone(C, R, v)) <= vs
    {
      var N := ConeFlags(C, R, v);
      assert (Verts(C) - Verts(R)) + N !! (I0 + Verts(R)) - N;
    }

    /** Whether the hit left a valid mesh: it did exactly when the boundary was one simple cycle. */
    lemma HitValid(C: set<(GVert, GVert, GVert)>, R: set<(GVert, GVert, GVert)>, v: GVert, I0: set<GVert>)
      requires Restored(SimpleCycle(Boundary(Edges(R))), net, Cone(C, R, v)) && NoDup(tris)
      requires Region(C, R, v) && Verts(C) <= Elems(verts) && v in Elems(verts)
      requires Symmetric(p, Elems(verts)) && Reflagged(Elems(verts), I0, C, R, v) && I0 !! Verts(C)
      ensures v.tri && !v.inside
      ensures Valid() <==> SimpleCycle(Boundary(Edges(R)))
    {
      ConeManifold(C, R, v);
      if SimpleCycle(Boundary(Edges(R))) {
        Retagged(C, R, v, Elems(verts), I0);
      }
    }

    lemma ValidFlags()
      requires Valid()
      ensures Flags(Elems(verts), Verts(Shell()), Inside(Elems(verts))) && Inside(Elems(verts)) !! Verts(Shell())
    {
    }

    method Clear(v: GVert, ghost C: set<(GVert, GVert, GVert)>)
      requires Valid() && C == Shell() && v in Elems(verts) && !v.tri
      modifies v
      ensures HitState([], C, {}) && Manifold(C) && Verts(C) <= Elems(verts) && v !in Verts(C)
      ensures Inside(Elems(verts)) == old(Inside(Elems(verts))) - {v} && Inside(Elems(verts)) !! Verts(C)
      ensures Flags(Elems(verts), Verts(C), Inside(Elems(verts)))
    {
      StartHits();
      ValidFlags();
      v.inside, v.tri := false, false;
    }

    lemma MissValid(C: set<(GVert, GVert, GVert)>, v: GVert, I0: set<GVert>)
      requires Restored(true, net, C) && NoDup(tris) && Manifold(C) && Verts(C) <= Elems(verts) && v in Elems(verts)
        && v !in Verts(C)
      requires Symmetric(p, Elems(verts)) && Flags(Elems(verts), Verts(C), I0 + {v}) && I0 !! Verts(C)
        && I0 <= Elems(verts)
      ensures Valid() && Inside(Elems(verts)) == I0 + {v}
    {
    }

    /** The vertex expands the surface: fill the hole that it made. */
    method FinishHit(hl: seq<GTri>, v: GVert, ghost C: set<(GVert, GVert, GVert)>, ghost R: set<(GVert, GVert, GVert)>,
        ghost I0: set<GVert>)
      requires HitState(hl, C, R) && Flags(Elems(verts), Verts(C) - Verts(R), I0 + Verts(R))
      requires Region(C, R, v) && Verts(C) <= Elems(verts) && v in Elems(verts) && Symmetric(p, Elems(verts))
        && I0 !! Verts(C)
      modifies this`tris, this`edges, this`net, hl, Elems(verts)
      ensures Shell() == Cone(C, R, v) && Reflagged(Elems(verts), I0, C, R, v)
      ensures v.tri && !v.inside
      ensures Valid() <==> SimpleCycle(Boundary(Edges(R)))
      ensures (forall e | e in edges :: e in old(edges) || fresh(e))
      ensures tris == old(tris) + hl
    {
      ghost var w := InsertFan(hl, v, C, R, Elems(verts), I0);
      Adopt(SimpleCycle(Boundary(Edges(R))), w, Cone(C, R, v));
      HitValid(C, R, v, I0);
    }

    /** The vertex lies inside. */
    method FinishMiss(hl: seq<GTri>, v: GVert, ghost C: set<(GVert, GVert, GVert)>, ghost I0: set<GVert>)
      requires HitState(hl, C, {}) && Manifold(C) && Verts(C) <= Elems(verts) && v in Elems(verts) && v !in Verts(C)
      requires Symmetric(p, Elems(verts)) && Flags(Elems(verts), Verts(C), I0) && I0 !! Verts(C) && I0 <= Elems(verts)
      modifies v
      ensures Valid() && Shell() == C && Inside(Elems(verts)) == I0 + {v}
    {
      NothingHit(hl, C);
      MarkInside(v);
      MissValid(C, v, I0);
    }

    /** Take what the vertex removes off the surface. */
    method BeginInsert(v: GVert, ghost C: set<(GVert, GVert, GVert)>)
      returns (hl: seq<GTri>, hit: bool, ghost R: set<(GVert, GVert, GVert)>, ghost I0: set<GVert>)
      requires Valid() && C == Shell() && v in Elems(verts) && !v.tri
      modifies this`tris, this`edges, this`net, Elems(tris), Elems(verts), EdgeObjects(net)
      ensures HitState(hl, C, R) && Flags(Elems(verts), Verts(C) - Verts(R), I0 + Verts(R))
      ensures Region(C, R, v) && Verts(C) <= Elems(verts) && I0 !! Verts(C) && I0 <= Elems(verts)
      ensures I0 == old(Inside(Elems(verts))) - {v}
      ensures HitRegion(C, VisibleCorners(p, C, v), PoorEdges(p, C, v), R)
      ensures hit <==> VisibleCorners(p, C, v) != {}
      ensures !hit ==> R == {}
      ensures (forall t | t in tris :: t in old(tris)) && (forall h | h in hl :: h in old(tris) || fresh(h))
      ensures forall e | e in edges :: e in old(edges)
    {
      Clear(v, C);
      I0 := Inside(Elems(verts));
      hl, hit, R := InsertHits(v, C, Elems(verts), I0);
    }

    /** Insert a vertex into the triangulation: hit says whether it expands the surface, and R is what it removes. */
    method InsertVertex(v: GVert) returns (hit: bool, ghost R: set<(GVert, GVert, GVert)>)
      requires Valid() && v in Elems(verts) && !v.tri
      modifies this`tris, this`edges, this`net, Elems(tris), Elems(verts), EdgeObjects(net)
      ensures HitRegion(old(Shell()), VisibleCorners(p, old(Shell()), v), PoorEdges(p, old(Shell()), v), R)
      ensures HitRegion(old(Shell()),
                        (set c | c in old(Shell()) && Margin(p.hull(c.0, c.1, c.2), v.ch) < -0.0000000001),
                        (set d | d in Edges(old(Shell())) && Margin(p.edge(d.0, d.1), v.ch) > -0.0000000001), R)
      ensures forall c | c in old(Shell()) - R :: Margin(p.hull(c.0, c.1, c.2), v.ch) >= -0.0000000001
      ensures forall d | d in Boundary(Edges(R)) :: Margin(p.edge(d.0, d.1), v.ch) <= -0.0000000001
      ensures hit <==> VisibleCorners(p, old(Shell()), v) != {}
      ensures hit <==> exists c :: c in old(Shell()) && Margin(p.hull(c.0, c.1, c.2), v.ch) < -0.0000000001
      ensures !hit ==> Valid() && Shell() == old(Shell())
      ensures !hit ==> Inside(Elems(verts)) == old(Inside(Elems(verts))) + {v}
      ensures hit ==> Shell() == Cone(old(Shell()), R, v) && v.tri && !v.inside
      ensures hit ==> Reflagged(Elems(verts), old(Inside(Elems(verts))) - {v}, old(Shell()), R, v)
      ensures hit ==> (Valid() <==> SimpleCycle(Boundary(Edges(R))))
      ensures forall e | e in edges :: e in old(edges) || fresh(e)
      ensures forall t | t in tris :: t in old(tris) || fresh(t)
    {
      ghost var C := Shell();
      ghost var I0;
      var hl;
      hl, hit, R, I0 := BeginInsert(v, C);
      HoleMargins(p, C, v, R);
      if hit {
        FinishHit(hl, v, C, R, I0);
      } else {
        FinishMiss(hl, v, C, I0);
      }
    }

    // ---- the base triangulation

    method NewTri(a: GVert, b: GVert, c: GVert) returns (t: GTri)
      ensures fresh(t) && t.v == [a, b, c] && Full(t) && Linkable(t)
    {
      t := new GTri([a, b, c], null, 0, p.hull(a, b, c), p.edge(a, b));
      t.ee := [p.edge(b, c), p.edge(c, a), p.edge(a, b)];
    }

    /** Side s, running along d, is recorded as end i of edge e. */
    ghost predicate SideSpelled(s: Side, e: GEdge, i: nat, d: (GVert, GVert))
      reads s.0
    {
      && s.1 < 3 && Full(s.0) && Linkable(s.0)
      && s.0.e[s.1] == e && s.0.ei[s.1] == i && Dir(s.0, s.1) == d
    }

    ghost predicate LinkSpelled(k: Link<GTri, GEdge?, GVert>)
      reads k.s.0, k.r.0, if k.e == null then {} else {k.e}
    {
      && k.e != null && k.e.v == [k.u.0, k.u.1] && k.e.t == [k.s.0, k.r.0] && k.e.ti == [k.s.1, k.r.1]
      && SideSpelled(k.s, k.e, 0, k.d) && SideSpelled(k.r, k.e, 1, Rev(k.d))
    }

    lemma FullSide(t: GTri, i: nat)
      requires Full(t) && i < 3
      ensures t.ee[Opp(i)] == p.edge(Dir(t, i).0, Dir(t, i).1)
    {
      if i == 0 {
      } else if i == 1 {
      } else {
      }
    }

    lemma SpelledRecords(ls: seq<Link<GTri, GEdge?, GVert>>, w: Net)
      requires AllApart(ls) && w == Wire(ls) && forall k | k in ls :: LinkSpelled(k)
      ensures Records(p, w)
      ensures forall s | s in w.at && (s.0, 1) in w.at :: ShapeRec(p, w, s)
    {
      WireKeys(ls);
      WireLinks(ls);
      forall s | s in w.at
        ensures SideRec(p, w, s) && ((s.0, 1) in w.at ==> ShapeRec(p, w, s))
      {
        var k :| k in ls && (s == k.s || s == k.r);
        assert Linked(w, k) && LinkSpelled(k);
        FullSide(s.0, s.1);
      }
      forall e | e in w.verts
        ensures EdgeRec(w, e)
      {
        var k :| k in ls && k.e == e;
        assert LinkSpelled(k) && Linked(w, k);
      }
    }

    method BaseTris(a: GVert, b: GVert, c: GVert, d: GVert) returns (t: seq<GTri>)
      ensures ShapesSpelled(t, a, b, c, d) && NoDup(t)
      ensures fresh(t[0]) && fresh(t[1]) && fresh(t[2]) && fresh(t[3])
    {
      var t0 := NewTri(a, b, c);
      var t1 := NewTri(a, d, b);
      var t2 := NewTri(a, c, d);
      var t3 := NewTri(b, d, c);
      t := [t0, t1, t2, t3];
    }

    /** The edge records of the base triangulation. */
    ghost predicate EdgesSpelled(t: seq<GTri>, e: seq<GEdge>, a: GVert, b: GVert, c: GVert, d: GVert)
      reads e
    {
      && |t| == 4 && |e| == 6
      && e[0].v == [a, b] && e[0].t == [t[0], t[1]] && e[0].ti == [0, 2]
      && e[1].v == [b, c] && e[1].t == [t[0], t[3]] && e[1].ti == [1, 2]
      && e[2].v == [a, c] && e[2].t == [t[0], t[2]] && e[2].ti == [2, 0]
      && e[3].v == [a, d] && e[3].t == [t[1], t[2]] && e[3].ti == [0, 2]
      && e[4].v == [b, d] && e[4].t == [t[1], t[3]] && e[4].ti == [1, 0]
      && e[5].v == [c, d] && e[5].t == [t[2], t[3]] && e[5].ti == [1, 1]
    }

    method BaseEdges(t: seq<GTri>, a: GVert, b: GVert, c: GVert, d: GVert) returns (e: seq<GEdge>)
      requires |t| == 4
      ensures EdgesSpelled(t, e, a, b, c, d) && NoDup(e) && forall x | x in e :: fresh(x)
    {
      var e0 := new GEdge([a, b], [t[0], t[1]], [0, 2]);
      var e1 := new GEdge([b, c], [t[0], t[3]], [1, 2]);
      var e2 := new GEdge([a, c], [t[0], t[2]], [2, 0]);
      var e3 := new GEdge([a, d], [t[1], t[2]], [0, 2]);
      var e4 := new GEdge([b, d], [t[1], t[3]], [1, 0]);
      var e5 := new GEdge([c, d], [t[2], t[3]], [1, 1]);
      e := [e0, e1, e2, e3, e4, e5];
    }

    /** The edges of the four triangles. */
    ghost predicate TrisSpelled(t: seq<GTri>, e: seq<GEdge>)
      reads t
    {
      && |t| == 4 && |e| == 6
      && t[0].e == [e[0], e[1], e[2]] && t[0].ei == [0, 0, 0]
      && t[1].e == [e[3], e[4], e[0]] && t[1].ei == [0, 0, 1]
      && t[2].e == [e[2], e[5], e[3]] && t[2].ei == [1, 0, 1]
      && t[3].e == [e[4], e[5], e[1]] && t[3].ei == [1, 1, 1]
    }

    ghost predicate ShapesSpelled(t: seq<GTri>, a: GVert, b: GVert, c: GVert, d: GVert)
      reads t
    {
      && |t| == 4 && Full(t[0]) && Full(t[1]) && Full(t[2]) && Full(t[3])
      && Linkable(t[0]) && Linkable(t[1]) && Linkable(t[2]) && Linkable(t[3])
      && t[0].v == [a, b, c] && t[1].v == [a, d, b] && t[2].v == [a, c, d] && t[3].v == [b, d, c]
    }

    method FitTris(t: seq<GTri>, e: seq<GEdge>)
      requires |t| == 4 && NoDup(t) && |e| == 6
      modifies t`e, t`ei
      ensures TrisSpelled(t, e)
    {
      t[0].e, t[0].ei := [e[0], e[1], e[2]], [0, 0, 0];
      t[1].e, t[1].ei := [e[3], e[4], e[0]], [0, 0, 1];
      t[2].e, t[2].ei := [e[2], e[5], e[3]], [1, 0, 1];
      t[3].e, t[3].ei := [e[4], e[5], e[1]], [1, 1, 1];
    }

    /** Four triangles and six edges that record each other. */
    method BaseRecords(a: GVert, b: GVert, c: GVert, d: GVert) returns (t: seq<GTri>, e: seq<GEdge>)
      ensures ShapesSpelled(t, a, b, c, d) && TrisSpelled(t, e) && EdgesSpelled(t, e, a, b, c, d)
      ensures NoDup(t) && NoDup(e) && (forall x | x in t :: fresh(x)) && (forall x | x in e :: fresh(x))
    {
      t := BaseTris(a, b, c, d);
      e := BaseEdges(t, a, b, c, d);
      FitTris(t, e);
    }

    lemma BaseLinks(t: seq<GTri>, e: seq<GEdge>, a: GVert, b: GVert, c: GVert, d: GVert)
      requires ShapesSpelled(t, a, b, c, d) && TrisSpelled(t, e) && EdgesSpelled(t, e, a, b, c, d)
      ensures forall k | k in TetraLinks<GTri, GEdge?, GVert>(t, e, a, b, c, d) :: LinkSpelled(k)
    {
      assert Full(t[0]) && Full(t[1]) && Full(t[2]) && Full(t[3]);
    }

    lemma BaseShell(t: seq<GTri>, a: GVert, b: GVert, c: GVert, d: GVert)
      requires ShapesSpelled(t, a, b, c, d)
      ensures CornersOf(Elems(t)) == TetraCorners(a, b, c, d)
    {
      assert Turns(t[0]) + Turns(t[1]) + Turns(t[2]) + Turns(t[3]) == TetraCorners(a, b, c, d);
      assert t[0] in Elems(t) && t[1] in Elems(t) && t[2] in Elems(t) && t[3] in Elems(t);
      forall x | x in Elems(t)
        ensures x == t[0] || x == t[1] || x == t[2] || x == t[3]
      {
      }
    }

    lemma BaseIntact(t: seq<GTri>, e: seq<GEdge>, a: GVert, b: GVert, c: GVert, d: GVert)
      requires ShapesSpelled(t, a, b, c, d) && TrisSpelled(t, e) && EdgesSpelled(t, e, a, b, c, d)
      requires NoDup(t) && NoDup(e) && Different(a, b, c, d)
      ensures var w := Wire(TetraLinks<GTri, GEdge?, GVert>(t, e, a, b, c, d));
        Intact(w, Elems(t)) && w.verts.Keys == Elems(e)
    {
      var ls := TetraLinks<GTri, GEdge?, GVert>(t, e, a, b, c, d);
      TetraWired<GTri, GEdge?, GVert>(t, e, a, b, c, d);
      TetraApart<GTri, GEdge?, GVert>(t, e, a, b, c, d);
      BaseLinks(t, e, a, b, c, d);
      SpelledRecords(ls, Wire(ls));
      BaseShaped(Wire(ls), Elems(t));
    }

    lemma BaseShaped(w: Net, L: set<GTri>)
      requires Covers(w, L, {}) && forall s | s in w.at && (s.0, 1) in w.at :: ShapeRec(p, w, s)
      ensures Shaped(p, w)
    {
      forall s | s in w.at
        ensures ShapeRec(p, w, s)
      {
        assert Known(L, {}, s) && HasTri(w, s.0);
      }
    }

    /** Four triangles and six edges with the wiring of a tetrahedron. */
    method BuildBase(a: GVert, b: GVert, c: GVert, d: GVert) returns (t: seq<GTri>, e: seq<GEdge>, ghost w: Net)
      requires Different(a, b, c, d)
      ensures Intact(w, Elems(t)) && w.verts.Keys == Elems(e) && NoDup(t) && NoDup(e)
      ensures CornersOf(Elems(t)) == TetraCorners(a, b, c, d)
      ensures (forall x | x in t :: fresh(x)) && (forall x | x in e :: fresh(x))
    {
      t, e := BaseRecords(a, b, c, d);
      BaseIntact(t, e, a, b, c, d);
      BaseShell(t, a, b, c, d);
      w := Wire(TetraLinks<GTri, GEdge?, GVert>(t, e, a, b, c, d));
    }

    method MarkBase(a: GVert, b: GVert, c: GVert, d: GVert, ghost vs: set<GVert>)
      requires {a, b, c, d} <= vs && Flags(vs, {}, {})
      modifies {a, b, c, d}
      ensures Flags(vs, {a, b, c, d}, {})
    {
      a.tri := true;
      b.tri := true;
      c.tri := true;
      d.tri := true;
    }

    method Install(t: seq<GTri>, e: seq<GEdge>, ghost w: Net, ghost C: set<(GVert, GVert, GVert)>, ghost vs: set<GVert>,
        ghost T: set<GVert>)
      requires Intact(w, Elems(t)) && w.verts.Keys == Elems(e) && NoDup(t) && NoDup(e) && CornersOf(Elems(t)) == C
      requires Manifold(C) && Verts(C) == T <= vs && vs == Elems(verts) && Symmetric(p, vs) && Flags(vs, T, {})
      modifies this`tris, this`edges, this`net
      ensures Valid() && Shell() == C && tris == t && edges == e && Inside(vs) == {}
    {
      tris, edges := t, e;
      Adopt(true, w, C);
    }

    lemma ListedEdges()
      requires Edged(net)
      ensures forall e | e in EdgeObjects(net) :: e in edges
      ensures forall t | t in Elems(tris) :: t in tris
    {
      forall e | e in EdgeObjects(net)
        ensures e in edges
      {
        assert e in Elems(edges);
      }
    }

    /** The base triangulation: a tetrahedron over four of the vertices vs. */
    method Base(a: GVert, b: GVert, c: GVert, d: GVert, ghost vs: set<GVert>)
      requires Different(a, b, c, d) && {a, b, c, d} <= vs && vs == Elems(verts) && Symmetric(p, vs)
        && Flags(vs, {}, {})
      modifies this`tris, this`edges, this`net, {a, b, c, d}
      ensures Valid() && Shell() == TetraCorners(a, b, c, d)
      ensures Inside(vs) == {}
      ensures fresh(Elems(tris)) && fresh(EdgeObjects(net))
    {
      ghost var w, C, T := net, TetraCorners(a, b, c, d), {a, b, c, d};
      MarkBase(a, b, c, d, vs);
      var t, e;
      t, e, w := BuildBase(a, b, c, d);
      TetraManifold(a, b, c, d);
      Install(t, e, w, C, vs, T);
      ListedEdges();
    }

    // ---- a whole run

    lemma PlacedBefore(vs: set<GVert>)
      requires Valid() && vs == Elems(verts)
      ensures Placed(vs) == Verts(Shell()) + Inside(vs)
    {
    }

    /** Inserting a vertex places it, and leaves no placed vertex without a flag. */
    lemma PlacedAfter(vs: set<GVert>, I0: set<GVert>, C: set<(GVert, GVert, GVert)>, R: set<(GVert, GVert, GVert)>,
        v: GVert)
      requires Reflagged(vs, I0, C, R, v) && v in vs && Verts(C) <= vs && I0 <= vs
      requires Region(C, R, v) && SimpleCycle(Boundary(Edges(R)))
      ensures Placed(vs) == Verts(C) + I0 + {v}
    {
      var N := ConeFlags(C, R, v);
      VertsOf(R, C);
    }

    /** Insert a vertex that is not placed. The mesh stays valid exactly if the hole it makes has a simple boundary. */
    method InsertNext(v: GVert, ghost vs: set<GVert>)
      requires Valid() && v in vs && vs == Elems(verts) && !v.tri && !v.inside
      modifies this`tris, this`edges, this`net, Elems(tris), vs, EdgeObjects(net)
      ensures Stepped(p, Valid(), Shell(), Placed(vs), old(Shell()), old(Placed(vs)), v)
      ensures forall e | e in edges :: e in old(edges) || fresh(e)
      ensures forall t | t in tris :: t in old(tris) || fresh(t)
    {
      ghost var C, I0, P := Shell(), Inside(vs) - {v}, Placed(vs);
      Unplaced(v, vs);
      var hit;
      ghost var R;
      hit, R := InsertVertex(v);
      if hit {
        HitStepped(C, R, v, vs, I0, P);
      } else {
        MissStepped(C, R, v, vs, I0, P);
      }
    }

    lemma Unplaced(v: GVert, vs: set<GVert>)
      requires Valid() && v in vs && vs == Elems(verts) && !v.tri && !v.inside
      ensures Manifold(Shell()) && v !in Verts(Shell()) && Verts(Shell()) <= vs && Inside(vs) - {v} <= vs
      ensures Placed(vs) == Verts(Shell()) + (Inside(vs) - {v})
    {
    }

    lemma MissStepped(C: set<(GVert, GVert, GVert)>, R: set<(GVert, GVert, GVert)>, v: GVert, vs: set<GVert>,
        I0: set<GVert>, P: set<GVert>)
      requires HitRegion(C, VisibleCorners(p, C, v), PoorEdges(p, C, v), R) && VisibleCorners(p, C, v) == {}
        && Manifold(C)
      requires Valid() && Shell() == C && vs == Elems(verts) && P == Verts(C) + I0 && Inside(vs) == I0 + {v}
      ensures Stepped(p, Valid(), Shell(), Placed(vs), C, P, v)
    {
      HoleIs(p, C, v, R);
      HoleMargins(p, C, v, R);
      PlacedBefore(vs);
    }

    lemma HitStepped(C: set<(GVert, GVert, GVert)>, R: set<(GVert, GVert, GVert)>, v: GVert, vs: set<GVert>,
        I0: set<GVert>, P: set<GVert>)
      requires Manifold(C) && v !in Verts(C) && v in vs && Verts(C) <= vs && I0 <= vs && P == Verts(C) + I0
      requires HitRegion(C, VisibleCorners(p, C, v), PoorEdges(p, C, v), R) && VisibleCorners(p, C, v) != {}
      requires Shell() == Cone(C, R, v) && Reflagged(vs, I0, C, R, v) && (Valid() <==> SimpleCycle(Boundary(Edges(R))))
      ensures Stepped(p, Valid(), Shell(), Placed(vs), C, P, v)
    {
      HoleIs(p, C, v, R);
      HoleMargins(p, C, v, R);
      if SimpleCycle(Boundary(Edges(R))) {
        assert Region(C, R, v);
        PlacedAfter(vs, I0, C, R, v);
        ConeEuler(C, R, v);
      }
    }

    /** The first i vertices have been dealt with, from the surface C and the vertices P placed. */
    ghost predicate Run(i: nat, C: set<(GVert, GVert, GVert)>, P: set<GVert>)
      reads this, Elems(tris), TriObjects(net), EdgeObjects(net), Elems(verts)
    {
      i <= |verts| && Reached(p, Valid(), Shell(), Placed(Elems(verts)), C, P, verts, i)
    }

    /** Insert vertex i unless it is placed. */
    method InsertStep(i: nat, ghost C: set<(GVert, GVert, GVert)>, ghost P: set<GVert>)
      requires i < |verts| && SimpleSoFar(p, C, P, verts) && Run(i, C, P)
      modifies this`tris, this`edges, this`net, Elems(tris), EdgeObjects(net), Elems(verts)
      ensures Run(i + 1, C, P)
      ensures forall e | e in edges :: e in old(edges) || fresh(e)
      ensures forall t | t in tris :: t in old(tris) || fresh(t)
    {
      ghost var D, Q := Shell(), Placed(Elems(verts));
      HolesUpto(p, C, P, verts, i);
      var v := verts[i];
      assert v in Elems(verts);
      assert v in Q <==> v.tri || v.inside;
      if !v.tri && !v.inside {
        InsertNext(v, Elems(verts));
      }
      ReachedNext(p, D, Q, C, P, verts, i, Valid(), Shell(), Placed(Elems(verts)));
    }

    /** Insert every vertex that is not yet placed, in the given order. Supposing that no hole but possibly the last
        one breaks the surface, the mesh is valid at the end exactly if none does. */
    method InsertAll(ghost C: set<(GVert, GVert, GVert)>, ghost P: set<GVert>)
      requires Valid() && C == Shell() && P == Placed(Elems(verts)) && SimpleSoFar(p, C, P, verts)
      modifies this`tris, this`edges, this`net, Elems(tris), EdgeObjects(net), Elems(verts)
      ensures Reached(p, Valid(), Shell(), Placed(Elems(verts)), C, P, verts, |verts|)
    {
      ghost var vs := verts;
      ReachedStart(p, C, P, vs);
      for i := 0 to |verts|
        invariant verts == vs && Run(i, C, P)
        invariant forall t | t in tris :: t in old(tris) || fresh(t)
        invariant forall e | e in edges :: e in old(edges) || fresh(e)
      {
        HolesUpto(p, C, P, vs, i);
        assert Valid() && EdgeObjects(net) == Elems(edges);
        InsertStep(i, C, P);
      }
    }

    /** The base tetrahedron, with its vertices placed. */
    method StartRun(a: GVert, b: GVert, c: GVert, d: GVert)
      requires Different(a, b, c, d) && {a, b, c, d} <= Elems(verts) && Symmetric(p, Elems(verts))
        && Flags(Elems(verts), {}, {})
      modifies this`tris, this`edges, this`net, {a, b, c, d}
      ensures Valid() && Shell() == TetraCorners(a, b, c, d) && Placed(Elems(verts)) == {a, b, c, d}
      ensures fresh(Elems(tris)) && fresh(EdgeObjects(net))
    {
      Base(a, b, c, d, Elems(verts));
      BasePlaced(a, b, c, d);
    }

    lemma BasePlaced(a: GVert, b: GVert, c: GVert, d: GVert)
      requires Different(a, b, c, d) && Valid() && Shell() == TetraCorners(a, b, c, d) && Inside(Elems(verts)) == {}
      ensures Placed(Elems(verts)) == {a, b, c, d}
    {
      PlacedBefore(Elems(verts));
      TetraManifold(a, b, c, d);
    }

    /** Triangulate: the base tetrahedron over four of the vertices, then every other vertex. */
    method TriangulateCh(a: GVert, b: GVert, c: GVert, d: GVert)
      requires Different(a, b, c, d) && {a, b, c, d} <= Elems(verts) && Symmetric(p, Elems(verts))
        && Flags(Elems(verts), {}, {})
      requires SimpleSoFar(p, TetraCorners(a, b, c, d), {a, b, c, d}, verts)
      modifies this`tris, this`edges, this`net, Elems(verts)
      ensures Reached(p, Valid(), Shell(), Placed(Elems(verts)), TetraCorners(a, b, c, d), {a, b, c, d}, verts, |verts|)
    {
      ghost var C, P := TetraCorners(a, b, c, d), {a, b, c, d};
      assert SimpleSoFar(p, C, P, verts);
      StartRun(a, b, c, d);
      InsertAll(C, P);
    }

    /** Euler's formula: after a run that keeps the surface valid and whose holes are discs, V - E + F == 2. */
    lemma EulerAfter(a: GVert, b: GVert, c: GVert, d: GVert)
      requires Different(a, b, c, d) && Valid() && DiscHoles(p, TetraCorners(a, b, c, d), {a, b, c, d}, verts, |verts|)
      requires Reached(p, Valid(), Shell(), Placed(Elems(verts)), TetraCorners(a, b, c, d), {a, b, c, d}, verts,
        |verts|)
      ensures |Verts(Shell())| - |edges| + |tris| == 2 && 3 * |tris| == 2 * |edges|
    {
      TetraChi(a, b, c, d);
      Counts();
    }

    /** Euler's count on the records: 3F == 2E, and V - E + F in terms of the lists. */
    lemma Counts()
      requires Valid()
      ensures 3 * |tris| == 2 * |edges|
      ensures SixChi(Shell()) == 6 * (|Verts(Shell())| - |edges| + |tris|)
    {
      ElemsSize(tris);
      ElemsSize(edges);
      forall e | e in net.verts
        ensures (e, 0) in net.ends && (e, 1) in net.ends
      {
        assert EdgeRec(net, e);
      }
      SidesAreEnds(net, Elems(tris));
      CornersSize(net, Elems(tris));
      RecordedCorners(p, net, Elems(tris), {});
    }
  }

  lemma HolesUpto(p: Planes, C: set<(GVert, GVert, GVert)>, P: set<GVert>, vs: seq<GVert>, i: nat)
    requires i < |vs| && SimpleSoFar(p, C, P, vs)
    ensures SimpleHoles(p, C, P, vs, i)
  {
    HolesBefore(p, C, P, vs, i, |vs| - 1);
  }

  lemma {:induction false} HolesBefore(p: Planes, C: set<(GVert, GVert, GVert)>, P: set<GVert>, vs: seq<GVert>, i: nat,
      n: nat)
    requires i <= n <= |vs| && SimpleHoles(p, C, P, vs, n)
    ensures SimpleHoles(p, C, P, vs, i)
  {
    if i < n {
      HolesBefore(p, C, P, vs, i, n - 1);
    }
  }

  lemma OldElems<A>(s: seq<A>, r: seq<A>)
    requires Elems(r) <= Elems(s)
    ensures forall a | a in r :: a in s
  {
    forall a | a in r
      ensures a in s
    {
      assert a in Elems(r);
    }
  }

  /** The vertices of the cone, as the flags are set. */
  lemma ConeFlags<V>(C: set<(V, V, V)>, R: set<(V, V, V)>, v: V) returns (N: set<V>)
    requires Region(C, R, v) && SimpleCycle(Boundary(Edges(R)))
    ensures N == Tails(Boundary(Edges(R))) + Heads(Boundary(Edges(R))) + {v}
    ensures Verts(Cone(C, R, v)) == (Verts(C) - Verts(R)) + N && N <= Verts(C) + {v}
  {
    var B := Boundary(Edges(R));
    N := Tails(B) + Heads(B) + {v};
    var d :| d in B;
    assert d.0 in Tails(B);
    ConeVerts(C, R, v);
    VertsOf(R, C);
    TailsWithin(C, R, v);
  }

  lemma VertsOf<V>(R: set<(V, V, V)>, C: set<(V, V, V)>)
    requires R <= C
    ensures Verts(R) <= Verts(C)
  {
    UnionVerts(R, C - R);
    assert R + (C - R) == C;
  }

  lemma TailsWithin<V>(C: set<(V, V, V)>, R: set<(V, V, V)>, v: V)
    requires Region(C, R, v)
    ensures Tails(Boundary(Edges(R))) <= Verts(R)
  {
    forall x | x in Tails(Boundary(Edges(R)))
      ensures x in Verts(R)
    {
      var f :| f in Boundary(Edges(R)) && f.0 == x;
      BoundaryVerts(C, R, v, f);
    }
  }

  /** The boundary face h has a poor edge exactly when its stored plane says so. */
  lemma FacePoor(p: Planes, w: Net, L: set<GTri>, hl: seq<GTri>, C: set<(GVert, GVert, GVert)>,
      R: set<(GVert, GVert, GVert)>, v: GVert, h: GTri)
    requires Records(p, w) && Hitting(w, L, hl, C, R) && h in hl
    ensures Wired(w, h) && w.dir[(h, 0)] in Boundary(Edges(R)) && |h.ee| == 3
    ensures w.dir[(h, 0)] in PoorEdges(p, C, v) <==> Margin(h.ee[2], v.ch) > -TOL
  {
    assert h in Elems(hl);
    assert HasFace(w, h) && SideSound(w, (h, 0));
    assert SideRec(p, w, (h, 0));
    assert w.dir[(h, 0)] in FaceDirs(w, Elems(hl));
  }

  lemma FaceMeansHit(w: Net, L: set<GTri>, hl: seq<GTri>, C: set<(GVert, GVert, GVert)>, R: set<(GVert, GVert, GVert)>,
      h: GTri)
    requires Hitting(w, L, hl, C, R) && h in hl
    ensures R != {}
  {
    assert h in Elems(hl);
    assert HasFace(w, h) && SideSound(w, (h, 0));
    assert w.dir[(h, 0)] in FaceDirs(w, Elems(hl));
  }

  lemma NoBadFace(p: Planes, w: Net, L: set<GTri>, hl: seq<GTri>, C: set<(GVert, GVert, GVert)>,
      R: set<(GVert, GVert, GVert)>, v: GVert)
    requires Records(p, w) && Hitting(w, L, hl, C, R)
    requires forall h | h in hl :: |h.ee| == 3 && Margin(h.ee[2], v.ch) <= -TOL
    ensures Spread(C, R, PoorEdges(p, C, v))
  {
    forall d | d in Boundary(Edges(R))
      ensures d !in PoorEdges(p, C, v)
    {
      assert d in FaceDirs(w, Elems(hl));
      var h :| h in Elems(hl) && (h, 0) in w.dir && w.dir[(h, 0)] == d;
      FacePoor(p, w, L, hl, C, R, v, h);
    }
    NoPoorFace(C, R, PoorEdges(p, C, v));
  }

  lemma AcrossEdges(w: Net, L: set<GTri>, hl: seq<GTri>, C: set<(GVert, GVert, GVert)>, R: set<(GVert, GVert, GVert)>,
      tp: GTri)
    requires Hitting(w, L, hl, C, R) && tp in hl
    ensures Wired(w, tp) && (tp, 0) in w.at && Flip(w.at[(tp, 0)]) in w.ends
    ensures var xtp := w.ends[Flip(w.at[(tp, 0)])].0;
      xtp in L && Ring(w, xtp) && Rev(w.dir[(tp, 0)]) in Edges(TriCorners(w, xtp))
  {
    LiveAcross(w, L, hl, C, R, tp);
    assert SideSound(w, (tp, 0)) && EndSound(w, w.at[(tp, 0)]) && EndSound(w, Flip(w.at[(tp, 0)]));
    var s := w.ends[Flip(w.at[(tp, 0)])];
    assert Known(L, Elems(hl), s) && Ring(w, s.0);
    TriCornersWhole(w, s.0);
  }

  lemma BadAcross(p: Planes, w: Net, L: set<GTri>, hl: seq<GTri>, C: set<(GVert, GVert, GVert)>,
      R: set<(GVert, GVert, GVert)>, v: GVert, h: GTri, xtp: GTri) returns (c: (GVert, GVert, GVert))
    requires Records(p, w) && Hitting(w, L, hl, C, R) && h in hl && |h.ee| == 3 && Margin(h.ee[2], v.ch) > -TOL
    requires xtp in L && Ring(w, xtp) && Wired(w, h) && Rev(w.dir[(h, 0)]) in Edges(TriCorners(w, xtp))
    ensures TriCorners(w, xtp) == {c, Turn(c), Turn(Turn(c))} && c in C && Crossed(R, PoorEdges(p, C, v), c)
  {
    FacePoor(p, w, L, hl, C, R, v, h);
    DropTriangle(w, L, xtp);
    c :| c in TriCorners(w, xtp) && (c.0, c.1) == Rev(w.dir[(h, 0)]);
  }

  lemma FacePlanes(p: Planes, w: Net, L: set<GTri>, hl: seq<GTri>)
    requires Records(p, w) && Covers(w, L, Elems(hl))
    ensures forall h | h in hl :: |h.ee| == 3
  {
    forall h | h in hl
      ensures |h.ee| == 3
    {
      assert h in Elems(hl);
      assert HasFace(w, h);
      assert SideRec(p, w, (h, 0));
    }
  }

  lemma BoundaryWithin<V>(F: seq<(V, V)>, C: set<(V, V, V)>, R: set<(V, V, V)>, v: V, vs: set<V>)
    requires Region(C, R, v) && Elems(F) == Boundary(Edges(R)) && Verts(C) <= vs
    ensures forall d | d in F :: d.0 in vs && d.1 in vs
  {
    forall d | d in F
      ensures d.0 in vs && d.1 in vs
    {
      assert d in Elems(F);
      BoundaryVerts(C, R, v, d);
      UnionVerts(R, C - R);
      assert R + (C - R) == C;
    }
  }

  lemma TripleElems<A>(a: A, b: A, c: A)
    ensures Elems([a, b, c]) == {a, b, c}
  {
  }

  lemma LiveVerts(p: Planes, w: Net, L: set<GTri>, hl: seq<GTri>, tp: GTri, C: set<(GVert, GVert, GVert)>,
      R: set<(GVert, GVert, GVert)>)
    requires Records(p, w) && Hitting(w, L, hl, C, R) && tp in L
    ensures |tp.v| == 3 && Elems(tp.v) <= Verts(C) && Ring(w, tp)
    ensures Verts(R + TriCorners(w, tp)) == Verts(R) + Elems(tp.v)
  {
    assert HasTri(w, tp) && Ring(w, tp);
    CornerVerts(p, w, tp);
    DropTriangle(w, L, tp);
    UnionVerts(R, TriCorners(w, tp));
  }

  lemma ConcatElems<A>(s: seq<A>, r: seq<A>)
    ensures Elems(s + r) == Elems(s) + Elems(r)
    ensures NoDup(s) && NoDup(r) && Elems(s) !! Elems(r) ==> NoDup(s + r)
  {
    if NoDup(s) && NoDup(r) && Elems(s) !! Elems(r) {
      forall i, j | 0 <= i < j < |s + r|
        ensures (s + r)[i] != (s + r)[j]
      {
        if i < |s| <= j {
          assert s[i] in Elems(s) && r[j - |s|] in Elems(r);
        }
      }
    }
  }

  lemma UnionVerts<V>(R: set<(V, V, V)>, X: set<(V, V, V)>)
    ensures Verts(R + X) == Verts(R) + Verts(X)
  {
  }

  /** The vertices of a live triangle, as its corners and as its record have them. */
  lemma CornerVerts(p: Planes, w: Net, t: GTri)
    requires Records(p, w) && HasTri(w, t) && Ring(w, t)
    ensures |t.v| == 3
    ensures TriCorners(w, t) == Turns(t)
    ensures Verts(TriCorners(w, t)) == Elems(t.v)
  {
    assert SideRec(p, w, (t, 0)) && SideRec(p, w, (t, 1)) && SideRec(p, w, (t, 2));
    var T := TriCorners(w, t);
    assert Corner(w, t, 0) in T && Corner(w, t, 1) in T && Corner(w, t, 2) in T;
    forall x
      ensures x in Verts(T) <==> x in Elems(t.v)
    {
    }
  }

  /** Merging faces changes no triangle's shape. */
  lemma ShapedBelow(p: Planes, w: Net, w': Net, L: set<GTri>, H: set<GTri>, H': set<GTri>)
    requires Shaped(p, w) && Covers(w, L, H) && Covers(w', L, H')
    requires forall s | s in w'.at :: s in w.at
    ensures Shaped(p, w')
  {
    forall s | s in w'.at
      ensures ShapeRec(p, w', s)
    {
      assert ShapeRec(p, w, s) && Known(L, H', s);
      assert s.0 in L ==> HasTri(w', s.0) && HasTri(w, s.0);
      assert (s.0, 1) in w.at ==> Known(L, H, (s.0, 1));
    }
  }
}
