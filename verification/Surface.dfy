/**
 Triangulated surfaces as sets of corners.

 A triangle (a, b, c) contributes the corners (a, b, c), (b, c, a) and (c, a, b); the corner
 (x, a, b) says that seen from x, the directed edge x -> a belongs to a triangle whose third
 vertex is b. The insertion step of the hull triangulator replaces a region by the cone from a
 new vertex over the region's boundary; this module says when that keeps a closed manifold.
 */
module Surface {

  ghost function Edges<V>(C: set<(V, V, V)>): set<(V, V)> {
    set c | c in C :: (c.0, c.1)
  }

  ghost function Verts<V>(C: set<(V, V, V)>): set<V> {
    set c | c in C :: c.0
  }

  ghost function Star<V>(C: set<(V, V, V)>, x: V): set<V> {
    set c | c in C && c.0 == x :: c.1
  }

  /** The same triangle seen from its next vertex. */
  ghost function Turn<V>(c: (V, V, V)): (V, V, V) {
    (c.1, c.2, c.0)
  }

  /** Corners come as whole triangles. */
  ghost predicate Whole<V>(C: set<(V, V, V)>) {
    forall c {:trigger Turn(c)} | c in C :: Turn(c) in C
  }

  ghost predicate Proper<V>(C: set<(V, V, V)>) {
    forall c | c in C :: c.0 != c.1
  }

  ghost predicate SameEdge<V>(c: (V, V, V), d: (V, V, V)) {
    c.0 == d.0 && c.1 == d.1
  }

  /** Every directed edge belongs to at most one triangle. */
  ghost predicate Oriented<V>(C: set<(V, V, V)>) {
    forall c, d {:trigger SameEdge(c, d)} | c in C && d in C && SameEdge(c, d) :: c == d
  }

  /** The edge of c is met from the other side. */
  ghost predicate Met<V>(C: set<(V, V, V)>, c: (V, V, V)) {
    (c.1, c.0) in Edges(C)
  }

  ghost predicate Closed<V>(C: set<(V, V, V)>) {
    forall c {:trigger Met(C, c)} | c in C :: Met(C, c)
  }

  ghost predicate LinkStep<V>(S: set<V>, c: (V, V, V)) {
    c.1 in S <==> c.2 in S
  }

  /** S is a union of components of the link of x. */
  ghost predicate Part<V>(C: set<(V, V, V)>, x: V, S: set<V>) {
    && S != {}
    && S <= Star(C, x)
    && forall c {:trigger LinkStep(S, c)} | c in C && c.0 == x :: LinkStep(S, c)
  }

  /** The triangles round x form a single cycle: the link of x has only one component. */
  ghost predicate Umbrella<V>(C: set<(V, V, V)>, x: V) {
    forall S: set<V> {:trigger Part(C, x, S)} | S <= Star(C, x) && Part(C, x, S) :: S == Star(C, x)
  }

  /** A closed, consistently oriented 2-manifold. */
  ghost predicate Manifold<V>(C: set<(V, V, V)>) {
    && Whole(C)
    && Proper(C)
    && Oriented(C)
    && Closed(C)
    && forall x {:trigger Umbrella(C, x)} | x in Verts(C) :: Umbrella(C, x)
  }

  // ---- regions, their directed boundary, and the cone over it

  ghost function Boundary<V>(D: set<(V, V)>): set<(V, V)> {
    set d | d in D && (d.1, d.0) !in D
  }

  ghost function Tails<V>(B: set<(V, V)>): set<V> {
    set d | d in B :: d.0
  }

  ghost function Heads<V>(B: set<(V, V)>): set<V> {
    set d | d in B :: d.1
  }

  ghost predicate ChainStep<V>(S: set<V>, d: (V, V)) {
    d.0 in S <==> d.1 in S
  }

  ghost predicate Chain<V>(B: set<(V, V)>, S: set<V>) {
    && S != {}
    && S <= Tails(B)
    && forall d {:trigger ChainStep(S, d)} | d in B :: ChainStep(S, d)
  }

  /** The faces B form one non-empty simple directed cycle. */
  ghost predicate SimpleCycle<V>(B: set<(V, V)>) {
    && B != {}
    && (forall d, f | d in B && f in B && d.0 == f.0 :: d.1 == f.1)
    && (forall d, f | d in B && f in B && d.1 == f.1 :: d.0 == f.0)
    && Tails(B) == Heads(B)
    && forall S: set<V> {:trigger Chain(B, S)} | S <= Tails(B) && Chain(B, S) :: S == Tails(B)
  }

  ghost function Fan<V>(B: set<(V, V)>, v: V): set<(V, V, V)> {
    (set d | d in B :: (d.0, d.1, v)) + (set d | d in B :: (d.1, v, d.0)) + (set d | d in B :: (v, d.0, d.1))
  }

  ghost function Cone<V>(C: set<(V, V, V)>, R: set<(V, V, V)>, v: V): set<(V, V, V)> {
    (C - R) + Fan(Boundary(Edges(R)), v)
  }

  ghost predicate Region<V>(C: set<(V, V, V)>, R: set<(V, V, V)>, v: V) {
    Manifold(C) && R <= C && Whole(R) && v !in Verts(C)
  }

  // ---- basic facts

  lemma RegionRest<V>(C: set<(V, V, V)>, R: set<(V, V, V)>)
    requires Whole(C) && Whole(R) && R <= C
    ensures Whole(C - R)
  {
    forall c | c in C - R
      ensures Turn(c) in C - R
    {
      assert Turn(c) in R ==> Turn(Turn(c)) in R && Turn(Turn(Turn(c))) in R;
      assert Turn(Turn(Turn(c))) == c;
    }
  }

  lemma AllVerts<V>(C: set<(V, V, V)>, c: (V, V, V))
    requires Whole(C) && c in C
    ensures c.0 in Verts(C) && c.1 in Verts(C) && c.2 in Verts(C)
    ensures (c.0, c.1) in Edges(C) && (c.1, c.2) in Edges(C) && (c.2, c.0) in Edges(C)
    ensures (c.1, c.2, c.0) in C && (c.2, c.0, c.1) in C
  {
    assert Turn(c) in C && Turn(Turn(c)) in C;
  }

  /** An edge of R seen from outside R is not an edge of R. */
  lemma EdgeOwner<V>(C: set<(V, V, V)>, R: set<(V, V, V)>, c: (V, V, V))
    requires Oriented(C) && R <= C && c in C
    ensures (c.0, c.1) in Edges(R) <==> c in R
  {
    if (c.0, c.1) in Edges(R) {
      var d :| d in R && d.0 == c.0 && d.1 == c.1;
      assert SameEdge(d, c);
    }
  }

  lemma StarEdges<V>(C: set<(V, V, V)>, x: V, y: V)
    ensures y in Star(C, x) <==> (x, y) in Edges(C)
  {
    if y in Star(C, x) {
      var c :| c in C && c.0 == x && c.1 == y;
    }
    if (x, y) in Edges(C) {
      var c :| c in C && c.0 == x && c.1 == y;
    }
  }

  lemma FanMember<V>(B: set<(V, V)>, v: V, c: (V, V, V))
    requires c in Fan(B, v)
    ensures ((c.0, c.1) in B && c.2 == v) || ((c.2, c.0) in B && c.1 == v) || ((c.1, c.2) in B && c.0 == v)
  {
  }

  lemma BoundaryVerts<V>(C: set<(V, V, V)>, R: set<(V, V, V)>, v: V, d: (V, V))
    requires Region(C, R, v) && d in Boundary(Edges(R))
    ensures d.0 != d.1 && d.0 != v && d.1 != v && d.0 in Verts(R) && d.1 in Verts(R)
  {
    var c :| c in R && c.0 == d.0 && c.1 == d.1;
    AllVerts(R, c);
    AllVerts(C, c);
  }

  // ---- the cone is a manifold

  lemma ConeWhole<V>(C: set<(V, V, V)>, R: set<(V, V, V)>, v: V)
    requires Region(C, R, v)
    ensures Whole(Cone(C, R, v)) && Proper(Cone(C, R, v))
  {
    RegionRest(C, R);
    var B := Boundary(Edges(R));
    forall c | c in Fan(B, v)
      ensures Turn(c) in Fan(B, v) && c.0 != c.1
    {
      FanMember(B, v, c);
      if c.2 == v && (c.0, c.1) in B {
        BoundaryVerts(C, R, v, (c.0, c.1));
      } else if c.1 == v && (c.2, c.0) in B {
        BoundaryVerts(C, R, v, (c.2, c.0));
      } else {
        BoundaryVerts(C, R, v, (c.1, c.2));
      }
    }
  }

  lemma ConeOriented<V>(C: set<(V, V, V)>, R: set<(V, V, V)>, v: V)
    requires Region(C, R, v) && SimpleCycle(Boundary(Edges(R)))
    ensures Oriented(Cone(C, R, v))
  {
    var B := Boundary(Edges(R));
    forall c, d | c in Cone(C, R, v) && d in Cone(C, R, v) && SameEdge(c, d)
      ensures c == d
    {
      if c in C - R && d in C - R {
      } else if c in Fan(B, v) && d in Fan(B, v) {
        FanMember(B, v, c);
        FanMember(B, v, d);
        if c.0 == v {
          if (c.0, c.1) in B { BoundaryVerts(C, R, v, (c.0, c.1)); }
          if (c.2, c.0) in B { BoundaryVerts(C, R, v, (c.2, c.0)); }
          if (d.0, d.1) in B { BoundaryVerts(C, R, v, (d.0, d.1)); }
          if (d.2, d.0) in B { BoundaryVerts(C, R, v, (d.2, d.0)); }
        } else if c.1 == v {
          if (c.0, c.1) in B { BoundaryVerts(C, R, v, (c.0, c.1)); }
        }
      } else if c in Fan(B, v) {
        FanApart(C, R, v, c, d);
      } else {
        FanApart(C, R, v, d, c);
      }
    }
  }

  lemma FanApart<V>(C: set<(V, V, V)>, R: set<(V, V, V)>, v: V, c: (V, V, V), d: (V, V, V))
    requires Region(C, R, v)
    requires c in Fan(Boundary(Edges(R)), v) && d in C - R
    ensures !SameEdge(c, d)
  {
    FanMember(Boundary(Edges(R)), v, c);
    AllVerts(C, d);
    EdgeOwner(C, R, d);
  }

  lemma ConeClosed<V>(C: set<(V, V, V)>, R: set<(V, V, V)>, v: V)
    requires Region(C, R, v) && Tails(Boundary(Edges(R))) == Heads(Boundary(Edges(R)))
    ensures Closed(Cone(C, R, v))
  {
    var B := Boundary(Edges(R));
    var C' := Cone(C, R, v);
    forall c | c in C'
      ensures Met(C', c)
    {
      if c in C - R {
        assert Met(C, c);
        var d :| d in C && d.0 == c.1 && d.1 == c.0;
        if d in R {
          EdgeOwner(C, R, c);
          assert (d.0, d.1) in B;
          assert (d.0, d.1, v) in Fan(B, v);
        }
      } else {
        FanMember(B, v, c);
        if c.2 == v && (c.0, c.1) in B {
          var r :| r in R && r.0 == c.0 && r.1 == c.1;
          assert Met(C, r);
          var d :| d in C && d.0 == c.1 && d.1 == c.0;
          EdgeOwner(C, R, d);
          assert d in C';
        } else if c.1 == v && (c.2, c.0) in B {
          assert c.0 in Heads(B);
          var f :| f in B && f.0 == c.0;
          assert (v, f.0, f.1) in Fan(B, v);
        } else {
          assert c.1 in Tails(B);
          var f :| f in B && f.1 == c.1;
          assert (f.1, v, f.0) in Fan(B, v);
        }
      }
    }
  }

  /** If no boundary face touches x then either all or none of the triangles at x are in R. */
  lemma InteriorStar<V>(C: set<(V, V, V)>, R: set<(V, V, V)>, v: V, x: V)
    requires Region(C, R, v) && x in Verts(R)
    requires x !in Tails(Boundary(Edges(R))) && x !in Heads(Boundary(Edges(R)))
    ensures forall c | c in C && c.0 == x :: c in R
  {
    var S := Star(R, x);
    assert Part(C, x, S) by {
      forall c | c in C && c.0 == x
        ensures LinkStep(S, c)
      {
        StarStep(C, R, v, c);
      }
      var r :| r in R && r.0 == x;
      assert r.1 in S;
    }
    AllVerts(C, (var r :| r in R && r.0 == x; r));
    assert Umbrella(C, x);
    forall c | c in C && c.0 == x
      ensures c in R
    {
      assert c.1 in Star(C, x);
      StarEdges(R, x, c.1);
      EdgeOwner(C, R, c);
    }
  }

  lemma StarStep<V>(C: set<(V, V, V)>, R: set<(V, V, V)>, v: V, c: (V, V, V))
    requires Region(C, R, v) && c in C
    requires c.0 !in Tails(Boundary(Edges(R))) && c.0 !in Heads(Boundary(Edges(R)))
    ensures c.1 in Star(R, c.0) <==> c.2 in Star(R, c.0)
  {
    var B := Boundary(Edges(R));
    var x := c.0;
    EdgeOwner(C, R, c);
    AllVerts(C, c);
    if c.1 in Star(R, x) {
      AllVerts(R, c);
      assert (c.2, x) in B ==> x in Heads(B);
      var d :| d in R && d.0 == x && d.1 == c.2;
    }
    if c.2 in Star(R, x) {
      var d :| d in R && d.0 == x && d.1 == c.2;
      assert (x, c.2) in Edges(R);
      assert (x, c.2) in B ==> x in Tails(B);
      EdgeOwner(C, R, (c.2, c.0, c.1));
      AllVerts(R, (c.2, c.0, c.1));
    }
  }

  /** The star of a vertex that R does not touch is unchanged. */
  lemma UmbrellaAway<V>(C: set<(V, V, V)>, R: set<(V, V, V)>, v: V, x: V)
    requires Region(C, R, v) && x in Verts(C) && x !in Verts(R)
    ensures Umbrella(Cone(C, R, v), x)
  {
    var C' := Cone(C, R, v);
    SameCorners(C, R, v, x);
    forall S: set<V> | S <= Star(C', x) && Part(C', x, S)
      ensures S == Star(C', x)
    {
      assert Star(C', x) == Star(C, x);
      forall c | c in C && c.0 == x
        ensures LinkStep(S, c)
      {
        assert c in C';
      }
      assert Part(C, x, S);
      assert Umbrella(C, x);
    }
  }

  lemma SameCorners<V>(C: set<(V, V, V)>, R: set<(V, V, V)>, v: V, x: V)
    requires Region(C, R, v) && x in Verts(C) && x !in Verts(R)
    ensures forall c: (V, V, V) | c.0 == x :: c in C <==> c in Cone(C, R, v)
  {
    var B := Boundary(Edges(R));
    forall c: (V, V, V) | c.0 == x
      ensures c in C <==> c in Cone(C, R, v)
    {
      if c in Fan(B, v) {
        FanMember(B, v, c);
        if (c.0, c.1) in B { BoundaryVerts(C, R, v, (c.0, c.1)); }
        if (c.2, c.0) in B { BoundaryVerts(C, R, v, (c.2, c.0)); }
      }
    }
  }

  /** The corners of the cone at a boundary vertex x, between the faces (a, x) and (x, b). */
  lemma BoundaryCorners<V>(C: set<(V, V, V)>, R: set<(V, V, V)>, v: V, x: V, a: V, b: V)
    requires Region(C, R, v) && SimpleCycle(Boundary(Edges(R)))
    requires (a, x) in Boundary(Edges(R)) && (x, b) in Boundary(Edges(R))
    ensures forall c: (V, V, V) | c.0 == x :: c in Cone(C, R, v) <==> (c in C - R || c == (x, b, v) || c == (x, v, a))
  {
    var B := Boundary(Edges(R));
    BoundaryVerts(C, R, v, (a, x));
    forall c: (V, V, V) | c.0 == x
      ensures c in Cone(C, R, v) <==> (c in C - R || c == (x, b, v) || c == (x, v, a))
    {
      if c in Fan(B, v) {
        FanMember(B, v, c);
      }
      assert (x, b, v) in Fan(B, v);
      assert (x, v, a) in Fan(B, v);
    }
  }

  /** A component of the new link at a boundary vertex, with the removed arc put back,
      is a component of the old one. */
  lemma UmbrellaBoundary<V>(C: set<(V, V, V)>, R: set<(V, V, V)>, v: V, x: V, a: V, b: V)
    requires Region(C, R, v) && SimpleCycle(Boundary(Edges(R)))
    requires (a, x) in Boundary(Edges(R)) && (x, b) in Boundary(Edges(R))
    ensures Umbrella(Cone(C, R, v), x)
  {
    var C' := Cone(C, R, v);
    BoundaryCorners(C, R, v, x, a, b);
    BoundaryVerts(C, R, v, (a, x));
    forall S: set<V> | S <= Star(C', x) && Part(C', x, S)
      ensures S == Star(C', x)
    {
      assert (x, b, v) in C' && (x, v, a) in C';
      assert LinkStep(S, (x, b, v)) && LinkStep(S, (x, v, a));
      var S0 := if v in S then (S - {v}) + Star(R, x) else S;
      OldPart(C, R, v, x, a, b, S, S0);
      assert Umbrella(C, x);
      assert S0 == Star(C, x);
      var r :| r in R && r.0 == x && r.1 == b;
      assert b in Star(C, x);
      forall y | y in Star(C', x)
        ensures y in S
      {
        var c :| c in C' && c.0 == x && c.1 == y;
        if c in C - R {
          assert y in S0;
          if y in Star(R, x) {
            EdgeOwner(C, R, c);
          }
        }
      }
    }
  }

  lemma OldPart<V>(C: set<(V, V, V)>, R: set<(V, V, V)>, v: V, x: V, a: V, b: V, S: set<V>, S0: set<V>)
    requires Region(C, R, v) && SimpleCycle(Boundary(Edges(R)))
    requires (a, x) in Boundary(Edges(R)) && (x, b) in Boundary(Edges(R))
    requires S <= Star(Cone(C, R, v), x) && Part(Cone(C, R, v), x, S)
    requires S0 == if v in S then (S - {v}) + Star(R, x) else S
    ensures S0 <= Star(C, x) && Part(C, x, S0)
  {
    var C' := Cone(C, R, v);
    BoundaryCorners(C, R, v, x, a, b);
    BoundaryVerts(C, R, v, (a, x));
    assert (x, b, v) in C' && (x, v, a) in C';
    assert LinkStep(S, (x, b, v)) && LinkStep(S, (x, v, a));
    var r :| r in R && r.0 == x && r.1 == b;
    assert b in Star(R, x);
    assert S0 <= Star(C, x) by {
      forall y | y in S && y != v
        ensures y in Star(C, x)
      {
        var c :| c in C' && c.0 == x && c.1 == y;
      }
    }
    forall c | c in C && c.0 == x
      ensures LinkStep(S0, c)
    {
      if c in R {
        RemovedStep(C, R, v, x, a, b, c);
        OldNew(C, R, v, x, a, b, S, c.1);
        OldNew(C, R, v, x, a, b, S, c.2);
      } else {
        assert c in C';
        assert LinkStep(S, c);
        KeptStep(C, R, v, x, a, b, c);
        AllVerts(C, c);
      }
    }
  }

  /** Along the removed arc at x only the last neighbour a leaves the arc. */
  lemma RemovedStep<V>(C: set<(V, V, V)>, R: set<(V, V, V)>, v: V, x: V, a: V, b: V, c: (V, V, V))
    requires Region(C, R, v) && SimpleCycle(Boundary(Edges(R)))
    requires (a, x) in Boundary(Edges(R)) && (x, b) in Boundary(Edges(R))
    requires c in R && c.0 == x
    ensures c.1 in Star(R, x) && (c.2 in Star(R, x) || c.2 == a)
  {
    AllVerts(R, c);
    if c.2 !in Star(R, x) {
      assert (x, c.2) !in Edges(R);
      assert (c.2, x) in Boundary(Edges(R));
    }
  }

  /** Of the neighbours on the removed arc only the first one, b, can lie on the new link. */
  lemma OldNew<V>(C: set<(V, V, V)>, R: set<(V, V, V)>, v: V, x: V, a: V, b: V, S: set<V>, y: V)
    requires Region(C, R, v) && SimpleCycle(Boundary(Edges(R)))
    requires (a, x) in Boundary(Edges(R)) && (x, b) in Boundary(Edges(R))
    requires S <= Star(Cone(C, R, v), x) && Part(Cone(C, R, v), x, S)
    ensures y in S && y in Star(R, x) ==> y == b
  {
    if y in S && y in Star(R, x) {
      BoundaryCorners(C, R, v, x, a, b);
      var c :| c in Cone(C, R, v) && c.0 == x && c.1 == y;
      if c in C - R {
        EdgeOwner(C, R, c);
      } else if c == (x, v, a) {
        var r :| r in R && r.0 == x && r.1 == v;
        AllVerts(C, r);
      }
    }
  }

  /** A kept triangle at x never ends on the removed arc, except at its first neighbour b. */
  lemma KeptStep<V>(C: set<(V, V, V)>, R: set<(V, V, V)>, v: V, x: V, a: V, b: V, c: (V, V, V))
    requires Region(C, R, v) && SimpleCycle(Boundary(Edges(R)))
    requires (a, x) in Boundary(Edges(R)) && (x, b) in Boundary(Edges(R))
    requires c in C - R && c.0 == x
    ensures c.1 !in Star(R, x) && (c.2 in Star(R, x) ==> c.2 == b)
  {
    EdgeOwner(C, R, c);
    StarEdges(R, x, c.1);
    if c.2 in Star(R, x) {
      var r :| r in R && r.0 == x && r.1 == c.2;
      RegionRest(C, R);
      AllVerts(C - R, c);
      EdgeOwner(C, R, (c.2, c.0, c.1));
      assert (x, c.2) in Boundary(Edges(R));
    }
  }

  lemma UmbrellaApex<V>(C: set<(V, V, V)>, R: set<(V, V, V)>, v: V)
    requires Region(C, R, v) && SimpleCycle(Boundary(Edges(R)))
    ensures Umbrella(Cone(C, R, v), v)
  {
    var B := Boundary(Edges(R));
    var C' := Cone(C, R, v);
    ApexCorners(C, R, v);
    forall S: set<V> | S <= Star(C', v) && Part(C', v, S)
      ensures S == Star(C', v)
    {
      assert Chain(B, S) by {
        forall d | d in B
          ensures ChainStep(S, d)
        {
          assert LinkStep(S, (v, d.0, d.1));
        }
      }
    }
  }

  lemma ApexCorners<V>(C: set<(V, V, V)>, R: set<(V, V, V)>, v: V)
    requires Region(C, R, v)
    ensures forall c: (V, V, V) | c.0 == v :: c in Cone(C, R, v) <==> (c.1, c.2) in Boundary(Edges(R))
    ensures Star(Cone(C, R, v), v) == Tails(Boundary(Edges(R)))
  {
    var B := Boundary(Edges(R));
    var C' := Cone(C, R, v);
    forall c: (V, V, V) | c.0 == v
      ensures c in C' <==> (c.1, c.2) in B
    {
      if c in Fan(B, v) {
        FanMember(B, v, c);
        if (c.0, c.1) in B { BoundaryVerts(C, R, v, (c.0, c.1)); }
        if (c.2, c.0) in B { BoundaryVerts(C, R, v, (c.2, c.0)); }
      }
      if c in C { AllVerts(C, c); }
      if (c.1, c.2) in B { assert c == (v, (c.1, c.2).0, (c.1, c.2).1); }
    }
    forall d | d in B
      ensures d.0 in Star(C', v)
    {
      assert (v, d.0, d.1) in C';
    }
  }

  /** Which vertices the new surface has: the flags of the triangulator record exactly this. */
  lemma ConeVerts<V>(C: set<(V, V, V)>, R: set<(V, V, V)>, v: V)
    requires Region(C, R, v) && Tails(Boundary(Edges(R))) == Heads(Boundary(Edges(R))) != {}
    ensures Verts(Cone(C, R, v)) == (Verts(C) - Verts(R)) + Tails(Boundary(Edges(R))) + {v}
  {
    var B := Boundary(Edges(R));
    var C' := Cone(C, R, v);
    forall x
      ensures x in Verts(C') <==> x in (Verts(C) - Verts(R)) + Tails(B) + {v}
    {
      if x in Verts(C') {
        var c :| c in C' && c.0 == x;
        if c in C - R {
          if x in Verts(R) && x !in Tails(B) {
            InteriorStar(C, R, v, x);
          }
        } else {
          FanMember(B, v, c);
          if (c.2, c.0) in B && c.1 == v { assert c.0 in Heads(B); }
        }
      }
      if x in Tails(B) {
        var d :| d in B && d.0 == x;
        assert (d.0, d.1, v) in C';
      }
      if x == v {
        var y :| y in Tails(B);
        var d :| d in B && d.0 == y;
        assert (v, d.0, d.1) in C';
      }
      if x in Verts(C) && x !in Verts(R) {
        var c :| c in C && c.0 == x;
        assert c in C';
      }
    }
  }

  /** The step of the triangulator: replacing a region by the cone over its boundary keeps the
      surface a closed oriented manifold exactly when that boundary is one simple cycle. */
  lemma ConeManifold<V>(C: set<(V, V, V)>, R: set<(V, V, V)>, v: V)
    requires Region(C, R, v)
    ensures Manifold(Cone(C, R, v)) && v in Verts(Cone(C, R, v)) <==> SimpleCycle(Boundary(Edges(R)))
  {
    if SimpleCycle(Boundary(Edges(R))) {
      ConeManifoldIf(C, R, v);
    }
    if Manifold(Cone(C, R, v)) && v in Verts(Cone(C, R, v)) {
      ConeManifoldOnlyIf(C, R, v);
    }
  }

  lemma ConeManifoldIf<V>(C: set<(V, V, V)>, R: set<(V, V, V)>, v: V)
    requires Region(C, R, v) && SimpleCycle(Boundary(Edges(R)))
    ensures Manifold(Cone(C, R, v)) && v in Verts(Cone(C, R, v))
  {
    var B := Boundary(Edges(R));
    var d0 :| d0 in B;
    assert d0.0 in Tails(B);
    ConeWhole(C, R, v);
    ConeOriented(C, R, v);
    ConeClosed(C, R, v);
    ConeVerts(C, R, v);
    forall x | x in Verts(Cone(C, R, v))
      ensures Umbrella(Cone(C, R, v), x)
    {
      if x == v {
        UmbrellaApex(C, R, v);
      } else if x in Tails(B) {
        var f :| f in B && f.0 == x;
        assert x in Heads(B);
        var g :| g in B && g.1 == x;
        UmbrellaBoundary(C, R, v, x, g.0, f.1);
      } else {
        UmbrellaAway(C, R, v, x);
      }
    }
  }

  lemma OnlyIfUnique<V>(C: set<(V, V, V)>, R: set<(V, V, V)>, v: V, d: (V, V), f: (V, V))
    requires Region(C, R, v) && Oriented(Cone(C, R, v))
    requires d in Boundary(Edges(R)) && f in Boundary(Edges(R))
    ensures d.0 == f.0 ==> d.1 == f.1
    ensures d.1 == f.1 ==> d.0 == f.0
  {
    var C' := Cone(C, R, v);
    assert (v, d.0, d.1) in C' && (v, f.0, f.1) in C';
    assert (d.1, v, d.0) in C' && (f.1, v, f.0) in C';
    assert d.0 == f.0 ==> SameEdge((v, d.0, d.1), (v, f.0, f.1));
    assert d.1 == f.1 ==> SameEdge((d.1, v, d.0), (f.1, v, f.0));
  }

  lemma OnlyIfBalanced<V>(C: set<(V, V, V)>, R: set<(V, V, V)>, v: V, x: V)
    requires Region(C, R, v) && Whole(Cone(C, R, v)) && Closed(Cone(C, R, v))
    ensures x in Tails(Boundary(Edges(R))) <==> x in Heads(Boundary(Edges(R)))
  {
    var B := Boundary(Edges(R));
    var C' := Cone(C, R, v);
    ApexCorners(C, R, v);
    if x in Heads(B) {
      var d :| d in B && d.1 == x;
      assert Met(C', (d.1, v, d.0));
      var e :| e in C' && e.0 == v && e.1 == x;
      assert (e.1, e.2) in B;
    }
    if x in Tails(B) {
      var d :| d in B && d.0 == x;
      assert Met(C', (v, d.0, d.1));
      var e :| e in C' && e.0 == x && e.1 == v;
      AllVerts(C', e);
      assert (e.2, e.0) in B;
    }
  }

  lemma ConeManifoldOnlyIf<V>(C: set<(V, V, V)>, R: set<(V, V, V)>, v: V)
    requires Region(C, R, v) && Manifold(Cone(C, R, v)) && v in Verts(Cone(C, R, v))
    ensures SimpleCycle(Boundary(Edges(R)))
  {
    var B := Boundary(Edges(R));
    var C' := Cone(C, R, v);
    ApexCorners(C, R, v);
    var c :| c in C' && c.0 == v;
    assert (c.1, c.2) in B;
    forall d, f | d in B && f in B
      ensures d.0 == f.0 <==> d.1 == f.1
    {
      OnlyIfUnique(C, R, v, d, f);
    }
    forall x
      ensures x in Tails(B) <==> x in Heads(B)
    {
      OnlyIfBalanced(C, R, v, x);
    }
    assert Umbrella(C', v);
    forall S: set<V> | S <= Tails(B) && Chain(B, S)
      ensures S == Tails(B)
    {
      ChainIsPart(C, R, v, S);
    }
  }

  lemma ChainIsPart<V>(C: set<(V, V, V)>, R: set<(V, V, V)>, v: V, S: set<V>)
    requires Region(C, R, v) && Chain(Boundary(Edges(R)), S)
    ensures Part(Cone(C, R, v), v, S)
  {
    ApexCorners(C, R, v);
    forall c | c in Cone(C, R, v) && c.0 == v
      ensures LinkStep(S, c)
    {
      assert ChainStep(S, (c.1, c.2));
    }
  }
}
