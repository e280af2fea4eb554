/** The simplest insertion: a vertex that sees one triangle and makes no poor triangle with its edges. */
module OneFace {
  import opened Surface
  import opened SurfaceCount
  import opened Horizon

  ghost function Face<V>(c: (V, V, V)): set<(V, V, V)> {
    {c, (c.1, c.2, c.0), (c.2, c.0, c.1)}
  }

  ghost predicate Distinct<V>(c: (V, V, V)) {
    c.0 != c.1 && c.1 != c.2 && c.2 != c.0
  }

  lemma FaceEdges<V>(c: (V, V, V))
    requires Distinct(c)
    ensures Edges(Face(c)) == {(c.0, c.1), (c.1, c.2), (c.2, c.0)} == Boundary(Edges(Face(c)))
    ensures Verts(Face(c)) == {c.0, c.1, c.2}
  {
    assert (c.1, c.2, c.0) in Face(c) && (c.2, c.0, c.1) in Face(c);
    assert Edges(Face(c)) == {(c.0, c.1), (c.1, c.2), (c.2, c.0)};
  }

  /** The boundary of one triangle is a simple cycle. */
  lemma FaceCycle<V>(c: (V, V, V))
    requires Distinct(c)
    ensures SimpleCycle(Boundary(Edges(Face(c))))
  {
    FaceEdges(c);
    var B := Boundary(Edges(Face(c)));
    assert (c.0, c.1) in B && (c.1, c.2) in B && (c.2, c.0) in B;
    assert Tails(B) == {c.0, c.1, c.2} == Heads(B);
    forall S: set<V> | S <= Tails(B) && Chain(B, S)
      ensures S == Tails(B)
    {
      assert ChainStep(S, (c.0, c.1)) && ChainStep(S, (c.1, c.2));
    }
  }

  /** It has the count of a disc. */
  lemma FaceDisc<V>(c: (V, V, V))
    requires Distinct(c)
    ensures SixChiRegion(Face(c)) == 6
  {
    FaceEdges(c);
    assert |Face(c)| == 3 && |{c.0, c.1, c.2}| == 3;
    assert |{(c.0, c.1), (c.1, c.2), (c.2, c.0)}| == 3;
  }

  lemma FaceDistinct<V>(C: set<(V, V, V)>, c: (V, V, V))
    requires Manifold(C) && c in C
    ensures Distinct(c) && Face(c) <= C
  {
    assert Turn(c) in C && Turn(Turn(c)) in C;
  }

  /** Then exactly that triangle is removed. */
  lemma FaceRemoved<V>(C: set<(V, V, V)>, c: (V, V, V), poor: set<(V, V)>)
    requires Manifold(C) && c in C && Edges(Face(c)) !! poor
    ensures HitRegion(C, Face(c), poor, Face(c)) && LeastCovering(C, Face(c), poor) == Face(c)
  {
    FaceDistinct(C, c);
    FaceEdges(c);
    assert Covering(C, Face(c), poor, Face(c));
    HitRegionLeast(C, Face(c), poor, Face(c));
  }
}
