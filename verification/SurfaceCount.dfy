/** Counting on triangulated surfaces: hit-list bookkeeping and Euler's formula. */
module SurfaceCount {
  import opened Surface

  // ---- adding one directed face to a region's boundary

  /** What add_to_hit_list does to the set of faces: a face cancels its reverse, or joins the list. */
  ghost function Toggle<V>(B: set<(V, V)>, d: (V, V)): set<(V, V)> {
    if (d.1, d.0) in B then B - {(d.1, d.0)} else B + {d}
  }

  lemma BoundaryToggle<V>(D: set<(V, V)>, d: (V, V))
    requires d !in D && d.0 != d.1
    ensures Boundary(D + {d}) == Toggle(Boundary(D), d)
  {
    var B' := Boundary(D + {d});
    var T := Toggle(Boundary(D), d);
    forall f
      ensures f in B' <==> f in T
    {
      if f == d {
      } else if f == (d.1, d.0) {
        assert (f.1, f.0) == d;
      } else {
        assert (f.1, f.0) != d by {
          assert ((f.1, f.0).1, (f.1, f.0).0) == f;
        }
      }
    }
  }

  // ---- cardinalities

  lemma ImageSize<A, B>(S: set<A>, T: set<B>, f: A --> B)
    requires forall a | a in S :: f.requires(a)
    requires T == set a | a in S :: f(a)
    requires forall a, b | a in S && b in S && f(a) == f(b) :: a == b
    ensures |S| == |T|
  {
    if S == {} {
      assert T == {};
    } else {
      var a :| a in S;
      ImageSize(S - {a}, T - {f(a)}, f);
    }
  }

  lemma FanNew<V>(C: set<(V, V, V)>, R: set<(V, V, V)>, v: V)
    requires Region(C, R, v)
    ensures C !! Fan(Boundary(Edges(R)), v)
    ensures forall d | d in Boundary(Edges(R)) :: d.0 != v && d.1 != v
  {
    var B := Boundary(Edges(R));
    forall c | c in Fan(B, v)
      ensures c !in C
    {
      FanMember(B, v, c);
      if c in C { AllVerts(C, c); }
    }
    forall d | d in B
      ensures d.0 != v && d.1 != v
    {
      BoundaryVerts(C, R, v, d);
    }
  }

  lemma FanSize<V>(B: set<(V, V)>, v: V)
    requires forall d | d in B :: d.0 != v && d.1 != v
    ensures |Fan(B, v)| == 3 * |B|
  {
    var F0 := set d | d in B :: (d.0, d.1, v);
    var F1 := set d | d in B :: (d.1, v, d.0);
    var F2 := set d | d in B :: (v, d.0, d.1);
    ImageSize(B, F0, (d: (V, V)) => (d.0, d.1, v));
    ImageSize(B, F1, (d: (V, V)) => (d.1, v, d.0));
    ImageSize(B, F2, (d: (V, V)) => (v, d.0, d.1));
    assert F0 !! F1 && F0 + F1 !! F2;
    assert |F0 + F1| == |F0| + |F1|;
  }

  lemma TailsSize<V>(B: set<(V, V)>)
    requires SimpleCycle(B)
    ensures |Tails(B)| == |B|
  {
    ImageSize(B, Tails(B), (d: (V, V)) => d.0);
  }

  /** Replacing P by Q inside W, and adding one new element. */
  lemma ReplaceSize<V>(W: set<V>, P: set<V>, Q: set<V>, v: V)
    requires P <= W && Q <= P && v !in W
    ensures |(W - P) + Q + {v}| == |W| - |P| + |Q| + 1
  {
    assert W == (W - P) + P;
    assert |(W - P) + Q| == |W - P| + |Q|;
    assert v !in (W - P) + Q;
  }

  lemma ConeVertsSize<V>(C: set<(V, V, V)>, R: set<(V, V, V)>, v: V)
    requires Region(C, R, v) && SimpleCycle(Boundary(Edges(R)))
    ensures |Verts(Cone(C, R, v))| == |Verts(C)| - |Verts(R)| + |Boundary(Edges(R))| + 1
  {
    var B := Boundary(Edges(R));
    TailsSize(B);
    assert Tails(B) != {} by {
      var d :| d in B;
      assert d.0 in Tails(B);
    }
    ConeVerts(C, R, v);
    assert Tails(B) <= Verts(R) by {
      forall x | x in Tails(B) ensures x in Verts(R) {
        var f :| f in B && f.0 == x;
        BoundaryVerts(C, R, v, f);
      }
    }
    ReplaceSize(Verts(C), Verts(R), Tails(B), v);
  }

  lemma ConeSize<V>(C: set<(V, V, V)>, R: set<(V, V, V)>, v: V)
    requires Region(C, R, v)
    ensures |Cone(C, R, v)| == |C| - |R| + 3 * |Boundary(Edges(R))|
  {
    FanNew(C, R, v);
    FanSize(Boundary(Edges(R)), v);
    assert C == (C - R) + R;
  }

  // ---- Euler's formula; a surface with corner set C has |C| / 3 triangles and |C| / 2 edges

  /** Six times V - E + F. */
  ghost function SixChi<V>(C: set<(V, V, V)>): int {
    6 * |Verts(C)| - 3 * |C| + 2 * |C|
  }

  /** Six times V - E + F of a region together with its boundary, whose faces bound it from one side only. */
  ghost function SixChiRegion<V>(R: set<(V, V, V)>): int {
    6 * |Verts(R)| - 3 * (|R| + |Boundary(Edges(R))|) + 2 * |R|
  }

  /** A cone step trades the region's Euler characteristic for that of a disc, so V - E + F is kept
      exactly when the replaced region has the count of a disc, V - E + F == 1. */
  lemma ConeEuler<V>(C: set<(V, V, V)>, R: set<(V, V, V)>, v: V)
    requires Region(C, R, v) && SimpleCycle(Boundary(Edges(R)))
    ensures SixChi(Cone(C, R, v)) - SixChi(C) == 6 - SixChiRegion(R)
  {
    ConeSize(C, R, v);
    ConeVertsSize(C, R, v);
  }
}
