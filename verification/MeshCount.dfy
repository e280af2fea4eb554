/** Counting the records of a sound wiring: every edge has two sides, every triangle three. */
module MeshCount {
  import opened Surface
  import opened SurfaceCount
  import opened Wiring
  import opened Corners
  import opened Tetra

  ghost function Numbered<A>(X: set<A>, k: nat): set<(A, nat)> {
    set x | x in X :: (x, k)
  }

  lemma NumberedSize<A>(X: set<A>, k: nat)
    ensures |Numbered(X, k)| == |X|
  {
    ImageSize(X, Numbered(X, k), (x: A) => (x, k));
  }

  lemma TwoSizes<A>(X: set<A>)
    ensures |Numbered(X, 0) + Numbered(X, 1)| == 2 * |X|
  {
    NumberedSize(X, 0);
    NumberedSize(X, 1);
    assert Numbered(X, 0) !! Numbered(X, 1);
  }

  lemma ThreeSizes<A>(X: set<A>)
    ensures |Numbered(X, 0) + Numbered(X, 1) + Numbered(X, 2)| == 3 * |X|
  {
    TwoSizes(X);
    NumberedSize(X, 2);
    assert Numbered(X, 0) + Numbered(X, 1) !! Numbered(X, 2);
  }

  lemma SidesSize<T, E, V>(w: Wires<T, E, V>, L: set<T>)
    requires Covers(w, L, {})
    ensures |w.at.Keys| == 3 * |L|
  {
    var S := Numbered(L, 0) + Numbered(L, 1) + Numbered(L, 2);
    forall s | s in w.at.Keys
      ensures s in S
    {
      assert Known(L, {}, s);
    }
    forall s | s in S
      ensures s in w.at.Keys
    {
      assert HasTri(w, s.0);
    }
    assert w.at.Keys == S;
    ThreeSizes(L);
  }

  lemma EndsSize<T, E, V>(w: Wires<T, E, V>)
    requires EndsSound(w) && forall e | e in w.verts :: (e, 0) in w.ends && (e, 1) in w.ends
    ensures |w.ends.Keys| == 2 * |w.verts.Keys|
  {
    var S := Numbered(w.verts.Keys, 0) + Numbered(w.verts.Keys, 1);
    forall x | x in w.ends.Keys
      ensures x in S
    {
      assert EndSound(w, x);
    }
    assert w.ends.Keys == S;
    TwoSizes(w.verts.Keys);
  }

  /** Each side meets one end of one edge: 3F == 2E. */
  lemma SidesAreEnds<T, E, V>(w: Wires<T, E, V>, L: set<T>)
    requires Sound(w) && Covers(w, L, {}) && forall e | e in w.verts :: (e, 0) in w.ends && (e, 1) in w.ends
    ensures 3 * |L| == 2 * |w.verts.Keys|
  {
    SidesSize(w, L);
    EndsSize(w);
    forall s | s in w.at
      ensures w.at[s] in w.ends && w.ends[w.at[s]] == s
    {
      assert SideSound(w, s);
    }
    forall x | x in w.ends
      ensures w.ends[x] in w.at && w.at[w.ends[x]] == x
    {
      assert EndSound(w, x);
    }
    ImageSize(w.at.Keys, w.ends.Keys, s requires s in w.at => w.at[s]);
  }

  /** Each side is the directed edge of one corner. */
  lemma CornersSize<T, E, V>(w: Wires<T, E, V>, L: set<T>)
    requires Sound(w) && Covers(w, L, {}) && Rings(w, L)
    ensures |CornerSet(w, L)| == 3 * |L|
  {
    var C := CornerSet(w, L);
    CornersOriented(w, L);
    forall c, d | c in C && d in C && (c.0, c.1) == (d.0, d.1)
      ensures c == d
    {
      assert SameEdge(c, d);
    }
    ImageSize(C, Edges(C), (c: (V, V, V)) => (c.0, c.1));
    CornerEdges(w, L);
    forall s, r | s in w.dir && r in w.dir && w.dir[s] == w.dir[r]
      ensures s == r
    {
      assert SameDir(w, s, r);
    }
    assert w.dir.Keys == w.at.Keys;
    ImageSize(w.dir.Keys, Edges(C), s requires s in w.dir => w.dir[s]);
    SidesSize(w, L);
  }

  lemma SideEdge<T, E, V>(w: Wires<T, E, V>, L: set<T>, s: (T, nat))
    requires Covers(w, L, {}) && Rings(w, L) && s in w.at && s in w.dir
    ensures w.dir[s] in Edges(CornerSet(w, L))
  {
    assert Known(L, {}, s) && Ring(w, s.0);
    assert Corner(w, s.0, s.1) in TriCorners(w, s.0) && Corner(w, s.0, s.1) in CornerSet(w, L);
  }

  lemma EdgeSide<T, E, V>(w: Wires<T, E, V>, L: set<T>, d: (V, V))
    requires d in Edges(CornerSet(w, L))
    ensures exists s :: s in w.dir && w.dir[s] == d
  {
    var c :| c in CornerSet(w, L) && (c.0, c.1) == d;
    var t :| t in L && Ring(w, t) && c in TriCorners(w, t);
    SideOfCorner(w, t, c);
  }

  lemma CornerEdges<T, E, V>(w: Wires<T, E, V>, L: set<T>)
    requires Sound(w) && Covers(w, L, {}) && Rings(w, L)
    ensures Edges(CornerSet(w, L)) == set s | s in w.dir.Keys :: w.dir[s]
  {
    var D := set s | s in w.dir.Keys :: w.dir[s];
    forall d | d in D
      ensures d in Edges(CornerSet(w, L))
    {
      var s :| s in w.dir.Keys && w.dir[s] == d;
      SideEdge(w, L, s);
    }
    forall d | d in Edges(CornerSet(w, L))
      ensures d in D
    {
      EdgeSide(w, L, d);
    }
  }

  lemma SideOfCorner<T, E, V>(w: Wires<T, E, V>, t: T, c: (V, V, V))
    requires Ring(w, t) && c in TriCorners(w, t)
    ensures exists s :: s in w.dir && w.dir[s] == (c.0, c.1)
  {
    var i: nat :| i < 3 && c == Corner(w, t, i);
    assert (t, i) in w.dir && w.dir[(t, i)] == (c.0, c.1);
  }

  /** The tetrahedron has V - E + F == 2. */
  lemma TetraChi<V>(a: V, b: V, c: V, d: V)
    requires Different(a, b, c, d)
    ensures SixChi(TetraCorners(a, b, c, d)) == 12
  {
    TetraManifold(a, b, c, d);
    assert |{a, b, c, d}| == 4;
    assert |TetraCorners(a, b, c, d)| == 12;
  }
}
