/** The surface that a wiring describes: the corners of its live triangles. */
module Corners {
  import opened Surface
  import opened Wiring

  function Next(i: nat): nat
    requires i < 3
  {
    if i == 2 then 0 else i + 1
  }

  ghost predicate HasTri<T, E, V>(w: Wires<T, E, V>, t: T) {
    (t, 0) in w.at && (t, 1) in w.at && (t, 2) in w.at
  }

  ghost predicate HasFace<T, E, V>(w: Wires<T, E, V>, h: T) {
    (h, 0) in w.at
  }

  ghost predicate Known<T>(L: set<T>, H: set<T>, s: (T, nat)) {
    (s.0 in L && s.1 < 3) || (s.0 in H && s.1 == 0)
  }

  /** The wired sides are all three sides of the live triangles L and side 0 of the faces H. */
  ghost predicate Covers<T, E, V>(w: Wires<T, E, V>, L: set<T>, H: set<T>) {
    && L !! H
    && (forall s {:trigger Known(L, H, s)} | s in w.at :: Known(L, H, s))
    && (forall t {:trigger HasTri(w, t)} | t in L :: HasTri(w, t))
    && (forall h {:trigger HasFace(w, h)} | h in H :: HasFace(w, h))
  }

  /** The directed faces of a hit list. */
  ghost function FaceDirs<T, E, V>(w: Wires<T, E, V>, H: set<T>): set<(V, V)> {
    set h | h in H && (h, 0) in w.dir :: w.dir[(h, 0)]
  }

  /** The three sides of t follow each other. */
  ghost predicate Ring<T, E, V>(w: Wires<T, E, V>, t: T) {
    && (t, 0) in w.dir && (t, 1) in w.dir && (t, 2) in w.dir
    && w.dir[(t, 0)].1 == w.dir[(t, 1)].0
    && w.dir[(t, 1)].1 == w.dir[(t, 2)].0
    && w.dir[(t, 2)].1 == w.dir[(t, 0)].0
  }

  ghost function Corner<T, E, V>(w: Wires<T, E, V>, t: T, i: nat): (V, V, V)
    requires Ring(w, t) && i < 3
  {
    (w.dir[(t, i)].0, w.dir[(t, i)].1, w.dir[(t, Next(i))].1)
  }

  ghost predicate Rings<T, E, V>(w: Wires<T, E, V>, L: set<T>) {
    forall t {:trigger Ring(w, t)} | t in L :: Ring(w, t)
  }

  ghost function TriCorners<T, E, V>(w: Wires<T, E, V>, t: T): set<(V, V, V)>
    requires Ring(w, t)
  {
    {Corner(w, t, 0), Corner(w, t, 1), Corner(w, t, 2)}
  }

  ghost function CornerSet<T, E, V>(w: Wires<T, E, V>, L: set<T>): set<(V, V, V)> {
    set t, c | t in L && Ring(w, t) && c in TriCorners(w, t) :: c
  }

  ghost predicate SameDirs<T, E, V>(w: Wires<T, E, V>, w': Wires<T, E, V>, t: T) {
    forall i: nat | i < 3 && (t, i) in w.dir :: (t, i) in w'.dir && w'.dir[(t, i)] == w.dir[(t, i)]
  }

  lemma CornerSetFrame<T, E, V>(w: Wires<T, E, V>, w': Wires<T, E, V>, L: set<T>)
    requires Rings(w, L) && forall t | t in L :: SameDirs(w, w', t)
    ensures Rings(w', L) && CornerSet(w', L) == CornerSet(w, L)
  {
    forall t | t in L
      ensures Ring(w, t) && Ring(w', t) && TriCorners(w', t) == TriCorners(w, t)
    {
      assert SameDirs(w, w', t) && Ring(w, t);
    }
  }

  lemma TriCornersWhole<T, E, V>(w: Wires<T, E, V>, t: T)
    requires Ring(w, t)
    ensures Whole(TriCorners(w, t))
    ensures Edges(TriCorners(w, t)) == {w.dir[(t, 0)], w.dir[(t, 1)], w.dir[(t, 2)]}
  {
    assert Edges(TriCorners(w, t)) == {(Corner(w, t, 0).0, Corner(w, t, 0).1), (Corner(w, t, 1).0, Corner(w, t, 1).1),
                                       (Corner(w, t, 2).0, Corner(w, t, 2).1)};
  }

  /** Two corners that lie on the same directed edge belong to the same triangle. */
  lemma CornerOwner<T, E, V>(w: Wires<T, E, V>, t: T, u: T, c: (V, V, V), d: (V, V, V))
    requires Sound(w) && Ring(w, t) && Ring(w, u) && c in TriCorners(w, t) && d in TriCorners(w, u) && SameEdge(c, d)
    ensures t == u && c == d
  {
    var i: nat :| i < 3 && c == Corner(w, t, i);
    var j: nat :| j < 3 && d == Corner(w, u, j);
    assert SameDir(w, (t, i), (u, j));
  }

  lemma CornersOriented<T, E, V>(w: Wires<T, E, V>, L: set<T>)
    requires Sound(w) && Rings(w, L)
    ensures Oriented(CornerSet(w, L))
  {
    forall c, d | c in CornerSet(w, L) && d in CornerSet(w, L) && SameEdge(c, d)
      ensures c == d
    {
      var t :| t in L && Ring(w, t) && c in TriCorners(w, t);
      var u :| u in L && Ring(w, u) && d in TriCorners(w, u);
      CornerOwner(w, t, u, c, d);
    }
  }

  /** Taking one triangle away takes its corners away, and nothing else. */
  lemma DropTriangle<T, E, V>(w: Wires<T, E, V>, L: set<T>, t: T)
    requires Sound(w) && Rings(w, L) && t in L
    ensures Ring(w, t) && Rings(w, L - {t}) && TriCorners(w, t) <= CornerSet(w, L)
    ensures CornerSet(w, L - {t}) == CornerSet(w, L) - TriCorners(w, t)
  {
    assert Ring(w, t);
    forall c | c in CornerSet(w, L - {t})
      ensures c in CornerSet(w, L) - TriCorners(w, t)
    {
      var u :| u in L - {t} && Ring(w, u) && c in TriCorners(w, u);
      if c in TriCorners(w, t) {
        assert SameEdge(c, c);
        CornerOwner(w, t, u, c, c);
      }
    }
  }

  /** w' knows fewer sides than w, and says the same about those it knows. */
  ghost predicate Below<T, E, V>(w': Wires<T, E, V>, w: Wires<T, E, V>) {
    forall s | s in w'.dir :: s in w.dir && w'.dir[s] == w.dir[s]
  }

  lemma CancelCovers<T, E, V>(w: Wires<T, E, V>, w': Wires<T, E, V>, L: set<T>, H: set<T>, f: T, g: T)
    requires Covers(w, L, H) && f in H && g in H && w'.at.Keys == w.at.Keys - {(f, 0), (g, 0)}
    ensures Covers(w', L, H - {f, g})
  {
    forall s | s in w'.at
      ensures Known(L, H - {f, g}, s)
    {
      assert Known(L, H, s);
    }
    forall t | t in L
      ensures HasTri(w', t)
    {
      assert HasTri(w, t);
    }
    forall h | h in H - {f, g}
      ensures HasFace(w', h)
    {
      assert HasFace(w, h);
    }
  }

  lemma MoveCovers<T, E, V>(w: Wires<T, E, V>, L: set<T>, H: set<T>, t: T, t1: T, t2: T)
    requires Covers(w, L, H) && (forall s | s in w.at :: s in w.dir) && t in L && t1 !in L + H && t2 !in L + H
      && t1 != t2
    ensures HasTri(w, t) && Covers(Rename(Rename(w, (t, 1), (t1, 0)), (t, 2), (t2, 0)), L - {t}, H + {t, t1, t2})
  {
    assert HasTri(w, t);
    var w' := Rename(Rename(w, (t, 1), (t1, 0)), (t, 2), (t2, 0));
    forall s | s in w'.at
      ensures Known(L - {t}, H + {t, t1, t2}, s)
    {
      assert s in w.at ==> Known(L, H, s);
    }
    forall u | u in L - {t}
      ensures HasTri(w', u)
    {
      assert HasTri(w, u);
    }
    forall h | h in H + {t, t1, t2}
      ensures HasFace(w', h)
    {
      assert h in H ==> HasFace(w, h);
    }
  }

  lemma MoveDirs<T, E, V>(w: Wires<T, E, V>, L: set<T>, H: set<T>, t: T, t1: T, t2: T, u: T)
    requires Covers(w, L, H) && (forall s | s in w.at :: s in w.dir) && HasTri(w, t) && t in L && t1 !in L + H
      && t2 !in L + H && t1 != t2
    requires u in L + H
    ensures var w' := Rename(Rename(w, (t, 1), (t1, 0)), (t, 2), (t2, 0));
      && (u, 0) in w.dir && (u, 0) in w'.dir && w'.dir[(u, 0)] == w.dir[(u, 0)]
      && (u != t ==> SameDirs(w, w', u))
      && (t1, 0) in w'.dir && w'.dir[(t1, 0)] == w.dir[(t, 1)]
      && (t2, 0) in w'.dir && w'.dir[(t2, 0)] == w.dir[(t, 2)]
  {
    assert u in L ==> HasTri(w, u);
    assert u in H ==> HasFace(w, u);
  }
}
