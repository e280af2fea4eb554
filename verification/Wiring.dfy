/**
 How triangles and edges record each other.

 A side is a triangle with an edge index; an end is an edge with 0 or 1. Triangle t has e[i] and
 ei[i], edge e has t[k] and ti[k]: `at` is what the triangles say and `ends` is what the edges say.
 The mesh code rewires records in three ways only, and each keeps the wiring sound.
 */
module Wiring {

  datatype Wires<!T(==), !E(==), V> = Wires(
    at: map<(T, nat), (E, nat)>,     // side -> end
    ends: map<(E, nat), (T, nat)>,   // end -> side
    dir: map<(T, nat), (V, V)>,      // side -> directed vertex pair, in triangle order
    verts: map<E, (V, V)>            // edge -> its two vertices, in either order
  )

  function Rev<V>(d: (V, V)): (V, V) {
    (d.1, d.0)
  }

  function Flip<E>(x: (E, nat)): (E, nat) {
    (x.0, if x.1 == 0 then 1 else 0)
  }

  /** Side s and its end record each other. */
  ghost predicate SideSound<T, E, V>(w: Wires<T, E, V>, s: (T, nat)) {
    && s in w.at && s in w.dir
    && w.at[s] in w.ends && w.ends[w.at[s]] == s
    && w.dir[s].0 != w.dir[s].1
  }

  /** End x and its side record each other, and the edge's two triangles run along it in opposite directions. */
  ghost predicate EndSound<T, E, V>(w: Wires<T, E, V>, x: (E, nat)) {
    && x in w.ends && x.1 < 2 && x.0 in w.verts
    && w.ends[x] in w.at && w.at[w.ends[x]] == x
    && w.ends[x] in w.dir
    && (w.dir[w.ends[x]] == w.verts[x.0] || w.dir[w.ends[x]] == Rev(w.verts[x.0]))
    && Flip(x) in w.ends && w.ends[Flip(x)] in w.dir
    && w.dir[w.ends[Flip(x)]] == Rev(w.dir[w.ends[x]])
  }

  ghost predicate SameDir<T, E, V>(w: Wires<T, E, V>, s: (T, nat), r: (T, nat)) {
    s in w.dir && r in w.dir && w.dir[s] == w.dir[r]
  }

  ghost predicate SidesSound<T, E, V>(w: Wires<T, E, V>) {
    && (forall s | s in w.dir :: s in w.at)
    && (forall s | s in w.at :: s in w.dir)
    && (forall s {:trigger SideSound(w, s)} | s in w.at :: SideSound(w, s))
  }

  ghost predicate EndsSound<T, E, V>(w: Wires<T, E, V>) {
    forall x {:trigger EndSound(w, x)} | x in w.ends :: EndSound(w, x)
  }

  ghost predicate DirsUnique<T, E, V>(w: Wires<T, E, V>) {
    forall s, r {:trigger SameDir(w, s, r)} | s in w.dir && r in w.dir && SameDir(w, s, r) :: s == r
  }

  ghost predicate Sound<T, E, V>(w: Wires<T, E, V>) {
    SidesSound(w) && EndsSound(w) && DirsUnique(w)
  }

  // ---- the three rewirings

  /** Side s moves to another record r, as when a triangle is decomposed into faces. */
  ghost function Rename<T, E, V>(w: Wires<T, E, V>, s: (T, nat), r: (T, nat)): Wires<T, E, V>
    requires s in w.at && s in w.dir
  {
    Wires((w.at - {s})[r := w.at[s]], w.ends[w.at[s] := r], (w.dir - {s})[r := w.dir[s]], w.verts)
  }

  /** Edge e disappears together with the two faces that it joins. */
  ghost function Cancel<T, E, V>(w: Wires<T, E, V>, e: E): Wires<T, E, V> {
    var gone := set s | s in w.at && w.at[s].0 == e;
    Wires(w.at - gone, w.ends - {(e, 0), (e, 1)}, w.dir - gone, w.verts - {e})
  }

  /** A new edge e joins side s, running along d, to side r, running the other way; the edge lists its vertices as u. */
  ghost function JoinAs<T, E, V>(w: Wires<T, E, V>, e: E, s: (T, nat), r: (T, nat), d: (V, V),
      u: (V, V)): Wires<T, E, V> {
    Wires(w.at[s := (e, 0)][r := (e, 1)], w.ends[(e, 0) := s][(e, 1) := r], w.dir[s := d][r := Rev(d)], w.verts[e := u])
  }

  ghost function Join<T, E, V>(w: Wires<T, E, V>, e: E, s: (T, nat), r: (T, nat), d: (V, V)): Wires<T, E, V> {
    JoinAs(w, e, s, r, d, Rev(d))
  }

  lemma RenameSound<T, E, V>(w: Wires<T, E, V>, s: (T, nat), r: (T, nat))
    requires Sound(w) && s in w.at && r !in w.at
    ensures Sound(Rename(w, s, r))
  {
    var w' := Rename(w, s, r);
    assert SideSound(w, s);
    forall q | q in w'.at
      ensures SideSound(w', q)
    {
      if q != r {
        assert SideSound(w, q);
      }
    }
    forall x | x in w'.ends
      ensures EndSound(w', x)
    {
      assert EndSound(w, x);
      assert EndSound(w, Flip(x));
      assert Flip(Flip(x)) == x;
    }
    forall p, q | p in w'.dir && q in w'.dir && SameDir(w', p, q)
      ensures p == q
    {
      var p0 := if p == r then s else p;
      var q0 := if q == r then s else q;
      assert SameDir(w, p0, q0);
    }
  }

  lemma CancelSides<T, E, V>(w: Wires<T, E, V>, e: E)
    requires Sound(w)
    ensures SidesSound(Cancel(w, e))
  {
    forall q | q in Cancel(w, e).at
      ensures SideSound(Cancel(w, e), q)
    {
      assert SideSound(w, q);
      assert EndSound(w, w.at[q]);
    }
  }

  lemma CancelEnds<T, E, V>(w: Wires<T, E, V>, e: E)
    requires Sound(w)
    ensures EndsSound(Cancel(w, e))
  {
    forall x | x in Cancel(w, e).ends
      ensures EndSound(Cancel(w, e), x)
    {
      assert EndSound(w, x);
      assert EndSound(w, Flip(x));
      assert x.0 != e;
    }
  }

  lemma CancelDirs<T, E, V>(w: Wires<T, E, V>, e: E)
    requires Sound(w)
    ensures DirsUnique(Cancel(w, e))
  {
    forall p, q | p in Cancel(w, e).dir && q in Cancel(w, e).dir && SameDir(Cancel(w, e), p, q)
      ensures p == q
    {
      assert SameDir(w, p, q);
    }
  }

  lemma CancelSound<T, E, V>(w: Wires<T, E, V>, e: E)
    requires Sound(w)
    ensures Sound(Cancel(w, e))
  {
    CancelSides(w, e);
    CancelEnds(w, e);
    CancelDirs(w, e);
  }

  ghost predicate Unused<T, E, V>(w: Wires<T, E, V>, d: (V, V)) {
    forall q | q in w.dir :: w.dir[q] != d
  }

  ghost predicate CanJoin<T, E, V>(w: Wires<T, E, V>, e: E, s: (T, nat), r: (T, nat), d: (V, V)) {
    && e !in w.verts && s != r && s !in w.at && r !in w.at
    && d.0 != d.1 && Unused(w, d) && Unused(w, Rev(d))
  }

  lemma JoinSides<T, E, V>(w: Wires<T, E, V>, e: E, s: (T, nat), r: (T, nat), d: (V, V), u: (V, V))
    requires Sound(w) && CanJoin(w, e, s, r, d)
    ensures SidesSound(JoinAs(w, e, s, r, d, u))
  {
    forall q | q in JoinAs(w, e, s, r, d, u).at
      ensures SideSound(JoinAs(w, e, s, r, d, u), q)
    {
      if q in w.at {
        assert SideSound(w, q);
        assert EndSound(w, w.at[q]);
      }
    }
  }

  lemma JoinEnds<T, E, V>(w: Wires<T, E, V>, e: E, s: (T, nat), r: (T, nat), d: (V, V), u: (V, V))
    requires Sound(w) && CanJoin(w, e, s, r, d) && (u == d || u == Rev(d))
    ensures EndsSound(JoinAs(w, e, s, r, d, u))
  {
    forall x | x in JoinAs(w, e, s, r, d, u).ends
      ensures EndSound(JoinAs(w, e, s, r, d, u), x)
    {
      if x in w.ends {
        assert EndSound(w, x);
        assert EndSound(w, Flip(x));
      }
    }
  }

  lemma JoinDirs<T, E, V>(w: Wires<T, E, V>, e: E, s: (T, nat), r: (T, nat), d: (V, V), u: (V, V))
    requires Sound(w) && CanJoin(w, e, s, r, d)
    ensures DirsUnique(JoinAs(w, e, s, r, d, u))
  {
    forall p, q | p in JoinAs(w, e, s, r, d, u).dir && q in JoinAs(w, e, s, r, d, u).dir
      ensures SameDir(JoinAs(w, e, s, r, d, u), p, q) ==> p == q
    {
      if p in w.dir && q in w.dir {
        assert SameDir(w, p, q) ==> p == q;
      }
    }
  }

  lemma JoinSound<T, E, V>(w: Wires<T, E, V>, e: E, s: (T, nat), r: (T, nat), d: (V, V), u: (V, V))
    requires Sound(w) && CanJoin(w, e, s, r, d) && (u == d || u == Rev(d))
    ensures Sound(JoinAs(w, e, s, r, d, u))
  {
    JoinSides(w, e, s, r, d, u);
    JoinEnds(w, e, s, r, d, u);
    JoinDirs(w, e, s, r, d, u);
  }

  /** The faces (a, b) and (b, a) of a sound wiring are the two sides of one edge. */
  lemma Opposite<T, E, V>(w: Wires<T, E, V>, s: (T, nat), r: (T, nat))
    requires Sound(w) && s in w.at && r in w.at && w.dir[s] == Rev(w.dir[r])
    ensures w.at[s] == Flip(w.at[r])
  {
    assert SideSound(w, r) && SideSound(w, s);
    assert EndSound(w, w.at[r]);
    assert SameDir(w, s, w.ends[Flip(w.at[r])]);
    assert EndSound(w, Flip(w.at[r]));
  }
}
