/** The base triangulation: wirings made of a list of joins, and the surface of a tetrahedron. */
module Tetra {
  import opened Surface
  import opened Lists
  import opened Wiring
  import opened Corners

  /** Edge e joins side s, along d, to side r; the edge lists its vertices as u. */
  datatype Link<!T(==), !E(==), V> = Link(e: E, s: (T, nat), r: (T, nat), d: (V, V), u: (V, V))

  ghost function Wire<T, E, V>(ls: seq<Link<T, E, V>>): Wires<T, E, V> {
    if ls == [] then
      Wires(map[], map[], map[], map[])
    else
      var k := ls[|ls| - 1];
      JoinAs(Wire(ls[..|ls| - 1]), k.e, k.s, k.r, k.d, k.u)
  }

  ghost predicate Good<T, E, V>(k: Link<T, E, V>) {
    k.s != k.r && k.d.0 != k.d.1 && (k.u == k.d || k.u == Rev(k.d))
  }

  ghost predicate Apart<T, E, V>(k: Link<T, E, V>, l: Link<T, E, V>) {
    k.e != l.e && k.s != l.s && k.s != l.r && k.r != l.s && k.r != l.r && k.d != l.d && k.d != Rev(l.d)
  }

  /** No two links share an edge, a side or a vertex pair. */
  ghost predicate AllApart<T, E, V>(ls: seq<Link<T, E, V>>) {
    && (forall i {:trigger Good(ls[i])} | 0 <= i < |ls| :: Good(ls[i]))
    && (forall i, j {:trigger Apart(ls[i], ls[j])} | 0 <= i < j < |ls| :: Apart(ls[i], ls[j]))
  }

  ghost predicate Linked<T, E, V>(w: Wires<T, E, V>, k: Link<T, E, V>) {
    && k.s in w.at && w.at[k.s] == (k.e, 0) && k.r in w.at && w.at[k.r] == (k.e, 1)
    && k.s in w.dir && w.dir[k.s] == k.d && k.r in w.dir && w.dir[k.r] == Rev(k.d)
    && k.e in w.verts && w.verts[k.e] == k.u
    && (k.e, 0) in w.ends && w.ends[(k.e, 0)] == k.s && (k.e, 1) in w.ends && w.ends[(k.e, 1)] == k.r
  }

  ghost function Sides<T, E, V>(ls: seq<Link<T, E, V>>): set<(T, nat)> {
    (set k | k in ls :: k.s) + (set k | k in ls :: k.r)
  }

  lemma {:induction false} WireSides<T, E, V>(ls: seq<Link<T, E, V>>)
    ensures Wire(ls).at.Keys == Wire(ls).dir.Keys == Sides(ls)
  {
    if ls == [] {
    } else {
      var ms, k := ls[..|ls| - 1], ls[|ls| - 1];
      WireSides(ms);
      assert ls == ms + [k];
      assert Sides(ls) == Sides(ms) + {k.s, k.r};
    }
  }

  lemma {:induction false} WireVerts<T, E, V>(ls: seq<Link<T, E, V>>)
    ensures Wire(ls).verts.Keys == set k | k in ls :: k.e
  {
    if ls == [] {
    } else {
      var ms, k := ls[..|ls| - 1], ls[|ls| - 1];
      WireVerts(ms);
      assert ls == ms + [k];
    }
  }

  lemma {:induction false} WireKeys<T, E, V>(ls: seq<Link<T, E, V>>)
    ensures Wire(ls).at.Keys == Wire(ls).dir.Keys == Sides(ls)
    ensures Wire(ls).verts.Keys == set k | k in ls :: k.e
    ensures forall s | s in Wire(ls).dir ::
      exists k :: k in ls && (Wire(ls).dir[s] == k.d || Wire(ls).dir[s] == Rev(k.d))
  {
    WireSides(ls);
    WireVerts(ls);
    if ls != [] {
      var ms, k := ls[..|ls| - 1], ls[|ls| - 1];
      WireKeys(ms);
      assert ls == ms + [k];
    }
  }

  /** Such a list wires soundly. */
  lemma {:induction false} WireSound<T, E, V>(ls: seq<Link<T, E, V>>)
    requires AllApart(ls)
    ensures Sound(Wire(ls))
  {
    if ls == [] {
    } else {
      var ms, k := ls[..|ls| - 1], ls[|ls| - 1];
      forall i | 0 <= i < |ms|
        ensures Good(ms[i]) && Apart(ms[i], k)
      {
        assert Good(ls[i]) && Apart(ls[i], ls[|ls| - 1]);
      }
      forall i, j | 0 <= i < j < |ms|
        ensures Apart(ms[i], ms[j])
      {
        assert Apart(ls[i], ls[j]);
      }
      WireSound(ms);
      WireKeys(ms);
      assert Good(ls[|ls| - 1]);
      LinkFits(ms, k);
      JoinSound(Wire(ms), k.e, k.s, k.r, k.d, k.u);
    }
  }

  lemma LinkFits<T, E, V>(ms: seq<Link<T, E, V>>, k: Link<T, E, V>)
    requires Good(k) && forall i | 0 <= i < |ms| :: Apart(ms[i], k)
    ensures CanJoin(Wire(ms), k.e, k.s, k.r, k.d)
  {
    WireKeys(ms);
    var w := Wire(ms);
    forall q | q in w.dir
      ensures w.dir[q] != k.d && w.dir[q] != Rev(k.d)
    {
      var l :| l in ms && (w.dir[q] == l.d || w.dir[q] == Rev(l.d));
      var i :| 0 <= i < |ms| && ms[i] == l;
      assert Apart(ms[i], k);
    }
  }

  /** Every link of the list is in the wiring. */
  lemma {:induction false} WireLinks<T, E, V>(ls: seq<Link<T, E, V>>)
    requires AllApart(ls)
    ensures forall k {:trigger Linked(Wire(ls), k)} | k in ls :: Linked(Wire(ls), k)
  {
    if ls == [] {
    } else {
      var ms, k := ls[..|ls| - 1], ls[|ls| - 1];
      assert AllApart(ms) by {
        forall i | 0 <= i < |ms| ensures Good(ms[i]) { assert Good(ls[i]); }
        forall i, j | 0 <= i < j < |ms| ensures Apart(ms[i], ms[j]) { assert Apart(ls[i], ls[j]); }
      }
      WireLinks(ms);
      assert Good(ls[|ls| - 1]);
      forall l | l in ls
        ensures Linked(Wire(ls), l)
      {
        if l != k {
          var i :| 0 <= i < |ls| && ls[i] == l;
          assert ms[i] == l;
          assert Linked(Wire(ms), l);
          assert Apart(ls[i], ls[|ls| - 1]);
        }
      }
    }
  }

  // ---- the tetrahedron

  /** The six edges of the base triangulation over the triangles (a, b, c), (a, d, b), (a, c, d) and (b, d, c). */
  ghost function TetraLinks<T, E, V>(t: seq<T>, e: seq<E>, a: V, b: V, c: V, d: V): seq<Link<T, E, V>>
    requires |t| == 4 && |e| == 6
  {
    [Link(e[0], (t[0], 0), (t[1], 2), (a, b), (a, b)),
     Link(e[1], (t[0], 1), (t[3], 2), (b, c), (b, c)),
     Link(e[2], (t[0], 2), (t[2], 0), (c, a), (a, c)),
     Link(e[3], (t[1], 0), (t[2], 2), (a, d), (a, d)),
     Link(e[4], (t[1], 1), (t[3], 0), (d, b), (b, d)),
     Link(e[5], (t[2], 1), (t[3], 1), (c, d), (c, d))]
  }

  ghost predicate Different<A>(a: A, b: A, c: A, d: A) {
    a != b && a != c && a != d && b != c && b != d && c != d
  }

  lemma TetraApart<T, E, V>(t: seq<T>, e: seq<E>, a: V, b: V, c: V, d: V)
    requires |t| == 4 && |e| == 6 && NoDup(t) && NoDup(e) && Different(a, b, c, d)
    ensures AllApart(TetraLinks(t, e, a, b, c, d))
  {
    var ls := TetraLinks(t, e, a, b, c, d);
    forall i, j | 0 <= i < j < |ls|
      ensures Apart(ls[i], ls[j])
    {
      assert e[i] != e[j];
    }
  }

  /** The wiring of the base triangulation is sound, and its sides are those of the four triangles. */
  lemma TetraWired<T, E, V>(t: seq<T>, e: seq<E>, a: V, b: V, c: V, d: V)
    requires |t| == 4 && |e| == 6 && NoDup(t) && NoDup(e) && Different(a, b, c, d)
    ensures var w := Wire(TetraLinks(t, e, a, b, c, d)); Sound(w) && w.verts.Keys == Elems(e)
    ensures var w := Wire(TetraLinks(t, e, a, b, c, d)); Covers(w, Elems(t), {}) && Rings(w, Elems(t))
  {
    var ls := TetraLinks(t, e, a, b, c, d);
    var w := Wire(ls);
    TetraApart(t, e, a, b, c, d);
    WireSound(ls);
    WireKeys(ls);
    TetraKeys(t, e, a, b, c, d);
    TetraRings(t, e, a, b, c, d);
    forall s | s in w.at
      ensures Known(Elems(t), {}, s)
    {
      assert s in Sides(ls);
    }
  }

  lemma TetraKeys<T, E, V>(t: seq<T>, e: seq<E>, a: V, b: V, c: V, d: V)
    requires |t| == 4 && |e| == 6
    ensures (set k | k in TetraLinks(t, e, a, b, c, d) :: k.e) == Elems(e)
    ensures forall s | s in Sides(TetraLinks(t, e, a, b, c, d)) :: s.0 in t && s.1 < 3
  {
    var ls := TetraLinks(t, e, a, b, c, d);
    forall x | x in Elems(e)
      ensures exists k :: k in ls && k.e == x
    {
      var i :| 0 <= i < |e| && e[i] == x;
      assert ls[i] in ls && ls[i].e == e[i];
    }
  }

  lemma LinkSides<T, E, V>(ls: seq<Link<T, E, V>>, k: Link<T, E, V>)
    requires AllApart(ls) && k in ls
    ensures var w := Wire(ls);
      k.s in w.at && k.r in w.at && k.s in w.dir && k.r in w.dir && w.dir[k.s] == k.d && w.dir[k.r] == Rev(k.d)
  {
    WireLinks(ls);
    assert Linked(Wire(ls), k);
  }

  lemma TetraRings<T, E, V>(t: seq<T>, e: seq<E>, a: V, b: V, c: V, d: V)
    requires |t| == 4 && |e| == 6 && AllApart(TetraLinks(t, e, a, b, c, d))
    ensures var w := Wire(TetraLinks(t, e, a, b, c, d)); forall x | x in Elems(t) :: HasTri(w, x) && Ring(w, x)
  {
    var ls := TetraLinks(t, e, a, b, c, d);
    LinkSides(ls, ls[0]);
    LinkSides(ls, ls[1]);
    LinkSides(ls, ls[2]);
    LinkSides(ls, ls[3]);
    LinkSides(ls, ls[4]);
    LinkSides(ls, ls[5]);
    FourElems(t);
  }

  lemma FourElems<T>(t: seq<T>)
    requires |t| == 4
    ensures forall x | x in Elems(t) :: x == t[0] || x == t[1] || x == t[2] || x == t[3]
  {
  }

  ghost function TetraCorners<V>(a: V, b: V, c: V, d: V): set<(V, V, V)> {
    {(a, b, c), (b, c, a), (c, a, b), (a, d, b), (d, b, a), (b, a, d),
     (a, c, d), (c, d, a), (d, a, c), (b, d, c), (d, c, b), (c, b, d)}
  }

  lemma TetraUmbrella<V>(C: set<(V, V, V)>, x: V, p: V, q: V, r: V)
    requires (x, p, q) in C && (x, q, r) in C && (x, r, p) in C
    requires forall e | e in C && e.0 == x :: e == (x, p, q) || e == (x, q, r) || e == (x, r, p)
    ensures Umbrella(C, x)
  {
    forall S: set<V> | S <= Star(C, x) && Part(C, x, S)
      ensures S == Star(C, x)
    {
      assert LinkStep(S, (x, p, q)) && LinkStep(S, (x, q, r)) && LinkStep(S, (x, r, p));
      assert p in S && q in S && r in S;
    }
  }

  lemma TetraShape<V>(a: V, b: V, c: V, d: V)
    requires Different(a, b, c, d)
    ensures var C := TetraCorners(a, b, c, d); Whole(C) && Proper(C) && Oriented(C) && Verts(C) == {a, b, c, d}
  {
    var C := TetraCorners(a, b, c, d);
    assert (a, b, c) in C && (b, c, a) in C && (c, a, b) in C && (d, b, a) in C;
  }

  lemma TetraClosed<V>(a: V, b: V, c: V, d: V)
    ensures Closed(TetraCorners(a, b, c, d))
  {
    var C := TetraCorners(a, b, c, d);
    assert (a, b) in Edges(C) by { assert (a, b, c) in C; }
    assert (b, c) in Edges(C) by { assert (b, c, a) in C; }
    assert (c, a) in Edges(C) by { assert (c, a, b) in C; }
    assert (a, d) in Edges(C) by { assert (a, d, b) in C; }
    assert (d, b) in Edges(C) by { assert (d, b, a) in C; }
    assert (b, a) in Edges(C) by { assert (b, a, d) in C; }
    assert (a, c) in Edges(C) by { assert (a, c, d) in C; }
    assert (c, d) in Edges(C) by { assert (c, d, a) in C; }
    assert (d, a) in Edges(C) by { assert (d, a, c) in C; }
    assert (b, d) in Edges(C) by { assert (b, d, c) in C; }
    assert (d, c) in Edges(C) by { assert (d, c, b) in C; }
    assert (c, b) in Edges(C) by { assert (c, b, d) in C; }
  }

  lemma TetraManifold<V>(a: V, b: V, c: V, d: V)
    requires Different(a, b, c, d)
    ensures Manifold(TetraCorners(a, b, c, d)) && Verts(TetraCorners(a, b, c, d)) == {a, b, c, d}
  {
    var C := TetraCorners(a, b, c, d);
    TetraShape(a, b, c, d);
    TetraClosed(a, b, c, d);
    TetraUmbrella(C, a, b, c, d);
    TetraUmbrella(C, b, c, a, d);
    TetraUmbrella(C, c, a, b, d);
    TetraUmbrella(C, d, b, a, c);
  }
}
