/** Closing the hole: every face of a simple boundary becomes a triangle with the new vertex. */
module Closing {
  import opened Surface
  import opened Lists
  import opened Wiring
  import opened Corners
  import opened HitList

  /** A finished hit list round an unused vertex v. */
  ghost predicate Hole<T, E, V>(w: Wires<T, E, V>, L: set<T>, hl: seq<T>, C: set<(V, V, V)>, R: set<(V, V, V)>, v: V) {
    && Hitting(w, L, hl, C, R)
    && Region(C, R, v)
    && SimpleCycle(Boundary(Edges(R)))
  }

  ghost predicate Wired<T, E, V>(w: Wires<T, E, V>, t: T) {
    (t, 0) in w.dir
  }

  /** The face hl[m] starts where the face hl[j] ends. */
  ghost predicate Follows<T, E, V>(w: Wires<T, E, V>, hl: seq<T>, j: nat, m: nat)
    requires j < |hl| && m < |hl|
  {
    Wired(w, hl[j]) && Wired(w, hl[m]) && w.dir[(hl[m], 0)].0 == w.dir[(hl[j], 0)].1
  }

  /** Side s is new: it is side 1 of one of the first k faces, or side 2 of a face that follows one of them. */
  ghost predicate NewSide<T, E, V>(w0: Wires<T, E, V>, hl: seq<T>, k: nat, s: (T, nat))
    requires k <= |hl|
  {
    || (s.1 == 1 && s.0 in hl[..k])
    || (s.1 == 2 && exists j, m :: 0 <= j < k && 0 <= m < |hl| && Follows(w0, hl, j, m) && s.0 == hl[m])
  }

  /** The direction of a new side of the triangle on face h, towards or away from v. */
  ghost predicate NewDir<T, E, V>(w0: Wires<T, E, V>, w: Wires<T, E, V>, v: V, s: (T, nat)) {
    && Wired(w0, s.0) && s in w.dir
    && (s.1 == 1 ==> w.dir[s] == (w0.dir[(s.0, 0)].1, v))
    && (s.1 == 2 ==> w.dir[s] == (v, w0.dir[(s.0, 0)].0))
  }

  ghost predicate NewSides<T, E, V>(w0: Wires<T, E, V>, w: Wires<T, E, V>, hl: seq<T>, k: nat)
    requires k <= |hl|
  {
    forall s {:trigger NewSide(w0, hl, k, s)} | s in w.at :: s in w0.at || NewSide(w0, hl, k, s)
  }

  ghost predicate NewDirs<T, E, V>(w0: Wires<T, E, V>, w: Wires<T, E, V>, v: V) {
    forall s {:trigger NewDir(w0, w, v, s)} | s in w.at && s !in w0.at :: NewDir(w0, w, v, s)
  }

  ghost predicate Followed<T, E, V>(w0: Wires<T, E, V>, w: Wires<T, E, V>, hl: seq<T>, k: nat)
    requires k <= |hl|
  {
    forall j, m {:trigger Follows(w0, hl, j, m)} | 0 <= j < k && 0 <= m < |hl| && Follows(w0, hl, j, m) ::
      (hl[j], 1) in w.at && (hl[m], 2) in w.at
  }

  /** The wiring after the first k faces have been joined to the faces that follow them. */
  ghost predicate ClosedTo<T, E, V>(w0: Wires<T, E, V>, w: Wires<T, E, V>, hl: seq<T>, k: nat, v: V) {
    && k <= |hl|
    && Sound(w) && Below(w0, w)
    && NewSides(w0, w, hl, k) && NewDirs(w0, w, v) && Followed(w0, w, hl, k)
  }

  lemma HoleFaces<T, E, V>(w: Wires<T, E, V>, L: set<T>, hl: seq<T>, C: set<(V, V, V)>, R: set<(V, V, V)>, v: V, h: T)
    requires Hitting(w, L, hl, C, R) && Region(C, R, v) && h in hl
    ensures (h, 0) in w.at && Wired(w, h) && w.dir[(h, 0)] in Boundary(Edges(R))
    ensures w.dir[(h, 0)].0 != v && w.dir[(h, 0)].1 != v
    ensures (h, 1) !in w.at && (h, 2) !in w.at
  {
    assert h in Elems(hl);
    assert HasFace(w, h) && SideSound(w, (h, 0));
    assert w.dir[(h, 0)] in FaceDirs(w, Elems(hl));
    BoundaryVerts(C, R, v, w.dir[(h, 0)]);
    assert !Known(L, Elems(hl), (h, 1)) && !Known(L, Elems(hl), (h, 2));
  }

  /** No side wired so far touches the new vertex. */
  lemma HoleUntouched<T, E, V>(w: Wires<T, E, V>, L: set<T>, hl: seq<T>, C: set<(V, V, V)>, R: set<(V, V, V)>, v: V,
      s: (T, nat))
    requires Hitting(w, L, hl, C, R) && Region(C, R, v) && s in w.dir
    ensures w.dir[s].0 != v && w.dir[s].1 != v
  {
    assert Known(L, Elems(hl), s);
    if s.0 in L {
      assert Ring(w, s.0);
      var c := Corner(w, s.0, s.1);
      assert c in TriCorners(w, s.0) && c in CornerSet(w, L);
      AllVerts(C, c);
    } else {
      HoleFaces(w, L, hl, C, R, v, s.0);
    }
  }

  /** Of a simple boundary, only one face ends at, and only one starts at, any vertex. */
  lemma OneFace<T, E, V>(w: Wires<T, E, V>, L: set<T>, hl: seq<T>, C: set<(V, V, V)>, R: set<(V, V, V)>, v: V, i: nat,
      j: nat)
    requires Hole(w, L, hl, C, R, v) && i < |hl| && j < |hl| && Wired(w, hl[i]) && Wired(w, hl[j])
    requires w.dir[(hl[i], 0)].1 == w.dir[(hl[j], 0)].1 || w.dir[(hl[i], 0)].0 == w.dir[(hl[j], 0)].0
    ensures i == j
  {
    HoleFaces(w, L, hl, C, R, v, hl[i]);
    HoleFaces(w, L, hl, C, R, v, hl[j]);
    assert SameDir(w, (hl[i], 0), (hl[j], 0));
  }

  lemma OnlyFollower<T, E, V>(w: Wires<T, E, V>, L: set<T>, hl: seq<T>, C: set<(V, V, V)>, R: set<(V, V, V)>, v: V,
      k: nat, m: nat)
    requires Hole(w, L, hl, C, R, v) && k < |hl| && m < |hl| && Follows(w, hl, k, m)
    ensures forall n | 0 <= n < |hl| :: Follows(w, hl, k, n) <==> n == m
  {
    forall n | 0 <= n < |hl| && Follows(w, hl, k, n)
      ensures n == m
    {
      OneFace(w, L, hl, C, R, v, m, n);
    }
  }

  lemma NotNewYet<T, E, V>(w0: Wires<T, E, V>, L: set<T>, hl: seq<T>, C: set<(V, V, V)>, R: set<(V, V, V)>, v: V,
      k: nat, m: nat)
    requires Hole(w0, L, hl, C, R, v) && k < |hl| && m < |hl| && Follows(w0, hl, k, m)
    ensures !NewSide(w0, hl, k, (hl[k], 1)) && !NewSide(w0, hl, k, (hl[m], 2))
  {
    forall j, n | 0 <= j < k && 0 <= n < |hl| && Follows(w0, hl, j, n) && hl[m] == hl[n]
      ensures false
    {
      OneFace(w0, L, hl, C, R, v, j, k);
    }
  }

  lemma UnwiredYet<T, E, V>(w0: Wires<T, E, V>, w: Wires<T, E, V>, L: set<T>, hl: seq<T>, C: set<(V, V, V)>,
      R: set<(V, V, V)>, v: V, k: nat, m: nat)
    requires Hole(w0, L, hl, C, R, v) && ClosedTo(w0, w, hl, k, v) && k < |hl| && m < |hl| && Follows(w0, hl, k, m)
    ensures (hl[k], 1) !in w.at && (hl[m], 2) !in w.at
  {
    HoleFaces(w0, L, hl, C, R, v, hl[k]);
    HoleFaces(w0, L, hl, C, R, v, hl[m]);
    NotNewYet(w0, L, hl, C, R, v, k, m);
  }

  /** What is wired at face k when its turn comes: perhaps its side 2, from v to its start. */
  lemma TurnOf<T, E, V>(w0: Wires<T, E, V>, w: Wires<T, E, V>, L: set<T>, hl: seq<T>, C: set<(V, V, V)>,
      R: set<(V, V, V)>, v: V, k: nat)
    requires Hole(w0, L, hl, C, R, v) && ClosedTo(w0, w, hl, k, v) && k < |hl|
    ensures (hl[k], 1) !in w.at && Wired(w0, hl[k])
    ensures (hl[k], 2) in w.dir ==> w.dir[(hl[k], 2)] == (v, w0.dir[(hl[k], 0)].0)
  {
    HoleFaces(w0, L, hl, C, R, v, hl[k]);
    var m := Follower(w0, L, hl, C, R, v, k);
    UnwiredYet(w0, w, L, hl, C, R, v, k, m);
    assert (hl[k], 2) in w.dir ==> NewDir(w0, w, v, (hl[k], 2));
  }

  lemma CanClose<T, E, V>(w0: Wires<T, E, V>, w: Wires<T, E, V>, L: set<T>, hl: seq<T>, C: set<(V, V, V)>,
      R: set<(V, V, V)>, v: V, k: nat, m: nat, e: E)
    requires Hole(w0, L, hl, C, R, v) && ClosedTo(w0, w, hl, k, v) && k < |hl| && m < |hl| && Follows(w0, hl, k, m)
    requires e !in w.verts
    ensures CanJoin(w, e, (hl[k], 1), (hl[m], 2), (w0.dir[(hl[k], 0)].1, v))
  {
    var d := (w0.dir[(hl[k], 0)].1, v);
    HoleFaces(w0, L, hl, C, R, v, hl[k]);
    UnwiredYet(w0, w, L, hl, C, R, v, k, m);
    forall q | q in w.dir
      ensures w.dir[q] != d && w.dir[q] != Rev(d)
    {
      if q in w0.dir {
        HoleUntouched(w0, L, hl, C, R, v, q);
      } else {
        assert SidesSound(w0) && SidesSound(w);
        assert NewDir(w0, w, v, q) && NewSide(w0, hl, k, q);
        FreshDir(w0, L, hl, C, R, v, k, q);
      }
    }
  }

  /** The first k faces have not used the edge between v and the end of face k. */
  lemma FreshDir<T, E, V>(w0: Wires<T, E, V>, L: set<T>, hl: seq<T>, C: set<(V, V, V)>, R: set<(V, V, V)>, v: V, k: nat,
      q: (T, nat))
    requires Hole(w0, L, hl, C, R, v) && k < |hl| && NewSide(w0, hl, k, q) && Wired(w0, q.0) && Wired(w0, hl[k])
    ensures q.1 == 1 ==> w0.dir[(q.0, 0)].1 != w0.dir[(hl[k], 0)].1 && w0.dir[(q.0, 0)].1 != v
    ensures q.1 == 2 ==> w0.dir[(q.0, 0)].0 != w0.dir[(hl[k], 0)].1 && w0.dir[(q.0, 0)].0 != v
  {
    if q.1 == 1 {
      var j :| 0 <= j < k && hl[..k][j] == q.0;
      HoleFaces(w0, L, hl, C, R, v, q.0);
      if w0.dir[(q.0, 0)].1 == w0.dir[(hl[k], 0)].1 {
        OneFace(w0, L, hl, C, R, v, j, k);
      }
    } else {
      var j, m :| 0 <= j < k && 0 <= m < |hl| && Follows(w0, hl, j, m) && q.0 == hl[m];
      HoleFaces(w0, L, hl, C, R, v, q.0);
      if w0.dir[(q.0, 0)].0 == w0.dir[(hl[k], 0)].1 {
        OneFace(w0, L, hl, C, R, v, j, k);
      }
    }
  }

  lemma CloseStart<T, E, V>(w: Wires<T, E, V>, hl: seq<T>, v: V)
    requires Sound(w)
    ensures ClosedTo(w, w, hl, 0, v)
  {
  }

  ghost function Joined<T, E, V>(w0: Wires<T, E, V>, w: Wires<T, E, V>, hl: seq<T>, v: V, k: nat, m: nat,
      e: E): Wires<T, E, V>
    requires k < |hl| && m < |hl| && Wired(w0, hl[k])
  {
    Join(w, e, (hl[k], 1), (hl[m], 2), (w0.dir[(hl[k], 0)].1, v))
  }

  /** Joining face k to its follower m wires exactly their two new sides. */
  lemma JoinNew<T, E, V>(w0: Wires<T, E, V>, w: Wires<T, E, V>, hl: seq<T>, v: V, k: nat, m: nat, e: E, s: (T, nat))
    requires ClosedTo(w0, w, hl, k, v) && k < |hl| && m < |hl| && Follows(w0, hl, k, m)
    requires s in Joined(w0, w, hl, v, k, m, e).at
    ensures s in w0.at || NewSide(w0, hl, k + 1, s)
    ensures s !in w0.at ==> NewDir(w0, Joined(w0, w, hl, v, k, m, e), v, s)
  {
    assert hl[..k + 1] == hl[..k] + [hl[k]];
    if s in w.at {
      assert s in w0.at || NewSide(w0, hl, k, s);
      assert s !in w0.at ==> NewDir(w0, w, v, s);
    }
  }

  lemma JoinNews<T, E, V>(w0: Wires<T, E, V>, w: Wires<T, E, V>, hl: seq<T>, v: V, k: nat, m: nat, e: E)
    requires ClosedTo(w0, w, hl, k, v) && k < |hl| && m < |hl| && Follows(w0, hl, k, m)
    ensures NewSides(w0, Joined(w0, w, hl, v, k, m, e), hl, k + 1)
    ensures NewDirs(w0, Joined(w0, w, hl, v, k, m, e), v)
  {
    forall s | s in Joined(w0, w, hl, v, k, m, e).at
      ensures s in w0.at || NewSide(w0, hl, k + 1, s)
      ensures s !in w0.at ==> NewDir(w0, Joined(w0, w, hl, v, k, m, e), v, s)
    {
      JoinNew(w0, w, hl, v, k, m, e, s);
    }
  }

  lemma JoinFollowed<T, E, V>(w0: Wires<T, E, V>, w: Wires<T, E, V>, L: set<T>, hl: seq<T>, C: set<(V, V, V)>,
      R: set<(V, V, V)>, v: V, k: nat, m: nat, e: E)
    requires Hole(w0, L, hl, C, R, v) && k < |hl| && m < |hl| && Follows(w0, hl, k, m) && Followed(w0, w, hl, k)
    ensures Followed(w0, Joined(w0, w, hl, v, k, m, e), hl, k + 1)
  {
    forall j, n | 0 <= j < k + 1 && 0 <= n < |hl| && Follows(w0, hl, j, n)
      ensures (hl[j], 1) in Joined(w0, w, hl, v, k, m, e).at && (hl[n], 2) in Joined(w0, w, hl, v, k, m, e).at
    {
      if j == k {
        OneFace(w0, L, hl, C, R, v, n, m);
      }
    }
  }

  lemma JoinBelow<T, E, V>(w0: Wires<T, E, V>, w: Wires<T, E, V>, hl: seq<T>, v: V, k: nat, m: nat, e: E)
    requires Sound(w0) && Sound(w) && Below(w0, w) && k < |hl| && m < |hl| && Wired(w0, hl[k])
    requires (hl[k], 1) !in w.at && (hl[m], 2) !in w.at
    ensures Below(w0, Joined(w0, w, hl, v, k, m, e))
  {
  }

  lemma CloseStep<T, E, V>(w0: Wires<T, E, V>, w: Wires<T, E, V>, L: set<T>, hl: seq<T>, C: set<(V, V, V)>,
      R: set<(V, V, V)>, v: V, k: nat, m: nat, e: E)
    requires Hole(w0, L, hl, C, R, v) && ClosedTo(w0, w, hl, k, v) && k < |hl| && m < |hl| && Follows(w0, hl, k, m)
    requires e !in w.verts
    ensures ClosedTo(w0, Joined(w0, w, hl, v, k, m, e), hl, k + 1, v)
    ensures Joined(w0, w, hl, v, k, m, e).verts.Keys == w.verts.Keys + {e}
  {
    CanClose(w0, w, L, hl, C, R, v, k, m, e);
    JoinSound(w, e, (hl[k], 1), (hl[m], 2), (w0.dir[(hl[k], 0)].1, v), (v, w0.dir[(hl[k], 0)].1));
    JoinBelow(w0, w, hl, v, k, m, e);
    JoinNews(w0, w, hl, v, k, m, e);
    JoinFollowed(w0, w, L, hl, C, R, v, k, m, e);
  }

  /** Every face of the hole has a follower, and follows some face. */
  lemma Follower<T, E, V>(w: Wires<T, E, V>, L: set<T>, hl: seq<T>, C: set<(V, V, V)>, R: set<(V, V, V)>, v: V, k: nat)
    returns (m: nat)
    requires Hole(w, L, hl, C, R, v) && k < |hl|
    ensures m < |hl| && Follows(w, hl, k, m)
  {
    HoleFaces(w, L, hl, C, R, v, hl[k]);
    var d := w.dir[(hl[k], 0)];
    assert d.1 in Heads(Boundary(Edges(R)));
    var f :| f in Boundary(Edges(R)) && f.0 == d.1;
    m := FaceOf(w, L, hl, C, R, v, f);
  }

  lemma Leader<T, E, V>(w: Wires<T, E, V>, L: set<T>, hl: seq<T>, C: set<(V, V, V)>, R: set<(V, V, V)>, v: V, k: nat)
    returns (j: nat)
    requires Hole(w, L, hl, C, R, v) && k < |hl|
    ensures j < |hl| && Follows(w, hl, j, k)
  {
    HoleFaces(w, L, hl, C, R, v, hl[k]);
    var d := w.dir[(hl[k], 0)];
    assert d.0 in Tails(Boundary(Edges(R)));
    var f :| f in Boundary(Edges(R)) && f.1 == d.0;
    j := FaceOf(w, L, hl, C, R, v, f);
  }

  lemma FaceOf<T, E, V>(w: Wires<T, E, V>, L: set<T>, hl: seq<T>, C: set<(V, V, V)>, R: set<(V, V, V)>, v: V, f: (V, V))
    returns (m: nat)
    requires Hitting(w, L, hl, C, R) && f in Boundary(Edges(R))
    ensures m < |hl| && Wired(w, hl[m]) && w.dir[(hl[m], 0)] == f
  {
    assert f in FaceDirs(w, Elems(hl));
    var h :| h in Elems(hl) && (h, 0) in w.dir && w.dir[(h, 0)] == f;
    m :| m < |hl| && hl[m] == h;
    assert Wired(w, hl[m]);
  }

  /** The triangle that the face h becomes. */
  lemma ClosedFace<T, E, V>(w0: Wires<T, E, V>, w: Wires<T, E, V>, L: set<T>, hl: seq<T>, C: set<(V, V, V)>,
      R: set<(V, V, V)>, v: V, h: T)
    requires Hole(w0, L, hl, C, R, v) && ClosedTo(w0, w, hl, |hl|, v) && h in hl
    ensures HasTri(w, h) && Ring(w, h) && Wired(w0, h)
    ensures w.dir[(h, 0)] == w0.dir[(h, 0)] && w.dir[(h, 1)] == (w0.dir[(h, 0)].1, v)
      && w.dir[(h, 2)] == (v, w0.dir[(h, 0)].0)
  {
    var k: nat :| k < |hl| && hl[k] == h;
    HoleFaces(w0, L, hl, C, R, v, h);
    var m := Follower(w0, L, hl, C, R, v, k);
    var j := Leader(w0, L, hl, C, R, v, k);
    assert (h, 1) in w.at && (h, 2) in w.at;
    assert NewDir(w0, w, v, (h, 1)) && NewDir(w0, w, v, (h, 2));
    assert SidesSound(w) && SidesSound(w0);
  }

  /** The live triangles keep their sides. */
  lemma ClosedLive<T, E, V>(w0: Wires<T, E, V>, w: Wires<T, E, V>, L: set<T>, hl: seq<T>, C: set<(V, V, V)>,
      R: set<(V, V, V)>, v: V, t: T)
    requires Hitting(w0, L, hl, C, R) && ClosedTo(w0, w, hl, |hl|, v) && t in L
    ensures HasTri(w, t) && SameDirs(w0, w, t)
  {
    assert HasTri(w0, t);
    assert SidesSound(w) && SidesSound(w0);
  }

  lemma ClosedCovers<T, E, V>(w0: Wires<T, E, V>, w: Wires<T, E, V>, L: set<T>, hl: seq<T>, C: set<(V, V, V)>,
      R: set<(V, V, V)>, v: V)
    requires Hole(w0, L, hl, C, R, v) && ClosedTo(w0, w, hl, |hl|, v)
    ensures Covers(w, L + Elems(hl), {}) && Rings(w, L + Elems(hl))
  {
    forall s | s in w.at
      ensures Known(L + Elems(hl), {}, s)
    {
      assert s in w0.at || NewSide(w0, hl, |hl|, s);
      assert s in w0.at ==> Known(L, Elems(hl), s);
    }
    forall t | t in L + Elems(hl)
      ensures HasTri(w, t) && Ring(w, t)
    {
      if t in L {
        ClosedLive(w0, w, L, hl, C, R, v, t);
        assert Ring(w0, t);
      } else {
        ClosedFace(w0, w, L, hl, C, R, v, t);
      }
    }
  }

  lemma FanHolds<V>(B: set<(V, V)>, d: (V, V), v: V)
    requires d in B
    ensures (d.0, d.1, v) in Fan(B, v) && (d.1, v, d.0) in Fan(B, v) && (v, d.0, d.1) in Fan(B, v)
  {
  }

}
