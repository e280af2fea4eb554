/** The hit list as a value: merging faces into it, and what that means for the removed region. */
module HitList {
  import opened Surface
  import opened SurfaceCount
  import opened Lists
  import opened Wiring
  import opened Corners

  ghost predicate Facing<T, E, V>(w: Wires<T, E, V>, h: T, cf: T) {
    (h, 0) in w.dir && (cf, 0) in w.dir && w.dir[(h, 0)] == Rev(w.dir[(cf, 0)])
  }

  /** The position of the first face on the list that runs opposite to cf, or the length of the list. */
  ghost function FaceIndex<T, E, V>(w: Wires<T, E, V>, hl: seq<T>, cf: T): (m: nat)
    ensures m <= |hl| && (m < |hl| ==> Facing(w, hl[m], cf))
    ensures forall n | 0 <= n < m :: !Facing(w, hl[n], cf)
  {
    if hl == [] || Facing(w, hl[0], cf) then 0 else 1 + FaceIndex(w, hl[1..], cf)
  }

  /** A face joins the hit list, or cancels against its reverse together with their edge. */
  ghost function Merge<T, E, V>(w: Wires<T, E, V>, hl: seq<T>, cf: T): (seq<T>, Wires<T, E, V>)
  {
    var m := FaceIndex(w, hl, cf);
    if (cf, 0) in w.at && m < |hl| then (Without(hl, m), Cancel(w, w.at[(cf, 0)].0)) else (hl + [cf], w)
  }

  /** A list of faces hl, a face cf about to be merged and faces P to be merged later. */
  ghost predicate Ready<T, E, V>(w: Wires<T, E, V>, L: set<T>, hl: seq<T>, cf: T, P: set<T>) {
    && Sound(w) && NoDup(hl) && cf !in hl && P !! Elems(hl) + {cf}
    && Covers(w, L, Elems(hl) + {cf} + P)
  }

  lemma ReadyFaces<T, E, V>(w: Wires<T, E, V>, L: set<T>, hl: seq<T>, cf: T, P: set<T>)
    requires Ready(w, L, hl, cf, P)
    ensures (cf, 0) in w.at && forall h | h in hl :: (h, 0) in w.at
  {
    assert HasFace(w, cf);
    forall h | h in hl
      ensures (h, 0) in w.at
    {
      assert HasFace(w, h);
    }
  }

  /** The edge of a face that meets its reverse joins just those two faces. */
  lemma CancelKeys<T, E, V>(w: Wires<T, E, V>, f: T, g: T)
    requires Sound(w) && (f, 0) in w.at && (g, 0) in w.at && Facing(w, f, g)
    ensures w.at[(g, 0)] == Flip(w.at[(f, 0)])
    ensures Cancel(w, w.at[(g, 0)].0).at.Keys == w.at.Keys - {(f, 0), (g, 0)}
  {
    Opposite(w, (g, 0), (f, 0));
    assert SideSound(w, (f, 0)) && SideSound(w, (g, 0));
    assert EndSound(w, w.at[(g, 0)]) && EndSound(w, w.at[(f, 0)]);
    forall s | s in w.at && w.at[s].0 == w.at[(g, 0)].0
      ensures s == (f, 0) || s == (g, 0)
    {
      assert SideSound(w, s);
      assert EndSound(w, w.at[s]);
      assert w.at[s] == w.at[(f, 0)] || w.at[s] == w.at[(g, 0)];
    }
  }

  lemma MergeSound<T, E, V>(w: Wires<T, E, V>, L: set<T>, hl: seq<T>, cf: T, P: set<T>)
    requires Ready(w, L, hl, cf, P)
    ensures (cf, 0) in w.at && var (r, w') := Merge(w, hl, cf);
      Sound(w') && NoDup(r) && Elems(r) <= Elems(hl) + {cf} && Covers(w', L, Elems(r) + P) && Below(w', w)
  {
    ReadyFaces(w, L, hl, cf, P);
    var m := FaceIndex(w, hl, cf);
    var (r, w') := Merge(w, hl, cf);
    if m < |hl| {
      CancelSound(w, w.at[(cf, 0)].0);
      WithoutElems(hl, m);
      CancelKeys(w, hl[m], cf);
      CancelCovers(w, w', L, Elems(hl) + {cf} + P, hl[m], cf);
      assert (Elems(hl) + {cf} + P) - {hl[m], cf} == Elems(r) + P;
    } else {
      assert Elems(r) == Elems(hl) + {cf};
    }
  }

  lemma AppendDirs<T, E, V>(w: Wires<T, E, V>, H: set<T>, cf: T)
    requires (cf, 0) in w.dir && forall h | h in H :: !Facing(w, h, cf)
    ensures FaceDirs(w, H + {cf}) == Toggle(FaceDirs(w, H), w.dir[(cf, 0)])
  {
    assert Rev(w.dir[(cf, 0)]) !in FaceDirs(w, H);
  }

  lemma DropDirs<T, E, V>(w: Wires<T, E, V>, w': Wires<T, E, V>, H: set<T>, h: T, cf: T)
    requires Sound(w) && h in H && Facing(w, h, cf) && Below(w', w)
    requires forall f | f in H && f != h :: (f, 0) in w'.dir
    ensures FaceDirs(w', H - {h}) == Toggle(FaceDirs(w, H), w.dir[(cf, 0)])
  {
    var d := w.dir[(h, 0)];
    assert d in FaceDirs(w, H);
    forall f | f in FaceDirs(w', H - {h})
      ensures f in FaceDirs(w, H) && f != d
    {
      var g :| g in H - {h} && (g, 0) in w'.dir && w'.dir[(g, 0)] == f;
      assert SameDir(w, (g, 0), (h, 0)) ==> g == h;
    }
    forall f | f in FaceDirs(w, H) && f != d
      ensures f in FaceDirs(w', H - {h})
    {
      var g :| g in H && (g, 0) in w.dir && w.dir[(g, 0)] == f;
    }
  }

  /** Merging a face keeps the list equal to the directed boundary of the faces seen so far. */
  lemma MergeBoundary<T, E, V>(w: Wires<T, E, V>, L: set<T>, hl: seq<T>, cf: T, P: set<T>, D: set<(V, V)>)
    requires Ready(w, L, hl, cf, P) && FaceDirs(w, Elems(hl)) == Boundary(D)
    requires (cf, 0) in w.dir && w.dir[(cf, 0)] !in D
    ensures (cf, 0) in w.at && var (r, w') := Merge(w, hl, cf);
      FaceDirs(w', Elems(r)) == Boundary(D + {w.dir[(cf, 0)]})
  {
    ReadyFaces(w, L, hl, cf, P);
    MergeSound(w, L, hl, cf, P);
    assert SideSound(w, (cf, 0));
    BoundaryToggle(D, w.dir[(cf, 0)]);
    var m := FaceIndex(w, hl, cf);
    var (r, w') := Merge(w, hl, cf);
    if m < |hl| {
      WithoutElems(hl, m);
      forall f | f in Elems(hl) && f != hl[m]
        ensures (f, 0) in w'.dir
      {
        assert f in Elems(r) + P;
        assert HasFace(w', f);
      }
      DropDirs(w, w', Elems(hl), hl[m], cf);
    } else {
      assert Elems(r) == Elems(hl) + {cf};
      AppendDirs(w, Elems(hl), cf);
    }
  }

  // ---- taking a whole triangle off the surface

  /** The triangle tp becomes three faces, tp itself and the new records t1 and t2. */
  ghost function Decompose<T, E, V>(w: Wires<T, E, V>, tp: T, t1: T, t2: T): Wires<T, E, V>
    requires HasTri(w, tp) && Ring(w, tp) && t1 != tp && t2 != tp
  {
    Rename(Rename(w, (tp, 1), (t1, 0)), (tp, 2), (t2, 0))
  }

  /** Live triangles L, with the hit list hl, when R of the corners C have been removed:
      the live ones are the rest, and the list is the directed boundary of the removed region. */
  ghost predicate Hitting<T, E, V>(w: Wires<T, E, V>, L: set<T>, hl: seq<T>, C: set<(V, V, V)>, R: set<(V, V, V)>) {
    && Sound(w) && NoDup(hl) && Covers(w, L, Elems(hl)) && Rings(w, L)
    && Oriented(C) && R <= C && Whole(R)
    && CornerSet(w, L) == C - R
    && FaceDirs(w, Elems(hl)) == Boundary(Edges(R))
  }

  /** The state while some faces P of the removed region R are not yet on the list; D are the edges already merged. */
  ghost predicate Merging<T, E, V>(w: Wires<T, E, V>, L: set<T>, hl: seq<T>, P: set<T>, C: set<(V, V, V)>,
                                   R: set<(V, V, V)>, D: set<(V, V)>) {
    && Sound(w) && NoDup(hl) && P !! Elems(hl) && Covers(w, L, Elems(hl) + P) && Rings(w, L)
    && CornerSet(w, L) == C - R
    && FaceDirs(w, Elems(hl)) == Boundary(D)
  }

  ghost predicate NewRecords<T, E, V>(w: Wires<T, E, V>, L: set<T>, hl: seq<T>, tp: T, t1: T, t2: T) {
    && tp in L && t1 !in L && t1 !in hl && t2 !in L && t2 !in hl && t1 != t2 && tp !in hl
    && HasTri(w, tp) && Ring(w, tp)
  }

  lemma DecomposeSound<T, E, V>(w: Wires<T, E, V>, L: set<T>, hl: seq<T>, tp: T, t1: T, t2: T)
    requires Sound(w) && Covers(w, L, Elems(hl)) && NewRecords(w, L, hl, tp, t1, t2)
    ensures Sound(Decompose(w, tp, t1, t2))
  {
    forall s | s in w.at
      ensures s.0 in L || s.0 in hl
    {
      assert Known(L, Elems(hl), s);
    }
    RenameSound(w, (tp, 1), (t1, 0));
    RenameSound(Rename(w, (tp, 1), (t1, 0)), (tp, 2), (t2, 0));
  }

  lemma DecomposeDirs<T, E, V>(w: Wires<T, E, V>, L: set<T>, hl: seq<T>, tp: T, t1: T, t2: T)
    requires Sound(w) && Covers(w, L, Elems(hl)) && NewRecords(w, L, hl, tp, t1, t2)
    ensures var w' := Decompose(w, tp, t1, t2);
      && (tp, 0) in w'.dir && w'.dir[(tp, 0)] == w.dir[(tp, 0)]
      && (t1, 0) in w'.dir && w'.dir[(t1, 0)] == w.dir[(tp, 1)]
      && (t2, 0) in w'.dir && w'.dir[(t2, 0)] == w.dir[(tp, 2)]
      && (forall u | u in L - {tp} :: SameDirs(w, w', u))
      && FaceDirs(w', Elems(hl)) == FaceDirs(w, Elems(hl))
  {
    var w' := Decompose(w, tp, t1, t2);
    MoveDirs(w, L, Elems(hl), tp, t1, t2, tp);
    forall u | u in L - {tp}
      ensures SameDirs(w, w', u)
    {
      MoveDirs(w, L, Elems(hl), tp, t1, t2, u);
    }
    forall h | h in Elems(hl)
      ensures (h, 0) in w.dir && (h, 0) in w'.dir && w'.dir[(h, 0)] == w.dir[(h, 0)]
    {
      MoveDirs(w, L, Elems(hl), tp, t1, t2, h);
    }
  }

  lemma DecomposeMerging<T, E, V>(w: Wires<T, E, V>, L: set<T>, hl: seq<T>, tp: T, t1: T, t2: T,
                                  C: set<(V, V, V)>, R: set<(V, V, V)>)
    requires Hitting(w, L, hl, C, R) && NewRecords(w, L, hl, tp, t1, t2)
    ensures Merging(Decompose(w, tp, t1, t2), L - {tp}, hl, {tp, t1, t2}, C, R + TriCorners(w, tp), Edges(R))
  {
    DecomposeSound(w, L, hl, tp, t1, t2);
    DecomposeDirs(w, L, hl, tp, t1, t2);
    MoveCovers(w, L, Elems(hl), tp, t1, t2);
    DropTriangle(w, L, tp);
    CornerSetFrame(w, Decompose(w, tp, t1, t2), L - {tp});
  }

  /** The edges of a live triangle are three different edges, none of them an edge of the removed region. */
  lemma LiveEdges<T, E, V>(w: Wires<T, E, V>, L: set<T>, tp: T, C: set<(V, V, V)>, R: set<(V, V, V)>)
    requires Sound(w) && Rings(w, L) && tp in L && Oriented(C) && R <= C && CornerSet(w, L) == C - R
    ensures Ring(w, tp)
    ensures w.dir[(tp, 0)] !in Edges(R) && w.dir[(tp, 1)] !in Edges(R) && w.dir[(tp, 2)] !in Edges(R)
    ensures w.dir[(tp, 0)] != w.dir[(tp, 1)] && w.dir[(tp, 0)] != w.dir[(tp, 2)] && w.dir[(tp, 1)] != w.dir[(tp, 2)]
  {
    DropTriangle(w, L, tp);
    EdgeOwner(C, R, Corner(w, tp, 0));
    EdgeOwner(C, R, Corner(w, tp, 1));
    EdgeOwner(C, R, Corner(w, tp, 2));
    assert !SameDir(w, (tp, 0), (tp, 1)) && !SameDir(w, (tp, 0), (tp, 2)) && !SameDir(w, (tp, 1), (tp, 2));
  }

  lemma MergeStep<T, E, V>(w: Wires<T, E, V>, L: set<T>, hl: seq<T>, P: set<T>, C: set<(V, V, V)>, R: set<(V, V, V)>,
                           D: set<(V, V)>, cf: T)
    requires Merging(w, L, hl, P, C, R, D) && cf in P && (cf, 0) in w.dir && w.dir[(cf, 0)] !in D
    ensures (cf, 0) in w.at && var (r, w') := Merge(w, hl, cf);
      && Merging(w', L, r, P - {cf}, C, R, D + {w.dir[(cf, 0)]})
      && Elems(r) <= Elems(hl) + {cf} && Below(w', w)
      && forall p | p in P - {cf} :: (p, 0) in w'.dir && (p, 0) in w.dir && w'.dir[(p, 0)] == w.dir[(p, 0)]
  {
    assert Elems(hl) + {cf} + (P - {cf}) == Elems(hl) + P;
    assert cf !in Elems(hl);
    MergeSound(w, L, hl, cf, P - {cf});
    MergeBoundary(w, L, hl, cf, P - {cf}, D);
    var (r, w') := Merge(w, hl, cf);
    forall t | t in L
      ensures SameDirs(w, w', t)
    {
      assert HasTri(w', t);
    }
    CornerSetFrame(w, w', L);
    forall p | p in P - {cf}
      ensures (p, 0) in w'.dir
    {
      assert HasFace(w', p);
    }
  }

  /** The hit list after merging the faces tp, t1 and t2 in this order. */
  ghost function MergeAll<T, E, V>(w: Wires<T, E, V>, hl: seq<T>, tp: T, t1: T, t2: T): (seq<T>, Wires<T, E, V>) {
    var (r1, w1) := Merge(w, hl, tp);
    var (r2, w2) := Merge(w1, r1, t1);
    Merge(w2, r2, t2)
  }

  lemma MergeAllSteps<T, E, V>(w: Wires<T, E, V>, L: set<T>, hl: seq<T>, tp: T, t1: T, t2: T, C: set<(V, V, V)>,
                               R: set<(V, V, V)>, D: set<(V, V)>, d0: (V, V), d1: (V, V), d2: (V, V))
    requires Merging(w, L, hl, {tp, t1, t2}, C, R, D) && tp != t1 && tp != t2 && t1 != t2
    requires (tp, 0) in w.dir && w.dir[(tp, 0)] == d0 && d0 !in D
    requires (t1, 0) in w.dir && w.dir[(t1, 0)] == d1 && d1 !in D + {d0}
    requires (t2, 0) in w.dir && w.dir[(t2, 0)] == d2 && d2 !in D + {d0} + {d1}
    ensures var (r, w') := MergeAll(w, hl, tp, t1, t2);
      Merging(w', L, r, {}, C, R, D + {d0} + {d1} + {d2}) && Elems(r) <= Elems(hl) + {tp, t1, t2} && Below(w', w)
  {
    MergeStep(w, L, hl, {tp, t1, t2}, C, R, D, tp);
    var (r1, w1) := Merge(w, hl, tp);
    assert {tp, t1, t2} - {tp} == {t1, t2};
    MergeStep(w1, L, r1, {t1, t2}, C, R, D + {d0}, t1);
    var (r2, w2) := Merge(w1, r1, t1);
    assert {t1, t2} - {t1} == {t2};
    MergeStep(w2, L, r2, {t2}, C, R, D + {d0} + {d1}, t2);
    assert {t2} - {t2} == {};
  }

  lemma RegionGrows<T, E, V>(w: Wires<T, E, V>, L: set<T>, tp: T, C: set<(V, V, V)>, R: set<(V, V, V)>)
    requires Sound(w) && Rings(w, L) && tp in L && R <= C && Whole(R) && CornerSet(w, L) == C - R
    ensures Ring(w, tp) && R + TriCorners(w, tp) <= C && Whole(R + TriCorners(w, tp))
    ensures Edges(R + TriCorners(w, tp)) == Edges(R) + {w.dir[(tp, 0)]} + {w.dir[(tp, 1)]} + {w.dir[(tp, 2)]}
  {
    DropTriangle(w, L, tp);
    TriCornersWhole(w, tp);
  }

  /** Removing one more triangle: the list is again exactly the directed boundary of the removed region. */
  lemma HitStep<T, E, V>(w: Wires<T, E, V>, L: set<T>, hl: seq<T>, tp: T, t1: T, t2: T, C: set<(V, V, V)>,
      R: set<(V, V, V)>)
    requires Hitting(w, L, hl, C, R) && NewRecords(w, L, hl, tp, t1, t2)
    ensures var (r, w') := MergeAll(Decompose(w, tp, t1, t2), hl, tp, t1, t2);
      Hitting(w', L - {tp}, r, C, R + TriCorners(w, tp))
        && (forall h | h in r :: h in hl || h == tp || h == t1 || h == t2)
      && Below(w', Decompose(w, tp, t1, t2))
  {
    var w0 := Decompose(w, tp, t1, t2);
    var d0, d1, d2 := w.dir[(tp, 0)], w.dir[(tp, 1)], w.dir[(tp, 2)];
    var R' := R + TriCorners(w, tp);
    DecomposeMerging(w, L, hl, tp, t1, t2, C, R);
    DecomposeDirs(w, L, hl, tp, t1, t2);
    LiveEdges(w, L, tp, C, R);
    MergeAllSteps(w0, L - {tp}, hl, tp, t1, t2, C, R', Edges(R), d0, d1, d2);
    RegionGrows(w, L, tp, C, R);
    var (r, w') := MergeAll(w0, hl, tp, t1, t2);
    assert Elems(r) + {} == Elems(r);
    forall h | h in r
      ensures h in hl || h == tp || h == t1 || h == t2
    {
      assert h in Elems(r);
    }
  }

  ghost predicate CanMerge<T, E, V>(w: Wires<T, E, V>, hl: seq<T>, cf: T) {
    && Sound(w) && cf !in hl && (cf, 0) in w.at
    && forall h | h in hl :: (h, 0) in w.at
  }

  ghost predicate CanMergeAll<T, E, V>(w: Wires<T, E, V>, hl: seq<T>, tp: T, t1: T, t2: T) {
    && CanMerge(w, hl, tp)
    && var (r1, w1) := Merge(w, hl, tp);
    && CanMerge(w1, r1, t1)
    && var (r2, w2) := Merge(w1, r1, t1);
    && CanMerge(w2, r2, t2)
  }

  lemma MergingCanMerge<T, E, V>(w: Wires<T, E, V>, L: set<T>, hl: seq<T>, P: set<T>, C: set<(V, V, V)>,
                                 R: set<(V, V, V)>, D: set<(V, V)>, cf: T)
    requires Merging(w, L, hl, P, C, R, D) && cf in P
    ensures CanMerge(w, hl, cf)
  {
    assert HasFace(w, cf) && cf !in Elems(hl);
    forall h | h in hl
      ensures (h, 0) in w.at
    {
      assert h in Elems(hl) + P;
      assert HasFace(w, h);
    }
  }

  /** The faces of a decomposed triangle can be merged one after the other. */
  lemma DecomposedCanMerge<T, E, V>(w: Wires<T, E, V>, L: set<T>, hl: seq<T>, tp: T, t1: T, t2: T,
                                    C: set<(V, V, V)>, R: set<(V, V, V)>)
    requires Hitting(w, L, hl, C, R) && NewRecords(w, L, hl, tp, t1, t2)
    ensures CanMergeAll(Decompose(w, tp, t1, t2), hl, tp, t1, t2)
  {
    var w0 := Decompose(w, tp, t1, t2);
    var L', R', D, d0, d1 := L - {tp}, R + TriCorners(w, tp), Edges(R), w.dir[(tp, 0)], w.dir[(tp, 1)];
    DecomposeMerging(w, L, hl, tp, t1, t2, C, R);
    DecomposeDirs(w, L, hl, tp, t1, t2);
    LiveEdges(w, L, tp, C, R);
    MergingCanMerge(w0, L', hl, {tp, t1, t2}, C, R', D, tp);
    MergeStep(w0, L', hl, {tp, t1, t2}, C, R', D, tp);
    var (r1, w1) := Merge(w0, hl, tp);
    assert {tp, t1, t2} - {tp} == {t1, t2};
    MergingCanMerge(w1, L', r1, {t1, t2}, C, R', D + {d0}, t1);
    MergeStep(w1, L', r1, {t1, t2}, C, R', D + {d0}, t1);
    var (r2, w2) := Merge(w1, r1, t1);
    assert {t1, t2} - {t1} == {t2};
    MergingCanMerge(w2, L', r2, {t2}, C, R', D + {d0} + {d1}, t2);
  }

  /** Everything that the in-place code needs to know about removing the live triangle tp. */
  lemma HitTriangle<T, E, V>(w: Wires<T, E, V>, L: set<T>, hl: seq<T>, tp: T, t1: T, t2: T, C: set<(V, V, V)>,
      R: set<(V, V, V)>)
    requires Hitting(w, L, hl, C, R) && NewRecords(w, L, hl, tp, t1, t2)
    ensures var w0 := Decompose(w, tp, t1, t2);
      && CanMergeAll(w0, hl, tp, t1, t2)
      && Covers(w0, L - {tp}, Elems(hl) + {tp, t1, t2})
      && var (r, w') := MergeAll(w0, hl, tp, t1, t2);
      && Hitting(w', L - {tp}, r, C, R + TriCorners(w, tp))
      && (forall h | h in r :: h in hl || h == tp || h == t1 || h == t2)
      && Below(w', w0)
  {
    DecomposedCanMerge(w, L, hl, tp, t1, t2, C, R);
    HitStep(w, L, hl, tp, t1, t2, C, R);
    MoveCovers(w, L, Elems(hl), tp, t1, t2);
  }

  /** The triangle across a face of the hit list is still live. */
  lemma LiveAcross<T, E, V>(w: Wires<T, E, V>, L: set<T>, hl: seq<T>, C: set<(V, V, V)>, R: set<(V, V, V)>, h: T)
    requires Hitting(w, L, hl, C, R) && h in hl
    ensures (h, 0) in w.at && w.at[(h, 0)] in w.ends && Flip(w.at[(h, 0)]) in w.ends
    ensures w.ends[Flip(w.at[(h, 0)])].0 in L
  {
    assert h in Elems(hl);
    assert HasFace(w, h);
    assert SideSound(w, (h, 0));
    var x := w.at[(h, 0)];
    assert EndSound(w, x) && EndSound(w, Flip(x));
    var s := w.ends[Flip(x)];
    assert Known(L, Elems(hl), s);
    assert w.dir[(h, 0)] in FaceDirs(w, Elems(hl));
    assert SideSound(w, s);
    var d := w.dir[s];
    assert s.0 in Elems(hl) && s.1 == 0 ==> d in FaceDirs(w, Elems(hl));
  }
}
