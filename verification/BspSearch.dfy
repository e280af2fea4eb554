/** Searching the BSP tree for the triangle in a given direction. */
module BspSearch {
  import opened Wrappers
  import opened PlaneEq
  import opened Lists
  import opened Bsp
  import opened Cone

  const SLACK: real := 0.000000000001

  /** The triangles that a tree holds. */
  ghost function Held(n: Tree): set<Tri> {
    match n
    case Leaf(t) => {t}
    case Leaves(ts, _, _) => Elems(ts)
    case Node(_, _, _, po, ne) => Held(po) + Held(ne)
  }

  /** A tree built for a list holds the list. */
  lemma {:induction false} HeldList(n: Tree, list: seq<Tri>)
    requires TreeOf(n, list)
    ensures Held(n) == Elems(list)
    decreases n
  {
    if n.Node? {
      HeldList(n.po, Pos(n.pe, list));
      HeldList(n.ne, Neg(n.pe, list));
      forall t
        ensures t in Held(n) <==> t in list
      {
        SideMembers(n.pe, list, t);
      }
    }
  }

  /** The scan over a list: the first triangle whose edge test x passes. */
  function FirstIn(ts: seq<Tri>, x: Vec, slack: real): Option<Tri> {
    if ts == [] then None else if Passes(ts[0], x, slack) then Some(ts[0]) else FirstIn(ts[1..], x, slack)
  }

  lemma {:induction false} FirstInSound(ts: seq<Tri>, x: Vec, slack: real)
    ensures var r := FirstIn(ts, x, slack);
      if r.Some? then r.value in ts && Passes(r.value, x, slack) else forall t | t in ts :: !Passes(t, x, slack)
    ensures forall i | 0 <= i < |ts| && Passes(ts[i], x, slack)
      && (forall j | 0 <= j < i :: !Passes(ts[j], x, slack)) ::
      FirstIn(ts, x, slack) == Some(ts[i])
  {
    if ts == [] {
    } else {
      FirstInSound(ts[1..], x, slack);
      forall i | 0 < i < |ts| && Passes(ts[i], x, slack) && (forall j | 0 <= j < i :: !Passes(ts[j], x, slack))
        ensures FirstIn(ts, x, slack) == Some(ts[i])
      {
        assert !Passes(ts[0], x, slack) && ts[1..][i - 1] == ts[i];
      }
    }
  }

  /** The first triangle of a list that x is in. */
  method FirstPassing(ts: seq<Tri>, x: Vec) returns (r: Option<Tri>)
    ensures r == FirstIn(ts, x, CLEAR)
  {
    for i := 0 to |ts|
      invariant FirstIn(ts, x, CLEAR) == FirstIn(ts[i..], x, CLEAR)
    {
      var j := 0;
      while j < |ts[i].ee|
        invariant 0 <= j <= |ts[i].ee|
        invariant forall k | 0 <= k < j :: WithinEdge(ts[i].ee[k], x, CLEAR)
      {
        if Margin(ts[i].ee[j], x) > CLEAR {
          assert !WithinEdge(ts[i].ee[j], x, CLEAR);
          break;
        }
        j := j + 1;
      }
      assert ts[i..][1..] == ts[i + 1..];
      if j >= |ts[i].ee| {
        return Some(ts[i]);
      }
    }
    r := None;
  }

  /** Every split plane passes through the centre, and every vertex below it is on it or clear of it. */
  ghost predicate Clean(n: Tree)
    decreases n
  {
    n.Node? ==>
      && n.pe.d == 0.0
      && (forall t, v | t in Held(n) && v in t.sp ::
          Margin(n.pe, v) == 0.0 || Margin(n.pe, v) > CLEAR || Margin(n.pe, v) < -CLEAR)
      && Clean(n.po) && Clean(n.ne)
  }

  /** What the searches rely on: a triangle is below every side of the node that it reaches, and in the node's radius
      range. */
  ghost predicate Usable(n: Tree)
    decreases n
  {
    && (forall t | t in Held(n) :: Lo(n) <= t.rs0 && t.rs1 <= Hi(n))
    && (n.Node? ==>
      && (forall t | t in Held(n) :: (GoesPos(n.pe, t) ==> t in Held(n.po)) && (GoesNeg(n.pe, t) ==> t in Held(n.ne)))
      && Usable(n.po) && Usable(n.ne))
  }

  lemma {:induction false} TreeUsable(n: Tree, list: seq<Tri>)
    requires TreeOf(n, list)
    ensures Usable(n)
    decreases n
  {
    HeldList(n, list);
    if n.Node? {
      TreeUsable(n.po, Pos(n.pe, list));
      TreeUsable(n.ne, Neg(n.pe, list));
      HeldList(n.po, Pos(n.pe, list));
      HeldList(n.ne, Neg(n.pe, list));
      forall t | t in Held(n)
        ensures (GoesPos(n.pe, t) ==> t in Held(n.po)) && (GoesNeg(n.pe, t) ==> t in Held(n.ne))
      {
        SideMembers(n.pe, list, t);
      }
    }
  }

  /** On a clean plane, a point of the cone of t that is strictly on one side sends t to that side's list. */
  lemma ConeGoes(p: Plane, t: Tri, x: Vec)
    requires p.d == 0.0 && InCone(t, x)
    requires forall v | v in t.sp :: Margin(p, v) == 0.0 || Margin(p, v) > CLEAR || Margin(p, v) < -CLEAR
    ensures Margin(p, x) > 0.0 ==> GoesPos(p, t)
    ensures Margin(p, x) < 0.0 ==> GoesNeg(p, t)
  {
    ConeSide(p, t, x);
  }

  /** What the search returns: at a node the positive side first, and each side only if the point may be on it. */
  function Search(np: Tree, x: Vec): Option<Tri>
    decreases np
  {
    match np
    case Leaf(t) => FirstIn([t], x, CLEAR)
    case Leaves(ts, _, _) => FirstIn(ts, x, CLEAR)
    case Node(pe, _, _, po, ne) =>
      var rv := if Margin(pe, x) > -SLACK then Search(po, x) else None;
      if rv.None? && Margin(pe, x) < SLACK then Search(ne, x) else rv
  }

  /** Find the triangle that the direction nin lies in. */
  method RadialPointTriang(np: Tree, nin: Vec) returns (rv: Option<Tri>)
    ensures rv == Search(np, nin)
    decreases np
  {
    match np
    case Leaf(t) =>
      rv := FirstPassing([t], nin);
    case Leaves(ts, _, _) =>
      rv := FirstPassing(ts, nin);
    case Node(pe, _, _, po, ne) =>
      var ds := Margin(pe, nin);
      if ds > -SLACK {
        rv := RadialPointTriang(po, nin);
        if rv.Some? {
          return;
        }
      }
      if ds < SLACK {
        rv := RadialPointTriang(ne, nin);
        if rv.Some? {
          return;
        }
      }
      rv := None;
  }

  // ---- what the search finds, exactly

  /** The way to t is open for x: at every node, some side that the search for x looks at is one that t went to. */
  ghost predicate Open(n: Tree, t: Tri, x: Vec)
    decreases n
  {
    n.Node? ==>
      || (Margin(n.pe, x) > -0.000000000001 && GoesPos(n.pe, t) && Open(n.po, t, x))
      || (Margin(n.pe, x) < 0.000000000001 && GoesNeg(n.pe, t) && Open(n.ne, t, x))
  }

  /** A triangle that the search returns passes the edge test, and the way to it is open. */
  lemma {:induction false} SearchSound(np: Tree, list: seq<Tri>, x: Vec)
    requires TreeOf(np, list)
    ensures var r := Search(np, x); r.Some? ==> r.value in list && Passes(r.value, x, CLEAR) && Open(np, r.value, x)
    decreases np
  {
    match np
    case Leaf(t) => FirstInSound([t], x, CLEAR);
    case Leaves(ts, _, _) => FirstInSound(ts, x, CLEAR);
    case Node(pe, _, _, po, ne) =>
      SearchSound(po, Pos(pe, list), x);
      SearchSound(ne, Neg(pe, list), x);
      if Search(np, x).Some? {
        SideMembers(pe, list, Search(np, x).value);
      }
  }

  /** A triangle that passes the edge test, and to which the way is open, makes the search succeed. */
  lemma {:induction false} SearchFinds(np: Tree, list: seq<Tri>, x: Vec, t: Tri)
    requires TreeOf(np, list) && t in list && Passes(t, x, CLEAR) && Open(np, t, x)
    ensures Search(np, x).Some?
    decreases np
  {
    match np
    case Leaf(_) => FirstInSound([t], x, CLEAR);
    case Leaves(ts, _, _) => FirstInSound(ts, x, CLEAR);
    case Node(pe, _, _, po, ne) =>
      SideMembers(pe, list, t);
      if Margin(pe, x) > -SLACK && GoesPos(pe, t) && Open(po, t, x) {
        SearchFinds(po, Pos(pe, list), x, t);
      } else {
        SearchFinds(ne, Neg(pe, list), x, t);
      }
  }

  /** The search on the tree of a list succeeds exactly when some triangle of the list passes the edge test with an open
      way to it. */
  lemma FoundExactly(np: Tree, list: seq<Tri>, x: Vec)
    requires TreeOf(np, list)
    ensures Search(np, x).Some? <==> exists t :: t in list && Passes(t, x, 0.0000000001) && Open(np, t, x)
    ensures Search(np, x).Some? ==>
      Search(np, x).value in list && Passes(Search(np, x).value, x, 0.0000000001) && Open(np, Search(np, x).value, x)
    ensures np.Node? && Margin(np.pe, x) > -0.000000000001 && Search(np.po, x).Some? ==>
      Search(np, x) == Search(np.po, x)
  {
    SearchSound(np, list, x);
    if t :| t in list && Passes(t, x, CLEAR) && Open(np, t, x) {
      SearchFinds(np, list, x, t);
    }
  }

  /** The split planes on the ways to t pass through the centre, and every vertex of t is on them or clear of them. */
  ghost predicate Sharp(n: Tree, t: Tri)
    decreases n
  {
    n.Node? ==>
      && n.pe.d == 0.0
      && (forall v | v in t.sp :: Margin(n.pe, v) == 0.0 || Margin(n.pe, v) > CLEAR || Margin(n.pe, v) < -CLEAR)
      && (GoesPos(n.pe, t) ==> Sharp(n.po, t)) && (GoesNeg(n.pe, t) ==> Sharp(n.ne, t))
  }

  /** If the split planes are sharp for t, the way to t is open for every point of its cone. */
  lemma {:induction false} SharpOpen(n: Tree, t: Tri, x: Vec)
    requires Sharp(n, t) && InCone(t, x)
    ensures Open(n, t, x)
    decreases n
  {
    if n.Node? {
      ConeGoes(n.pe, t, x);
      if Margin(n.pe, x) > 0.0 || (Margin(n.pe, x) == 0.0 && GoesPos(n.pe, t)) {
        SharpOpen(n.po, t, x);
      } else {
        SharpOpen(n.ne, t, x);
      }
    }
  }

  /** In a clean tree the split planes are sharp for every triangle. */
  lemma {:induction false} CleanSharp(n: Tree, t: Tri)
    requires Usable(n) && Clean(n) && t in Held(n)
    ensures Sharp(n, t)
    decreases n
  {
    if n.Node? {
      if GoesPos(n.pe, t) {
        CleanSharp(n.po, t);
      }
      if GoesNeg(n.pe, t) {
        CleanSharp(n.ne, t);
      }
    }
  }

  /** The search against scans over the whole list: it finds nothing that a scan with the same slack does not find, and
      if the split planes are sharp for the triangles, it finds one whenever the scan without slack does. */
  lemma BetweenScans(np: Tree, list: seq<Tri>, x: Vec)
    requires TreeOf(np, list)
    ensures Search(np, x).Some? ==> FirstIn(list, x, CLEAR).Some?
    ensures (forall t | t in list :: Wedge(t) && Sharp(np, t)) && FirstIn(list, x, 0.0).Some? ==> Search(np, x).Some?
    ensures (forall t | t in list :: Wedge(t)) && Clean(np) && FirstIn(list, x, 0.0).Some? ==> Search(np, x).Some?
  {
    SearchSound(np, list, x);
    FirstInSound(list, x, CLEAR);
    FirstInSound(list, x, 0.0);
    TreeUsable(np, list);
    HeldList(np, list);
    if (forall t | t in list :: Wedge(t) && (Clean(np) || Sharp(np, t))) && FirstIn(list, x, 0.0).Some? {
      var t := FirstIn(list, x, 0.0).value;
      if Clean(np) {
        CleanSharp(np, t);
      }
      PassesExactly(t, x);
      SharpOpen(np, t, x);
      PassesMore(t, x);
      SearchFinds(np, list, x, t);
    }
  }

  // ---- a sliver of a triangle that the search misses

  /** The planes of the edges, edge i joining vertices i and i + 1, from those opposite each vertex. */
  function Joining(ee: seq<Plane>): seq<Plane>
    requires |ee| == 3
  {
    [ee[2], ee[0], ee[1]]
  }

  /** The triangle with corners on the y axis, the z axis and the negative x axis, and its edge planes. */
  const SP_U: seq<Vec> := [(0.0, 1.0, 0.0), (0.0, 0.0, 1.0), (-1.0, 0.0, 0.0)]
  const EE_U: seq<Plane> := [Plane(0.0, -1.0, 0.0, 0.0), Plane(0.0, 0.0, -1.0, 0.0), SIDE]

  /** A triangle with corners on the positive x axis and the z axis, and one at distance k below the plane x = 0. */
  function SpT(k: real, w: real): seq<Vec> {
    [(-k, -w, 0.0), (0.0, 0.0, 1.0), (1.0, 0.0, 0.0)]
  }

  function EeT(k: real, w: real): seq<Plane> {
    [Plane(0.0, 1.0, 0.0, 0.0), Plane(0.0, 0.0, -1.0, 0.0), Plane(-w, k, 0.0, 0.0)]
  }

  ghost predicate Sliver(u: Tri, t: Tri, k: real, w: real) {
    && u.sp == SP_U && u.ee == EE_U && u.re == Joining(EE_U) && t.sp == SpT(k, w) && t.ee == EeT(k, w)
    && t.re == Joining(EeT(k, w))
    && SLACK <= k <= CLEAR && w >= 0.5 && k * k + w * w == 1.0
  }

  lemma WedgeU(u: Tri)
    requires u.sp == SP_U && u.ee == EE_U && u.re == Joining(EE_U)
    ensures Wedge(u)
  {
    EdgeIs(SP_U[1], SP_U[2], 1.0, EE_U[0]);
    EdgeIs(SP_U[2], SP_U[0], 1.0, EE_U[1]);
    EdgeIs(SP_U[0], SP_U[1], 1.0, EE_U[2]);
  }

  lemma WedgeT(t: Tri, k: real, w: real)
    requires t.sp == SpT(k, w) && t.ee == EeT(k, w) && t.re == Joining(EeT(k, w)) && w > 0.0
    ensures Wedge(t)
  {
    EdgeIs(SpT(k, w)[1], SpT(k, w)[2], 1.0, EeT(k, w)[0]);
    EdgeIs(SpT(k, w)[2], SpT(k, w)[0], w, EeT(k, w)[1]);
    EdgeIs(SpT(k, w)[0], SpT(k, w)[1], 1.0, EeT(k, w)[2]);
  }

  lemma SideMargin(v: Vec)
    ensures Margin(SIDE, v) == v.0
  {
  }

  lemma SidesOfU(u: Tri)
    requires u.sp == SP_U
    ensures HasNeg(SIDE, u) && !HasPos(SIDE, u)
  {
    assert u.sp[2] in u.sp;
    SideMargin(u.sp[2]);
    forall v | v in u.sp
      ensures Margin(SIDE, v) <= 0.0
    {
      SideMargin(v);
    }
  }

  lemma SidesOfT(t: Tri, k: real, w: real)
    requires t.sp == SpT(k, w) && 0.0 <= k <= CLEAR
    ensures HasPos(SIDE, t) && !HasNeg(SIDE, t)
  {
    assert t.sp[2] in t.sp;
    SideMargin(t.sp[2]);
    forall v | v in t.sp
      ensures Margin(SIDE, v) >= -CLEAR
    {
      SideMargin(v);
    }
  }

  lemma PairCounts(p: Plane, a: Tri, b: Tri)
    ensures Pc(p, [a, b]) == One(HasPos(p, a)) + One(HasPos(p, b))
    ensures Nc(p, [a, b]) == One(HasNeg(p, a)) + One(HasNeg(p, b))
    ensures Bc(p, [a, b]) == One(HasPos(p, a) == HasNeg(p, a)) + One(HasPos(p, b) == HasNeg(p, b))
  {
    var l, m := [a, b], [a];
    assert l[..|l| - 1] == m && m[..|m| - 1] == [];
    assert Pc(p, m) == One(HasPos(p, a)) && Nc(p, m) == One(HasNeg(p, a))
      && Bc(p, m) == One(HasPos(p, a) == HasNeg(p, a));
  }

  lemma PairLists(p: Plane, a: Tri, b: Tri)
    requires GoesNeg(p, a) && !GoesPos(p, a) && GoesPos(p, b) && !GoesNeg(p, b)
    ensures Pos(p, [a, b]) == [b] && Neg(p, [a, b]) == [a]
  {
    var l, m := [a, b], [a];
    assert l[..|l| - 1] == m && m[..|m| - 1] == [];
    assert Pos(p, m[..|m| - 1]) == [] && Neg(p, m[..|m| - 1]) == [];
    assert Pos(p, m) == [] && Neg(p, m) == [a];
  }

  /** A plane that splits a list of two scores at most 1. */
  lemma PairScore(p: Plane, a: Tri, b: Tri)
    ensures Score(p, [a, b]) <= 1
    ensures HasPos(p, b) && !HasNeg(p, b) && HasNeg(p, a) && !HasPos(p, a) ==> Score(p, [a, b]) == 1
  {
    PairCounts(p, a, b);
  }

  /** The tree for the two triangles splits them by the plane x = 0: it is tried first, and no plane can score
      better. */
  lemma SliverTree(np: Tree, u: Tri, t: Tri)
    requires |u.re| == 3 && u.re[0] == SIDE && HasPos(SIDE, t) && !HasNeg(SIDE, t) && HasNeg(SIDE, u)
      && !HasPos(SIDE, u)
    requires TreeOf(np, [u, t])
    ensures np.Node? && np.pe == SIDE && TreeOf(np.po, [t]) && TreeOf(np.ne, [u])
  {
    var list := [u, t];
    PairScore(SIDE, u, t);
    forall q | Tried(list, |list|, 0, q)
      ensures Score(q, list) <= 1
    {
      PairScore(q, u, t);
    }
    FirstPlane(np, list, SIDE);
    PairLists(SIDE, u, t);
  }

  /** The tree of a single triangle is a leaf. */
  lemma OneLeaf(n: Tree, t: Tri, x: Vec)
    requires TreeOf(n, [t])
    ensures Search(n, x) == FirstIn([t], x, CLEAR)
  {
    if n.Node? {
      GoodSplit(n.pe, [t]);
    }
  }

  /** The corner of the sliver is on the negative side of the plane and outside u. */
  lemma CornerMargins(u: Tri, t: Tri, k: real, w: real)
    requires Sliver(u, t, k, w)
    ensures Margin(SIDE, t.sp[0]) == -k && !Passes(u, t.sp[0], 0.0) && !Passes(u, t.sp[0], CLEAR)
      && Passes(t, t.sp[0], 0.0)
  {
    var v := t.sp[0];
    SideMargin(v);
    assert EE_U[0] in u.ee && Margin(EE_U[0], v) == w;
    assert !WithinEdge(EE_U[0], v, 0.0) && !WithinEdge(EE_U[0], v, CLEAR);
    WedgeT(t, k, w);
    assert v == Mix(t.sp[0], t.sp[1], t.sp[2], 1.0, 0.0, 0.0);
    WedgeFaces(t);
    ConePasses(t, v);
  }

  /** There are such slivers, with corners at distance 1 from the centre. */
  lemma SliverExists() returns (k: real, w: real)
    ensures SLACK <= k <= CLEAR && w >= 0.5 && k * k + w * w == 1.0
  {
    var m := 0.00000000001;
    var d := 1.0 + m * m;
    k, w := 2.0 * m / d, (1.0 - m * m) / d;
    UnitCircle(m, d);
  }

  lemma UnitCircle(m: real, d: real)
    requires d == 1.0 + m * m
    ensures (2.0 * m / d) * (2.0 * m / d) + ((1.0 - m * m) / d) * ((1.0 - m * m) / d) == 1.0
  {
    var a, b, c := 2.0 * m, 1.0 - m * m, m * m;
    assert c >= 0.0;
    assert a * a == 4.0 * c && b * b == 1.0 - 2.0 * c + c * c && d * d == 1.0 + 2.0 * c + c * c;
    var k, w := a / d, b / d;
    assert d * k == a && d * w == b;
    assert d * d * (k * k) == a * a && d * d * (w * w) == b * b;
    assert d * d * (k * k + w * w) == d * d;
  }

  /** The search misses the corner of the sliver: it looks only at the negative side, where the sliver did not go,
      while the scan without slack finds it. */
  lemma SliverMissed(np: Tree, u: Tri, t: Tri, k: real, w: real)
    requires Sliver(u, t, k, w) && TreeOf(np, [u, t])
    ensures Wedge(u) && Wedge(t)
    ensures Search(np, t.sp[0]) == None && FirstIn([u, t], t.sp[0], 0.0) == Some(t)
  {
    WedgeU(u);
    WedgeT(t, k, w);
    SidesOfU(u);
    SidesOfT(t, k, w);
    SliverTree(np, u, t);
    OneLeaf(np.po, t, t.sp[0]);
    OneLeaf(np.ne, u, t.sp[0]);
    CornerMargins(u, t, k, w);
  }

  /** Built and searched as the program does, the two triangles give no answer for the corner of the second. */
  method SliverRun(k: real, w: real, rs0: real, rs1: real) returns (rv: Option<Tri>)
    requires SLACK <= k <= CLEAR && w >= 0.5 && k * k + w * w == 1.0
    ensures rv == None
  {
    var u := Tri(SP_U, Joining(EE_U), EE_U, SIDE, rs0, rs1);
    var t := Tri(SpT(k, w), Joining(EeT(k, w)), EeT(k, w), SIDE, rs0, rs1);
    var r := LuSplit(0, [u, t]);
    assert r.Built?;
    SliverMissed(r.tree, u, t, k, w);
    rv := RadialPointTriang(r.tree, t.sp[0]);
  }
}
