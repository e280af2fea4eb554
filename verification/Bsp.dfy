/** The radial BSP tree: choosing split planes, and what the tree holds. */
module Bsp {
  import opened PlaneEq
  import opened PowersOfTen

  /** A triangle as the lookup code sees it: its vertices on the sphere round the centre, the planes through
      the centre and each edge (as the shared edge has it, and as the triangle has it), the plane it lies in,
      and the range of its squared distance to the centre. */
  datatype Tri = Tri(sp: seq<Vec>, re: seq<Plane>, ee: seq<Plane>, pe: Plane, rs0: real, rs1: real)

  ghost predicate Proper(t: Tri) {
    |t.sp| == |t.re| == |t.ee| == 3
  }

  ghost predicate AllProper(list: seq<Tri>) {
    forall t | t in list :: Proper(t)
  }

  datatype Tree =
    | Leaf(t: Tri)
    | Leaves(ts: seq<Tri>, lo: real, hi: real)
    | Node(pe: Plane, lo: real, hi: real, po: Tree, ne: Tree)

  datatype Result = Built(tree: Tree) | TooDeep

  const BSPDEPTH: nat := 100

  /** How far a vertex must be from a plane to be clearly on one side. */
  const CLEAR: real := 0.0000000001

  predicate HasPos(p: Plane, t: Tri) {
    exists v | v in t.sp :: Margin(p, v) > CLEAR
  }

  predicate HasNeg(p: Plane, t: Tri) {
    exists v | v in t.sp :: Margin(p, v) < -CLEAR
  }

  /** A triangle goes to the positive list unless it is clearly negative only; one that is on neither side goes to
      both. */
  predicate GoesPos(p: Plane, t: Tri) {
    HasPos(p, t) || !HasNeg(p, t)
  }

  predicate GoesNeg(p: Plane, t: Tri) {
    HasNeg(p, t) || !HasPos(p, t)
  }

  function Pos(p: Plane, list: seq<Tri>): seq<Tri> {
    if list == [] then [] else
      var r := Pos(p, list[..|list| - 1]);
      if GoesPos(p, list[|list| - 1]) then r + [list[|list| - 1]] else r
  }

  function Neg(p: Plane, list: seq<Tri>): seq<Tri> {
    if list == [] then [] else
      var r := Neg(p, list[..|list| - 1]);
      if GoesNeg(p, list[|list| - 1]) then r + [list[|list| - 1]] else r
  }

  function One(b: bool): nat {
    if b then 1 else 0
  }

  /** How many triangles reach clearly to the positive side, to the negative side, and to both or neither. */
  function Pc(p: Plane, list: seq<Tri>): nat {
    if list == [] then 0 else Pc(p, list[..|list| - 1]) + One(HasPos(p, list[|list| - 1]))
  }

  function Nc(p: Plane, list: seq<Tri>): nat {
    if list == [] then 0 else Nc(p, list[..|list| - 1]) + One(HasNeg(p, list[|list| - 1]))
  }

  function Bc(p: Plane, list: seq<Tri>): nat {
    if list == [] then 0 else
      Bc(p, list[..|list| - 1]) + One(HasPos(p, list[|list| - 1]) == HasNeg(p, list[|list| - 1]))
  }

  function Score(p: Plane, list: seq<Tri>): int {
    (if Pc(p, list) < Nc(p, list) then Pc(p, list) else Nc(p, list)) - Bc(p, list)
  }

  /** The triangles that lie on neither side are in both sub-lists without being counted for either. */
  function Neither(p: Plane, list: seq<Tri>): nat {
    if list == [] then 0 else
      Neither(p, list[..|list| - 1]) + One(!HasPos(p, list[|list| - 1]) && !HasNeg(p, list[|list| - 1]))
  }

  /** The sub-lists are as long as counted exactly when no triangle lies on neither side. */
  lemma {:induction false} ListSizes(p: Plane, list: seq<Tri>)
    ensures |Pos(p, list)| == Pc(p, list) + Neither(p, list)
    ensures |Neg(p, list)| == Nc(p, list) + Neither(p, list)
    ensures |Pos(p, list)| + |Neg(p, list)| == |list| + Bc(p, list) && Neither(p, list) <= Bc(p, list)
  {
    if list == [] {
    } else {
      ListSizes(p, list[..|list| - 1]);
    }
  }

  /** The sub-lists are given room for as many triangles as were counted on each side. Filling them stays within that
      room exactly when no triangle lies on neither side. */
  lemma RoomEnough(p: Plane, list: seq<Tri>)
    ensures |Pos(p, list)| <= Pc(p, list) && |Neg(p, list)| <= Nc(p, list) <==> Neither(p, list) == 0
    ensures |Pos(p, list)| <= Pc(p, list) <==> |Neg(p, list)| <= Nc(p, list)
  {
    ListSizes(p, list);
  }

  /** The places in the list of the triangles with a vertex clearly above the plane, of those with one clearly below
      it, and of those that go to both lists, because they have both or neither. */
  function Above(p: Plane, list: seq<Tri>): set<nat> {
    set i | 0 <= i < |list| && exists v | v in list[i].sp :: Margin(p, v) > 0.0000000001
  }

  function Below(p: Plane, list: seq<Tri>): set<nat> {
    set i | 0 <= i < |list| && exists v | v in list[i].sp :: Margin(p, v) < -0.0000000001
  }

  function Both(p: Plane, list: seq<Tri>): set<nat> {
    set i | 0 <= i < |list| && (i in Above(p, list) <==> i in Below(p, list))
  }

  lemma OneMore(s: set<nat>, r: set<nat>, n: nat, b: bool)
    requires n !in r && (n in s <==> b) && forall i | i != n :: i in s <==> i in r
    ensures |s| == |r| + One(b)
  {
    assert s == if b then r + {n} else r;
  }

  lemma AboveMore(p: Plane, r: seq<Tri>, t: Tri)
    ensures |Above(p, r + [t])| == |Above(p, r)| + One(HasPos(p, t))
    ensures forall i | i != |r| :: i in Above(p, r + [t]) <==> i in Above(p, r)
    ensures |r| in Above(p, r + [t]) <==> HasPos(p, t)
  {
    var list := r + [t];
    forall i | 0 <= i < |r|
      ensures i in Above(p, list) <==> i in Above(p, r)
    {
      assert list[i] == r[i];
    }
    assert list[|r|] == t;
    OneMore(Above(p, list), Above(p, r), |r|, HasPos(p, t));
  }

  lemma BelowMore(p: Plane, r: seq<Tri>, t: Tri)
    ensures |Below(p, r + [t])| == |Below(p, r)| + One(HasNeg(p, t))
    ensures forall i | i != |r| :: i in Below(p, r + [t]) <==> i in Below(p, r)
    ensures |r| in Below(p, r + [t]) <==> HasNeg(p, t)
  {
    var list := r + [t];
    forall i | 0 <= i < |r|
      ensures i in Below(p, list) <==> i in Below(p, r)
    {
      assert list[i] == r[i];
    }
    assert list[|r|] == t;
    OneMore(Below(p, list), Below(p, r), |r|, HasNeg(p, t));
  }

  lemma BothMore(p: Plane, r: seq<Tri>, t: Tri)
    ensures |Both(p, r + [t])| == |Both(p, r)| + One(HasPos(p, t) == HasNeg(p, t))
  {
    AboveMore(p, r, t);
    BelowMore(p, r, t);
    OneMore(Both(p, r + [t]), Both(p, r), |r|, HasPos(p, t) == HasNeg(p, t));
  }

  lemma {:induction false} Counted(p: Plane, list: seq<Tri>)
    ensures |Above(p, list)| == Pc(p, list) && |Below(p, list)| == Nc(p, list) && |Both(p, list)| == Bc(p, list)
  {
    if list == [] {
    } else {
      var r, t := list[..|list| - 1], list[|list| - 1];
      assert list == r + [t];
      Counted(p, r);
      AboveMore(p, r, t);
      BelowMore(p, r, t);
      BothMore(p, r, t);
    }
  }

  /** A plane is scored by the smaller of the numbers of triangles that reach above and below it, less the number of
      those in both lists, which is by how much the lists are longer together than the list split. */
  lemma ScoreIs(p: Plane, list: seq<Tri>)
    ensures Score(p, list) ==
      (if |Above(p, list)| < |Below(p, list)| then |Above(p, list)| else |Below(p, list)|) - |Both(p, list)|
    ensures |Pos(p, list)| + |Neg(p, list)| == |list| + |Both(p, list)|
    ensures |Pos(p, list)| - |Above(p, list)| == |Neg(p, list)| - |Below(p, list)| == Neither(p, list)
  {
    Counted(p, list);
    ListSizes(p, list);
  }

  /** A plane with a positive score splits the list into two non-empty, strictly shorter lists. */
  lemma GoodSplit(p: Plane, list: seq<Tri>)
    requires Score(p, list) > 0
    ensures 0 < |Pos(p, list)| < |list| && 0 < |Neg(p, list)| < |list|
  {
    ListSizes(p, list);
  }

  lemma {:induction false} SideMembers(p: Plane, list: seq<Tri>, t: Tri)
    ensures t in Pos(p, list) <==> t in list && GoesPos(p, t)
    ensures t in Neg(p, list) <==> t in list && GoesNeg(p, t)
    ensures GoesPos(p, t) <==> (exists v | v in t.sp :: Margin(p, v) > 0.0000000001) ||
                               forall v | v in t.sp :: Margin(p, v) >= -0.0000000001
    ensures GoesNeg(p, t) <==> (exists v | v in t.sp :: Margin(p, v) < -0.0000000001) ||
                               forall v | v in t.sp :: Margin(p, v) <= 0.0000000001
  {
    if list == [] {
    } else {
      var r := list[..|list| - 1];
      assert list == r + [list[|list| - 1]];
      SideMembers(p, r, t);
    }
  }

  /** p is the plane of an edge of one of the first n triangles, or of one of the first j edges of the next. */
  ghost predicate Tried(list: seq<Tri>, n: nat, j: nat, p: Plane) {
    exists i, k :: 0 <= i < |list| && 0 <= k < |list[i].re| && (i < n || (i == n && k < j)) && list[i].re[k] == p
  }

  /** Among the edge planes in the order they are tried, p is the first of best score. */
  ghost predicate FirstBest(list: seq<Tri>, p: Plane) {
    && (forall q | Tried(list, |list|, 0, q) :: Score(q, list) <= Score(p, list))
    && exists i, k | 0 <= i < |list| && 0 <= k < |list[i].re| :: list[i].re[k] == p && Later(list, i, k, p)
  }

  ghost predicate Later(list: seq<Tri>, i: nat, k: nat, p: Plane) {
    forall q | Tried(list, i, k, q) :: Score(q, list) < Score(p, list)
  }

  // ---- what lu_split builds

  function Lo(n: Tree): real {
    match n
    case Leaf(t) => t.rs0
    case Leaves(_, lo, _) => lo
    case Node(_, lo, _, _, _) => lo
  }

  function Hi(n: Tree): real {
    match n
    case Leaf(t) => t.rs1
    case Leaves(_, _, hi) => hi
    case Node(_, _, hi, _, _) => hi
  }

  ghost predicate Encloses(list: seq<Tri>, lo: real, hi: real) {
    forall t | t in list :: lo <= t.rs0 && t.rs1 <= hi
  }

  /** The range reaches no further than the triangles do, but for the bounds the scan starts with. */
  ghost predicate Tight(list: seq<Tri>, lo: real, hi: real) {
    && (lo == Ten(120) || exists t | t in list :: t.rs0 == lo) && (hi == -1.0 || exists t | t in list :: t.rs1 == hi)
    && lo <= Ten(120) && hi >= -1.0
  }

  /** How many nested calls lu_split makes for tree n. */
  function Height(n: Tree): nat {
    match n
    case Leaf(_) => 0
    case Leaves(_, _, _) => 1
    case Node(_, _, _, po, ne) => 1 + if Height(po) > Height(ne) then Height(po) else Height(ne)
  }

  /** n is the tree for a list: every split is by the first edge plane of best score, which is positive, the sub-trees
      hold exactly the triangles on each side, leaf lists could not be split, and every radius range is that of what is
      below it. */
  ghost predicate TreeOf(n: Tree, list: seq<Tri>)
    decreases n
  {
    && Encloses(list, Lo(n), Hi(n)) && (n.Leaf? || Tight(list, Lo(n), Hi(n)))
    && match n
       case Leaf(t) => list == [t]
       case Leaves(ts, _, _) => ts == list && forall p | Tried(list, |list|, 0, p) :: Score(p, list) <= 0
       case Node(pe, _, _, po, ne) =>
         && Score(pe, list) > 0 && FirstBest(list, pe)
         && TreeOf(po, Pos(pe, list)) && TreeOf(ne, Neg(pe, list))
  }

  /** When no edge plane scores better than the first, which scores, the tree splits by that one. */
  lemma FirstPlane(n: Tree, list: seq<Tri>, p: Plane)
    requires TreeOf(n, list) && |list| > 1 && |list[0].re| > 0 && list[0].re[0] == p && Score(p, list) > 0
    requires forall q | Tried(list, |list|, 0, q) :: Score(q, list) <= Score(p, list)
    ensures n.Node? && n.pe == p
  {
    assert Tried(list, |list|, 0, p);
    assert n.Node?;
    var i, k :| 0 <= i < |list| && 0 <= k < |list[i].re| && list[i].re[k] == n.pe && Later(list, i, k, n.pe);
    if i > 0 || k > 0 {
      assert Tried(list, i, k, p);
    }
  }

  lemma FirstUnique(list: seq<Tri>, p: Plane, q: Plane)
    requires FirstBest(list, p) && FirstBest(list, q)
    ensures p == q
  {
    var i, k :| 0 <= i < |list| && 0 <= k < |list[i].re| && list[i].re[k] == p && Later(list, i, k, p);
    var i', k' :| 0 <= i' < |list| && 0 <= k' < |list[i'].re| && list[i'].re[k'] == q && Later(list, i', k', q);
    assert Tried(list, |list|, 0, p) && Tried(list, |list|, 0, q);
    assert Score(p, list) == Score(q, list);
    assert !Tried(list, i', k', p) && !Tried(list, i, k, q);
  }

  /** The tree for a list is too high to be built at depth rdepth. */
  ghost predicate TooHigh(list: seq<Tri>, rdepth: nat) {
    forall n | TreeOf(n, list) && !n.Leaf? :: rdepth + Height(n) >= 100
  }

  lemma SideTooHigh(list: seq<Tri>, p: Plane, rdepth: nat)
    requires FirstBest(list, p) && Score(p, list) > 0
    requires
      || (|Pos(p, list)| > 1 && TooHigh(Pos(p, list), rdepth + 1))
      || (|Neg(p, list)| > 1 && TooHigh(Neg(p, list), rdepth + 1))
    ensures TooHigh(list, rdepth)
  {
    GoodSplit(p, list);
    forall n | TreeOf(n, list) && !n.Leaf?
      ensures rdepth + Height(n) >= 100
    {
      var i, k :| 0 <= i < |list| && 0 <= k < |list[i].re| && list[i].re[k] == p;
      assert Tried(list, |list|, 0, p);
      assert n.Node?;
      FirstUnique(list, p, n.pe);
      assert TreeOf(n.po, Pos(p, list)) && TreeOf(n.ne, Neg(p, list));
    }
  }

  /** Count a trial split; the sort values say which lists each triangle goes to. */
  method Trial(p: Plane, list: seq<Tri>) returns (pc: nat, nc: nat, bc: nat, sort: seq<nat>)
    requires AllProper(list)
    ensures pc == Pc(p, list) && nc == Nc(p, list) && bc == Bc(p, list)
    ensures Sorted(p, list, sort)
  {
    pc, nc, bc, sort := 0, 0, 0, [];
    for i := 0 to |list|
      invariant pc == Pc(p, list[..i]) && nc == Nc(p, list[..i]) && bc == Bc(p, list[..i])
      invariant Sorted(p, list[..i], sort)
    {
      var po, ne := CountSides(p, list[i]);
      assert list[..i + 1][..i] == list[..i];
      if po > 0 {
        pc := pc + 1;
        if ne > 0 {
          nc := nc + 1;
          bc := bc + 1;
          sort := sort + [3];
        } else {
          sort := sort + [1];
        }
      } else if ne > 0 {
        nc := nc + 1;
        sort := sort + [2];
      } else {
        bc := bc + 1;
        sort := sort + [3];
      }
    }
    assert list[..|list|] == list;
  }

  /** The vertices of t clearly on each side of p. */
  method CountSides(p: Plane, t: Tri) returns (po: nat, ne: nat)
    requires Proper(t)
    ensures po > 0 <==> HasPos(p, t)
    ensures ne > 0 <==> HasNeg(p, t)
  {
    po, ne := 0, 0;
    for j := 0 to 3
      invariant po > 0 <==> exists k | 0 <= k < j :: Margin(p, t.sp[k]) > CLEAR
      invariant ne > 0 <==> exists k | 0 <= k < j :: Margin(p, t.sp[k]) < -CLEAR
    {
      var ds := Margin(p, t.sp[j]);
      if ds > CLEAR {
        po := po + 1;
      } else if ds < -CLEAR {
        ne := ne + 1;
      }
    }
  }

  /** Sort value 1 is positive, 2 negative, 3 both lists. */
  ghost predicate Sorted(p: Plane, list: seq<Tri>, sort: seq<nat>) {
    |sort| == |list| && forall i | 0 <= i < |list| ::
      sort[i] == if GoesPos(p, list[i]) && GoesNeg(p, list[i]) then 3 else if GoesPos(p, list[i]) then 1 else 2
  }

  /** The edge plane of best positive score, and its sort values. */
  method BestPlane(list: seq<Tri>) returns (found: bool, peqs: Plane, bsort: seq<nat>)
    requires AllProper(list)
    ensures found ==> Score(peqs, list) > 0 && FirstBest(list, peqs) && Sorted(peqs, list, bsort)
    ensures !found ==> forall p | Tried(list, |list|, 0, p) :: Score(p, list) <= 0
  {
    var mcount: int, bcount: int := 0, -1;
    peqs, bsort := Plane(0.0, 0.0, 0.0, 0.0), [];
    var ii, jj := 0, 0;
    ghost var bi: nat, bj: nat := 0, 0;
    while ii < |list|
      invariant 0 <= ii <= |list| && 0 <= jj <= 2 && (ii == |list| ==> jj == 0) && 0 <= mcount
      invariant forall p | Tried(list, ii, jj, p) :: Score(p, list) <= mcount
      invariant bcount < 0 ==> mcount == 0
      invariant bcount >= 0 ==>
        bi < |list| && bj < |list[bi].re| && list[bi].re[bj] == peqs && Later(list, bi, bj, peqs)
      invariant bcount >= 0 ==> Score(peqs, list) == mcount > 0 && Sorted(peqs, list, bsort)
      decreases 3 * (|list| - ii) - jj
    {
      ghost var i0, j0 := ii, jj;
      assert list[ii] in list && Proper(list[ii]);
      var eqs := list[ii].re[jj];
      jj := jj + 1;
      if jj > 2 {
        jj := 0;
        ii := ii + 1;
      }
      NextTried(list, i0, j0, ii, jj);
      var pc, nc, bc, sort := Trial(eqs, list);
      var mc: int := (if pc < nc then pc else nc) as int - bc;
      if mc > mcount {
        mcount, bcount, peqs, bsort := mc, bc, eqs, sort;
        bi, bj := i0, j0;
      }
    }
    found := bcount >= 0;
  }

  lemma NextTried(list: seq<Tri>, i0: nat, j0: nat, ii: nat, jj: nat)
    requires AllProper(list) && i0 < |list| && j0 <= 2
    requires if j0 == 2 then ii == i0 + 1 && jj == 0 else ii == i0 && jj == j0 + 1
    ensures Proper(list[i0]) && forall p :: Tried(list, ii, jj, p) <==> Tried(list, i0, j0, p) || p == list[i0].re[j0]
  {
    assert list[i0] in list && Proper(list[i0]);
    forall p
      ensures Tried(list, ii, jj, p) <==> Tried(list, i0, j0, p) || p == list[i0].re[j0]
    {
      if Tried(list, i0, j0, p) {
        var i, k :| 0 <= i < |list| && 0 <= k < |list[i].re| && (i < i0 || (i == i0 && k < j0)) && list[i].re[k] == p;
        assert i < ii || (i == ii && k < jj);
      }
    }
  }

  /** The triangles for the positive and the negative side, in order. */
  method Divide(p: Plane, list: seq<Tri>, bsort: seq<nat>) returns (plist: seq<Tri>, nlist: seq<Tri>)
    requires Sorted(p, list, bsort)
    ensures plist == Pos(p, list) && nlist == Neg(p, list)
  {
    plist, nlist := [], [];
    for i := 0 to |list|
      invariant plist == Pos(p, list[..i]) && nlist == Neg(p, list[..i])
    {
      assert list[..i + 1][..i] == list[..i];
      if bsort[i] == 1 || bsort[i] == 3 {
        plist := plist + [list[i]];
      }
      if bsort[i] == 2 || bsort[i] == 3 {
        nlist := nlist + [list[i]];
      }
    }
    assert list[..|list|] == list;
  }

  /** The least and largest squared distance to the centre over a list. */
  method RadiusRange(list: seq<Tri>) returns (rs0: real, rs1: real)
    ensures Encloses(list, rs0, rs1) && Tight(list, rs0, rs1)
  {
    rs0, rs1 := Ten(120), -1.0;
    for i := 0 to |list|
      invariant Encloses(list[..i], rs0, rs1) && Tight(list, rs0, rs1)
    {
      if list[i].rs0 < rs0 {
        rs0 := list[i].rs0;
      }
      if list[i].rs1 > rs1 {
        rs1 := list[i].rs1;
      }
      assert list[..i + 1] == list[..i] + [list[i]];
    }
    assert list[..|list|] == list;
  }

  /** Choose a split plane and build the tree below it, or make a leaf list. */
  method LuSplit(rdepth: nat, list: seq<Tri>) returns (r: Result)
    requires AllProper(list) && list != []
    ensures r.Built? ==> TreeOf(r.tree, list) && !r.tree.Leaf? && rdepth + Height(r.tree) < 100
    ensures r.TooDeep? ==> rdepth + |list| >= 100 && TooHigh(list, rdepth)
    decreases |list|, 0
  {
    if rdepth + 1 >= BSPDEPTH {
      return TooDeep;
    }
    var rs0, rs1 := RadiusRange(list);
    var found, peqs, bsort := BestPlane(list);
    if !found {
      return Built(Leaves(list, rs0, rs1));
    }
    var plist, nlist := Divide(peqs, list, bsort);
    GoodSplit(peqs, list);
    SidesProper(peqs, list);
    var po := SubTree(rdepth, plist);
    if po.TooDeep? {
      SideTooHigh(list, peqs, rdepth);
      return TooDeep;
    }
    var ne := SubTree(rdepth, nlist);
    if ne.TooDeep? {
      SideTooHigh(list, peqs, rdepth);
      return TooDeep;
    }
    r := Built(Node(peqs, rs0, rs1, po.tree, ne.tree));
  }

  /** A leaf for one triangle, else a further split. */
  method SubTree(rdepth: nat, list: seq<Tri>) returns (r: Result)
    requires AllProper(list) && list != []
    requires rdepth + 1 < 100
    ensures r.Built? ==> TreeOf(r.tree, list) && rdepth + 1 + Height(r.tree) < 100
    ensures r.TooDeep? ==> rdepth + 1 + |list| >= 100 && |list| > 1 && TooHigh(list, rdepth + 1)
    decreases |list|, 1
  {
    if |list| == 1 {
      assert list == [list[0]];
      r := Built(Leaf(list[0]));
    } else {
      r := LuSplit(rdepth + 1, list);
    }
  }

  lemma SidesProper(p: Plane, list: seq<Tri>)
    requires AllProper(list)
    ensures AllProper(Pos(p, list)) && AllProper(Neg(p, list))
  {
    forall t
      ensures t in Pos(p, list) || t in Neg(p, list) ==> t in list
    {
      SideMembers(p, list, t);
    }
  }
}
