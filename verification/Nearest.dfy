/** The touch-counted nearest-triangle search, against a scan over all triangles. */
module Nearest {
  import opened PlaneEq
  import opened Boxes
  import opened Lists
  import opened AxisWindow
  import Sort

  const WRAP: nat := 0x1_0000_0000

  /** The axis of a window edge, and whether it is the low side of its axis. */
  function AxisOf(e: nat): (f: nat)
    requires e < 6
    ensures f < 3
  {
    if e < 2 then 0 else if e < 4 then 1 else 2
  }

  function IsLow(e: nat): bool {
    e == 0 || e == 2 || e == 4
  }

  datatype Side = Side(wex: nat, wed: real)

  /** The entries of a window edge that are still to come. */
  ghost function Coming(s: seq<Box>, low: bool, wex: nat): set<Box>
    requires wex < |s|
  {
    if low then Elems(s[..wex + 1]) else Elems(s[wex..])
  }

  /** A window edge stands at wex with the entries left to come, or is exhausted; if sure, wed bounds them all. */
  ghost predicate Standing(s: seq<Box>, f: nat, low: bool, q: Vec, d: Side, left: set<Box>, sure: bool)
    requires f < 3
  {
    && d.wex < |s|
    && (left == {} ==> d.wed == GNN_INF || d.wed > WORST)
    && (left != {} ==> left == Coming(s, low, d.wex))
    && (left != {} && sure ==> d.wed == SignedSq(Gap(s[d.wex], f, low, At(q, f))))
  }

  lemma ComingHas(s: seq<Box>, low: bool, wex: nat)
    requires wex < |s| && NoDup(s)
    ensures s[wex] in Coming(s, low, wex) && Coming(s, low, wex) <= Elems(s)
  {
    if low {
      assert s[..wex + 1][wex] == s[wex];
    } else {
      assert s[wex..][0] == s[wex];
    }
    forall o | o in Coming(s, low, wex)
      ensures o in s
    {
      if low {
        var k :| 0 <= k < wex + 1 && s[..wex + 1][k] == o;
        assert s[k] == o;
      } else {
        var k :| 0 <= k < |s| - wex && s[wex..][k] == o;
        assert s[wex + k] == o;
      }
    }
  }

  /** The entry that the edge stands at is the nearest of those to come. */
  lemma ComingBound(s: seq<Box>, f: nat, low: bool, q: Vec, wex: nat, o: Box)
    requires f < 3 && wex < |s| && Ordered(s, f, low) && o in Coming(s, low, wex)
    ensures Gap(s[wex], f, low, At(q, f)) <= Gap(o, f, low, At(q, f))
  {
    if low {
      var k :| 0 <= k < wex + 1 && s[..wex + 1][k] == o;
      assert Key(s[k], f, true) <= Key(s[wex], f, true);
    } else {
      var k :| 0 <= k < |s| - wex && s[wex..][k] == o;
      assert Key(s[wex], f, false) <= Key(s[wex + k], f, false);
    }
  }

  lemma ComingNext(s: seq<Box>, low: bool, wex: nat)
    requires wex < |s| && NoDup(s)
    ensures low && wex > 0 ==> Coming(s, low, wex - 1) == Coming(s, low, wex) - {s[wex]}
    ensures low && wex == 0 ==> Coming(s, low, wex) - {s[wex]} == {}
    ensures !low && wex + 1 < |s| ==> Coming(s, low, wex + 1) == Coming(s, low, wex) - {s[wex]}
    ensures !low && wex + 1 == |s| ==> Coming(s, low, wex) - {s[wex]} == {}
  {
    if low {
      PrefixElems(s, wex);
    } else {
      SuffixElems(s, wex);
    }
  }

  lemma SuffixElems<A>(s: seq<A>, n: nat)
    requires n < |s| && NoDup(s)
    ensures Elems(s[n..]) == Elems(s[n + 1..]) + {s[n]} && s[n] !in Elems(s[n + 1..])
  {
    assert s[n..] == [s[n]] + s[n + 1..];
  }

  /** Move a window edge past the entry it stands at. */
  method Advance(s: seq<Box>, f: nat, low: bool, q: Vec, d: Side, ghost left: set<Box>, ghost sure: bool)
    returns (d': Side)
    requires f < 3 && NoDup(s) && Standing(s, f, low, q, d, left, sure) && left != {}
    ensures Standing(s, f, low, q, d', left - {s[d.wex]}, sure)
  {
    ComingNext(s, low, d.wex);
    ComingHas(s, low, d.wex);
    if !low {
      if d.wex + 1 >= |s| {
        d' := Side(d.wex, GNN_INF);
      } else {
        ComingHas(s, low, d.wex + 1);
        d' := Side(d.wex + 1, SignedSq(Gap(s[d.wex + 1], f, false, At(q, f))));
      }
    } else {
      if d.wex == 0 {
        d' := Side(d.wex, GNN_INF);
      } else {
        ComingHas(s, low, d.wex - 1);
        d' := Side(d.wex - 1, SignedSq(Gap(s[d.wex - 1], f, true, At(q, f))));
      }
    }
  }

  /** The edge with the smallest distance, the first of several. */
  method NextEdge(ds: seq<Side>) returns (ee: nat)
    requires |ds| == 6
    ensures ee < 6 && forall e | 0 <= e < 6 :: ds[ee].wed <= ds[e].wed
  {
    ee := 0;
    var bw := ds[0].wed;
    for e := 1 to 6
      invariant ee < 6 && bw == ds[ee].wed && forall k | 0 <= k < e :: bw <= ds[k].wed
    {
      if ds[e].wed < bw {
        ee := e;
        bw := ds[e].wed;
      }
    }
  }

  // ---- what the search computes

  /** The nearest point on a triangle, as barycentric weights. */
  type Finder = ((Vec, Vec, Vec), Vec) -> Weights

  function Dist(near: Finder, o: Box, q: Vec): real {
    SqDist(PointOn(o.v, near(o.v, q)), q)
  }

  /** d is the least squared distance from q to the boxes S, or WORST if none is less than that. */
  ghost predicate Least(near: Finder, S: set<Box>, q: Vec, d: real) {
    && (forall o | o in S :: d <= Dist(near, o, q))
    && Met(near, S, q, d)
  }

  ghost predicate Met(near: Finder, S: set<Box>, q: Vec, d: real) {
    d == WORST || exists o :: o in S && Dist(near, o, q) == d && d < WORST
  }

  /** The scan over all triangles. */
  method NearestBf(near: Finder, tris: seq<Box>, q: Vec) returns (d: real, out: Vec)
    ensures Least(near, Elems(tris), q, d)
    ensures d < WORST ==> SqDist(out, q) == d
  {
    d, out := WORST, (0.0, 0.0, 0.0);
    for k := 0 to |tris|
      invariant forall j | 0 <= j < k :: d <= Dist(near, tris[j], q)
      invariant Met(near, Elems(tris), q, d) && (d < WORST ==> SqDist(out, q) == d)
    {
      var r := PointOn(tris[k].v, near(tris[k].v, q));
      var tdist := SqDist(r, q);
      if tdist < d {
        assert tris[k] in Elems(tris);
        d, out := tdist, r;
      }
    }
  }

  // ---- touch counts

  /** How often o has been touched in the current query. */
  ghost function Count(o: Box, tbase: nat): int
    reads o
  {
    if o.touch < tbase then 0 else o.touch - tbase
  }

  function Bit(b: bool): nat {
    if b then 1 else 0
  }

  ghost function In(left: seq<set<Box>>, e: nat, o: Box): nat
    requires |left| == 6 && e < 6
  {
    Bit(o in left[e])
  }

  /** How many window edges o is still to come from. */
  ghost function Holds(left: seq<set<Box>>, o: Box): nat
    requires |left| == 6
  {
    In(left, 0, o) + In(left, 1, o) + In(left, 2, o) + In(left, 3, o) + In(left, 4, o) + In(left, 5, o)
  }

  function AtMostThree(n: int): int {
    if n < 3 then n else 3
  }

  /** The boxes that the starting windows hold often enough to be tested. */
  ghost function Often(S: set<Box>, start: seq<set<Box>>): set<Box>
    requires |start| == 6
  {
    set o | o in S && Holds(start, o) >= 3
  }

  /** o is touched, up to three times, for every window edge that has passed it; touched three times, it has been
      tested. */
  ghost predicate Tested(near: Finder, o: Box, tbase: nat, q: Vec, d: real, start: seq<set<Box>>, left: seq<set<Box>>)
    requires |start| == |left| == 6
    reads o
  {
    && Count(o, tbase) == AtMostThree(Holds(start, o) - Holds(left, o))
    && (Count(o, tbase) == 3 ==> d <= Dist(near, o, q))
  }

  ghost predicate Touched(near: Finder, S: set<Box>, tbase: nat, q: Vec, d: real, start: seq<set<Box>>,
      left: seq<set<Box>>)
    requires |start| == |left| == 6
    reads S
  {
    forall o | o in S :: Tested(near, o, tbase, q, d, start, left)
  }

  /** Taking ob off the window edge ee leaves it one hold less, and every other box as many. */
  lemma PassOne(left: seq<set<Box>>, ee: nat, ob: Box, o: Box)
    requires |left| == 6 && ee < 6 && ob in left[ee]
    ensures Holds(left[ee := left[ee] - {ob}], o) == if o == ob then Holds(left, o) - 1 else Holds(left, o)
  {
    var left' := left[ee := left[ee] - {ob}];
    assert forall e: nat | e < 6 && e != ee :: In(left', e, o) == In(left, e, o);
  }

  ghost function Remaining(left: seq<set<Box>>): nat
    requires |left| == 6
  {
    |left[0]| + |left[1]| + |left[2]| + |left[3]| + |left[4]| + |left[5]|
  }

  lemma OneLess(left: seq<set<Box>>, ee: nat, ob: Box)
    requires |left| == 6 && ee < 6 && ob in left[ee]
    ensures Remaining(left[ee := left[ee] - {ob}]) < Remaining(left)
  {
    assert |left[ee] - {ob}| == |left[ee]| - 1;
  }

  lemma FittedBoxed(S: set<Box>)
    requires forall o | o in S :: o.Fitted()
    ensures Boxed(S)
  {
    forall o, f: nat | o in S && f < 3
      ensures Lo(o, f) <= Hi(o, f)
    {
      assert At(o.lo, f) == LowEdge(o.v, f) <= At(o.v.0, f) <= HighEdge(o.v, f);
    }
  }

  /** The boxes sorted by one of their edges. */
  method SortBy(tris: seq<Box>, f: nat, low: bool) returns (s: seq<Box>)
    requires f < 3 && NoDup(tris)
    ensures NoDup(s) && Elems(s) == Elems(tris) && |s| == |tris| && Ordered(s, f, low)
  {
    var a := new Box[|tris|](i requires 0 <= i < |tris| => tris[i]);
    var less := (x: Box, y: Box) => Key(x, f, low) < Key(y, f, low);
    assert a[..] == tris;
    Sort.HeapSort(a, less);
    s := a[..];
    PermutedNoDup(tris, s);
    forall i, j | 0 <= i <= j < |s|
      ensures Key(s[i], f, low) <= Key(s[j], f, low)
    {
      assert i < j ==> !less(s[j], s[i]);
    }
  }

  class Nn {
    const near: Finder
    const tris: seq<Box>
    var sax: seq<seq<Box>>
    var tbase: nat

    /** Set up the search structure: the six sorted lists, and nothing touched. */
    constructor (near: Finder, tris: seq<Box>)
      requires tris != [] && NoDup(tris) && forall o | o in Elems(tris) :: o.Fitted() && o.touch == 0
      ensures Valid() && this.near == near && this.tris == tris
    {
      var s0 := SortBy(tris, 0, true);
      var s1 := SortBy(tris, 0, false);
      var s2 := SortBy(tris, 1, true);
      var s3 := SortBy(tris, 1, false);
      var s4 := SortBy(tris, 2, true);
      var s5 := SortBy(tris, 2, false);
      this.near, this.tris := near, tris;
      sax := [s0, s1, s2, s3, s4, s5];
      tbase := 0;
      FittedBoxed(Elems(tris));
    }

    ghost predicate Lists()
      reads this
    {
      && |sax| == 6 && tris != [] && Boxed(Elems(tris))
      && forall e: nat | e < 6 ::
          NoDup(sax[e]) && Elems(sax[e]) == Elems(tris) && |sax[e]| == |tris| && Ordered(sax[e], AxisOf(e), IsLow(e))
    }

    /** No touch count is above the base count of the next query. */
    ghost predicate Valid()
      reads this, Elems(tris)
    {
      && Lists() && tbase < WRAP
      && forall o | o in Elems(tris) :: o.touch <= tbase
    }

    /** Record that the window reached ob on one more axis, and test it when it is within the window on all of them. */
    method Touch(ob: Box, q: Vec, d: real, out: Vec, best: Box?, ghost start: seq<set<Box>>, ghost left: seq<set<Box>>,
        ghost ee: nat)
      returns (d': real, out': Vec, best': Box?)
      requires ob in Elems(tris) && |start| == |left| == 6 && ee < 6 && ob in left[ee]
      requires Touched(near, Elems(tris), tbase, q, d, start, left)
      modifies ob`touch
      ensures Touched(near, Elems(tris), tbase, q, d', start, left[ee := left[ee] - {ob}])
      ensures d' <= d && (if d' == d then out' == out && best' == best
        else d' == Dist(near, ob, q) && d' == SqDist(out', q) && best' == ob)
      ensures d' < d ==> Holds(start, ob) >= 3
    {
      d', out', best' := d, out, best;
      assert Tested(near, ob, tbase, q, d, start, left);
      PassOne(left, ee, ob, ob);
      var ctv := ob.touch;
      if ctv < tbase + 3 {
        ctv := (if ctv < tbase then tbase else ctv) + 1;
        ob.touch := ctv;
        if ctv == tbase + 3 {
          var r := PointOn(ob.v, near(ob.v, q));
          var tdist := SqDist(r, q);
          if tdist < d {
            d', out', best' := tdist, r, ob;
          }
        }
      }
      forall o | o in Elems(tris)
        ensures Tested(near, o, tbase, q, d', start, left[ee := left[ee] - {ob}])
      {
        assert old(Tested(near, o, tbase, q, d, start, left));
        PassOne(left, ee, ob, o);
      }
    }

    /** The query point and the triangles are in the range that boxes are initialised for. */
    ghost predicate Ranged(q: Vec) {
      && Boxes.Near(q)
      && (forall o | o in Elems(tris) :: o.Fitted() && Boxes.Near(o.v.0) && Boxes.Near(o.v.1) && Boxes.Near(o.v.2))
    }

    /** A query that the search answers: the point is in range and fits on every axis. */
    ghost predicate Sure(q: Vec) {
      Ranged(q) && forall f: nat | f < 3 :: Fits(Elems(tris), f, At(q, f))
    }

    lemma RangedReach(q: Vec, f: nat)
      requires Ranged(q) && f < 3
      ensures Reachable(Elems(tris), f, At(q, f))
    {
      forall o | o in Elems(tris)
        ensures Hi(o, f) - At(q, f) < GNN_INF
      {
        EdgeOrder(o.v, f);
        InRange(Hi(o, f) - At(q, f));
      }
    }

    lemma GapShort(q: Vec, o: Box, f: nat, low: bool)
      requires Ranged(q) && o in Elems(tris) && f < 3
      ensures SignedSq(Gap(o, f, low, At(q, f))) <= Dist(near, o, q) && SignedSq(Gap(o, f, low, At(q, f))) < GNN_INF
    {
      EdgeOrder(o.v, f);
      GapBound(o.v, near(o.v, q), q, f);
      InRange(Gap(o, f, low, At(q, f)));
    }

    ghost predicate StandingAt(q: Vec, e: nat, d: Side, left: set<Box>, sure: bool)
      reads this
      requires |sax| == 6 && e < 6
    {
      Standing(sax[e], AxisOf(e), IsLow(e), q, d, left, sure) && left <= Elems(tris)
    }

    ghost predicate Windows(q: Vec, ds: seq<Side>, left: seq<set<Box>>, sure: bool)
      reads this
      requires |sax| == 6
    {
      |ds| == |left| == 6 && forall e: nat | e < 6 :: StandingAt(q, e, ds[e], left[e], sure)
    }

    /** What the starting windows of axis f hold: for a point that fits every box; in a corner the first box of the
        first list on the low side, and the boxes above on the high side. */
    ghost predicate Begun(S: set<Box>, f: nat, q: real, head: Box, l0: set<Box>, l1: set<Box>)
      requires f < 3
    {
      && l0 <= S && l1 <= S
      && (Fits(S, f, q) ==> S <= l0 + l1)
      && (Corner(S, f, q) ==> l0 == {head} && l1 == Highs(S, f, q))
    }

    /** The starting windows of one axis, as window edges. */
    method StartSides(q: Vec, f: nat, L: seq<Box>, U: seq<Box>, ghost S: set<Box>, ghost sure: bool)
      returns (d0: Side, d1: Side, ghost l0: set<Box>, ghost l1: set<Box>)
      requires Axis(L, U, f) && Elems(L) == S && (sure ==> Reachable(S, f, At(q, f)))
      ensures Standing(L, f, true, q, d0, l0, sure) && l0 <= S
      ensures Standing(U, f, false, q, d1, l1, sure) && l1 <= S
      ensures sure ==> Begun(S, f, At(q, f), L[0], l0, l1)
    {
      var w, i0, j0, j2, i2 := AxisStart(L, U, f, At(q, f));
      ComingHas(L, true, w.wl);
      ComingHas(U, false, w.wu);
      InfBig();
      d0, d1 := Side(w.wl, w.dl), Side(w.wu, w.du);
      ghost var dead := sure && w.dl != SignedSq(Gap(L[w.wl], f, true, At(q, f)));
      l0, l1 := if dead then {} else Coming(L, true, w.wl), Coming(U, false, w.wu);
      if Corner(S, f, At(q, f)) {
        CornerWindows(L, U, f, At(q, f), i0, j0, j2, i2);
      }
    }

    lemma ListsAxis(f: nat, e: nat)
      requires Lists() && e == f + f && f < 3
      ensures Axis(sax[e], sax[e + 1], f)
    {
      assert AxisOf(e) == AxisOf(e + 1) == f && IsLow(e) && !IsLow(e + 1);
      assert Ordered(sax[e], AxisOf(e), IsLow(e)) && Ordered(sax[e + 1], AxisOf(e + 1), IsLow(e + 1));
    }

    /** The two window edges of axis f at the start of a query. */
    ghost predicate Opened(q: Vec, f: nat, e: nat, d: (Side, Side), l: (set<Box>, set<Box>), sure: bool)
      reads this
      requires Lists() && e < 5 && f < 3
    {
      && StandingAt(q, e, d.0, l.0, sure) && StandingAt(q, e + 1, d.1, l.1, sure)
      && (sure ==> Begun(Elems(tris), f, At(q, f), sax[e][0], l.0, l.1))
    }

    method StartAxis(q: Vec, f: nat, e: nat, ghost sure: bool) returns (d: (Side, Side), ghost l: (set<Box>, set<Box>))
      requires Lists() && e == f + f && f < 3 && (sure ==> Reachable(Elems(tris), f, At(q, f)))
      ensures Opened(q, f, e, d, l, sure)
    {
      ListsAxis(f, e);
      var d0, d1, l0, l1 := StartSides(q, f, sax[e], sax[e + 1], Elems(tris), sure);
      d, l := (d0, d1), (l0, l1);
    }

    ghost predicate AllBegun(q: Vec, start: seq<set<Box>>)
      reads this
      requires Lists()
    {
      && |start| == 6
      && Begun(Elems(tris), 0, q.0, sax[0][0], start[0], start[1])
      && Begun(Elems(tris), 1, q.1, sax[2][0], start[2], start[3])
      && Begun(Elems(tris), 2, q.2, sax[4][0], start[4], start[5])
    }

    lemma SixStanding(q: Vec, a: (Side, Side), b: (Side, Side), c: (Side, Side),
                      x: (set<Box>, set<Box>), y: (set<Box>, set<Box>), z: (set<Box>, set<Box>), sure: bool)
      requires Lists() && Opened(q, 0, 0, a, x, sure) && Opened(q, 1, 2, b, y, sure) && Opened(q, 2, 4, c, z, sure)
      ensures Windows(q, [a.0, a.1, b.0, b.1, c.0, c.1], [x.0, x.1, y.0, y.1, z.0, z.1], sure)
    {
      var ds, left := [a.0, a.1, b.0, b.1, c.0, c.1], [x.0, x.1, y.0, y.1, z.0, z.1];
      forall e: nat | e < 6
        ensures StandingAt(q, e, ds[e], left[e], sure)
      {
        assert e == 0 || e == 1 || e == 2 || e == 3 || e == 4 || e == 5;
      }
    }

    lemma SixBegun(q: Vec, x: (set<Box>, set<Box>), y: (set<Box>, set<Box>), z: (set<Box>, set<Box>))
      requires Lists() && Begun(Elems(tris), 0, q.0, sax[0][0], x.0, x.1)
      requires Begun(Elems(tris), 1, q.1, sax[2][0], y.0, y.1) && Begun(Elems(tris), 2, q.2, sax[4][0], z.0, z.1)
      ensures AllBegun(q, [x.0, x.1, y.0, y.1, z.0, z.1])
    {
      var start := [x.0, x.1, y.0, y.1, z.0, z.1];
      assert start[0] == x.0 && start[1] == x.1 && start[2] == y.0 && start[3] == y.1 && start[4] == z.0
        && start[5] == z.1;
    }

    /** The starting windows on all axes. */
    method StartWindows(q: Vec, ghost sure: bool) returns (ds: seq<Side>, ghost left: seq<set<Box>>)
      requires Lists()
      requires sure ==> forall f: nat | f < 3 :: Reachable(Elems(tris), f, At(q, f))
      ensures Windows(q, ds, left, sure)
      ensures sure ==> AllBegun(q, left)
    {
      var a, x := StartAxis(q, 0, 0, sure);
      var b, y := StartAxis(q, 1, 2, sure);
      var c, z := StartAxis(q, 2, 4, sure);
      ds := [a.0, a.1, b.0, b.1, c.0, c.1];
      left := [x.0, x.1, y.0, y.1, z.0, z.1];
      SixStanding(q, a, b, c, x, y, z, sure);
      if sure {
        SixBegun(q, x, y, z);
      }
    }

    /** For a point that fits on every axis, the starting windows hold every box often enough. */
    lemma SureOften(q: Vec, start: seq<set<Box>>)
      requires Lists() && AllBegun(q, start) && Sure(q)
      ensures Often(Elems(tris), start) == Elems(tris)
    {
      assert Fits(Elems(tris), 0, At(q, 0)) && Fits(Elems(tris), 1, At(q, 1)) && Fits(Elems(tris), 2, At(q, 2));
      forall o | o in Elems(tris)
        ensures Holds(start, o) >= 3
      {
        assert o in start[0] + start[1] && o in start[2] + start[3] && o in start[4] + start[5];
      }
    }

    // ---- a point in a corner

    /** On every axis all boxes reach past q, one lies wholly above it and at most one straddles it. */
    ghost predicate InCorner(q: Vec) {
      Ranged(q) && forall f: nat | f < 3 :: Corner(Elems(tris), f, At(q, f))
    }

    /** On how many axes o straddles q. */
    function Under(o: Box, q: Vec): nat {
      Bit(Lo(o, 0) < q.0) + Bit(Lo(o, 1) < q.1) + Bit(Lo(o, 2) < q.2)
    }

    /** On how many axes o heads the list by upper edges. */
    function Heads(o: Box): nat
      reads this
      requires |sax| == 6 && sax[0] != [] && sax[2] != [] && sax[4] != []
    {
      Bit(o == sax[0][0]) + Bit(o == sax[2][0]) + Bit(o == sax[4][0])
    }

    /** The boxes that a search from a corner tests: those that head the list on as many axes as they straddle q. */
    ghost function Seen(q: Vec): set<Box>
      reads this
      requires Lists()
    {
      set o | o in Elems(tris) && Under(o, q) <= Heads(o)
    }

    lemma CornerAxis(S: set<Box>, f: nat, q: real, head: Box, l0: set<Box>, l1: set<Box>, o: Box)
      requires f < 3 && Corner(S, f, q) && Begun(S, f, q, head, l0, l1) && o in S
      ensures Bit(o in l0) + Bit(o in l1) == Bit(o == head) + 1 - Bit(Lo(o, f) < q)
    {
    }

    lemma CornerAxes(q: Vec)
      requires InCorner(q)
      ensures Corner(Elems(tris), 0, q.0) && Corner(Elems(tris), 1, q.1) && Corner(Elems(tris), 2, q.2)
    {
      assert Corner(Elems(tris), 0, At(q, 0)) && Corner(Elems(tris), 1, At(q, 1)) && Corner(Elems(tris), 2, At(q, 2));
    }

    lemma CornerHolds(q: Vec, start: seq<set<Box>>, o: Box)
      requires Lists() && AllBegun(q, start) && o in Elems(tris)
      requires Corner(Elems(tris), 0, q.0) && Corner(Elems(tris), 1, q.1) && Corner(Elems(tris), 2, q.2)
      ensures Holds(start, o) == Heads(o) + 3 - Under(o, q)
    {
      CornerAxis(Elems(tris), 0, q.0, sax[0][0], start[0], start[1], o);
      CornerAxis(Elems(tris), 1, q.1, sax[2][0], start[2], start[3], o);
      CornerAxis(Elems(tris), 2, q.2, sax[4][0], start[4], start[5], o);
    }

    lemma CornerOften(q: Vec, start: seq<set<Box>>)
      requires Lists() && AllBegun(q, start) && InCorner(q)
      ensures Often(Elems(tris), start) == Seen(q)
    {
      CornerAxes(q);
      forall o | o in Elems(tris)
        ensures Holds(start, o) >= 3 <==> Under(o, q) <= Heads(o)
      {
        CornerHolds(q, start, o);
      }
    }

    // ---- a point that fits on some axes and is in a corner on the others

    ghost predicate FitsOrCorner(q: Vec) {
      Ranged(q) && forall f: nat | f < 3 :: Fits(Elems(tris), f, At(q, f)) || Corner(Elems(tris), f, At(q, f))
    }

    /** How often the starting windows of an axis hold o beyond the once that is enough: always that once where q
        fits. */
    ghost function Spare(S: set<Box>, f: nat, q: real, head: Box, o: Box): int
      requires f < 3
    {
      if Fits(S, f, q) then 0 else Bit(o == head) - Bit(Lo(o, f) < q)
    }

    /** The boxes that head the list on at least as many of the axes where q is in a corner as they straddle q on. */
    ghost function Sighted(q: Vec): set<Box>
      reads this
      requires Lists()
    {
      set o | o in Elems(tris) && Spare(Elems(tris), 0, q.0, sax[0][0], o) + Spare(Elems(tris), 1, q.1, sax[2][0], o)
                                  + Spare(Elems(tris), 2, q.2, sax[4][0], o) >= 0
    }

    lemma SpareAxis(S: set<Box>, f: nat, q: real, head: Box, l0: set<Box>, l1: set<Box>, o: Box)
      requires f < 3 && (Fits(S, f, q) || Corner(S, f, q)) && Begun(S, f, q, head, l0, l1) && o in S
      ensures Bit(o in l0) + Bit(o in l1) >= 1 + Spare(S, f, q, head, o)
    {
      if Fits(S, f, q) {
        assert o in l0 + l1;
      } else {
        CornerAxis(S, f, q, head, l0, l1, o);
      }
    }

    lemma FitsOrCornerAxes(q: Vec)
      requires FitsOrCorner(q)
      ensures Fits(Elems(tris), 0, q.0) || Corner(Elems(tris), 0, q.0)
      ensures Fits(Elems(tris), 1, q.1) || Corner(Elems(tris), 1, q.1)
      ensures Fits(Elems(tris), 2, q.2) || Corner(Elems(tris), 2, q.2)
    {
      assert Fits(Elems(tris), 0, At(q, 0)) || Corner(Elems(tris), 0, At(q, 0));
      assert Fits(Elems(tris), 1, At(q, 1)) || Corner(Elems(tris), 1, At(q, 1));
      assert Fits(Elems(tris), 2, At(q, 2)) || Corner(Elems(tris), 2, At(q, 2));
    }

    lemma SightedOften(q: Vec, start: seq<set<Box>>)
      requires Lists() && AllBegun(q, start) && FitsOrCorner(q)
      ensures Sighted(q) <= Often(Elems(tris), start)
    {
      FitsOrCornerAxes(q);
      forall o | o in Sighted(q)
        ensures Holds(start, o) >= 3
      {
        SpareAxis(Elems(tris), 0, q.0, sax[0][0], start[0], start[1], o);
        SpareAxis(Elems(tris), 1, q.1, sax[2][0], start[2], start[3], o);
        SpareAxis(Elems(tris), 2, q.2, sax[4][0], start[4], start[5], o);
      }
    }

    /** What is still to come from an edge is no nearer than the edge. */
    lemma EdgeBound(q: Vec, s: seq<Box>, f: nat, low: bool, d: Side, left: set<Box>, o: Box)
      requires f < 3 && Ordered(s, f, low) && Ranged(q) && Standing(s, f, low, q, d, left, true) && o in left
        && o in Elems(tris)
      ensures d.wed <= Dist(near, o, q) && d.wed < GNN_INF
    {
      ComingBound(s, f, low, q, d.wex, o);
      SignedSqUp(Gap(s[d.wex], f, low, At(q, f)), Gap(o, f, low, At(q, f)));
      GapShort(q, o, f, low);
    }

    lemma OpenEdge(left: seq<set<Box>>, o: Box) returns (e: nat)
      requires |left| == 6 && Holds(left, o) > 0
      ensures e < 6 && o in left[e]
    {
      e :| 0 <= e < 6 && o in left[e];
    }

    /** Once the nearest window edge is further away than the best so far, no untested box of those held often can be
        nearer. */
    lemma Finished(q: Vec, ds: seq<Side>, start: seq<set<Box>>, left: seq<set<Box>>, ee: nat, d: real)
      requires Lists() && Windows(q, ds, left, true) && Ranged(q) && |start| == 6
      requires Touched(near, Elems(tris), tbase, q, d, start, left)
      requires ee < 6 && forall e | 0 <= e < 6 :: ds[ee].wed <= ds[e].wed
      requires ds[ee].wed == GNN_INF || ds[ee].wed > d
      ensures forall o | o in Often(Elems(tris), start) :: d <= Dist(near, o, q)
    {
      forall o | o in Often(Elems(tris), start)
        ensures d <= Dist(near, o, q)
      {
        assert Tested(near, o, tbase, q, d, start, left);
        if Count(o, tbase) < 3 {
          var e := OpenEdge(left, o);
          assert StandingAt(q, e, ds[e], left[e], true);
          EdgeBound(q, sax[e], AxisOf(e), IsLow(e), ds[e], left[e], o);
        }
      }
    }

    /** Start a query: when adding to the base count would wrap round, forget all counts. */
    method Rebase()
      requires Valid()
      modifies this`tbase, Elems(tris)
      ensures Valid() && tbase + 3 < WRAP
    {
      if (tbase + 3) % WRAP < tbase {
        for i := 0 to |tris|
          invariant tbase == old(tbase) && forall j | 0 <= j < i :: tris[j].touch == 0
        {
          assert tris[i] in Elems(tris);
          tris[i].touch := 0;
        }
        tbase := 0;
      }
    }

    /** One step of the search: the nearest window edge advances past the box it stands at. */
    method Expand(q: Vec, ds: seq<Side>, ee: nat, d: real, out: Vec, best: Box?, ghost start: seq<set<Box>>,
        ghost left: seq<set<Box>>, ghost sure: bool)
      returns (ds': seq<Side>, d': real, out': Vec, best': Box?, ghost left': seq<set<Box>>)
      requires Lists() && Windows(q, ds, left, sure) && ee < 6 && left[ee] != {} && |start| == 6
      requires Touched(near, Elems(tris), tbase, q, d, start, left) && Found(q, start, d, out, best)
      modifies Elems(tris)
      ensures Windows(q, ds', left', sure) && Remaining(left') < Remaining(left)
      ensures Touched(near, Elems(tris), tbase, q, d', start, left') && Found(q, start, d', out', best')
    {
      assert StandingAt(q, ee, ds[ee], left[ee], sure);
      var ob := sax[ee][ds[ee].wex];
      ComingHas(sax[ee], IsLow(ee), ds[ee].wex);
      d', out', best' := Touch(ob, q, d, out, best, start, left, ee);
      var side := Advance(sax[ee], AxisOf(ee), IsLow(ee), q, ds[ee], left[ee], sure);
      ds' := ds[ee := side];
      left' := left[ee := left[ee] - {ob}];
      OneLess(left, ee, ob);
      WindowsStep(q, ds, left, ee, side, left[ee] - {ob}, sure);
    }

    lemma WindowsStep(q: Vec, ds: seq<Side>, left: seq<set<Box>>, ee: nat, side: Side, less: set<Box>, sure: bool)
      requires |sax| == 6 && Windows(q, ds, left, sure) && ee < 6 && StandingAt(q, ee, side, less, sure)
      ensures Windows(q, ds[ee := side], left[ee := less], sure)
    {
      var ds', left' := ds[ee := side], left[ee := less];
      forall e: nat | e < 6
        ensures StandingAt(q, e, ds'[e], left'[e], sure)
      {
        if e != ee {
          assert StandingAt(q, e, ds[e], left[e], sure);
        }
      }
    }

    /** The best so far: nothing yet, or a box that is held often, at squared distance d, and the point on it. */
    ghost predicate Found(q: Vec, start: seq<set<Box>>, d: real, out: Vec, best: Box?)
      requires |start| == 6
    {
      if best == null then d == WORST else best in Often(Elems(tris), start) && Reaches(q, d, out, best)
    }

    ghost predicate Reaches(q: Vec, d: real, out: Vec, best: Box) {
      d == Dist(near, best, q) == SqDist(out, q) && d < WORST
    }

    /** Begin a query: nothing is touched yet. */
    method Begin(q: Vec, ghost sure: bool) returns (ds: seq<Side>, ghost left: seq<set<Box>>)
      requires Valid() && (sure ==> Ranged(q))
      modifies this`tbase, Elems(tris)
      ensures Lists() && sax == old(sax) && tbase + 3 < WRAP
      ensures Windows(q, ds, left, sure) && (sure ==> AllBegun(q, left))
      ensures Touched(near, Elems(tris), tbase, q, WORST, left, left)
    {
      Rebase();
      if sure {
        RangedReach(q, 0);
        RangedReach(q, 1);
        RangedReach(q, 2);
      }
      ds, left := StartWindows(q, sure);
      forall o | o in Elems(tris)
        ensures Tested(near, o, tbase, q, WORST, left, left)
      {
      }
    }

    /** Expand the window until it cannot improve on the best found. */
    method ExpandAll(q: Vec, ds0: seq<Side>, ghost start: seq<set<Box>>, ghost sure: bool)
      returns (d: real, out: Vec, best: Box?)
      requires Lists() && Windows(q, ds0, start, sure) && Touched(near, Elems(tris), tbase, q, WORST, start, start)
      requires sure ==> Ranged(q)
      modifies Elems(tris)
      ensures Found(q, start, d, out, best) && forall o | o in Elems(tris) :: o.touch <= tbase + 3
      ensures sure ==> forall o | o in Often(Elems(tris), start) :: d <= Dist(near, o, q)
    {
      d, out, best := WORST, (0.0, 0.0, 0.0), null;
      var ds := ds0;
      ghost var left := start;
      while true
        invariant Windows(q, ds, left, sure) && Found(q, start, d, out, best)
        invariant Touched(near, Elems(tris), tbase, q, d, start, left)
        decreases Remaining(left)
      {
        var ee := NextEdge(ds);
        var bw := ds[ee].wed;
        if bw == GNN_INF || bw > d {
          if sure {
            Finished(q, ds, start, left, ee, d);
          }
          break;
        }
        assert StandingAt(q, ee, ds[ee], left[ee], sure);
        ds, d, out, best, left := Expand(q, ds, ee, d, out, best, start, left, sure);
      }
      Settled(q, d, start, left);
    }

    /** The nearest triangle, its squared distance and the point on it, of those that the starting windows hold three
        times. For a point that fits these are all; from a corner exactly those seen, which gives the nearest of all
        exactly when no other is nearer than they are; where it fits on some axes only, at least those sighted. */
    method NearestTri(q: Vec) returns (d: real, out: Vec, best: Box?, ghost start: seq<set<Box>>)
      requires Valid()
      modifies this`tbase, Elems(tris)
      ensures Valid() && sax == old(sax)
      ensures if best == null then d == WORST else best in Elems(tris) && Reaches(q, d, out, best)
      ensures Ranged(q) ==> AllBegun(q, start) && Least(near, Often(Elems(tris), start), q, d)
      ensures Sure(q) ==> Least(near, Elems(tris), q, d)
      ensures InCorner(q) ==> Least(near, Seen(q), q, d) && (Least(near, Elems(tris), q, d) <==> NoneHidden(q))
      ensures FitsOrCorner(q) ==> forall o | o in Sighted(q) :: d <= Dist(near, o, q)
    {
      ghost var sure := Ranged(q);
      var ds;
      ds, start := Begin(q, sure);
      d, out, best := ExpandAll(q, ds, start, sure);
      FoundMet(q, start, d, out, best);
      tbase := tbase + 3;
      Answered(q, start, d);
    }

    /** What follows for the kinds of query points. */
    lemma Answered(q: Vec, start: seq<set<Box>>, d: real)
      requires Lists() && |start| == 6
      requires Ranged(q) ==> AllBegun(q, start) && Least(near, Often(Elems(tris), start), q, d)
      ensures Sure(q) ==> Least(near, Elems(tris), q, d)
      ensures InCorner(q) ==> Least(near, Seen(q), q, d) && (Least(near, Elems(tris), q, d) <==> NoneHidden(q))
      ensures FitsOrCorner(q) ==> forall o | o in Sighted(q) :: d <= Dist(near, o, q)
    {
      if Sure(q) {
        SureOften(q, start);
      }
      if InCorner(q) {
        CornerOften(q, start);
        CornerRight(q, d);
      }
      if FitsOrCorner(q) {
        SightedOften(q, start);
      }
    }

    lemma FoundMet(q: Vec, start: seq<set<Box>>, d: real, out: Vec, best: Box?)
      requires |start| == 6 && Found(q, start, d, out, best)
      ensures Met(near, Often(Elems(tris), start), q, d)
    {
    }

    /** No touch count exceeds the next base count. */
    lemma Settled(q: Vec, d: real, start: seq<set<Box>>, left: seq<set<Box>>)
      requires |start| == |left| == 6 && Touched(near, Elems(tris), tbase, q, d, start, left)
      ensures forall o | o in Elems(tris) :: o.touch <= tbase + 3
    {
      forall o | o in Elems(tris)
        ensures o.touch <= tbase + 3
      {
        assert Tested(near, o, tbase, q, d, start, left);
      }
    }

    /** No box that a search from a corner leaves out is nearer than all those it tests. */
    ghost predicate NoneHidden(q: Vec)
      reads this
      requires Lists()
    {
      forall o | o in Elems(tris) && Under(o, q) > Heads(o) ::
        WORST <= Dist(near, o, q) || exists s | s in Seen(q) :: Dist(near, s, q) <= Dist(near, o, q)
    }

    /** From a corner the search agrees with the scan exactly then. */
    lemma CornerRight(q: Vec, d: real)
      requires Lists() && Least(near, Seen(q), q, d)
      ensures Least(near, Elems(tris), q, d) <==> NoneHidden(q)
    {
      forall o | o in Elems(tris)
        ensures o in Seen(q) || Under(o, q) > Heads(o)
      {
      }
      if Least(near, Elems(tris), q, d) && d < WORST {
        var s :| s in Seen(q) && Dist(near, s, q) == d;
        assert forall o | o in Elems(tris) :: Dist(near, s, q) <= Dist(near, o, q);
      }
    }
  }

  // ---- a point that the search answers differently from the scan

  const TRI_A: (Vec, Vec, Vec) := ((1.0, 1.0, 1.0), (2.0, 1.0, 1.0), (1.0, 2.0, 2.0))
  const TRI_B: (Vec, Vec, Vec) := ((0.0, 1.0, 1.0), (-1.0, 3.0, 3.0), (3.0, 3.0, 3.0))

  /** Of both triangles the first vertex is nearest to the centre. */
  function PairFinder(v: (Vec, Vec, Vec), q: Vec): Weights {
    (1.0, 0.0, 0.0)
  }

  lemma FromCentre(x: Vec)
    ensures SqDist(x, CENTRE) == x.0 * x.0 + x.1 * x.1 + x.2 * x.2
  {
  }

  lemma SquareOver(x: real)
    ensures x * x >= 0.0 && (x >= 1.0 ==> x * x >= 1.0)
  {
    if x >= 1.0 {
      SquareUp(1.0, x);
    }
  }

  lemma FirstPoint(t: (Vec, Vec, Vec), q: Vec)
    ensures PointOn(t, PairFinder(t, q)) == t.0
  {
  }

  /** Weights w give the point of the triangle nearest to q, at squared distance d. */
  ghost predicate NearestOn(v: (Vec, Vec, Vec), w: Weights, q: Vec, d: real) {
    SqDist(PointOn(v, w), q) == d && forall w': Weights :: d <= SqDist(PointOn(v, w'), q)
  }

  lemma AtLeastA(w: Weights)
    ensures SqDist(PointOn(TRI_A, w), CENTRE) >= 3.0
  {
    var x := PointOn(TRI_A, w);
    BlendBetween(w, 1.0, 2.0, 1.0, 1.0, 2.0);
    BlendBetween(w, 1.0, 1.0, 2.0, 1.0, 2.0);
    FromCentre(x);
    SquareOver(x.0);
    SquareOver(x.1);
    SquareOver(x.2);
  }

  lemma AtLeastB(w: Weights)
    ensures SqDist(PointOn(TRI_B, w), CENTRE) >= 2.0
  {
    var y := PointOn(TRI_B, w);
    BlendBetween(w, 1.0, 3.0, 3.0, 1.0, 3.0);
    FromCentre(y);
    SquareOver(y.0);
    SquareOver(y.1);
    SquareOver(y.2);
  }

  lemma FirstDist(t: (Vec, Vec, Vec), q: Vec)
    ensures SqDist(PointOn(t, PairFinder(t, q)), q) == SqDist(t.0, q)
  {
    FirstPoint(t, q);
  }

  lemma CornerDist(v: Vec, x: real)
    requires (x == 0.0 || x == 1.0) && v == (x, 1.0, 1.0)
    ensures SqDist(v, CENTRE) == x + 2.0
  {
    FromCentre(v);
  }

  lemma FirstOf(t: (Vec, Vec, Vec))
    requires t == TRI_A || t == TRI_B
    ensures SqDist(PointOn(t, PairFinder(t, CENTRE)), CENTRE) == if t == TRI_A then 3.0 else 2.0
  {
    FirstDist(t, CENTRE);
    CornerDist(t.0, if t == TRI_A then 1.0 else 0.0);
  }

  lemma AtLeast(t: (Vec, Vec, Vec), w: Weights)
    requires t == TRI_A || t == TRI_B
    ensures SqDist(PointOn(t, w), CENTRE) >= if t == TRI_A then 3.0 else 2.0
  {
    if t == TRI_A {
      AtLeastA(w);
    } else {
      AtLeastB(w);
    }
  }

  /** For both triangles the finder is right about the point nearest to the centre. */
  lemma FinderRight(t: (Vec, Vec, Vec))
    requires t == TRI_A || t == TRI_B
    ensures NearestOn(t, PairFinder(t, CENTRE), CENTRE, if t == TRI_A then 3.0 else 2.0)
  {
    FirstOf(t);
    forall w: Weights
      ensures SqDist(PointOn(t, w), CENTRE) >= if t == TRI_A then 3.0 else 2.0
    {
      AtLeast(t, w);
    }
  }

  lemma DistA(a: Box)
    requires a.v == TRI_A
    ensures Dist(PairFinder, a, CENTRE) == 3.0
  {
    FirstOf(a.v);
  }

  lemma DistB(b: Box)
    requires b.v == TRI_B
    ensures Dist(PairFinder, b, CENTRE) == 2.0
  {
    FirstOf(b.v);
  }

  lemma LeastAt(near: Finder, S: set<Box>, q: Vec, d: real, o: Box, k: real)
    requires Least(near, S, q, d) && o in S && Dist(near, o, q) == k < WORST
    requires forall x | x in S && x != o :: k <= Dist(near, x, q)
    ensures d == k
  {
  }

  lemma PairEdges(a: Box, b: Box)
    requires a.v == TRI_A && b.v == TRI_B && a.Fitted() && b.Fitted()
    ensures Lo(a, 0) == 1.0 && Hi(a, 0) == 2.0 && Lo(b, 0) == -1.0 && Hi(b, 0) == 3.0
    ensures forall f: nat | 1 <= f < 3 :: Lo(a, f) == 1.0 && Hi(a, f) == 2.0 && Lo(b, f) == 1.0 && Hi(b, f) == 3.0
    ensures Boxes.Near(a.v.0) && Boxes.Near(a.v.1) && Boxes.Near(a.v.2) && Boxes.Near(b.v.0) && Boxes.Near(b.v.1)
      && Boxes.Near(b.v.2) && Boxes.Near(CENTRE)
  {
    FarBig();
  }

  lemma PairCorner(nn: Nn, a: Box, b: Box)
    requires a.v == TRI_A && b.v == TRI_B && a.Fitted() && b.Fitted() && Elems(nn.tris) == {a, b} && nn.Lists()
    ensures nn.InCorner(CENTRE) && nn.Seen(CENTRE) == {a}
  {
    PairEdges(a, b);
    forall f: nat | f < 3
      ensures Corner({a, b}, f, At(CENTRE, f))
    {
      assert a in {a, b} && At(CENTRE, f) < Lo(a, f);
    }
    forall e: nat | e == 0 || e == 2 || e == 4
      ensures nn.sax[e][0] == a
    {
      assert nn.sax[e][0] in Elems(nn.sax[e]) && a in Elems(nn.sax[e]);
      var k :| 0 <= k < |nn.sax[e]| && nn.sax[e][k] == a;
      assert IsLow(e) && Key(nn.sax[e][0], AxisOf(e), true) <= Key(nn.sax[e][k], AxisOf(e), true);
    }
  }

  method AskSearch(nn: Nn, a: Box, b: Box) returns (d: real)
    requires nn.Valid() && nn.near == PairFinder && Elems(nn.tris) == {a, b}
    requires a.v == TRI_A && b.v == TRI_B && a.Fitted() && b.Fitted()
    modifies nn`tbase, Elems(nn.tris)
    ensures d == 3.0
  {
    var out, best;
    ghost var start;
    d, out, best, start := nn.NearestTri(CENTRE);
    CornerAnswer(nn, a, b, d);
  }

  lemma LeastOfOne(S: set<Box>, q: Vec, d: real, a: Box, k: real)
    requires Least(PairFinder, S, q, d) && S == {a} && Dist(PairFinder, a, q) == k < WORST
    ensures d == k
  {
  }

  lemma OnlyA(a: Box, S: set<Box>, d: real)
    requires a.v == TRI_A && Least(PairFinder, S, CENTRE, d) && S == {a}
    ensures d == 3.0
  {
    DistA(a);
    WorstBig();
    LeastOfOne(S, CENTRE, d, a, 3.0);
  }

  lemma CornerAnswer(nn: Nn, a: Box, b: Box, d: real)
    requires a.v == TRI_A && b.v == TRI_B && a.Fitted() && b.Fitted() && Elems(nn.tris) == {a, b} && nn.Lists()
    requires nn.InCorner(CENTRE) ==> Least(PairFinder, nn.Seen(CENTRE), CENTRE, d)
    ensures d == 3.0
  {
    PairCorner(nn, a, b);
    OnlyA(a, nn.Seen(CENTRE), d);
  }

  method AskScan(a: Box, b: Box) returns (d: real)
    requires a.v == TRI_A && b.v == TRI_B
    ensures d == 2.0
  {
    var out;
    d, out := NearestBf(PairFinder, [a, b], CENTRE);
    DistA(a);
    DistB(b);
    WorstBig();
    LeastAt(PairFinder, Elems([a, b]), CENTRE, d, b, 2.0);
  }

  lemma RightA(t: (Vec, Vec, Vec))
    requires t == TRI_A
    ensures NearestOn(TRI_A, PairFinder(TRI_A, CENTRE), CENTRE, 3.0)
  {
    FinderRight(t);
  }

  lemma RightB(t: (Vec, Vec, Vec))
    requires t == TRI_B
    ensures NearestOn(TRI_B, PairFinder(TRI_B, CENTRE), CENTRE, 2.0)
  {
    FinderRight(t);
  }

  /** From the centre the second triangle is nearer, but the search does not see it and returns the first;
      the scan over both finds it. */
  method SearchMissesNearest() returns (d: real, dbf: real)
    ensures d == 3.0 && dbf == 2.0
    ensures NearestOn(TRI_A, PairFinder(TRI_A, CENTRE), CENTRE, d)
      && NearestOn(TRI_B, PairFinder(TRI_B, CENTRE), CENTRE, dbf)
  {
    var a := new Box(TRI_A);
    var b := new Box(TRI_B);
    var nn := new Nn(PairFinder, [a, b]);
    assert Elems([a, b]) == {a, b};
    d := AskSearch(nn, a, b);
    dbf := AskScan(a, b);
    RightA(TRI_A);
    RightB(TRI_B);
  }
}
