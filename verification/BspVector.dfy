/** The extreme intersections of a line with the surface: the search through the BSP tree, against a scan. */
module BspVector {
  import opened Wrappers
  import opened PlaneEq
  import opened Boxes
  import opened PowersOfTen
  import opened Lists
  import opened Bsp
  import opened Cone
  import opened BspSearch

  /** A line through vb, relative to the centre, in direction vv. */
  datatype Line = Line(vb: Vec, vv: Vec, cent: Vec)

  function Plus(x: Vec, y: Vec): Vec {
    (x.0 + y.0, x.1 + y.1, x.2 + y.2)
  }

  function Times(k: real, x: Vec): Vec {
    (k * x.0, k * x.1, k * x.2)
  }

  /** The point at parameter s, relative to the centre. */
  function PointAt(l: Line, s: real): Vec {
    Plus(l.vb, Times(s, l.vv))
  }

  /** The same point in its place. */
  function PlaceAt(l: Line, s: real): Vec {
    Plus(PointAt(l, s), l.cent)
  }

  /** The component of a direction along a plane's normal. */
  function Along(p: Plane, v: Vec): real {
    p.a * v.0 + p.b * v.1 + p.c * v.2
  }

  const FLAT: real := 0.000000000001
  const FLATBF: real := 0.0000000001
  const INSIDE: real := 0.00000001

  /** The parameter at which the line meets the plane of a triangle. */
  function MeetTri(t: Tri, l: Line): real
    requires Along(t.pe, l.vv) != 0.0
  {
    -Margin(t.pe, Plus(l.vb, l.cent)) / Along(t.pe, l.vv)
  }

  /** Where the line hits triangle t, if it is not flat to it within the given bound and passes its edge test. */
  function Hit(t: Tri, l: Line, flat: real): Option<real>
    requires flat > 0.0
  {
    if Abs(Along(t.pe, l.vv)) < flat then None
    else if Passes(t, PointAt(l, MeetTri(t, l)), INSIDE) then Some(MeetTri(t, l))
    else None
  }

  /** The extreme intersections so far, the triangles they are on, and where they are. */
  class Extremes {
    var lo: real
    var hi: real
    var tlo: Option<Tri>
    var thi: Option<Tri>
    var plo: Vec
    var phi: Vec

    /** Nothing found yet. */
    constructor ()
      ensures lo == Ten(68) && hi == -Ten(68) && tlo == None && thi == None
    {
      lo, hi, tlo, thi, plo, phi := Ten(68), -Ten(68), None, None, CENTRE, CENTRE;
    }
  }

  /** Each extreme is its start value or the hit on its triangle, which is one of S. */
  ghost predicate Real(lp: Extremes, S: set<Tri>, l: Line, flat: real)
    requires flat > 0.0
    reads lp
  {
    && (if lp.tlo.Some?
        then lp.tlo.value in S && Hit(lp.tlo.value, l, flat) == Some(lp.lo) && lp.lo < Ten(68)
          && lp.plo == PlaceAt(l, lp.lo)
        else lp.lo == Ten(68))
    && (if lp.thi.Some?
        then lp.thi.value in S && Hit(lp.thi.value, l, flat) == Some(lp.hi) && lp.hi > -Ten(68)
          && lp.phi == PlaceAt(l, lp.hi)
        else lp.hi == -Ten(68))
  }

  /** The extremes reach at least as far as parameter s. */
  ghost predicate Reaches(lp: Extremes, s: real)
    reads lp
  {
    lp.lo <= s <= lp.hi
  }

  /** Record a hit at ti, in the place ip, if it is more extreme. */
  method Record(lp: Extremes, t: Tri, ti: real, ip: Vec)
    modifies lp
    ensures if ti < old(lp.lo) then lp.lo == ti && lp.tlo == Some(t) && lp.plo == ip
            else lp.lo == old(lp.lo) && lp.tlo == old(lp.tlo) && lp.plo == old(lp.plo)
    ensures if ti > old(lp.hi) then lp.hi == ti && lp.thi == Some(t) && lp.phi == ip
            else lp.hi == old(lp.hi) && lp.thi == old(lp.thi) && lp.phi == old(lp.phi)
  {
    if ti < lp.lo {
      lp.lo, lp.tlo, lp.plo := ti, Some(t), ip;
    }
    if ti > lp.hi {
      lp.hi, lp.thi, lp.phi := ti, Some(t), ip;
    }
  }

  /** Test one triangle against the line. */
  method HitOne(t: Tri, l: Line, flat: real, lp: Extremes, ghost S: set<Tri>)
    requires flat > 0.0 && Real(lp, S, l, flat) && t in S
    modifies lp
    ensures Real(lp, S, l, flat) && lp.lo <= old(lp.lo) && lp.hi >= old(lp.hi)
    ensures Hit(t, l, flat).Some? ==> Reaches(lp, Hit(t, l, flat).value)
  {
    var den := Along(t.pe, l.vv);
    if Abs(den) < flat {
      return;
    }
    var ti := -Margin(t.pe, Plus(l.vb, l.cent)) / den;
    if !Passes(t, PointAt(l, ti), INSIDE) {
      return;
    }
    Record(lp, t, ti, PlaceAt(l, ti));
  }

  /** Test a list of triangles against the line. */
  method HitAll(ts: seq<Tri>, l: Line, flat: real, lp: Extremes, ghost S: set<Tri>)
    requires flat > 0.0 && Real(lp, S, l, flat) && forall t | t in ts :: t in S
    modifies lp
    ensures Real(lp, S, l, flat) && lp.lo <= old(lp.lo) && lp.hi >= old(lp.hi)
    ensures forall t | t in ts && Hit(t, l, flat).Some? :: Reaches(lp, Hit(t, l, flat).value)
  {
    for i := 0 to |ts|
      invariant Real(lp, S, l, flat) && lp.lo <= old(lp.lo) && lp.hi >= old(lp.hi)
      invariant forall k | 0 <= k < i && Hit(ts[k], l, flat).Some? :: Reaches(lp, Hit(ts[k], l, flat).value)
    {
      HitOne(ts[i], l, flat, lp, S);
    }
  }

  // ---- the line against the planes and the centre

  /** The margin of a plane changes linearly along the line. */
  lemma MarginAt(p: Plane, l: Line, s: real)
    ensures Margin(p, PointAt(l, s)) == Margin(p, l.vb) + s * Along(p, l.vv)
  {
    Swap(p.a, s, l.vv.0);
    Swap(p.b, s, l.vv.1);
    Swap(p.c, s, l.vv.2);
    assert s * Along(p, l.vv) == s * (p.a * l.vv.0) + s * (p.b * l.vv.1) + s * (p.c * l.vv.2);
    AddTimes(p.a, l.vb.0, s * l.vv.0);
    AddTimes(p.b, l.vb.1, s * l.vv.1);
    AddTimes(p.c, l.vb.2, s * l.vv.2);
  }

  lemma Swap(a: real, s: real, x: real)
    ensures a * (s * x) == s * (a * x)
  {
  }

  lemma AddTimes(a: real, x: real, y: real)
    ensures a * (x + y) == a * x + a * y
  {
  }

  /** Where the line meets a plane, if it is not parallel to it. */
  function Meet(p: Plane, l: Line): real
    requires Along(p, l.vv) != 0.0
  {
    -Margin(p, l.vb) / Along(p, l.vv)
  }

  lemma MeetSide(p: Plane, l: Line, s: real)
    requires Along(p, l.vv) != 0.0
    ensures Margin(p, PointAt(l, s)) == Along(p, l.vv) * (s - Meet(p, l))
  {
    MarginAt(p, l, s);
    var den, m := Along(p, l.vv), Margin(p, l.vb);
    assert den * (-m / den) == -m;
    assert den * (s - Meet(p, l)) == den * s - den * Meet(p, l);
  }

  /** On which side of the plane the line is before and after it meets it. */
  lemma MeetSign(p: Plane, l: Line, s: real)
    requires Along(p, l.vv) != 0.0
    ensures s < Meet(p, l) ==>
      if Along(p, l.vv) < 0.0 then Margin(p, PointAt(l, s)) > 0.0 else Margin(p, PointAt(l, s)) < 0.0
    ensures s > Meet(p, l) ==>
      if Along(p, l.vv) < 0.0 then Margin(p, PointAt(l, s)) < 0.0 else Margin(p, PointAt(l, s)) > 0.0
  {
    MeetSide(p, l, s);
    SignTimes(Along(p, l.vv), s - Meet(p, l));
  }

  /** The squared distance from the centre at parameter s. */
  function RadiusSq(l: Line, s: real): real {
    Dot(PointAt(l, s), PointAt(l, s))
  }

  /** tc is the parameter of the point nearest to the centre. */
  ghost predicate Nearest(l: Line, tc: real) {
    Dot(l.vv, l.vv) > 0.0 && Dot(l.vv, PointAt(l, tc)) == 0.0
  }

  lemma NearestAt(l: Line)
    requires Dot(l.vv, l.vv) > 0.0
    ensures Nearest(l, -Dot(l.vv, l.vb) / Dot(l.vv, l.vv))
  {
    var tc := -Dot(l.vv, l.vb) / Dot(l.vv, l.vv);
    DotPlus(l.vv, l.vb, Times(tc, l.vv));
    DotTimes(tc, l.vv, l.vv);
    assert tc * Dot(l.vv, l.vv) == -Dot(l.vv, l.vb);
  }

  lemma DotPlus(n: Vec, x: Vec, y: Vec)
    ensures Dot(n, Plus(x, y)) == Dot(n, x) + Dot(n, y)
  {
    AddTimes(n.0, x.0, y.0);
    AddTimes(n.1, x.1, y.1);
    AddTimes(n.2, x.2, y.2);
  }

  lemma DotTimes(k: real, n: Vec, x: Vec)
    ensures Dot(n, Times(k, x)) == k * Dot(n, x)
  {
    Swap(n.0, k, x.0);
    Swap(n.1, k, x.1);
    Swap(n.2, k, x.2);
    assert k * Dot(n, x) == k * (n.0 * x.0) + k * (n.1 * x.1) + k * (n.2 * x.2);
  }

  lemma DotSwap(x: Vec, y: Vec)
    ensures Dot(x, y) == Dot(y, x)
  {
  }

  function Growth(d: real, k: real): real {
    d * d * k
  }

  /** The squared distance grows with the square of the parameter's distance from the nearest point. */
  lemma RadiusGrows(l: Line, tc: real, s: real)
    requires Nearest(l, tc)
    ensures RadiusSq(l, s) == RadiusSq(l, tc) + Growth(s - tc, Dot(l.vv, l.vv))
  {
    var p, d := PointAt(l, tc), Times(s - tc, l.vv);
    assert PointAt(l, s) == Plus(p, d) by {
      assert tc * l.vv.0 + (s - tc) * l.vv.0 == s * l.vv.0;
      assert tc * l.vv.1 + (s - tc) * l.vv.1 == s * l.vv.1;
      assert tc * l.vv.2 + (s - tc) * l.vv.2 == s * l.vv.2;
    }
    DotPlus(Plus(p, d), p, d);
    DotSwap(Plus(p, d), p);
    DotSwap(Plus(p, d), d);
    DotPlus(p, p, d);
    DotPlus(d, p, d);
    DotTimes(s - tc, p, l.vv);
    DotSwap(p, l.vv);
    DotSwap(d, p);
    DotTimes(s - tc, d, l.vv);
    DotSwap(d, l.vv);
    DotTimes(s - tc, l.vv, l.vv);
    assert (s - tc) * 0.0 == 0.0;
  }

  function Min(x: real, y: real): real {
    if y < x then y else x
  }

  function Max(x: real, y: real): real {
    if y > x then y else x
  }

  /** The smallest squared distance on a segment, from its ends and, if it is on the segment, the nearest point. */
  function EffMin(t0: real, rs0: real, t1: real, rs1: real, tc: real, rsc: real): real {
    if t0 <= tc <= t1 then Min(Min(rs0, rs1), rsc) else Min(rs0, rs1)
  }

  function EffMax(t0: real, rs0: real, t1: real, rs1: real, tc: real, rsc: real): real {
    if t0 <= tc <= t1 then Max(Max(rs0, rs1), rsc) else Max(rs0, rs1)
  }

  lemma SquareOrder(tc: real, x: real, y: real, k: real)
    requires k > 0.0 && (tc <= x <= y || y <= x <= tc)
    ensures Growth(x - tc, k) <= Growth(y - tc, k)
  {
    if tc <= x <= y {
      SquareUp(x - tc, y - tc);
    } else {
      SquareUp(tc - x, tc - y);
      assert (tc - x) * (tc - x) == (x - tc) * (x - tc) && (tc - y) * (tc - y) == (y - tc) * (y - tc);
    }
    Scale(k, (x - tc) * (x - tc), (y - tc) * (y - tc));
  }

  /** Going away from the nearest point, the distance does not shrink. */
  lemma RadiusOrder(l: Line, tc: real, x: real, y: real)
    requires Nearest(l, tc) && (tc <= x <= y || y <= x <= tc)
    ensures RadiusSq(l, x) <= RadiusSq(l, y)
  {
    RadiusGrows(l, tc, x);
    RadiusGrows(l, tc, y);
    SquareOrder(tc, x, y, Dot(l.vv, l.vv));
  }

  /** The effective range holds the squared distances of the whole segment from a to b, where a is not before t0. */
  lemma EffRange(l: Line, tc: real, t0: real, a: real, b: real, t1: real, s: real)
    requires Nearest(l, tc) && t0 <= a <= s <= b <= t1
    ensures var rs0, rs1, rsc := RadiusSq(l, a), RadiusSq(l, b), RadiusSq(l, tc);
      EffMin(t0, rs0, t1, rs1, tc, rsc) <= RadiusSq(l, s) <= EffMax(t0, rs0, t1, rs1, tc, rsc)
  {
    RadiusOrder(l, tc, tc, s);
    if tc <= s {
      RadiusOrder(l, tc, s, b);
      if tc <= a { RadiusOrder(l, tc, a, s); }
    } else {
      RadiusOrder(l, tc, s, a);
      if b <= tc { RadiusOrder(l, tc, b, s); }
    }
  }

  // ---- the recursive search

  const NEARBY: real := 0.000001
  const TOUCH: real := 0.0000001

  /** The line is parallel to no split plane that it lies in, nor almost parallel to one. */
  ghost predicate LineClear(n: Tree, l: Line)
    decreases n
  {
    n.Node? ==>
      && (Abs(Along(n.pe, l.vv)) > FLAT || (Along(n.pe, l.vv) == 0.0 && Margin(n.pe, l.vb) != 0.0))
      && LineClear(n.po, l) && LineClear(n.ne, l)
  }

  /** Where the line hits t it does so in the cone and within the radius range of t. */
  ghost predicate HitOk(t: Tri, l: Line) {
    Hit(t, l, FLAT).Some? ==>
      var s := Hit(t, l, FLAT).value;
      InCone(t, PointAt(l, s)) && t.rs0 <= RadiusSq(l, s) <= t.rs1
  }

  /** The tree and the line are such that the search is exact. */
  ghost predicate Exact(n: Tree, l: Line) {
    Usable(n) && Clean(n) && LineClear(n, l) && forall t | t in Held(n) :: HitOk(t, l)
  }

  /** Every triangle held that the line hits between a and b is in F. */
  ghost predicate Seen(n: Tree, l: Line, a: real, b: real, F: set<Tri>) {
    forall t {:trigger Hit(t, l, FLAT)} | t in Held(n) && Hit(t, l, FLAT).Some? && a <= Hit(t, l, FLAT).value <= b ::
      t in F
  }

  /** The triangles of S whose hits are within the extremes. */
  ghost function Within(S: set<Tri>, l: Line, lp: Extremes): set<Tri>
    reads lp
  {
    set t | t in S && Hit(t, l, FLAT).Some? && Reaches(lp, Hit(t, l, FLAT).value)
  }

  /** Every hit on a held triangle between a and b is within the extremes. */
  ghost predicate Covered(n: Tree, l: Line, a: real, b: real, lp: Extremes)
    reads lp
  {
    forall t {:trigger Hit(t, l, FLAT)} | t in Held(n) && Hit(t, l, FLAT).Some? && a <= Hit(t, l, FLAT).value <= b ::
      Reaches(lp, Hit(t, l, FLAT).value)
  }

  lemma CoveredSeen(n: Tree, l: Line, a: real, b: real, lp: Extremes, S: set<Tri>)
    requires Held(n) <= S
    ensures Covered(n, l, a, b, lp) <==> Seen(n, l, a, b, Within(S, l, lp))
  {
  }

  /** The squared distances between a and b are between lo and hi. */
  ghost predicate Spans(l: Line, a: real, b: real, lo: real, hi: real) {
    forall s {:trigger RadiusSq(l, s)} | a <= s <= b :: lo <= RadiusSq(l, s) <= hi
  }

  /** The guard of a recursive call: the radius ranges overlap and the segment can improve an extreme. */
  predicate Worth(n: Tree, rse0: real, rse1: real, t0: real, t1: real, lo: real, hi: real) {
    rse0 <= Hi(n) && rse1 >= Lo(n) && (t0 < lo || t1 > hi)
  }

  /** The radius range of a segment on which a triangle below the node is hit overlaps that of the node. */
  lemma HitOverlaps(n: Tree, l: Line, a: real, b: real, rse0: real, rse1: real, t: Tri)
    requires Exact(n, l) && Spans(l, a, b, rse0, rse1) && t in Held(n) && Hit(t, l, FLAT).Some?
      && a <= Hit(t, l, FLAT).value <= b
    ensures rse0 <= Hi(n) && rse1 >= Lo(n)
  {
    assert HitOk(t, l);
    assert Lo(n) <= t.rs0 && t.rs1 <= Hi(n);
    assert rse0 <= RadiusSq(l, Hit(t, l, FLAT).value) <= rse1;
  }

  /** When the radius ranges do not overlap there is nothing to find. */
  lemma OutOfRange(n: Tree, l: Line, a: real, b: real, rse0: real, rse1: real, F: set<Tri>)
    requires Exact(n, l) && Spans(l, a, b, rse0, rse1) && (rse0 > Hi(n) || rse1 < Lo(n))
    ensures Seen(n, l, a, b, F)
  {
    if t :| t in Held(n) && Hit(t, l, FLAT).Some? && a <= Hit(t, l, FLAT).value <= b {
      HitOverlaps(n, l, a, b, rse0, rse1, t);
      assert false;
    }
  }

  /** When the guard fails there is nothing to find, or nothing that is more extreme. */
  lemma NotWorth(n: Tree, l: Line, a: real, b: real, t0: real, t1: real, rse0: real, rse1: real, lp: Extremes)
    requires Exact(n, l) && Spans(l, a, b, rse0, rse1) && t0 <= a && b <= t1
    requires !Worth(n, rse0, rse1, t0, t1, lp.lo, lp.hi)
    ensures Covered(n, l, a, b, lp)
  {
    if rse0 > Hi(n) || rse1 < Lo(n) {
      OutOfRange(n, l, a, b, rse0, rse1, {});
    }
  }

  /** All hits between a and b are on the side n1 when the line stays clear of the plane there. */
  lemma OneSide(n: Tree, l: Line, a: real, b: real, F: set<Tri>)
    requires n.Node? && Exact(n, l)
    requires forall s | a <= s <= b :: Margin(n.pe, PointAt(l, s)) != 0.0
    ensures (forall s | a <= s <= b :: Margin(n.pe, PointAt(l, s)) > 0.0) && Seen(n.po, l, a, b, F) ==>
      Seen(n, l, a, b, F)
    ensures (forall s | a <= s <= b :: Margin(n.pe, PointAt(l, s)) < 0.0) && Seen(n.ne, l, a, b, F) ==>
      Seen(n, l, a, b, F)
  {
    forall t | t in Held(n) && Hit(t, l, FLAT).Some? && a <= Hit(t, l, FLAT).value <= b
      ensures Margin(n.pe, PointAt(l, Hit(t, l, FLAT).value)) > 0.0 ==> t in Held(n.po)
      ensures Margin(n.pe, PointAt(l, Hit(t, l, FLAT).value)) < 0.0 ==> t in Held(n.ne)
    {
      assert HitOk(t, l);
      ConeGoes(n.pe, t, PointAt(l, Hit(t, l, FLAT).value));
    }
  }

  /** The sub-tree on the side of the plane where the line is before it meets the plane, and the other one. */
  ghost predicate Sides(n: Tree, l: Line, n1: Tree, n2: Tree)
    requires n.Node?
  {
    && Along(n.pe, l.vv) != 0.0
    && n1 == (if Along(n.pe, l.vv) < 0.0 then n.po else n.ne)
    && n2 == (if Along(n.pe, l.vv) < 0.0 then n.ne else n.po)
  }

  /** Hits before the plane are on the first side, hits after it on the second, and a hit on it on one of them. */
  lemma BothSides(n: Tree, l: Line, a: real, b: real, n1: Tree, n2: Tree, F: set<Tri>)
    requires n.Node? && Exact(n, l) && Sides(n, l, n1, n2)
    requires Seen(n1, l, a, Meet(n.pe, l), F) && Seen(n2, l, Meet(n.pe, l), b, F)
    ensures Seen(n, l, a, b, F)
  {
    forall t | t in Held(n) && Hit(t, l, FLAT).Some? && a <= Hit(t, l, FLAT).value <= b
      ensures t in F
    {
      var s := Hit(t, l, FLAT).value;
      assert HitOk(t, l);
      ConeGoes(n.pe, t, PointAt(l, s));
      MeetSign(n.pe, l, s);
      assert s < Meet(n.pe, l) ==> t in Held(n1);
      assert s > Meet(n.pe, l) ==> t in Held(n2);
      assert t in Held(n1) || t in Held(n2);
    }
  }

  lemma BothSidesCovered(n: Tree, l: Line, a: real, b: real, n1: Tree, n2: Tree, lp: Extremes)
    requires n.Node? && Exact(n, l) && Sides(n, l, n1, n2)
    requires Covered(n1, l, a, Meet(n.pe, l), lp) && Covered(n2, l, Meet(n.pe, l), b, lp)
    ensures Covered(n, l, a, b, lp)
  {
    var F := Within(Held(n), l, lp);
    CoveredSeen(n1, l, a, Meet(n.pe, l), lp, Held(n));
    CoveredSeen(n2, l, Meet(n.pe, l), b, lp, Held(n));
    BothSides(n, l, a, b, n1, n2, F);
    CoveredSeen(n, l, a, b, lp, Held(n));
  }

  lemma ExactSides(n: Tree, l: Line)
    requires n.Node? && Exact(n, l)
    ensures Exact(n.po, l) && Exact(n.ne, l)
  {
  }

  lemma SpansEff(l: Line, tc: real, t0: real, a: real, b: real, t1: real)
    requires Nearest(l, tc) && t0 <= a && b <= t1
    ensures Spans(l, a, b, EffMin(t0, RadiusSq(l, a), t1, RadiusSq(l, b), tc, RadiusSq(l, tc)),
                  EffMax(t0, RadiusSq(l, a), t1, RadiusSq(l, b), tc, RadiusSq(l, tc)))
  {
    forall s | a <= s <= b
      ensures EffMin(t0, RadiusSq(l, a), t1, RadiusSq(l, b), tc, RadiusSq(l, tc)) <= RadiusSq(l, s)
      ensures RadiusSq(l, s) <= EffMax(t0, RadiusSq(l, a), t1, RadiusSq(l, b), tc, RadiusSq(l, tc))
    {
      EffRange(l, tc, t0, a, b, t1, s);
    }
  }

  /** A segment that does not meet the plane is wholly on the side of its middle. */
  lemma StaysClear(n: Tree, l: Line, a: real, b: real, t0: real, t1: real, s: real)
    requires n.Node? && LineClear(n, l) && t0 <= a <= s <= b <= t1
    requires Abs(Along(n.pe, l.vv)) < FLAT || Meet(n.pe, l) < t0 || Meet(n.pe, l) > t1
    ensures Margin(n.pe, PointAt(l, s)) != 0.0
    ensures Margin(n.pe, PointAt(l, s)) > 0.0 <==> Margin(n.pe, PointAt(l, 0.5 * (t0 + t1))) >= 0.0
  {
    var m := 0.5 * (t0 + t1);
    if Abs(Along(n.pe, l.vv)) < FLAT {
      MarginAt(n.pe, l, s);
      MarginAt(n.pe, l, m);
      assert s * 0.0 == 0.0 && m * 0.0 == 0.0;
    } else {
      MeetSign(n.pe, l, s);
      MeetSign(n.pe, l, m);
    }
  }

  /** The search down one side is enough when the segment stays clear of the plane. */
  lemma SideEnough(n: Tree, l: Line, a: real, b: real, t0: real, t1: real, side: Tree, F: set<Tri>)
    requires n.Node? && Exact(n, l) && t0 <= a && b <= t1
    requires Abs(Along(n.pe, l.vv)) < FLAT || Meet(n.pe, l) < t0 || Meet(n.pe, l) > t1
    requires side == if Margin(n.pe, PointAt(l, 0.5 * (t0 + t1))) >= 0.0 then n.po else n.ne
    requires Seen(side, l, a, b, F)
    ensures Seen(n, l, a, b, F)
  {
    forall s | a <= s <= b
      ensures Margin(n.pe, PointAt(l, s)) != 0.0
      ensures Margin(n.pe, PointAt(l, s)) > 0.0 <==> Margin(n.pe, PointAt(l, 0.5 * (t0 + t1))) >= 0.0
    {
      StaysClear(n, l, a, b, t0, t1, s);
    }
    OneSide(n, l, a, b, F);
  }

  lemma SideCovered(n: Tree, l: Line, a: real, b: real, t0: real, t1: real, side: Tree, lp: Extremes)
    requires n.Node? && Exact(n, l) && t0 <= a && b <= t1
    requires Abs(Along(n.pe, l.vv)) < FLAT || Meet(n.pe, l) < t0 || Meet(n.pe, l) > t1
    requires side == if Margin(n.pe, PointAt(l, 0.5 * (t0 + t1))) >= 0.0 then n.po else n.ne
    requires Covered(side, l, a, b, lp)
    ensures Covered(n, l, a, b, lp)
  {
    CoveredSeen(side, l, a, b, lp, Held(n));
    SideEnough(n, l, a, b, t0, t1, side, Within(Held(n), l, lp));
    CoveredSeen(n, l, a, b, lp, Held(n));
  }

  /** A call is in order: the ghost segment from a to b lies within the searched one, and the radius arguments belong to
      it. */
  ghost predicate Call(np: Tree, l: Line, t0: real, rs0: real, t1: real, rs1: real, tc: real, rsc: real, rse0: real,
      rse1: real, a: real, b: real) {
    && Exact(np, l) && Nearest(l, tc) && rsc == RadiusSq(l, tc)
    && t0 <= a && b <= t1 && rs0 == RadiusSq(l, a) && rs1 == RadiusSq(l, b)
    && Spans(l, a, b, rse0, rse1)
  }

  /** Search the tree n for the segment from t0 to t1. The ghost segment from a to b is what the radius arguments are
      about; if the call is in order, every hit on it is within the extremes afterwards. */
  method VectorIsectRec(np: Tree, l: Line, t0: real, rs0: real, t1: real, rs1: real, tc: real, rsc: real, rse0: real,
      rse1: real, lp: Extremes, ghost a: real, ghost b: real, ghost S: set<Tri>, ghost ok: bool)
    requires Real(lp, S, l, FLAT) && Held(np) <= S
    requires ok ==> Call(np, l, t0, rs0, t1, rs1, tc, rsc, rse0, rse1, a, b)
    modifies lp
    ensures Real(lp, S, l, FLAT) && lp.lo <= old(lp.lo) && lp.hi >= old(lp.hi)
    ensures ok ==> Covered(np, l, a, b, lp)
    decreases np, 1
  {
    match np
    case Leaf(t) =>
      HitAll([t], l, FLAT, lp, S);
    case Leaves(ts, _, _) =>
      HitAll(ts, l, FLAT, lp, S);
    case Node(pe, _, _, po, ne) =>
      var den := Along(pe, l.vv);
      var ti: real := *;
      if Abs(den) > FLAT {
        ti := Meet(pe, l);
      }
      if Abs(den) < FLAT || ti < t0 - NEARBY || ti > t1 + NEARBY {
        var ds := Margin(pe, PointAt(l, 0.5 * (t0 + t1)));
        var side := if ds >= 0.0 then po else ne;
        if Worth(side, rse0, rse1, t0, t1, lp.lo, lp.hi) {
          VectorIsectRec(side, l, t0, rs0, t1, rs1, tc, rsc, rse0, rse1, lp, a, b, S, ok);
        } else if ok {
          NotWorth(side, l, a, b, t0, t1, rse0, rse1, lp);
        }
        if ok {
          SideCovered(np, l, a, b, t0, t1, side, lp);
        }
      } else {
        SplitSegment(np, l, t0, rs0, t1, rs1, tc, rsc, ti, lp, a, b, S, ok);
      }
  }

  /** Split the segment where it meets the plane of np, and search each part on its side. */
  method SplitSegment(np: Tree, l: Line, t0: real, rs0: real, t1: real, rs1: real, tc: real, rsc: real, ti: real,
                      lp: Extremes, ghost a: real, ghost b: real, ghost S: set<Tri>, ghost ok: bool)
    requires np.Node? && Real(lp, S, l, FLAT) && Held(np) <= S
    requires ok ==> Exact(np, l) && Nearest(l, tc) && rsc == RadiusSq(l, tc) && t0 <= a && b <= t1
    requires ok ==> rs0 == RadiusSq(l, a) && rs1 == RadiusSq(l, b)
    requires ok ==> Along(np.pe, l.vv) != 0.0 && ti == Meet(np.pe, l) && t0 - NEARBY <= ti
    modifies lp
    ensures Real(lp, S, l, FLAT) && lp.lo <= old(lp.lo) && lp.hi >= old(lp.hi)
    ensures ok ==> Covered(np, l, a, b, lp)
    decreases np, 0
  {
    var rsi := RadiusSq(l, ti);
    var rse1_0, rse1_1 := EffMin(t0, rs0, ti, rsi, tc, rsc), EffMax(t0, rs0, ti, rsi, tc, rsc);
    var rse2_0, rse2_1 := EffMin(ti, rsi, t1, rs1, tc, rsc), EffMax(ti, rsi, t1, rs1, tc, rsc);
    var ds := Margin(np.pe, PointAt(l, t0 - 1.0));
    var n1, n2 := if ds >= 0.0 then np.po else np.ne, if ds >= 0.0 then np.ne else np.po;
    var ti1, ti2 := ti + TOUCH, ti - TOUCH;
    if ok {
      ExactSides(np, l);
      SpansEff(l, tc, t0, a, ti, ti);
      SpansEff(l, tc, ti, ti, b, t1);
      FirstSide(np, l, t0, n1, n2);
    }
    if Worth(n1, rse1_0, rse1_1, t0, ti1, lp.lo, lp.hi) {
      VectorIsectRec(n1, l, t0, rs0, ti1, rsi, tc, rsc, rse1_0, rse1_1, lp, a, ti, S, ok);
    } else if ok {
      NotWorth(n1, l, a, ti, t0, ti1, rse1_0, rse1_1, lp);
    }
    if Worth(n2, rse2_0, rse2_1, ti2, t1, lp.lo, lp.hi) {
      VectorIsectRec(n2, l, ti2, rsi, t1, rs1, tc, rsc, rse2_0, rse2_1, lp, ti, b, S, ok);
    } else if ok {
      NotWorth(n2, l, ti, b, ti2, t1, rse2_0, rse2_1, lp);
    }
    if ok {
      BothSidesCovered(np, l, a, b, n1, n2, lp);
    }
  }

  /** The point one unit before the segment is on the side where the line is before it meets the plane. */
  lemma FirstSide(n: Tree, l: Line, t0: real, n1: Tree, n2: Tree)
    requires n.Node? && Along(n.pe, l.vv) != 0.0 && t0 - NEARBY <= Meet(n.pe, l)
    requires n1 == if Margin(n.pe, PointAt(l, t0 - 1.0)) >= 0.0 then n.po else n.ne
    requires n2 == if Margin(n.pe, PointAt(l, t0 - 1.0)) >= 0.0 then n.ne else n.po
    ensures Sides(n, l, n1, n2)
  {
    MeetSign(n.pe, l, t0 - 1.0);
  }

  // ---- the search against the scan

  /** lo and hi are the least and the largest hit parameter, or the start values if there is no hit. */
  ghost predicate ExtremesOf(lo: real, hi: real, S: set<Tri>, l: Line, flat: real)
    requires flat > 0.0
  {
    && (forall t | t in S && Hit(t, l, flat).Some? :: lo <= Hit(t, l, flat).value <= hi)
    && (lo == Ten(68) || (lo < Ten(68) && exists t :: t in S && Hit(t, l, flat) == Some(lo)))
    && (hi == -Ten(68) || (hi > -Ten(68) && exists t :: t in S && Hit(t, l, flat) == Some(hi)))
  }

  lemma ExtremesUnique(lo: real, hi: real, lo': real, hi': real, S: set<Tri>, l: Line, flat: real)
    requires flat > 0.0 && ExtremesOf(lo, hi, S, l, flat) && ExtremesOf(lo', hi', S, l, flat)
    ensures lo == lo' && hi == hi'
  {
  }

  /** The result: whether there is an intersection, the least and the largest parameter, the points there, and the
      triangles that they are on. */
  datatype Isect = Isect(found: bool, mint: real, maxt: real, min: Vec, max: Vec, tmin: Option<Tri>, tmax: Option<Tri>)

  function LineThrough(p1: Vec, p2: Vec, cent: Vec): Line {
    Line(Minus(p1, cent), Minus(p2, p1), cent)
  }

  lemma MarginPlus(p: Plane, x: Vec, y: Vec)
    ensures Margin(p, Plus(x, y)) == Margin(Plane(p.a, p.b, p.c, 0.0), x) + Margin(p, y)
  {
    AddTimes(p.a, x.0, y.0);
    AddTimes(p.b, x.1, y.1);
    AddTimes(p.c, x.2, y.2);
  }

  /** The point where the line meets the plane of t is on that plane. */
  lemma MeetsPlane(t: Tri, l: Line)
    requires Along(t.pe, l.vv) != 0.0
    ensures Margin(t.pe, Plus(PointAt(l, MeetTri(t, l)), l.cent)) == 0.0
  {
    var s, b := MeetTri(t, l), Plus(l.vb, l.cent);
    MarginPlus(t.pe, PointAt(l, s), l.cent);
    MarginPlus(t.pe, l.vb, l.cent);
    MarginAt(Plane(t.pe.a, t.pe.b, t.pe.c, 0.0), l, s);
    assert s * Along(t.pe, l.vv) == -Margin(t.pe, b);
  }

  /** The line through p1 and p2, with parameter 0 at p1 and 1 at p2, passes through x at parameter s. There it meets
      the plane of t, not too flatly, at a place that is no more than 1e-8 outside any edge plane. */
  ghost predicate HitsAt(t: Tri, p1: Vec, p2: Vec, cent: Vec, flat: real, s: real, x: Vec) {
    && x.0 == p1.0 + s * (p2.0 - p1.0) && x.1 == p1.1 + s * (p2.1 - p1.1) && x.2 == p1.2 + s * (p2.2 - p1.2)
    && Margin(t.pe, x) == 0.0
    && !(-flat < t.pe.a * (p2.0 - p1.0) + t.pe.b * (p2.1 - p1.1) + t.pe.c * (p2.2 - p1.2) < flat)
    && forall e | e in t.ee :: Margin(e, (x.0 - cent.0, x.1 - cent.1, x.2 - cent.2)) <= 0.00000001
  }

  /** A hit is just that. */
  lemma HitPlace(t: Tri, p1: Vec, p2: Vec, cent: Vec, flat: real, s: real)
    requires flat > 0.0 && Hit(t, LineThrough(p1, p2, cent), flat) == Some(s)
    ensures HitsAt(t, p1, p2, cent, flat, s, PlaceAt(LineThrough(p1, p2, cent), s))
  {
    var l := LineThrough(p1, p2, cent);
    var x := PlaceAt(l, s);
    MeetsPlane(t, l);
    assert PointAt(l, s) == (x.0 - cent.0, x.1 - cent.1, x.2 - cent.2);
    forall e | e in t.ee
      ensures Margin(e, (x.0 - cent.0, x.1 - cent.1, x.2 - cent.2)) <= 0.00000001
    {
      assert WithinEdge(e, PointAt(l, s), INSIDE);
    }
  }

  /** Conversely such a place is a hit. */
  lemma PlaceHit(t: Tri, p1: Vec, p2: Vec, cent: Vec, flat: real, s: real, x: Vec)
    requires flat > 0.0 && HitsAt(t, p1, p2, cent, flat, s, x)
    ensures Hit(t, LineThrough(p1, p2, cent), flat) == Some(s)
  {
    var l := LineThrough(p1, p2, cent);
    assert Along(t.pe, l.vv) == t.pe.a * (p2.0 - p1.0) + t.pe.b * (p2.1 - p1.1) + t.pe.c * (p2.2 - p1.2);
    var y := PlaceAt(l, s);
    assert x.0 == y.0 && x.1 == y.1 && x.2 == y.2;
    OnceOnPlane(t, l, s, x);
    assert PointAt(l, s) == (x.0 - cent.0, x.1 - cent.1, x.2 - cent.2);
    forall e | e in t.ee
      ensures WithinEdge(e, PointAt(l, s), INSIDE)
    {
    }
  }

  /** A line that is not parallel to the plane of t meets it once. */
  lemma OnceOnPlane(t: Tri, l: Line, s: real, x: Vec)
    requires Along(t.pe, l.vv) != 0.0 && x == PlaceAt(l, s) && Margin(t.pe, x) == 0.0
    ensures s == MeetTri(t, l)
  {
    MarginPlus(t.pe, PointAt(l, s), l.cent);
    MarginPlus(t.pe, l.vb, l.cent);
    MarginAt(Plane(t.pe.a, t.pe.b, t.pe.c, 0.0), l, s);
    var den, m := Along(t.pe, l.vv), Margin(t.pe, Plus(l.vb, l.cent));
    assert s * den == -m;
    assert (-m / den) * den == -m;
  }

  /** The extremes as a result: there is no intersection when an extreme still has its start value. */
  function Outcome(lp: Extremes): Isect
    reads lp
  {
    Isect(lp.lo != Ten(68) && lp.hi != -Ten(68), lp.lo, lp.hi, lp.plo, lp.phi, lp.tlo, lp.thi)
  }

  /** What a result says: there is one exactly if the line hits a triangle of S, and then the triangles are hit, at the
      parameters and the points given, and none is hit before the one or after the other. */
  ghost predicate RightIsect(r: Isect, S: set<Tri>, p1: Vec, p2: Vec, cent: Vec, flat: real)
    requires flat > 0.0
  {
    && (r.found <==> exists t :: t in S && Hit(t, LineThrough(p1, p2, cent), flat).Some?)
    && (r.found ==>
        && OnHeld(r, S, p1, p2, cent, flat)
        && forall t | t in S && Hit(t, LineThrough(p1, p2, cent), flat).Some? ::
             r.mint <= Hit(t, LineThrough(p1, p2, cent), flat).value <= r.maxt)
  }

  /** The triangles returned are of S, and hit at the parameters and the points returned. */
  ghost predicate OnHeld(r: Isect, S: set<Tri>, p1: Vec, p2: Vec, cent: Vec, flat: real) {
    && r.tmin.Some? && r.tmin.value in S && HitsAt(r.tmin.value, p1, p2, cent, flat, r.mint, r.min)
    && r.tmax.Some? && r.tmax.value in S && HitsAt(r.tmax.value, p1, p2, cent, flat, r.maxt, r.max)
  }

  lemma OutcomeHeld(lp: Extremes, r: Isect, S: set<Tri>, p1: Vec, p2: Vec, cent: Vec, flat: real)
    requires flat > 0.0 && Real(lp, S, LineThrough(p1, p2, cent), flat) && r == Outcome(lp) && r.found
    ensures OnHeld(r, S, p1, p2, cent, flat)
  {
    HitPlace(r.tmin.value, p1, p2, cent, flat, r.mint);
    HitPlace(r.tmax.value, p1, p2, cent, flat, r.maxt);
  }

  /** No hit is beyond the values that the extremes start from. */
  ghost predicate Bounded(S: set<Tri>, l: Line, flat: real)
    requires flat > 0.0
  {
    forall t | t in S && Hit(t, l, flat).Some? :: -Ten(68) < Hit(t, l, flat).value < Ten(68)
  }

  lemma OutcomeRight(lp: Extremes, r: Isect, S: set<Tri>, p1: Vec, p2: Vec, cent: Vec, flat: real)
    requires flat > 0.0 && r == Outcome(lp) && Bounded(S, LineThrough(p1, p2, cent), flat)
    requires Real(lp, S, LineThrough(p1, p2, cent), flat)
    requires forall t | t in S && Hit(t, LineThrough(p1, p2, cent), flat).Some? ::
               Reaches(lp, Hit(t, LineThrough(p1, p2, cent), flat).value)
    ensures RightIsect(r, S, p1, p2, cent, flat)
  {
    if r.found {
      OutcomeHeld(lp, r, S, p1, p2, cent, flat);
      assert Hit(lp.tlo.value, LineThrough(p1, p2, cent), flat).Some?;
    }
    if t :| t in S && Hit(t, LineThrough(p1, p2, cent), flat).Some? {
      assert Reaches(lp, Hit(t, LineThrough(p1, p2, cent), flat).value);
    }
  }

  /** The scan over all triangles. */
  method ComputeVectorIsectBf(tris: seq<Tri>, p1: Vec, p2: Vec, cent: Vec) returns (r: Isect)
    ensures ExtremesOf(r.mint, r.maxt, Elems(tris), LineThrough(p1, p2, cent), FLATBF)
    ensures r.found ==> OnHeld(r, Elems(tris), p1, p2, cent, FLATBF)
    ensures Bounded(Elems(tris), LineThrough(p1, p2, cent), FLATBF) ==>
      RightIsect(r, Elems(tris), p1, p2, cent, FLATBF)
  {
    var lp := new Extremes();
    var l := LineThrough(p1, p2, cent);
    ghost var S := Elems(tris);
    HitAll(tris, l, FLATBF, lp, S);
    r := Outcome(lp);
    if r.found {
      OutcomeHeld(lp, r, S, p1, p2, cent, FLATBF);
    }
    if Bounded(S, l, FLATBF) {
      OutcomeRight(lp, r, S, p1, p2, cent, FLATBF);
    }
  }

  /** All hits are within the searched range of parameters. */
  ghost predicate InReach(n: Tree, l: Line) {
    forall t | t in Held(n) && Hit(t, l, FLAT).Some? :: -Ten(6) <= Hit(t, l, FLAT).value <= Ten(6)
  }

  const SMALL: real := 0.000000000001

  lemma ReachBounded(n: Tree, l: Line)
    requires InReach(n, l)
    ensures Bounded(Held(n), l, FLAT)
  {
    SixBelow();
  }

  lemma SixBelow()
    ensures Ten(6) < Ten(68)
  {
  }

  /** The search through the tree. */
  method ComputeVectorIsect(lutree: Tree, p1: Vec, p2: Vec, cent: Vec) returns (r: Isect)
    ensures var l := LineThrough(p1, p2, cent);
      Dot(l.vv, l.vv) >= SMALL && Exact(lutree, l) && InReach(lutree, l) ==>
        ExtremesOf(r.mint, r.maxt, Held(lutree), l, FLAT) && RightIsect(r, Held(lutree), p1, p2, cent, FLAT)
    ensures r.found ==> OnHeld(r, Held(lutree), p1, p2, cent, FLAT)
    ensures Dot(Minus(p2, p1), Minus(p2, p1)) < 0.000000000001 ==> !r.found
  {
    var l := LineThrough(p1, p2, cent);
    var lp := new Extremes();
    if Dot(l.vv, l.vv) < SMALL {
      return Outcome(lp);
    }
    var t0, t1 := -Ten(6), Ten(6);
    var rs0, rs1 := RadiusSq(l, t0), RadiusSq(l, t1);
    var tc := -Dot(l.vv, l.vb) / Dot(l.vv, l.vv);
    var rsc := RadiusSq(l, tc);
    NearestAt(l);
    var rse0, rse1 := EffMin(t0, rs0, t1, rs1, tc, rsc), EffMax(t0, rs0, t1, rs1, tc, rsc);
    SpansEff(l, tc, t0, t0, t1, t1);
    ghost var ok := Exact(lutree, l) && InReach(lutree, l);
    VectorIsectRec(lutree, l, t0, rs0, t1, rs1, tc, rsc, rse0, rse1, lp, t0, t1, Held(lutree), ok);
    r := Outcome(lp);
    if r.found {
      OutcomeHeld(lp, r, Held(lutree), p1, p2, cent, FLAT);
    }
    if ok {
      ReachBounded(lutree, l);
      OutcomeRight(lp, r, Held(lutree), p1, p2, cent, FLAT);
    }
  }

  /** The two agree on every line that is exact for the tree, unless the line is almost, but not quite, parallel to a
      triangle. */
  lemma SearchIsScan(n: Tree, tris: seq<Tri>, l: Line, lo: real, hi: real, lo': real, hi': real)
    requires TreeOf(n, tris)
    requires forall t | t in tris :: Abs(Along(t.pe, l.vv)) < FLAT || Abs(Along(t.pe, l.vv)) >= FLATBF
    requires ExtremesOf(lo, hi, Held(n), l, FLAT) && ExtremesOf(lo', hi', Elems(tris), l, FLATBF)
    ensures lo == lo' && hi == hi'
  {
    HeldList(n, tris);
    forall t | t in Held(n)
      ensures Hit(t, l, FLAT) == Hit(t, l, FLATBF)
    {
    }
    ExtremesUnique(lo, hi, lo', hi', Held(n), l, FLATBF);
  }
}
