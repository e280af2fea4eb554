/** All intersections of a line with the surface: the search that collects them, and the pairs made of them. */
module VectorList {
  import opened PlaneEq
  import opened PowersOfTen
  import opened Wrappers
  import opened Bsp
  import opened Cone
  import opened BspSearch
  import opened BspVector
  import opened Isectns

  /** The entry for the hit on t at ti. */
  function Entry(t: Tri, l: Line, ti: real): Crossing {
    Crossing(ti, if Along(t.pe, l.vv) > 0.0 then 1 else 0, if Passes(t, PointAt(l, ti), 0.0) then 0 else 1, t)
  }

  /** A hit goes in if the line is on the positive side of the triangle's plane after it, and is sure if it is outside
      no edge plane. */
  lemma EntrySide(t: Tri, l: Line, s: real, u: real)
    requires Hit(t, l, FLAT) == Some(s) && u > s
    ensures Entry(t, l, s).dir == if Margin(t.pe, PlaceAt(l, u)) > 0.0 then 1 else 0
    ensures Entry(t, l, s).edge == 0 <==> forall e | e in t.ee :: Margin(e, PointAt(l, s)) <= 0.0
  {
    var q := Plane(t.pe.a, t.pe.b, t.pe.c, 0.0);
    MeetsPlane(t, l);
    MarginPlus(t.pe, PointAt(l, s), l.cent);
    MarginPlus(t.pe, PointAt(l, u), l.cent);
    MarginAt(q, l, s);
    MarginAt(q, l, u);
    assert Margin(t.pe, PlaceAt(l, u)) == (u - s) * Along(t.pe, l.vv);
    SignTimes(Along(t.pe, l.vv), u - s);
    assert forall e | e in t.ee :: WithinEdge(e, PointAt(l, s), 0.0) <==> Margin(e, PointAt(l, s)) <= 0.0;
  }

  /** Evaluated again, a hit is what the moved line has there, or no hit any more. */
  lemma ReevalIs(x: Crossing, l: Line)
    ensures match Hit(x.tri, l, FLAT)
            case None => Reeval(x, l) == x.(dir := 0, edge := 2)
            case Some(s) => Reeval(x, l) == Entry(x.tri, l, s).(pv := x.pv)
  {
  }

  /** Each entry is the hit of the line on a triangle of S. */
  ghost predicate AllHits(hits: seq<Crossing>, l: Line, S: set<Tri>) {
    forall k | 0 <= k < |hits| ::
      hits[k].tri in S && Hit(hits[k].tri, l, FLAT) == Some(hits[k].pv) && hits[k] == Entry(hits[k].tri, l, hits[k].pv)
  }

  ghost function TrisOf(hits: seq<Crossing>): set<Tri> {
    set x | x in hits :: x.tri
  }

  lemma TrisGrow(h: seq<Crossing>, h': seq<Crossing>)
    requires h <= h'
    ensures TrisOf(h) <= TrisOf(h')
  {
    forall t | t in TrisOf(h)
      ensures t in TrisOf(h')
    {
      var x :| x in h && x.tri == t;
      assert x in h';
    }
  }

  lemma SeenMore(n: Tree, l: Line, a: real, b: real, F: set<Tri>, F': set<Tri>)
    requires Seen(n, l, a, b, F) && F <= F'
    ensures Seen(n, l, a, b, F')
  {
  }

  /** Add the hits on the triangles of a list, as long as there is room. */
  method CollectAll(ts: seq<Tri>, l: Line, ll: nat, hits0: seq<Crossing>, ghost S: set<Tri>)
    returns (hits: seq<Crossing>)
    requires AllHits(hits0, l, S) && |hits0| <= ll && forall t | t in ts :: t in S
    ensures AllHits(hits, l, S) && |hits| <= ll && hits0 <= hits
    ensures |hits| < ll ==> forall t | t in ts && Hit(t, l, FLAT).Some? :: t in TrisOf(hits)
  {
    hits := hits0;
    for i := 0 to |ts|
      invariant AllHits(hits, l, S) && |hits| <= ll && hits0 <= hits
      invariant |hits| < ll ==> forall k | 0 <= k < i && Hit(ts[k], l, FLAT).Some? :: ts[k] in TrisOf(hits)
    {
      hits := CollectOne(ts[i], l, ll, hits, S);
    }
  }

  method CollectOne(t: Tri, l: Line, ll: nat, hits0: seq<Crossing>, ghost S: set<Tri>) returns (hits: seq<Crossing>)
    requires AllHits(hits0, l, S) && |hits0| <= ll && t in S
    ensures AllHits(hits, l, S) && |hits| <= ll && hits0 <= hits && TrisOf(hits0) <= TrisOf(hits)
    ensures |hits| < ll && Hit(t, l, FLAT).Some? ==> t in TrisOf(hits)
  {
    hits := hits0;
    var den := Along(t.pe, l.vv);
    if Abs(den) < FLAT {
      return;
    }
    var ti := -Margin(t.pe, Plus(l.vb, l.cent)) / den;
    if !Passes(t, PointAt(l, ti), INSIDE) {
      return;
    }
    if |hits| < ll {
      hits := hits + [Entry(t, l, ti)];
      assert Entry(t, l, ti) in hits;
      TrisGrow(hits0, hits);
    }
  }

  /** The guard of a recursive call when all hits are wanted: the radius ranges overlap. */
  predicate Near(n: Tree, rse0: real, rse1: real) {
    rse0 <= Hi(n) && rse1 >= Lo(n)
  }

  /** Collect the hits of the segment from t0 to t1 on the triangles of np. */
  method CollectRec(np: Tree, l: Line, t0: real, rs0: real, t1: real, rs1: real, tc: real, rsc: real, rse0: real,
      rse1: real, ll: nat, hits0: seq<Crossing>, ghost a: real, ghost b: real, ghost S: set<Tri>, ghost ok: bool)
    returns (hits: seq<Crossing>)
    requires AllHits(hits0, l, S) && |hits0| <= ll && Held(np) <= S
    requires ok ==> Call(np, l, t0, rs0, t1, rs1, tc, rsc, rse0, rse1, a, b)
    ensures AllHits(hits, l, S) && |hits| <= ll && hits0 <= hits
    ensures ok && |hits| < ll ==> Seen(np, l, a, b, TrisOf(hits))
    decreases np, 1
  {
    match np
    case Leaf(t) =>
      hits := CollectAll([t], l, ll, hits0, S);
    case Leaves(ts, _, _) =>
      hits := CollectAll(ts, l, ll, hits0, S);
    case Node(pe, _, _, po, ne) =>
      var den := Along(pe, l.vv);
      var ti: real := *;
      if Abs(den) > FLAT {
        ti := Meet(pe, l);
      }
      if Abs(den) < FLAT || ti < t0 - NEARBY || ti > t1 + NEARBY {
        var ds := Margin(pe, PointAt(l, 0.5 * (t0 + t1)));
        var side := if ds >= 0.0 then po else ne;
        hits := hits0;
        if Near(side, rse0, rse1) {
          hits := CollectRec(side, l, t0, rs0, t1, rs1, tc, rsc, rse0, rse1, ll, hits0, a, b, S, ok);
        } else if ok {
          OutOfRange(side, l, a, b, rse0, rse1, TrisOf(hits));
        }
        if ok && |hits| < ll {
          SideEnough(np, l, a, b, t0, t1, side, TrisOf(hits));
        }
      } else {
        hits := CollectSplit(np, l, t0, rs0, t1, rs1, tc, rsc, ti, ll, hits0, a, b, S, ok);
      }
  }

  /** Split the segment where it meets the plane of np, and collect from each part on its side. */
  method CollectSplit(np: Tree, l: Line, t0: real, rs0: real, t1: real, rs1: real, tc: real, rsc: real, ti: real,
                      ll: nat, hits0: seq<Crossing>, ghost a: real, ghost b: real, ghost S: set<Tri>, ghost ok: bool)
    returns (hits: seq<Crossing>)
    requires np.Node? && AllHits(hits0, l, S) && |hits0| <= ll && Held(np) <= S
    requires ok ==> Exact(np, l) && Nearest(l, tc) && rsc == RadiusSq(l, tc) && t0 <= a && b <= t1
    requires ok ==> rs0 == RadiusSq(l, a) && rs1 == RadiusSq(l, b)
    requires ok ==> Along(np.pe, l.vv) != 0.0 && ti == Meet(np.pe, l) && t0 - NEARBY <= ti
    ensures AllHits(hits, l, S) && |hits| <= ll && hits0 <= hits
    ensures ok && |hits| < ll ==> Seen(np, l, a, b, TrisOf(hits))
    decreases np, 0
  {
    var rsi := RadiusSq(l, ti);
    var rse1_0, rse1_1 := EffMin(t0, rs0, ti, rsi, tc, rsc), EffMax(t0, rs0, ti, rsi, tc, rsc);
    var rse2_0, rse2_1 := EffMin(ti, rsi, t1, rs1, tc, rsc), EffMax(ti, rsi, t1, rs1, tc, rsc);
    var ds := Margin(np.pe, PointAt(l, t0 - 1.0));
    var n1, n2 := if ds >= 0.0 then np.po else np.ne, if ds >= 0.0 then np.ne else np.po;
    var ti1, ti2 := ti + TOUCH, ti - TOUCH;
    if ok {
      ExactSides(np, l);
      SpansEff(l, tc, t0, a, ti, ti);
      SpansEff(l, tc, ti, ti, b, t1);
      FirstSide(np, l, t0, n1, n2);
    }
    var first := CollectPart(n1, l, t0, rs0, ti1, rsi, tc, rsc, rse1_0, rse1_1, ll, hits0, a, ti, S, ok);
    hits := CollectPart(n2, l, ti2, rsi, t1, rs1, tc, rsc, rse2_0, rse2_1, ll, first, ti, b, S, ok);
    if ok && |hits| < ll {
      TrisGrow(first, hits);
      SeenMore(n1, l, a, ti, TrisOf(first), TrisOf(hits));
      BothSides(np, l, a, b, n1, n2, TrisOf(hits));
    }
  }

  /** Collect from one part, if its radius range overlaps that of the node. */
  method CollectPart(np: Tree, l: Line, t0: real, rs0: real, t1: real, rs1: real, tc: real, rsc: real, rse0: real,
      rse1: real, ll: nat, hits0: seq<Crossing>, ghost a: real, ghost b: real, ghost S: set<Tri>, ghost ok: bool)
    returns (hits: seq<Crossing>)
    requires AllHits(hits0, l, S) && |hits0| <= ll && Held(np) <= S
    requires ok ==> Call(np, l, t0, rs0, t1, rs1, tc, rsc, rse0, rse1, a, b)
    ensures AllHits(hits, l, S) && |hits| <= ll && hits0 <= hits
    ensures ok && |hits| < ll ==> Seen(np, l, a, b, TrisOf(hits))
    decreases np, 2
  {
    if Near(np, rse0, rse1) {
      hits := CollectRec(np, l, t0, rs0, t1, rs1, tc, rsc, rse0, rse1, ll, hits0, a, b, S, ok);
    } else {
      hits := hits0;
      if ok {
        OutOfRange(np, l, a, b, rse0, rse1, TrisOf(hits));
      }
    }
  }

  /** All hits are between -1e6 and 1e6 of the line's length scale from its base point. */
  ghost predicate InReachOf(n: Tree, l: Line, vscale: real) {
    forall t | t in Held(n) && Hit(t, l, FLAT).Some? :: -Ten(6) * vscale <= Hit(t, l, FLAT).value <= Ten(6) * vscale
  }

  lemma HitsFresh(hits: seq<Crossing>, l: Line, S: set<Tri>)
    requires AllHits(hits, l, S)
    ensures AllFresh(hits, |hits|)
  {
    forall k | 0 <= k < |hits|
      ensures Fresh(hits[k])
    {
      assert hits[k] == Entry(hits[k].tri, l, hits[k].pv);
    }
  }

  /** All intersections as pairs of in and out: what is sanitised are hits on triangles of the tree, and when the line
      is exact for the tree and the list is not filled, every triangle that the line hits is among them. */
  method ComputeVectorIsectns(lutree: Tree, p1: Vec, p2: Vec, cent: Vec, vscale: real, ll: nat)
    returns (rv: nat, lp: array<Crossing>, ghost raw: seq<Crossing>, ghost d: seq<Crossing>)
    ensures AllHits(raw, LineThrough(p1, p2, cent), Held(lutree)) && |raw| <= ll
    ensures Distilled(raw, d) && Promised(raw, d, lp[..], rv, vscale)
    ensures rv <= lp.Length && lp[..rv] == Even(Output(d, |d|, vscale, LineThrough(p1, p2, cent), 0, []))
    ensures var l := LineThrough(p1, p2, cent);
      Dot(l.vv, l.vv) >= SMALL && Exact(lutree, l) && InReachOf(lutree, l, vscale) && |raw| < ll ==>
        forall t | t in Held(lutree) && Hit(t, l, FLAT).Some? :: t in TrisOf(raw)
  {
    var l := LineThrough(p1, p2, cent);
    if Dot(l.vv, l.vv) < SMALL {
      lp := new Crossing[0];
      raw, d, rv := [], [], 0;
      FewHits(raw, vscale, l);
      SanitisedAll(raw, d, lp[..], rv, vscale, l);
      return;
    }
    var t0, t1 := -Ten(6) * vscale, Ten(6) * vscale;
    var rs0, rs1 := RadiusSq(l, t0), RadiusSq(l, t1);
    var tc := -Dot(l.vv, l.vb) / Dot(l.vv, l.vv);
    var rsc := RadiusSq(l, tc);
    NearestAt(l);
    var rse0, rse1 := EffMin(t0, rs0, t1, rs1, tc, rsc), EffMax(t0, rs0, t1, rs1, tc, rsc);
    SpansEff(l, tc, t0, t0, t1, t1);
    var hits := CollectRec(lutree, l, t0, rs0, t1, rs1, tc, rsc, rse0, rse1, ll, [], t0, t1, Held(lutree),
      Exact(lutree, l));
    raw := hits;
    HitsFresh(hits, l, Held(lutree));
    lp := new Crossing[|hits|](k requires 0 <= k < |hits| => hits[k]);
    assert lp[..] == hits;
    rv, d := Sanitise(lp, vscale, l);
  }
}
