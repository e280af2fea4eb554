/** Turning raw line hits into alternating in and out intersections, in place. */
module Isectns {
  import opened PlaneEq
  import opened PowersOfTen
  import opened Bsp
  import opened BspVector
  import opened Cone
  import opened Lists
  import Sort

  /** A hit: its parameter, whether it goes in (1) or out (0), whether it is inside the triangle (0), on its edge (1)
      or not a hit any more (2), and the triangle. */
  datatype Crossing = Crossing(pv: real, dir: nat, edge: nat, tri: Tri)

  ghost predicate Fresh(x: Crossing) {
    x.dir <= 1 && x.edge <= 1
  }

  /** The first n hits come in order of their parameter. */
  ghost predicate Rising(s: seq<Crossing>, n: nat)
    requires n <= |s|
  {
    forall i, j | 0 <= i < j < n :: s[i].pv <= s[j].pv
  }

  /** The first n hits are on different triangles. */
  ghost predicate OneEach(s: seq<Crossing>, n: nat)
    requires n <= |s|
  {
    forall i, j | 0 <= i < j < n :: s[i].tri != s[j].tri
  }

  ghost predicate AllFresh(s: seq<Crossing>, n: nat)
    requires n <= |s|
  {
    forall k | 0 <= k < n :: Fresh(s[k])
  }

  function And(a: nat, b: nat): nat
    requires a <= 1 && b <= 1
  {
    if a == 1 && b == 1 then 1 else 0
  }

  /** x is one of the first n hits of s, but perhaps for its edge value and direction. */
  ghost predicate From(x: Crossing, s: seq<Crossing>, n: nat)
    requires n <= |s|
  {
    exists m :: 0 <= m < n && x.tri == s[m].tri && x.pv == s[m].pv
  }

  ghost predicate HasTri(s: seq<Crossing>, lo: nat, hi: nat, t: Tri)
    requires hi <= |s|
  {
    exists m :: lo <= m < hi && s[m].tri == t
  }

  /** Entries from i on have changed in their edge value only. */
  ghost predicate Untouched(s0: seq<Crossing>, s: seq<Crossing>, i: nat) {
    |s| == |s0| && forall k | i <= k < |s| :: s[k].pv == s0[k].pv && s[k].dir == s0[k].dir && s[k].tri == s0[k].tri
  }

  /** No kept entry shares its triangle with an entry still to come. */
  ghost predicate Apart(s: seq<Crossing>, i: nat, j: nat)
    requires j <= i <= |s|
  {
    forall a, b | 0 <= a < j && i <= b < |s| :: s[a].tri != s[b].tri
  }

  ghost predicate Shaped(s0: seq<Crossing>, s: seq<Crossing>, i: nat, j: nat) {
    && j <= i <= |s| == |s0| && AllFresh(s, |s|) && Untouched(s0, s, i)
    && OneEach(s, j) && Apart(s, i, j)
    && (OneEach(s0, |s0|) ==> j == i && s == s0)
  }

  ghost predicate AllFrom(s0: seq<Crossing>, s: seq<Crossing>, i: nat, j: nat)
    requires j <= i <= |s| == |s0|
  {
    forall k | 0 <= k < j :: From(s[k], s0, i)
  }

  ghost predicate AllThere(s0: seq<Crossing>, s: seq<Crossing>, i: nat, j: nat)
    requires j <= i <= |s| == |s0|
  {
    forall m | 0 <= m < i :: HasTri(s, 0, j, s0[m].tri) || HasTri(s, i, |s|, s0[m].tri)
  }

  /** The first i hits have been dealt with, and j of them kept. */
  ghost predicate Deduping(s0: seq<Crossing>, s: seq<Crossing>, i: nat, j: nat) {
    && Shaped(s0, s, i, j) && AllFrom(s0, s, i, j) && AllThere(s0, s, i, j)
    && (Rising(s0, |s0|) ==> Rising(s, j))
  }

  /** What removing duplicates leaves: one hit for each triangle, from the list, in the same order. */
  ghost predicate Deduped(s0: seq<Crossing>, s: seq<Crossing>, n: nat) {
    && n <= |s| == |s0| && OneEach(s, n) && AllFresh(s, n)
    && (forall k | 0 <= k < n :: From(s[k], s0, |s0|))
    && (forall m | 0 <= m < |s0| :: HasTri(s, 0, n, s0[m].tri))
    && (Rising(s0, |s0|) ==> Rising(s, n))
    && (OneEach(s0, |s0|) ==> n == |s0| && s == s0)
  }

  /** The next hit after i on the same triangle, or the length of the list. */
  method NextSame(lp: array<Crossing>, i: nat) returns (k: nat)
    requires i < lp.Length
    ensures i < k <= lp.Length && (forall m | i < m < k :: lp[m].tri != lp[i].tri)
      && (k < lp.Length ==> lp[k].tri == lp[i].tri)
  {
    k := i + 1;
    while k < lp.Length && lp[k].tri != lp[i].tri
      invariant i < k <= lp.Length && forall m | i < m < k :: lp[m].tri != lp[i].tri
    {
      k := k + 1;
    }
  }

  /** Hit i is kept unless a later one has its triangle, which then takes over its edge mark. */
  method DedupeOne(lp: array<Crossing>, i: nat, j: nat, ghost s0: seq<Crossing>) returns (j': nat)
    requires i < lp.Length && j <= i && Deduping(s0, lp[..], i, j)
    modifies lp
    ensures j' <= i + 1 && Deduping(s0, lp[..], i + 1, j')
  {
    ghost var s := lp[..];
    var k := NextSame(lp, i);
    if k < lp.Length {
      lp[k] := lp[k].(edge := And(lp[k].edge, lp[i].edge));
      SkipStep(s0, s, lp[..], i, j, k);
      return j;
    }
    lp[j] := lp[i];
    AcceptStep(s0, s, lp[..], i, j);
    return j + 1;
  }

  /** Keep one hit per triangle, the last one; it counts as on the edge only if the others did. */
  method Dedupe(lp: array<Crossing>) returns (lu: nat)
    requires AllFresh(lp[..], lp.Length)
    modifies lp
    ensures Deduped(old(lp[..]), lp[..], lu)
  {
    ghost var s0 := lp[..];
    var j: nat := 0;
    for i := 0 to lp.Length
      invariant j <= i && Deduping(s0, lp[..], i, j)
    {
      j := DedupeOne(lp, i, j, s0);
    }
    lu := j;
    DedupeDone(s0, lp[..], j);
  }

  lemma DedupeDone(s0: seq<Crossing>, s: seq<Crossing>, j: nat)
    requires Deduping(s0, s, |s0|, j)
    ensures Deduped(s0, s, j)
  {
  }

  lemma SkipStep(s0: seq<Crossing>, s: seq<Crossing>, t: seq<Crossing>, i: nat, j: nat, k: nat)
    requires i < |s| && Deduping(s0, s, i, j)
    requires i < k < |s| && s[k].tri == s[i].tri && s[k].edge <= 1 && s[i].edge <= 1
    requires t == s[k := s[k].(edge := And(s[k].edge, s[i].edge))]
    ensures Deduping(s0, t, i + 1, j)
  {
    SkipShaped(s0, s, t, i, j, k);
    forall a | 0 <= a < j
      ensures From(t[a], s0, i + 1)
    {
      assert From(s[a], s0, i);
    }
    forall m | 0 <= m < i + 1
      ensures HasTri(t, 0, j, s0[m].tri) || HasTri(t, i + 1, |t|, s0[m].tri)
    {
      SkipThere(s0, s, t, i, j, k, m);
    }
  }

  lemma SkipThere(s0: seq<Crossing>, s: seq<Crossing>, t: seq<Crossing>, i: nat, j: nat, k: nat, m: nat)
    requires i < |s| && Shaped(s0, s, i, j) && AllThere(s0, s, i, j) && i < k < |s| == |t| && s[k].tri == s[i].tri
    requires t == s[k := t[k]] && t[k].tri == s[k].tri && m <= i
    ensures HasTri(t, 0, j, s0[m].tri) || HasTri(t, i + 1, |t|, s0[m].tri)
  {
    var x := s0[m].tri;
    if m < i && HasTri(s, 0, j, x) {
      var a :| 0 <= a < j && s[a].tri == x;
      assert t[a].tri == x;
    } else {
      var a := if m == i then i else (var a :| i <= a < |s| && s[a].tri == x; a);
      assert t[if a == i then k else a].tri == x;
    }
  }

  lemma SkipShaped(s0: seq<Crossing>, s: seq<Crossing>, t: seq<Crossing>, i: nat, j: nat, k: nat)
    requires i < |s| && Shaped(s0, s, i, j) && i < k < |s| && s[k].tri == s[i].tri && s[k].edge <= 1 && s[i].edge <= 1
    requires t == s[k := s[k].(edge := And(s[k].edge, s[i].edge))]
    ensures Shaped(s0, t, i + 1, j)
  {
    assert Fresh(s[k]);
    assert s[i].tri == s0[i].tri && s[k].tri == s0[k].tri;
  }

  lemma AcceptShaped(s0: seq<Crossing>, s: seq<Crossing>, t: seq<Crossing>, i: nat, j: nat)
    requires i < |s| && Shaped(s0, s, i, j) && t == s[j := s[i]] && forall m | i < m < |s| :: s[m].tri != s[i].tri
    ensures Shaped(s0, t, i + 1, j + 1)
  {
    assert Fresh(s[i]);
  }

  lemma AcceptFrom(s0: seq<Crossing>, s: seq<Crossing>, t: seq<Crossing>, i: nat, j: nat)
    requires i < |s| && Shaped(s0, s, i, j) && AllFrom(s0, s, i, j) && t == s[j := s[i]]
    ensures AllFrom(s0, t, i + 1, j + 1)
    ensures Rising(s0, |s0|) && Rising(s, j) ==> Rising(t, j + 1)
  {
    forall a | 0 <= a < j + 1
      ensures From(t[a], s0, i + 1)
      ensures Rising(s0, |s0|) ==> t[a].pv <= s[i].pv
    {
      if a < j {
        var m :| 0 <= m < i && s[a].tri == s0[m].tri && s[a].pv == s0[m].pv;
      } else {
        assert t[a].tri == s0[i].tri && t[a].pv == s0[i].pv;
      }
    }
  }

  lemma AcceptStep(s0: seq<Crossing>, s: seq<Crossing>, t: seq<Crossing>, i: nat, j: nat)
    requires i < |s| && Deduping(s0, s, i, j)
    requires t == s[j := s[i]] && forall m | i < m < |s| :: s[m].tri != s[i].tri
    ensures Deduping(s0, t, i + 1, j + 1)
  {
    AcceptShaped(s0, s, t, i, j);
    AcceptFrom(s0, s, t, i, j);
    forall m | 0 <= m < i + 1
      ensures HasTri(t, 0, j + 1, s0[m].tri) || HasTri(t, i + 1, |t|, s0[m].tri)
    {
      AcceptThere(s0, s, t, i, j, m);
    }
  }

  lemma AcceptThere(s0: seq<Crossing>, s: seq<Crossing>, t: seq<Crossing>, i: nat, j: nat, m: nat)
    requires i < |s| && Shaped(s0, s, i, j) && AllThere(s0, s, i, j) && t == s[j := s[i]] && m <= i
    ensures HasTri(t, 0, j + 1, s0[m].tri) || HasTri(t, i + 1, |t|, s0[m].tri)
  {
    var x := s0[m].tri;
    if m < i && HasTri(s, 0, j, x) {
      var a :| 0 <= a < j && s[a].tri == x;
      assert t[a].tri == x;
    } else {
      var a := if m == i then i else (var a :| i <= a < |s| && s[a].tri == x; a);
      assert t[if a == i then j else a].tri == x;
    }
  }

  // ---- re-evaluating hits on a slightly moved line

  /** The line moved by offset along the two axes other than the one that it follows most. */
  function Moved(l: Line, offset: real): Line {
    var (x, y, z) := (Abs(l.vv.0), Abs(l.vv.1), Abs(l.vv.2));
    var vb :=
      if x >= y && x >= z then (l.vb.0, l.vb.1 + offset, l.vb.2 + offset)
      else if y >= z then (l.vb.0 + offset, l.vb.1, l.vb.2 + offset)
      else (l.vb.0 + offset, l.vb.1 + offset, l.vb.2);
    Line(vb, l.vv, l.cent)
  }

  /** The moved line is parallel, and offset aside from one of the axes along which it runs furthest. */
  lemma MovedAside(l: Line, offset: real)
    ensures var m, x, y, z := Moved(l, offset), Square(l.vv.0), Square(l.vv.1), Square(l.vv.2);
      && m.vv == l.vv && m.cent == l.cent
      && var d := Minus(m.vb, l.vb);
         || (d == (0.0, offset, offset) && x >= y && x >= z)
         || (d == (offset, 0.0, offset) && y >= x && y >= z)
         || (d == (offset, offset, 0.0) && z >= x && z >= y)
  {
    SquareAbs(l.vv.0, l.vv.1);
    SquareAbs(l.vv.0, l.vv.2);
    SquareAbs(l.vv.1, l.vv.2);
  }

  /** A hit as the moved line has it: its direction, and whether it is inside its triangle, on an edge or no hit. */
  function Reeval(x: Crossing, l: Line): (r: Crossing)
    ensures r.pv == x.pv && r.tri == x.tri && r.dir <= 1 && r.edge <= 2
  {
    var den := Along(x.tri.pe, l.vv);
    if Abs(den) < FLAT then x.(dir := 0, edge := 2)
    else
      var ip := PointAt(l, MeetTri(x.tri, l));
      if !Passes(x.tri, ip, INSIDE) then x.(dir := 0, edge := 2)
      else x.(dir := if den > 0.0 then 1 else 0, edge := if Passes(x.tri, ip, 0.0) then 0 else 1)
  }

  /** Evaluate the hits from i to k again, on the line moved by offset. */
  method ReevaluateIsectns(lp: array<Crossing>, i: nat, k: nat, offset: real, l: Line)
    requires i <= k <= lp.Length
    modifies lp
    ensures forall m | i <= m < k :: lp[m] == Reeval(old(lp[m]), Moved(l, offset))
    ensures forall m | 0 <= m < i || k <= m < lp.Length :: lp[m] == old(lp[m])
  {
    var moved := Moved(l, offset);
    for m := i to k
      invariant forall a | i <= a < m :: lp[a] == Reeval(old(lp[a]), moved)
      invariant forall a | 0 <= a < i || m <= a < lp.Length :: lp[a] == old(lp[a])
    {
      lp[m] := Reeval(lp[m], moved);
    }
  }

  // ---- what becomes of a group of close hits

  predicate Close(a: real, b: real, vscale: real) {
    Abs((a - b) * vscale) < NEARPV
  }

  lemma CloseIs(a: real, b: real, vscale: real)
    ensures Close(a, b, vscale) <==> -0.0001 < (a - b) * vscale < 0.0001
  {
  }

  /** The hits from i to k, those of the first lu that are close to hit i, up to the next that is not. */
  ghost predicate GroupAt(d: seq<Crossing>, lu: nat, vscale: real, i: nat, k: nat)
    requires lu <= |d|
  {
    && i < k <= lu && (forall m | i < m < k :: Close(d[i].pv, d[m].pv, vscale))
    && (k < lu ==> !Close(d[i].pv, d[k].pv, vscale))
  }

  /** Some hits of a group are of a kind: sure (0) or glancing (1). */
  ghost predicate Some(grp: seq<Crossing>, kind: nat) {
    exists x :: x in grp && x.edge == kind
  }

  ghost predicate AllGo(grp: seq<Crossing>, kind: nat, way: nat) {
    forall x | x in grp && x.edge == kind :: x.dir == way
  }

  /** The sure hits all go one way, or if there are none the glancing ones do. */
  ghost predicate OneWay(grp: seq<Crossing>, way: nat) {
    if Some(grp, 0) then AllGo(grp, 0, way) else Some(grp, 1) && AllGo(grp, 1, way)
  }

  /** What a group adds to the output. If it goes the way that is due, one of its hits, a sure one if there are any. If
      it goes the other way, nothing. If it goes both ways or has no hits left, its first two hits as a segment of no
      length where a way in is due, and nothing where a way out is. */
  ghost predicate Took(grp: seq<Crossing>, out: seq<Crossing>, out': seq<Crossing>) {
    var due := if |out| % 2 == 0 then 1 else 0;
    && (OneWay(grp, due) ==>
        exists x :: x in grp && x.dir == due && x.edge == (if Some(grp, 0) then 0 else 1) && out' == out + [x])
    && (!OneWay(grp, due) && OneWay(grp, 1 - due) ==> out' == out)
    && (!OneWay(grp, 0) && !OneWay(grp, 1) ==>
        if due == 1 then |grp| >= 2 && out' == out + [grp[0].(dir := 1, edge := 1)] + [grp[1].(dir := 0, edge := 1)]
        else out' == out)
  }

  /** A group of more than two hits that are not all sure is evaluated again, on a line moved by 1e-5. */
  ghost function Evaluated(grp: seq<Crossing>, l: Line): (r: seq<Crossing>)
    ensures |r| == |grp|
  {
    if |grp| > 2 && Some(grp, 1)
    then seq(|grp|, m requires 0 <= m < |grp| => Reeval(grp[m], Moved(l, 0.00001)))
    else grp
  }

  /** Group g of the first lu hits takes the output from outs[g] to outs[g + 1]. */
  ghost predicate StepAt(d: seq<Crossing>, lu: nat, vscale: real, l: Line, gs: seq<nat>, outs: seq<seq<Crossing>>,
      g: nat)
    requires lu <= |d| && |gs| == |outs| && g + 1 < |gs|
  {
    && gs[g] < gs[g + 1] <= lu && GroupAt(d, lu, vscale, gs[g], gs[g + 1])
    && Took(Evaluated(d[gs[g]..gs[g + 1]], l), outs[g], outs[g + 1])
  }

  /** The groups of the first lu hits start at the positions gs, and outs is the output before each of them and after
      the last. */
  ghost predicate Traced(d: seq<Crossing>, lu: nat, vscale: real, l: Line, gs: seq<nat>, outs: seq<seq<Crossing>>)
    requires lu <= |d|
  {
    && |gs| == |outs| >= 1 && gs[0] == 0 && outs[0] == [] && gs[|gs| - 1] <= lu
    && forall g: nat | g < |gs| - 1 :: StepAt(d, lu, vscale, l, gs, outs, g)
  }

  lemma TraceNext(d: seq<Crossing>, lu: nat, vscale: real, l: Line, gs: seq<nat>, outs: seq<seq<Crossing>>, k: nat,
      out: seq<Crossing>)
    requires lu <= |d| && Traced(d, lu, vscale, l, gs, outs) && GroupAt(d, lu, vscale, gs[|gs| - 1], k)
    requires Took(Evaluated(d[gs[|gs| - 1]..k], l), outs[|outs| - 1], out)
    ensures Traced(d, lu, vscale, l, gs + [k], outs + [out])
  {
    forall g: nat | g < |gs|
      ensures StepAt(d, lu, vscale, l, gs + [k], outs + [out], g)
    {
      if g < |gs| - 1 {
        assert StepAt(d, lu, vscale, l, gs, outs, g);
      }
    }
  }

  /** Group g goes in if g is even, and out if it is odd. */
  ghost predicate GoesAt(d: seq<Crossing>, l: Line, gs: seq<nat>, g: nat) {
    g + 1 < |gs| && gs[g] <= gs[g + 1] <= |d| &&
    OneWay(Evaluated(d[gs[g]..gs[g + 1]], l), if g % 2 == 0 then 1 else 0)
  }

  /** Entry a of the output is a hit of group a. */
  ghost predicate GaveAt(d: seq<Crossing>, l: Line, gs: seq<nat>, out: seq<Crossing>, a: nat) {
    a + 1 < |gs| && gs[a] <= gs[a + 1] <= |d| && a < |out| && out[a] in Evaluated(d[gs[a]..gs[a + 1]], l)
  }

  lemma TookOne(grp: seq<Crossing>, out: seq<Crossing>, out': seq<Crossing>)
    requires Took(grp, out, out') && OneWay(grp, if |out| % 2 == 0 then 1 else 0)
    ensures |out'| == |out| + 1 && out'[..|out|] == out && out'[|out|] in grp
  {
  }

  /** When the groups go in and out by turns, every group gives one of its hits. */
  lemma {:induction false} ByTurns(d: seq<Crossing>, lu: nat, vscale: real, l: Line, gs: seq<nat>,
      outs: seq<seq<Crossing>>, n: nat)
    requires lu <= |d| && Traced(d, lu, vscale, l, gs, outs) && n < |gs|
    requires forall g: nat | g < n :: GoesAt(d, l, gs, g)
    ensures |outs[n]| == n && forall a: nat | a < n :: GaveAt(d, l, gs, outs[n], a)
  {
    if n > 0 {
      var g := n - 1;
      ByTurns(d, lu, vscale, l, gs, outs, g);
      assert StepAt(d, lu, vscale, l, gs, outs, g) && GoesAt(d, l, gs, g);
      TookOne(Evaluated(d[gs[g]..gs[n]], l), outs[g], outs[n]);
      forall a: nat | a < n
        ensures GaveAt(d, l, gs, outs[n], a)
      {
        if a < g {
          assert GaveAt(d, l, gs, outs[g], a);
          assert outs[n][..g][a] == outs[g][a];
        }
      }
    }
  }

  // ---- making pairs

  /** How many hits of a group go in or out, surely or on an edge, and the last of each kind. */
  datatype Tally = Tally(nin: nat, nout: nat, npin: nat, npout: nat, inx: nat, outx: nat, pinx: nat, poutx: nat)

  /** A count and its representative are right for the hits of one kind from i to k. */
  ghost predicate Counted(s: seq<Crossing>, i: nat, k: nat, dir: nat, edge: nat, n: nat, rep: nat)
    requires k <= |s|
  {
    if n == 0 then forall m | i <= m < k :: !(s[m].dir == dir && s[m].edge == edge)
    else i <= rep < k && s[rep].dir == dir && s[rep].edge == edge
  }

  ghost predicate Tallied(s: seq<Crossing>, i: nat, k: nat, t: Tally)
    requires k <= |s|
  {
    && Counted(s, i, k, 1, 0, t.nin, t.inx) && Counted(s, i, k, 0, 0, t.nout, t.outx)
    && Counted(s, i, k, 1, 1, t.npin, t.pinx) && Counted(s, i, k, 0, 1, t.npout, t.poutx)
  }

  const NEARPV: real := 0.0001
  const OFFSET: real := 0.00001

  /** One more hit counted. */
  function Tallying(t: Tally, x: Crossing, k: nat): Tally {
    if x.dir != 0 then
      if x.edge == 0 then t.(nin := t.nin + 1, inx := k)
      else if x.edge == 1 then t.(npin := t.npin + 1, pinx := k)
      else t
    else
      if x.edge == 0 then t.(nout := t.nout + 1, outx := k)
      else if x.edge == 1 then t.(npout := t.npout + 1, poutx := k)
      else t
  }

  const NONE: Tally := Tally(0, 0, 0, 0, 0, 0, 0, 0)

  /** The hits from i to k counted. */
  function TallyOf(s: seq<Crossing>, i: nat, k: nat): Tally
    requires i <= k <= |s|
  {
    if k == i then NONE else Tallying(TallyOf(s, i, k - 1), s[k - 1], k - 1)
  }

  lemma TallyStep(s: seq<Crossing>, i: nat, k: nat, t: Tally)
    requires i <= k < |s| && Tallied(s, i, k, t) && s[k].dir <= 1
    ensures Tallied(s, i, k + 1, Tallying(t, s[k], k))
  {
  }

  lemma {:induction false} TallyCounts(s: seq<Crossing>, i: nat, k: nat)
    requires i <= k <= |s| && forall m | i <= m < k :: s[m].dir <= 1
    ensures Tallied(s, i, k, TallyOf(s, i, k))
    decreases k
  {
    if i < k {
      TallyCounts(s, i, k - 1);
      TallyStep(s, i, k - 1, TallyOf(s, i, k - 1));
    }
  }

  lemma {:induction false} TallySame(s: seq<Crossing>, s': seq<Crossing>, i: nat, k: nat)
    requires i <= k <= |s| && k <= |s'| && forall m | i <= m < k :: s[m] == s'[m]
    ensures TallyOf(s, i, k) == TallyOf(s', i, k)
    decreases k
  {
    if i < k {
      TallySame(s, s', i, k - 1);
    }
  }

  /** The first position from k on that is not close to hit i. */
  function EndFrom(d: seq<Crossing>, lu: nat, vscale: real, i: nat, k: nat): (e: nat)
    requires i < k <= lu <= |d|
    ensures k <= e <= lu
    decreases lu - k
  {
    if k < lu && Close(d[i].pv, d[k].pv, vscale) then EndFrom(d, lu, vscale, i, k + 1) else k
  }

  /** Where the group of hit i ends. */
  function EndOf(d: seq<Crossing>, lu: nat, vscale: real, i: nat): (e: nat)
    requires i < lu <= |d|
    ensures i < e <= lu
  {
    EndFrom(d, lu, vscale, i, i + 1)
  }

  lemma {:induction false} EndGroup(d: seq<Crossing>, lu: nat, vscale: real, i: nat, k: nat)
    requires i < k <= lu <= |d| && forall m | i < m < k :: Close(d[i].pv, d[m].pv, vscale)
    ensures GroupAt(d, lu, vscale, i, EndFrom(d, lu, vscale, i, k))
    decreases lu - k
  {
    if k < lu && Close(d[i].pv, d[k].pv, vscale) {
      EndGroup(d, lu, vscale, i, k + 1);
    }
  }

  lemma {:induction false} EndSame(s: seq<Crossing>, s': seq<Crossing>, lu: nat, vscale: real, i: nat, k: nat)
    requires i < k <= lu <= |s| && lu <= |s'| && forall m | i <= m < lu :: s[m].pv == s'[m].pv
    ensures EndFrom(s, lu, vscale, i, k) == EndFrom(s', lu, vscale, i, k)
    decreases lu - k
  {
    if k < lu && Close(s[i].pv, s[k].pv, vscale) {
      EndSame(s, s', lu, vscale, i, k + 1);
    }
  }

  /** The group of hits close to hit i, and what it holds. */
  method Survey(lp: array<Crossing>, i: nat, lu: nat, vscale: real) returns (k: nat, t: Tally)
    requires i < lu <= lp.Length
    ensures k == EndOf(lp[..], lu, vscale, i) && t == TallyOf(lp[..], i, k)
  {
    k, t := i, NONE;
    while k < lu && (k == i || Close(lp[i].pv, lp[k].pv, vscale))
      invariant i <= k <= lu && t == TallyOf(lp[..], i, k)
      invariant k > i ==> EndFrom(lp[..], lu, vscale, i, k) == EndOf(lp[..], lu, vscale, i)
    {
      if lp[k].dir != 0 {
        if lp[k].edge == 0 {
          t := t.(nin := t.nin + 1, inx := k);
        } else if lp[k].edge == 1 {
          t := t.(npin := t.npin + 1, pinx := k);
        }
      } else {
        if lp[k].edge == 0 {
          t := t.(nout := t.nout + 1, outx := k);
        } else if lp[k].edge == 1 {
          t := t.(npout := t.npout + 1, poutx := k);
        }
      }
      k := k + 1;
    }
  }

  /** The list with the group from i to k evaluated again if it is large and not all of it is sure. */
  function EvalGroup(d: seq<Crossing>, i: nat, k: nat, l: Line): (e: seq<Crossing>)
    requires i <= k <= |d|
    ensures |e| == |d| && forall m | 0 <= m < i || k <= m < |d| :: e[m] == d[m]
    ensures forall m | i <= m < k :: e[m] == d[m] || e[m] == Reeval(d[m], Moved(l, OFFSET))
  {
    var t := TallyOf(d, i, k);
    if k - i <= 2 || (t.npin == 0 && t.npout == 0) then d
    else seq(|d|, m requires 0 <= m < |d| => if i <= m < k then Reeval(d[m], Moved(l, OFFSET)) else d[m])
  }

  /** The group at i, re-evaluated once if it is large and not all of it is sure. */
  method Group(lp: array<Crossing>, i: nat, lu: nat, vscale: real, l: Line) returns (k: nat, t: Tally)
    requires i < lu <= lp.Length
    modifies lp
    ensures k == EndOf(old(lp[..]), lu, vscale, i) && lp[..] == EvalGroup(old(lp[..]), i, k, l)
    ensures t == TallyOf(lp[..], i, k)
  {
    ghost var s := lp[..];
    k, t := Survey(lp, i, lu, vscale);
    if k - i <= 2 || (t.npin == 0 && t.npout == 0) {
      return;
    }
    ReevaluateIsectns(lp, i, k, OFFSET, l);
    EndSame(s, lp[..], lu, vscale, i, i + 1);
    k, t := Survey(lp, i, lu, vscale);
  }

  /** The direction that is due at output position a: in and out by turns. */
  function Due(a: nat): (d: nat)
    ensures d <= 1
  {
    if a % 2 == 0 then 1 else 0
  }

  lemma DueNext(a: nat)
    ensures Due(a + 1) == 1 - Due(a) && Due(a + 2) == Due(a)
  {
  }

  /** The output so far is made of hits taken in order from the hits d before position i, in and out by turns. */
  ghost predicate Paired(d: seq<Crossing>, out: seq<Crossing>, i: nat, src: seq<nat>) {
    && i <= |d| && |src| == |out|
    && (forall a, b | 0 <= a < b < |src| :: src[a] < src[b])
    && (forall a | 0 <= a < |src| :: src[a] < i && out[a].tri == d[src[a]].tri && out[a].pv == d[src[a]].pv)
    && (forall a | 0 <= a < |src| :: out[a].dir == Due(a))
  }

  /** Hits that need no sanitising: sure ones, apart from each other, going in and out by turns. */
  ghost predicate Clean(s: seq<Crossing>, n: nat, vscale: real)
    requires n <= |s|
  {
    && n % 2 == 0
    && (forall a | 0 <= a < n :: s[a].edge == 0 && s[a].dir == Due(a))
    && forall a, b | 0 <= a && b == a + 1 && b < n :: !Close(s[a].pv, s[b].pv, vscale)
  }

  /** A group that should be dropped or become a zero length segment: sure both ways, glancing both ways, or no hits any
      more. */
  predicate Both(t: Tally) {
    || (t.nin >= 1 && t.nout >= 1)
    || (t.nin == 0 && t.nout == 0 && t.npin >= 1 && t.npout >= 1)
    || (t.nin == 0 && t.nout == 0 && t.npin == 0 && t.npout == 0)
  }

  /** The representative of a group of one kind. */
  function Representative(t: Tally): nat {
    if t.nin >= 1 then t.inx else if t.nout >= 1 then t.outx else if t.npin >= 1 then t.pinx else t.poutx
  }

  /** A group that is not of both kinds, or a single hit, has a representative: one of its counts is positive. */
  lemma Represented(s: seq<Crossing>, i: nat, k: nat, t: Tally)
    requires i < k <= |s| && Tallied(s, i, k, t) && (k == i + 1 ==> Fresh(s[i])) && (k > i + 1 ==> !Both(t))
    ensures !Both(t) && i <= Representative(t) < k
  {
    if k == i + 1 {
      assert s[i].dir == 0 || s[i].dir == 1;
      assert s[i].edge == 0 || s[i].edge == 1;
    }
  }

  ghost predicate Holds(grp: seq<Crossing>, dir: nat, edge: nat) {
    exists x :: x in grp && x.dir == dir && x.edge == edge
  }

  lemma CountHolds(s: seq<Crossing>, i: nat, k: nat, dir: nat, edge: nat, n: nat, rep: nat)
    requires i <= k <= |s| && Counted(s, i, k, dir, edge, n, rep)
    ensures n >= 1 <==> Holds(s[i..k], dir, edge)
  {
    if n >= 1 {
      assert s[i..k][rep - i] == s[rep];
    } else {
      forall x | x in s[i..k]
        ensures !(x.dir == dir && x.edge == edge)
      {
        var m :| 0 <= m < k - i && s[i..k][m] == x;
        assert s[i + m] == x;
      }
    }
  }

  lemma WayHolds(grp: seq<Crossing>, kind: nat)
    requires forall x | x in grp :: x.dir <= 1
    ensures Some(grp, kind) <==> Holds(grp, 0, kind) || Holds(grp, 1, kind)
    ensures AllGo(grp, kind, 1) <==> !Holds(grp, 0, kind)
    ensures AllGo(grp, kind, 0) <==> !Holds(grp, 1, kind)
  {
    if x :| x in grp && x.edge == kind {
      assert x.dir == 0 || x.dir == 1;
    }
    if !Holds(grp, 0, kind) {
      forall x | x in grp && x.edge == kind
        ensures x.dir == 1
      {
        assert x.dir == 0 || x.dir == 1;
      }
    }
    if !Holds(grp, 1, kind) {
      forall x | x in grp && x.edge == kind
        ensures x.dir == 0
      {
        assert x.dir == 0 || x.dir == 1;
      }
    }
  }

  /** The counts say which way a group goes. */
  lemma TallyWay(s: seq<Crossing>, i: nat, k: nat, t: Tally)
    requires i < k <= |s| && Tallied(s, i, k, t) && forall m | i <= m < k :: s[m].dir <= 1
    ensures Some(s[i..k], 0) <==> t.nin >= 1 || t.nout >= 1
    ensures Some(s[i..k], 1) <==> t.npin >= 1 || t.npout >= 1
    ensures OneWay(s[i..k], 1) <==> t.nout == 0 && (t.nin >= 1 || (t.npin >= 1 && t.npout == 0))
    ensures OneWay(s[i..k], 0) <==> t.nin == 0 && (t.nout >= 1 || (t.npout >= 1 && t.npin == 0))
  {
    CountHolds(s, i, k, 1, 0, t.nin, t.inx);
    CountHolds(s, i, k, 0, 0, t.nout, t.outx);
    CountHolds(s, i, k, 1, 1, t.npin, t.pinx);
    CountHolds(s, i, k, 0, 1, t.npout, t.poutx);
    WayHolds(s[i..k], 0);
    WayHolds(s[i..k], 1);
  }

  /** A group that is not of both kinds goes the way of its representative. */
  lemma RepresentativeWay(s: seq<Crossing>, i: nat, k: nat, t: Tally)
    requires i < k <= |s| && Tallied(s, i, k, t) && (forall m | i <= m < k :: s[m].dir <= 1) && !Both(t)
    ensures i <= Representative(t) < k
    ensures var x := s[Representative(t)];
      x in s[i..k] && x.dir <= 1 && OneWay(s[i..k], x.dir) && !OneWay(s[i..k], 1 - x.dir)
      && x.edge == if Some(s[i..k], 0) then 0 else 1
  {
    TallyWay(s, i, k, t);
    assert s[i..k][Representative(t) - i] == s[Representative(t)];
  }

  lemma TookHit(grp: seq<Crossing>, out: seq<Crossing>, x: Crossing)
    requires x in grp && x.dir <= 1 && OneWay(grp, x.dir) && !OneWay(grp, 1 - x.dir)
    requires x.edge == if Some(grp, 0) then 0 else 1
    ensures Took(grp, out, if x.dir == Due(|out|) then out + [x] else out)
  {
    assert x.dir == 0 || x.dir == 1;
  }

  lemma TookSegment(grp: seq<Crossing>, out: seq<Crossing>)
    requires |grp| >= 2 && !OneWay(grp, 0) && !OneWay(grp, 1)
    ensures Took(grp, out, if Due(|out|) == 1 then out + [grp[0].(dir := 1, edge := 1)] + [grp[1].(dir := 0, edge := 1)]
      else out)
  {
  }

  /** The output after the group from i to k. */
  function Taken(s: seq<Crossing>, i: nat, k: nat, out: seq<Crossing>): seq<Crossing>
    requires i < k <= |s|
  {
    var t := TallyOf(s, i, k);
    if k - i > 1 && Both(t) then
      if Due(|out|) == 1 then out + [s[i].(dir := 1, edge := 1)] + [s[i + 1].(dir := 0, edge := 1)] else out
    else if i <= Representative(t) < k && s[Representative(t)].dir == Due(|out|) then out + [s[Representative(t)]]
    else out
  }

  lemma TakenSame(s: seq<Crossing>, s': seq<Crossing>, i: nat, k: nat, out: seq<Crossing>)
    requires i < k <= |s| && k <= |s'| && forall m | i <= m < k :: s[m] == s'[m]
    ensures Taken(s, i, k, out) == Taken(s', i, k, out)
  {
    TallySame(s, s', i, k);
  }

  /** That is what a group of these hits adds. */
  lemma TakenTook(s: seq<Crossing>, i: nat, k: nat, out: seq<Crossing>)
    requires i < k <= |s| && (forall m | i <= m < k :: s[m].dir <= 1) && (k == i + 1 ==> Fresh(s[i]))
    ensures Took(s[i..k], out, Taken(s, i, k, out))
  {
    var t := TallyOf(s, i, k);
    TallyCounts(s, i, k);
    TallyWay(s, i, k, t);
    if k - i > 1 && Both(t) {
      TookSegment(s[i..k], out);
    } else {
      Represented(s, i, k, t);
      RepresentativeWay(s, i, k, t);
      TookHit(s[i..k], out, s[Representative(t)]);
    }
  }

  /** The whole output, from position i on with out so far. */
  function Output(d: seq<Crossing>, lu: nat, vscale: real, l: Line, i: nat, out: seq<Crossing>): seq<Crossing>
    requires i <= lu <= |d|
    decreases lu - i
  {
    if i == lu then out
    else
      var k := EndOf(d, lu, vscale, i);
      Output(d, lu, vscale, l, k, Taken(EvalGroup(d, i, k, l), i, k, out))
  }

  lemma EvalDirs(d: seq<Crossing>, i: nat, k: nat, l: Line)
    requires i < k <= |d| && forall m | i <= m < k :: Fresh(d[m])
    ensures var e := EvalGroup(d, i, k, l); (forall m | i <= m < k :: e[m].dir <= 1) && (k == i + 1 ==> Fresh(e[i]))
    ensures forall m | i <= m < k :: EvalGroup(d, i, k, l)[m].tri == d[m].tri && EvalGroup(d, i, k, l)[m].pv == d[m].pv
  {
  }

  /** What a group becomes depends on its hits only. */
  lemma GroupSame(s: seq<Crossing>, d: seq<Crossing>, i: nat, k: nat, l: Line, out: seq<Crossing>)
    requires i < k <= |s| && k <= |d| && forall m | i <= m < k :: s[m] == d[m]
    ensures Taken(EvalGroup(s, i, k, l), i, k, out) == Taken(EvalGroup(d, i, k, l), i, k, out)
  {
    TallySame(s, d, i, k);
    forall m | i <= m < k
      ensures EvalGroup(s, i, k, l)[m] == EvalGroup(d, i, k, l)[m]
    {
    }
    TakenSame(EvalGroup(s, i, k, l), EvalGroup(d, i, k, l), i, k, out);
  }

  /** What the group from i to k becomes: nothing, one hit, or a zero length segment. It is written before position
      k. */
  method Decide(lp: array<Crossing>, i: nat, k: nat, t: Tally, j: nat, pdir: nat) returns (j': nat, pdir': nat)
    requires j <= i < k <= lp.Length && pdir == 1 - Due(j) && t == TallyOf(lp[..], i, k)
    requires (forall m | i <= m < k :: lp[m].dir <= 1) && (k == i + 1 ==> Fresh(lp[i]))
    modifies lp
    ensures j' <= k && pdir' == 1 - Due(j')
    ensures lp[..j'] == Taken(old(lp[..]), i, k, old(lp[..j])) && lp[k..] == old(lp[k..])
  {
    DueNext(j);
    j', pdir' := j, pdir;
    TallyCounts(lp[..], i, k);
    if k - i > 1 && Both(t) {
      if pdir == 0 {
        lp[j] := lp[i].(dir := 1, edge := 1);
        lp[j + 1] := lp[i + 1].(dir := 0, edge := 1);
        j' := j + 2;
      }
    } else {
      Represented(lp[..], i, k, t);
      var r := Representative(t);
      if lp[r].dir != pdir {
        lp[j] := lp[r];
        j', pdir' := j + 1, 1 - pdir;
      }
    }
  }

  /** One group becomes at most two hits of the output. */
  method TakeGroup(lp: array<Crossing>, i: nat, lu: nat, j: nat, pdir: nat, vscale: real, l: Line)
    returns (k: nat, j': nat, pdir': nat)
    requires j <= i < lu <= lp.Length && pdir == 1 - Due(j) && forall m | i <= m < lu :: Fresh(lp[m])
    modifies lp
    ensures k == EndOf(old(lp[..]), lu, vscale, i) && j' <= k && pdir' == 1 - Due(j')
    ensures lp[..j'] == Taken(EvalGroup(old(lp[..]), i, k, l), i, k, old(lp[..j])) && lp[k..] == old(lp[k..])
  {
    ghost var s := lp[..];
    var t;
    k, t := Group(lp, i, lu, vscale, l);
    EvalDirs(s, i, k, l);
    assert lp[..j] == s[..j] && lp[k..] == s[k..];
    j', pdir' := Decide(lp, i, k, t, j, pdir);
  }

  /** The output of the first lu hits goes on from where the list, unchanged from position i, has got to. */
  lemma OutputNext(d: seq<Crossing>, s: seq<Crossing>, lu: nat, vscale: real, l: Line, i: nat, out: seq<Crossing>)
    requires i < lu <= |d| == |s| && d[i..] == s[i..]
    ensures var k := EndOf(s, lu, vscale, i);
      Output(d[..lu], lu, vscale, l, i, out) ==
        Output(d[..lu], lu, vscale, l, k, Taken(EvalGroup(s, i, k, l), i, k, out))
  {
    forall m | i <= m < lu
      ensures s[m] == d[..lu][m]
    {
      assert d[i..][m - i] == s[i..][m - i];
    }
    EndSame(s, d[..lu], lu, vscale, i, i + 1);
    GroupSame(s, d[..lu], i, EndOf(s, lu, vscale, i), l, out);
  }

  lemma SuffixFresh(d: seq<Crossing>, s: seq<Crossing>, lu: nat, i: nat)
    requires i <= lu <= |d| == |s| && d[i..] == s[i..] && AllFresh(d, lu)
    ensures forall m | i <= m < lu :: Fresh(s[m])
  {
    forall m | i <= m < lu
      ensures Fresh(s[m])
    {
      assert d[i..][m - i] == s[i..][m - i];
    }
  }

  lemma SuffixLater(d: seq<Crossing>, s: seq<Crossing>, s': seq<Crossing>, i: nat, k: nat)
    requires i <= k <= |d| == |s| == |s'| && d[i..] == s[i..] && s'[k..] == s[k..]
    ensures d[k..] == s'[k..]
  {
    assert d[k..] == d[i..][k - i..] && s[k..] == s[i..][k - i..];
  }

  /** Take the groups one after the other. */
  method TakeGroups(lp: array<Crossing>, lu: nat, vscale: real, l: Line) returns (j: nat)
    requires lu <= lp.Length && AllFresh(lp[..], lu)
    modifies lp
    ensures j <= lu && lp[..j] == Output(old(lp[..lu]), lu, vscale, l, 0, [])
  {
    ghost var d := lp[..];
    var i: nat, pdir: nat := 0, 0;
    j := 0;
    assert d[..lu] == lp[..lu];
    while i < lu
      invariant j <= i <= lu && pdir == 1 - Due(j) && lp[i..] == d[i..]
      invariant Output(d[..lu], lu, vscale, l, i, lp[..j]) == Output(d[..lu], lu, vscale, l, 0, [])
    {
      ghost var s, i0 := lp[..], i;
      OutputNext(d, s, lu, vscale, l, i, s[..j]);
      SuffixFresh(d, s, lu, i);
      i, j, pdir := TakeGroup(lp, i, lu, j, pdir, vscale, l);
      SuffixLater(d, s, lp[..], i0, i);
    }
  }

  // ---- what the output is

  /** A hit of the group with the direction that is due goes on with the turns. */
  lemma PairedMore(d: seq<Crossing>, out: seq<Crossing>, i: nat, k: nat, src: seq<nat>, r: nat, x: Crossing)
    requires Paired(d, out, i, src) && i <= r < k <= |d| && x.tri == d[r].tri && x.pv == d[r].pv && x.dir == Due(|out|)
    ensures Paired(d, out + [x], r + 1, src + [r])
  {
  }

  lemma PairedLater(d: seq<Crossing>, out: seq<Crossing>, i: nat, k: nat, src: seq<nat>)
    requires Paired(d, out, i, src) && i <= k <= |d|
    ensures Paired(d, out, k, src)
  {
  }

  lemma TakenPaired(d: seq<Crossing>, i: nat, k: nat, l: Line, out: seq<Crossing>, src: seq<nat>)
    returns (src': seq<nat>)
    requires Paired(d, out, i, src) && i < k <= |d| && forall m | i <= m < k :: Fresh(d[m])
    ensures Paired(d, Taken(EvalGroup(d, i, k, l), i, k, out), k, src')
  {
    var e := EvalGroup(d, i, k, l);
    var t := TallyOf(e, i, k);
    EvalDirs(d, i, k, l);
    TallyCounts(e, i, k);
    DueNext(|out|);
    src' := src;
    if k - i > 1 && Both(t) {
      if Due(|out|) == 1 {
        var x := e[i].(dir := 1, edge := 1);
        PairedMore(d, out, i, k, src, i, x);
        PairedMore(d, out + [x], i + 1, k, src + [i], i + 1, e[i + 1].(dir := 0, edge := 1));
        src' := src + [i] + [i + 1];
      }
    } else {
      Represented(e, i, k, t);
      var r := Representative(t);
      if e[r].dir == Due(|out|) {
        PairedMore(d, out, i, k, src, r, e[r]);
        src' := src + [r];
      }
    }
    PairedLater(d, Taken(e, i, k, out), if |src'| == |src| then i else src'[|src'| - 1] + 1, k, src');
  }

  /** The output is made of hits of the list, in order, in and out by turns. */
  lemma {:induction false} OutputPaired(d: seq<Crossing>, lu: nat, vscale: real, l: Line, i: nat, out: seq<Crossing>,
      src: seq<nat>) returns (src': seq<nat>)
    requires i <= lu <= |d| && AllFresh(d, lu) && Paired(d, out, i, src)
    ensures Paired(d, Output(d, lu, vscale, l, i, out), lu, src')
    decreases lu - i
  {
    if i == lu {
      src' := src;
    } else {
      var k := EndOf(d, lu, vscale, i);
      var src1 := TakenPaired(d, i, k, l, out, src);
      src' := OutputPaired(d, lu, vscale, l, k, Taken(EvalGroup(d, i, k, l), i, k, out), src1);
    }
  }

  /** In a clean list every group is one hit, with the direction that is due. */
  lemma CleanGroup(d: seq<Crossing>, i: nat, lu: nat, vscale: real, l: Line)
    requires i < lu <= |d| && Clean(d, lu, vscale)
    ensures EndOf(d, lu, vscale, i) == i + 1 && Taken(EvalGroup(d, i, i + 1, l), i, i + 1, d[..i]) == d[..i + 1]
  {
    assert TallyOf(d, i, i) == NONE;
    assert d[..i + 1] == d[..i] + [d[i]];
    if i + 1 < lu {
      assert !Close(d[i].pv, d[i + 1].pv, vscale);
    }
  }

  /** A clean list is its own output. */
  lemma {:induction false} OutputClean(d: seq<Crossing>, lu: nat, vscale: real, l: Line, i: nat)
    requires i <= lu <= |d| && Clean(d, lu, vscale)
    ensures Output(d, lu, vscale, l, i, d[..i]) == d[..lu]
    decreases lu - i
  {
    if i < lu {
      CleanGroup(d, i, lu, vscale, l);
      OutputClean(d, lu, vscale, l, i + 1);
    }
  }

  lemma EvalIs(d: seq<Crossing>, i: nat, k: nat, l: Line)
    requires i < k <= |d| && forall m | i <= m < k :: Fresh(d[m])
    ensures EvalGroup(d, i, k, l)[i..k] == Evaluated(d[i..k], l)
  {
    TallyCounts(d, i, k);
    TallyWay(d, i, k, TallyOf(d, i, k));
  }

  lemma GroupTook(d: seq<Crossing>, i: nat, k: nat, l: Line, out: seq<Crossing>)
    requires i < k <= |d| && forall m | i <= m < k :: Fresh(d[m])
    ensures Took(Evaluated(d[i..k], l), out, Taken(EvalGroup(d, i, k, l), i, k, out))
  {
    EvalDirs(d, i, k, l);
    EvalIs(d, i, k, l);
    TakenTook(EvalGroup(d, i, k, l), i, k, out);
  }

  function Last<A>(s: seq<A>): A
    requires s != []
  {
    s[|s| - 1]
  }

  lemma TraceStep(d: seq<Crossing>, lu: nat, vscale: real, l: Line, gs: seq<nat>, outs: seq<seq<Crossing>>)
    returns (gs': seq<nat>, outs': seq<seq<Crossing>>)
    requires lu <= |d| && AllFresh(d, lu) && Traced(d, lu, vscale, l, gs, outs) && Last(gs) < lu
    ensures Traced(d, lu, vscale, l, gs', outs') && Last(gs) < Last(gs')
    ensures Output(d, lu, vscale, l, Last(gs'), Last(outs')) == Output(d, lu, vscale, l, Last(gs), Last(outs))
  {
    var i, out := Last(gs), Last(outs);
    var k := EndOf(d, lu, vscale, i);
    EndGroup(d, lu, vscale, i, i + 1);
    GroupTook(d, i, k, l, out);
    var out' := Taken(EvalGroup(d, i, k, l), i, k, out);
    TraceNext(d, lu, vscale, l, gs, outs, k, out');
    gs', outs' := gs + [k], outs + [out'];
  }

  /** The output is what the groups add one after the other. */
  lemma {:induction false} OutputTraced(d: seq<Crossing>, lu: nat, vscale: real, l: Line, gs: seq<nat>,
      outs: seq<seq<Crossing>>) returns (gs': seq<nat>, outs': seq<seq<Crossing>>)
    requires lu <= |d| && AllFresh(d, lu) && Traced(d, lu, vscale, l, gs, outs)
    ensures Traced(d, lu, vscale, l, gs', outs') && Last(gs') == lu
    ensures Last(outs') == Output(d, lu, vscale, l, Last(gs), Last(outs))
    decreases lu - Last(gs)
  {
    if Last(gs) == lu {
      gs', outs' := gs, outs;
    } else {
      var gs1, outs1 := TraceStep(d, lu, vscale, l, gs, outs);
      gs', outs' := OutputTraced(d, lu, vscale, l, gs1, outs1);
    }
  }

  /** The list without its last entry if it has an odd number of them. */
  function Even<A>(s: seq<A>): seq<A> {
    s[..|s| - |s| % 2]
  }

  lemma EvenIs(s: seq<Crossing>, j: nat, rv: nat)
    requires j <= |s| && rv == j - j % 2
    ensures s[..rv] == Even(s[..j]) && rv % 2 == 0
  {
  }

  /** Turn the first lu hits into pairs of in and out, in place: a last hit without partner is dropped. */
  method MakePairs(lp: array<Crossing>, lu: nat, vscale: real, l: Line) returns (rv: nat)
    requires lu <= lp.Length && AllFresh(lp[..], lu)
    modifies lp
    ensures rv % 2 == 0 && rv <= lu && lp[..rv] == Even(Output(old(lp[..lu]), lu, vscale, l, 0, []))
  {
    rv := TakeGroups(lp, lu, vscale, l);
    ghost var j := rv;
    if rv % 2 == 1 {
      rv := rv - 1;
    }
    EvenIs(lp[..], j, rv);
    assert lp[..][..j] == lp[..j] && lp[..][..rv] == lp[..rv];
  }

  /** What the sanitised list promises: an even number of hits, in and out by turns, in order of their parameter,
      each on another triangle, and each of them one of the raw hits. */
  ghost predicate Sanitised(raw: seq<Crossing>, s: seq<Crossing>, rv: nat) {
    && rv <= |s| && rv % 2 == 0
    && (forall a | 0 <= a < rv :: s[a].dir == Due(a))
    && Rising(s, rv) && OneEach(s, rv)
    && forall a | 0 <= a < rv :: From(s[a], raw, |raw|)
  }

  predicate Before(x: Crossing, y: Crossing) {
    x.pv < y.pv
  }

  /** Sorting keeps the hits and puts them in order. */
  lemma SortedHits(raw: seq<Crossing>, s: seq<Crossing>)
    requires Sort.Sorted(Before, s) && multiset(s) == multiset(raw) && AllFresh(raw, |raw|)
    ensures |s| == |raw| && Rising(s, |s|) && AllFresh(s, |s|)
    ensures forall x | x in s :: x in raw
  {
    assert |multiset(s)| == |s| && |multiset(raw)| == |raw|;
    forall x | x in s
      ensures x in raw
    {
      assert x in multiset(s);
    }
    forall k | 0 <= k < |s|
      ensures Fresh(s[k])
    {
      assert s[k] in s;
    }
    forall i, j | 0 <= i < j < |s|
      ensures s[i].pv <= s[j].pv
    {
      assert !Before(s[j], s[i]);
    }
  }

  ghost predicate Strict(s: seq<Crossing>) {
    forall i, j | 0 <= i < j < |s| :: s[i].pv < s[j].pv
  }

  lemma LastSame(s: seq<Crossing>, t: seq<Crossing>)
    requires multiset(s) == multiset(t) && Strict(s) && |t| == |s| > 0 && Rising(t, |t|)
    ensures s[|s| - 1] == t[|t| - 1]
  {
    var m := |s| - 1;
    assert s[m] in multiset(t) && t[m] in multiset(s);
    var i :| 0 <= i < |s| && s[i] == t[m];
    var j :| 0 <= j < |t| && t[j] == s[m];
    assert t[j].pv <= t[m].pv;
  }

  lemma RestSame(s: seq<Crossing>, t: seq<Crossing>, m: nat)
    requires multiset(s) == multiset(t) && |t| == |s| == m + 1 && s[m] == t[m]
    ensures multiset(s[..m]) == multiset(t[..m])
  {
    assert s == s[..m] + [s[m]] && t == t[..m] + [t[m]];
    SumCancel(multiset(s[..m]), multiset(t[..m]), multiset([s[m]]));
  }

  /** A list with strictly rising parameters is the only sorted arrangement of its hits. */
  lemma {:induction false} OneOrder(s: seq<Crossing>, t: seq<Crossing>)
    requires multiset(s) == multiset(t) && Strict(s) && |t| == |s| && Rising(t, |t|)
    ensures s == t
    decreases |s|
  {
    if s == [] {
    } else {
      var m := |s| - 1;
      LastSame(s, t);
      RestSame(s, t, m);
      OneOrder(s[..m], t[..m]);
      assert s == s[..m] + [s[m]] && t == t[..m] + [t[m]];
    }
  }

  lemma SameClose(a: real, vscale: real)
    ensures Close(a, a, vscale)
  {
    assert (a - a) * vscale == 0.0;
  }

  /** Clean hits in order have strictly rising parameters. */
  lemma {:induction false} CleanStrict(s: seq<Crossing>, vscale: real, i: nat, j: nat)
    requires Rising(s, |s|) && Clean(s, |s|, vscale) && i < j < |s|
    ensures s[i].pv < s[j].pv
    decreases j
  {
    SameClose(s[j].pv, vscale);
    assert !Close(s[j - 1].pv, s[j].pv, vscale);
    if i < j - 1 {
      CleanStrict(s, vscale, i, j - 1);
    }
  }

  lemma CleanSorted(raw: seq<Crossing>, s: seq<Crossing>, vscale: real)
    requires multiset(s) == multiset(raw) && |s| == |raw| && Rising(s, |s|)
    requires Rising(raw, |raw|) && Clean(raw, |raw|, vscale)
    ensures s == raw
  {
    forall i, j | 0 <= i < j < |raw|
      ensures raw[i].pv < raw[j].pv
    {
      CleanStrict(raw, vscale, i, j);
    }
    OneOrder(raw, s);
  }

  /** One hit for each triangle of the raw hits, in order of the parameter. */
  ghost predicate Distilled(raw: seq<Crossing>, d: seq<Crossing>) {
    && Rising(d, |d|) && OneEach(d, |d|) && AllFresh(d, |d|)
    && (forall k | 0 <= k < |d| :: From(d[k], raw, |raw|))
    && (forall x | x in raw :: HasTri(d, 0, |d|, x.tri))
    && (OneEach(raw, |raw|) ==> multiset(d) == multiset(raw))
  }

  lemma {:induction false} OneEachSame(s: seq<Crossing>, raw: seq<Crossing>)
    requires multiset(s) == multiset(raw) && OneEach(raw, |raw|)
    ensures OneEach(s, |s|)
  {
    forall i, j | 0 <= i < j < |s|
      ensures s[i].tri != s[j].tri
    {
      if s[i].tri == s[j].tri {
        TwiceInRaw(s, raw, i, j);
      }
    }
  }

  /** Two hits of s on one triangle are two hits of raw. */
  lemma TwiceInRaw(s: seq<Crossing>, raw: seq<Crossing>, i: nat, j: nat)
    requires multiset(s) == multiset(raw) && i < j < |s| && s[i].tri == s[j].tri
    ensures !OneEach(raw, |raw|)
  {
    assert s[i] in multiset(raw) && s[j] in multiset(raw);
    var a: nat :| a < |raw| && raw[a] == s[i];
    if s[i] != s[j] {
      var b: nat :| b < |raw| && raw[b] == s[j];
    } else {
      TwiceHeld(s, i, j);
      var b := OtherOne(raw, a);
    }
  }

  lemma TwiceHeld(s: seq<Crossing>, i: nat, j: nat)
    requires i < j < |s| && s[i] == s[j]
    ensures multiset(s)[s[i]] >= 2
  {
    assert s == s[..j] + [s[j]] + s[j + 1..];
    assert s[..j][i] in multiset(s[..j]);
  }

  lemma OtherOne(s: seq<Crossing>, a: nat) returns (b: nat)
    requires a < |s| && multiset(s)[s[a]] >= 2
    ensures b < |s| && b != a && s[b] == s[a]
  {
    assert s == s[..a] + [s[a]] + s[a + 1..];
    if s[a] in multiset(s[..a]) {
      b :| b < a && s[..a][b] == s[a];
    } else {
      assert s[a] in multiset(s[a + 1..]);
      var c: nat :| c < |s| - a - 1 && s[a + 1..][c] == s[a];
      b := a + 1 + c;
    }
  }

  lemma AllStillFrom(raw: seq<Crossing>, sorted: seq<Crossing>, s: seq<Crossing>, lu: nat, k: nat)
    requires lu <= |s| && k < lu && From(s[k], sorted, |sorted|) && forall x | x in sorted :: x in raw
    ensures From(s[..lu][k], raw, |raw|)
  {
    var m :| 0 <= m < |sorted| && s[k].tri == sorted[m].tri && s[k].pv == sorted[m].pv;
    assert sorted[m] in raw;
    var n :| 0 <= n < |raw| && raw[n] == sorted[m];
  }

  lemma StillThere(raw: seq<Crossing>, sorted: seq<Crossing>, s: seq<Crossing>, lu: nat, x: Crossing)
    requires multiset(sorted) == multiset(raw) && lu <= |s| && x in raw
    requires forall m | 0 <= m < |sorted| :: HasTri(s, 0, lu, sorted[m].tri)
    ensures HasTri(s[..lu], 0, lu, x.tri)
  {
    assert x in multiset(sorted);
    var m :| 0 <= m < |sorted| && sorted[m] == x;
    assert HasTri(s, 0, lu, sorted[m].tri);
    var b :| 0 <= b < lu && s[b].tri == sorted[m].tri;
    assert s[..lu][b].tri == x.tri;
  }

  lemma OnceSorted(raw: seq<Crossing>, sorted: seq<Crossing>, s: seq<Crossing>, lu: nat)
    requires multiset(sorted) == multiset(raw) && Deduped(sorted, s, lu) && OneEach(raw, |raw|)
    ensures multiset(s[..lu]) == multiset(raw)
  {
    OneEachSame(sorted, raw);
    assert s[..lu] == sorted;
  }

  lemma DedupedPrefix(s0: seq<Crossing>, s: seq<Crossing>, lu: nat)
    requires Deduped(s0, s, lu) && Rising(s0, |s0|)
    ensures Rising(s[..lu], lu) && OneEach(s[..lu], lu) && AllFresh(s[..lu], lu)
  {
  }

  lemma DistilledFrom(raw: seq<Crossing>, sorted: seq<Crossing>, s: seq<Crossing>, lu: nat)
    requires multiset(sorted) == multiset(raw) && Rising(sorted, |sorted|) && Deduped(sorted, s, lu)
    requires forall x | x in sorted :: x in raw
    ensures Distilled(raw, s[..lu])
  {
    var d := s[..lu];
    DedupedPrefix(sorted, s, lu);
    forall k | 0 <= k < |d|
      ensures From(d[k], raw, |raw|)
    {
      AllStillFrom(raw, sorted, s, lu, k);
    }
    forall x | x in raw
      ensures HasTri(d, 0, |d|, x.tri)
    {
      StillThere(raw, sorted, s, lu, x);
    }
    if OneEach(raw, |raw|) {
      OnceSorted(raw, sorted, s, lu);
    }
  }

  /** What the list holds after sanitising is sound. */
  lemma PairedSanitised(raw: seq<Crossing>, d: seq<Crossing>, out: seq<Crossing>, s: seq<Crossing>, rv: nat,
      src: seq<nat>)
    requires Distilled(raw, d) && Paired(d, out, |d|, src) && rv <= |s| && s[..rv] == Even(out)
    ensures rv % 2 == 0 && Sanitised(raw, s, rv)
  {
    forall a | 0 <= a < rv
      ensures s[a] == out[a]
    {
      assert s[..rv][a] == Even(out)[a];
    }
    forall a | 0 <= a < rv
      ensures From(s[a], raw, |raw|)
    {
      assert From(d[src[a]], raw, |raw|);
    }
  }

  /** Group g of d is not evaluated again, and goes in if g is even, out if it is odd. */
  ghost predicate TurnAt(d: seq<Crossing>, vscale: real, gs: seq<nat>, g: nat) {
    && g + 1 < |gs| && gs[g] < gs[g + 1] <= |d| && GroupAt(d, |d|, vscale, gs[g], gs[g + 1])
    && OneWay(d[gs[g]..gs[g + 1]], if g % 2 == 0 then 1 else 0)
    && (gs[g + 1] - gs[g] <= 2 || !Some(d[gs[g]..gs[g + 1]], 1))
  }

  /** The groups of d start at gs, and they go in and out by turns. */
  ghost predicate Turns(d: seq<Crossing>, vscale: real, gs: seq<nat>) {
    && |gs| >= 1 && gs[0] == 0 && gs[|gs| - 1] == |d|
    && forall g: nat | g < |gs| - 1 :: TurnAt(d, vscale, gs, g)
  }

  /** x is a hit of group a. */
  ghost predicate HitOf(d: seq<Crossing>, gs: seq<nat>, a: nat, x: Crossing) {
    a + 1 < |gs| && gs[a] <= gs[a + 1] <= |d| && x in d[gs[a]..gs[a + 1]]
  }

  lemma {:induction false} TracedBelow(d: seq<Crossing>, vscale: real, l: Line, gs: seq<nat>, outs: seq<seq<Crossing>>,
      g: nat)
    requires Traced(d, |d|, vscale, l, gs, outs) && g < |gs| - 1
    ensures gs[g] < gs[|gs| - 1]
    decreases |gs| - g
  {
    assert StepAt(d, |d|, vscale, l, gs, outs, g);
    if g + 2 < |gs| {
      TracedBelow(d, vscale, l, gs, outs, g + 1);
    }
  }

  lemma {:induction false} TurnsBelow(d: seq<Crossing>, vscale: real, gs: seq<nat>, g: nat)
    requires Turns(d, vscale, gs) && g < |gs| - 1
    ensures gs[g] < |d|
    decreases |gs| - g
  {
    assert TurnAt(d, vscale, gs, g);
    if g + 2 < |gs| {
      TurnsBelow(d, vscale, gs, g + 1);
    }
  }

  lemma GroupOnce(d: seq<Crossing>, lu: nat, vscale: real, i: nat, k: nat, k': nat)
    requires lu <= |d| && GroupAt(d, lu, vscale, i, k) && GroupAt(d, lu, vscale, i, k')
    ensures k == k'
  {
  }

  /** A list has its groups in one way only. */
  lemma {:induction false} SameGroups(d: seq<Crossing>, vscale: real, l: Line, gs: seq<nat>, gs': seq<nat>,
      outs: seq<seq<Crossing>>, g: nat)
    requires Turns(d, vscale, gs) && Traced(d, |d|, vscale, l, gs', outs) && gs'[|gs'| - 1] == |d|
    requires g < |gs| || g < |gs'|
    ensures g < |gs| && g < |gs'| && gs[g] == gs'[g]
    decreases g
  {
    if g > 0 {
      SameGroups(d, vscale, l, gs, gs', outs, g - 1);
      if g < |gs| {
        TurnsBelow(d, vscale, gs, g - 1);
      }
      if g < |gs'| {
        TracedBelow(d, vscale, l, gs', outs, g - 1);
      }
      assert StepAt(d, |d|, vscale, l, gs', outs, g - 1) && TurnAt(d, vscale, gs, g - 1);
      GroupOnce(d, |d|, vscale, gs[g - 1], gs[g], gs'[g]);
    }
  }

  lemma TurnsGo(d: seq<Crossing>, vscale: real, l: Line, gs: seq<nat>)
    requires Turns(d, vscale, gs)
    ensures forall g: nat | g < |gs| - 1 ::
      GoesAt(d, l, gs, g) && Evaluated(d[gs[g]..gs[g + 1]], l) == d[gs[g]..gs[g + 1]]
  {
    forall g: nat | g < |gs| - 1
      ensures GoesAt(d, l, gs, g) && Evaluated(d[gs[g]..gs[g + 1]], l) == d[gs[g]..gs[g + 1]]
    {
      assert TurnAt(d, vscale, gs, g);
    }
  }

  /** Then every group gives one of its hits. */
  lemma TurnsOutput(d: seq<Crossing>, vscale: real, l: Line, gs: seq<nat>)
    requires AllFresh(d, |d|) && Turns(d, vscale, gs)
    ensures var out := Output(d, |d|, vscale, l, 0, []);
      |out| == |gs| - 1 && forall a: nat | a < |out| :: HitOf(d, gs, a, out[a])
  {
    var gs', outs := OutputTraced(d, |d|, vscale, l, [0], [[]]);
    SameGroups(d, vscale, l, gs, gs', outs, |gs| - 1);
    SameGroups(d, vscale, l, gs, gs', outs, |gs'| - 1);
    forall g: nat | g < |gs|
      ensures gs'[g] == gs[g]
    {
      SameGroups(d, vscale, l, gs, gs', outs, g);
    }
    assert gs' == gs;
    TurnsGo(d, vscale, l, gs);
    ByTurns(d, |d|, vscale, l, gs, outs, |gs| - 1);
    var out := outs[|gs| - 1];
    forall a: nat | a < |out|
      ensures HitOf(d, gs, a, out[a])
    {
      assert GaveAt(d, l, gs, out, a) && GoesAt(d, l, gs, a);
    }
  }

  /** A single hit has no partner. */
  lemma FewHits(d: seq<Crossing>, vscale: real, l: Line)
    requires |d| <= 1 && AllFresh(d, |d|)
    ensures Distilled(d, d) && Even(Output(d, |d|, vscale, l, 0, [])) == []
  {
    var out := Output(d, |d|, vscale, l, 0, []);
    var src := OutputPaired(d, |d|, vscale, l, 0, [], []);
    assert |out| <= 1;
    forall x | x in d
      ensures HasTri(d, 0, |d|, x.tri)
    {
      assert d[0] == x;
    }
    forall k | 0 <= k < |d|
      ensures From(d[k], d, |d|)
    {
      assert d[k].tri == d[k].tri;
    }
  }

  lemma CleanAll(raw: seq<Crossing>, d: seq<Crossing>, s: seq<Crossing>, rv: nat, vscale: real, l: Line)
    requires Distilled(raw, d) && rv <= |s| == |raw| && s[..rv] == Even(Output(d, |d|, vscale, l, 0, []))
    requires Rising(raw, |raw|) && OneEach(raw, |raw|) && Clean(raw, |raw|, vscale)
    ensures rv == |raw| && s == raw
  {
    assert |multiset(d)| == |d| && |multiset(raw)| == |raw|;
    CleanSorted(raw, d, vscale);
    OutputClean(d, |d|, vscale, l, 0);
    assert d[..0] == [] && d[..|d|] == d;
    assert Even(d) == d;
    assert s[..rv] == s;
  }

  lemma EvenAt(s: seq<Crossing>, t: seq<Crossing>, rv: nat)
    requires rv <= |s| && s[..rv] == Even(t)
    ensures rv == |t| - |t| % 2 && forall a: nat | a < rv :: s[a] == t[a]
  {
    forall a: nat | a < rv
      ensures s[a] == t[a]
    {
      assert s[..rv][a] == Even(t)[a];
    }
  }

  lemma TurnsAll(d: seq<Crossing>, s: seq<Crossing>, rv: nat, vscale: real, l: Line, gs: seq<nat>)
    requires AllFresh(d, |d|) && Turns(d, vscale, gs) && rv <= |s|
    requires s[..rv] == Even(Output(d, |d|, vscale, l, 0, []))
    ensures rv == (|gs| - 1) - (|gs| - 1) % 2 && forall a: nat | a < rv :: HitOf(d, gs, a, s[a])
  {
    TurnsOutput(d, vscale, l, gs);
    EvenAt(s, Output(d, |d|, vscale, l, 0, []), rv);
  }

  /** All that is promised of the list s that sanitising leaves. */
  ghost predicate Promised(raw: seq<Crossing>, d: seq<Crossing>, s: seq<Crossing>, rv: nat, vscale: real) {
    && Sanitised(raw, s, rv)
    && (Rising(raw, |raw|) && OneEach(raw, |raw|) && Clean(raw, |raw|, vscale) ==> rv == |raw| && s == raw)
    && forall gs | Turns(d, vscale, gs) ::
         rv == (|gs| - 1) - (|gs| - 1) % 2 && forall a: nat | a < rv :: HitOf(d, gs, a, s[a])
  }

  lemma SanitisedAll(raw: seq<Crossing>, d: seq<Crossing>, s: seq<Crossing>, rv: nat, vscale: real, l: Line)
    requires Distilled(raw, d) && rv <= |s| == |raw| && s[..rv] == Even(Output(d, |d|, vscale, l, 0, []))
    ensures Promised(raw, d, s, rv, vscale)
  {
    var src := OutputPaired(d, |d|, vscale, l, 0, [], []);
    PairedSanitised(raw, d, Output(d, |d|, vscale, l, 0, []), s, rv, src);
    if Rising(raw, |raw|) && OneEach(raw, |raw|) && Clean(raw, |raw|, vscale) {
      CleanAll(raw, d, s, rv, vscale, l);
    }
    forall gs | Turns(d, vscale, gs)
      ensures rv == (|gs| - 1) - (|gs| - 1) % 2 && forall a: nat | a < rv :: HitOf(d, gs, a, s[a])
    {
      TurnsAll(d, s, rv, vscale, l, gs);
    }
  }

  /** Sort the raw hits, keep one for each triangle, and pair them: what is left is the even part of the output of the
      groups. Clean hits in order are left as they are. Where the groups go in and out by turns, each gives one hit. */
  method Sanitise(lp: array<Crossing>, vscale: real, l: Line) returns (rv: nat, ghost d: seq<Crossing>)
    requires AllFresh(lp[..], lp.Length)
    modifies lp
    ensures Distilled(old(lp[..]), d) && rv <= lp.Length && lp[..rv] == Even(Output(d, |d|, vscale, l, 0, []))
    ensures Promised(old(lp[..]), d, lp[..], rv, vscale)
  {
    ghost var raw := lp[..];
    if lp.Length <= 1 {
      d, rv := raw, 0;
      FewHits(raw, vscale, l);
      SanitisedAll(raw, d, lp[..], rv, vscale, l);
      return;
    }
    Sort.HeapSort(lp, Before);
    ghost var sorted := lp[..];
    SortedHits(raw, sorted);
    var lu := Dedupe(lp);
    d := lp[..lu];
    DistilledFrom(raw, sorted, lp[..], lu);
    if lu <= 1 {
      rv := 0;
      FewHits(d, vscale, l);
    } else {
      assert d == lp[..lu] && AllFresh(lp[..], lu);
      rv := MakePairs(lp, lu, vscale, l);
    }
    SanitisedAll(raw, d, lp[..], rv, vscale, l);
  }
}
