/** Laying out a dither pattern by the counts of its surrounders, and searching for a better one. */
module DitherPattern {
  import opened PlaneEq
  import opened PowersOfTen
  import opened Dither

  /** The cells of a pattern in the order in which they are filled: cell y of row x is number 4 * x + y. */
  const ORDER: seq<nat> := [13, 7, 5, 12, 15, 6, 14, 8, 4, 3, 1, 9, 10, 0, 2, 11]

  /** The place of each cell in the order. */
  const PLACE: seq<nat> := [13, 10, 14, 9, 8, 2, 5, 1, 7, 11, 12, 15, 3, 0, 6, 4]

  lemma OrderPlaces(a: nat)
    requires a < CELLS
    ensures |ORDER| == |PLACE| == CELLS && ORDER[a] < CELLS && PLACE[ORDER[a]] == a
  {
  }

  lemma OrderNames()
    ensures |ORDER| == CELLS && Naming(ORDER, CELLS)
  {
    forall a, b | 0 <= a < b < CELLS
      ensures ORDER[a] != ORDER[b]
    {
      OrderPlaces(a);
      OrderPlaces(b);
    }
    forall a | 0 <= a < CELLS
      ensures ORDER[a] < CELLS
    {
      OrderPlaces(a);
    }
  }

  function Copies(n: nat, k: nat): (r: seq<nat>)
    ensures |r| == k && forall i | 0 <= i < k :: r[i] == n
  {
    if k == 0 then [] else Copies(n, k - 1) + [n]
  }

  ghost predicate Counts(biw: seq<int>) {
    forall n | 0 <= n < |biw| :: biw[n] >= 0
  }

  /** As many copies of each surrounder's number as it has cells. */
  function Spread(biw: seq<int>): (r: seq<nat>)
    requires Counts(biw)
    ensures |r| == Total(biw) && forall i | 0 <= i < |r| :: r[i] < |biw|
  {
    if biw == [] then [] else Spread(biw[..|biw| - 1]) + Copies(|biw| - 1, biw[|biw| - 1])
  }

  lemma {:induction false} CopiesCount(n: nat, k: nat, m: nat)
    ensures multiset(Copies(n, k))[m] == if m == n then k else 0
  {
    if k == 0 {
    } else {
      CopiesCount(n, k - 1, m);
    }
  }

  /** Each surrounder gets its count of cells. */
  lemma {:induction false} SpreadCount(biw: seq<int>, m: nat)
    requires Counts(biw) && m < |biw|
    ensures multiset(Spread(biw))[m] == biw[m]
    decreases biw
  {
    var r := biw[..|biw| - 1];
    CopiesCount(|biw| - 1, biw[|biw| - 1], m);
    if m < |r| {
      SpreadCount(r, m);
    } else {
      assert m !in Spread(r);
    }
  }

  /** The surrounders of the value to be matched: what to use, and what results from using it. */
  datatype Surrounders = Surrounders(sur: seq<Vec>, res: seq<Vec>)

  ghost predicate Proper(s: Surrounders) {
    |s.sur| == |s.res| > 0
  }

  ghost predicate CellIs(t: seq<Vec>, r: seq<Vec>, s: Surrounders, c: nat, n: nat)
    requires Proper(s) && c < |t| == |r|
  {
    n < |s.sur| && t[c] == s.sur[n] && r[c] == s.res[n]
  }

  ghost predicate CellPaired(t: seq<Vec>, r: seq<Vec>, s: Surrounders, c: nat)
    requires Proper(s) && c < |t| == |r|
  {
    exists n: nat :: CellIs(t, r, s, c, n)
  }

  /** Each cell of t is a surrounder, and the cell of r is what results from it. */
  ghost predicate Paired(t: seq<Vec>, r: seq<Vec>, s: Surrounders)
    requires Proper(s)
  {
    |t| == |r| == CELLS && forall c | 0 <= c < CELLS :: CellPaired(t, r, s, c)
  }

  ghost predicate Laid(t: seq<Vec>, p: seq<Vec>, spread: seq<nat>, k: nat)
    requires |t| == CELLS && k <= |spread| && k <= CELLS && forall i | 0 <= i < |spread| :: spread[i] < |p|
  {
    |ORDER| == CELLS && forall i | 0 <= i < k :: ORDER[i] < CELLS && t[ORDER[i]] == p[spread[i]]
  }

  lemma LaidPaired(t: seq<Vec>, r: seq<Vec>, s: Surrounders, spread: seq<nat>)
    requires Proper(s) && |t| == |r| == |spread| == CELLS && forall i | 0 <= i < |spread| :: spread[i] < |s.sur|
    requires Laid(t, s.sur, spread, CELLS) && Laid(r, s.res, spread, CELLS)
    ensures Paired(t, r, s)
  {
    OrderNames();
    forall c | 0 <= c < CELLS
      ensures CellPaired(t, r, s, c)
    {
      var k := NamesAll(ORDER, CELLS, c);
      assert t[ORDER[k]] == s.sur[spread[k]] && r[ORDER[k]] == s.res[spread[k]];
      assert CellIs(t, r, s, c, spread[k]);
    }
  }

  /** Set the next cell of a pattern. */
  lemma LaidNext(t: seq<Vec>, p: seq<Vec>, spread: seq<nat>, k: nat)
    requires |t| == CELLS && k < |spread| && k < CELLS && (forall i | 0 <= i < |spread| :: spread[i] < |p|)
      && Laid(t, p, spread, k)
    ensures ORDER[k] < CELLS && Laid(t[ORDER[k] := p[spread[k]]], p, spread, k + 1)
  {
    OrderNames();
  }

  lemma SpreadStep(biw: seq<int>, n: nat)
    requires Counts(biw) && n < |biw|
    ensures Spread(biw[..n + 1]) == Spread(biw[..n]) + Copies(n, biw[n])
  {
    var b := biw[..n + 1];
    assert b[..|b| - 1] == biw[..n] && b[|b| - 1] == biw[n];
  }

  lemma Shorter<A>(a: seq<A>, b: seq<A>, c: seq<A>)
    requires a + b <= c
    ensures a <= c
  {
    assert a == (a + b)[..|a|];
  }

  lemma {:induction false} SpreadPrefix(biw: seq<int>, n: nat)
    requires Counts(biw) && n <= |biw|
    ensures Spread(biw[..n]) <= Spread(biw)
    decreases |biw| - n
  {
    if n == |biw| {
      assert biw[..n] == biw;
    } else {
      SpreadPrefix(biw, n + 1);
      SpreadStep(biw, n);
      Shorter(Spread(biw[..n]), Copies(n, biw[n]), Spread(biw));
    }
  }

  lemma PrefixAt<A>(a: seq<A>, b: seq<A>, c: seq<A>, i: nat)
    requires a + b <= c && i < |b|
    ensures |a| + i < |c| && c[|a| + i] == b[i]
  {
    assert c[..|a + b|][|a| + i] == b[i];
  }

  /** The cell after i cells of surrounder n belongs to n. */
  lemma SpreadAt(biw: seq<int>, n: nat, i: nat)
    requires Counts(biw) && n < |biw| && i < biw[n]
    ensures |Spread(biw[..n])| + i < |Spread(biw)| && Spread(biw)[|Spread(biw[..n])| + i] == n
  {
    SpreadPrefix(biw, n + 1);
    SpreadStep(biw, n);
    PrefixAt(Spread(biw[..n]), Copies(n, biw[n]), Spread(biw), i);
  }

  ghost predicate LaidOut(tpat: array<Vec>, rtpat: array<Vec>, s: Surrounders, spread: seq<nat>, k: nat)
    requires Proper(s) && tpat.Length == rtpat.Length == CELLS && k <= |spread| && k <= CELLS
      && forall i | 0 <= i < |spread| :: spread[i] < |s.sur|
    reads tpat, rtpat
  {
    Laid(tpat[..], s.sur, spread, k) && Laid(rtpat[..], s.res, spread, k)
  }

  /** Set one cell of both patterns to surrounder n. */
  method SetCell(tpat: array<Vec>, rtpat: array<Vec>, s: Surrounders, cix: nat, n: nat, ghost spread: seq<nat>)
    requires Proper(s) && tpat != rtpat && tpat.Length == rtpat.Length == CELLS && forall i | 0 <= i < |spread| ::
      spread[i] < |s.sur|
    requires cix < |spread| && cix < CELLS && spread[cix] == n && LaidOut(tpat, rtpat, s, spread, cix)
    modifies tpat, rtpat
    ensures LaidOut(tpat, rtpat, s, spread, cix + 1)
  {
    OrderNames();
    LaidNext(tpat[..], s.sur, spread, cix);
    LaidNext(rtpat[..], s.res, spread, cix);
    ghost var t, r := tpat[..], rtpat[..];
    tpat[ORDER[cix]] := s.sur[n];
    rtpat[ORDER[cix]] := s.res[n];
    assert tpat[..] == t[ORDER[cix] := s.sur[n]] && rtpat[..] == r[ORDER[cix] := s.res[n]];
  }

  /** Set the initial pattern according to the counts. */
  method SetPattern(biw: seq<int>, s: Surrounders, tpat: array<Vec>, rtpat: array<Vec>)
    requires Proper(s) && |biw| == |s.sur| && Counts(biw) && Total(biw) == CELLS
    requires tpat != rtpat && tpat.Length == rtpat.Length == CELLS
    modifies tpat, rtpat
    ensures LaidOut(tpat, rtpat, s, Spread(biw), CELLS)
    ensures Paired(tpat[..], rtpat[..], s)
  {
    ghost var spread := Spread(biw);
    OrderNames();
    var cix := 0;
    for n := 0 to |biw|
      invariant cix == |Spread(biw[..n])| <= CELLS && LaidOut(tpat, rtpat, s, spread, cix)
    {
      SpreadStep(biw, n);
      SpreadPrefix(biw, n + 1);
      ghost var c0 := cix;
      for i := 0 to biw[n]
        invariant cix == c0 + i && c0 + biw[n] <= CELLS && LaidOut(tpat, rtpat, s, spread, cix)
      {
        SpreadAt(biw, n, i);
        SetCell(tpat, rtpat, s, cix, n, spread);
        cix := cix + 1;
      }
    }
    assert biw[..|biw|] == biw;
    LaidPaired(tpat[..], rtpat[..], s, spread);
  }

  // ---- the search for a better pattern

  /** The largest error of any component. */
  function Worst(d: Vec, val: Vec): (e: real)
    ensures e >= 0.0 && e >= Abs(d.0 - val.0) && e >= Abs(d.1 - val.1) && e >= Abs(d.2 - val.2)
    ensures e == 0.0 || e == Abs(d.0 - val.0) || e == Abs(d.1 - val.1) || e == Abs(d.2 - val.2)
  {
    var a := if Abs(d.0 - val.0) > 0.0 then Abs(d.0 - val.0) else 0.0;
    var b := if Abs(d.1 - val.1) > a then Abs(d.1 - val.1) else a;
    if Abs(d.2 - val.2) > b then Abs(d.2 - val.2) else b
  }

  /** What the display makes of a pattern of resulting values. */
  type Upsample = seq<Vec> -> Vec

  function Toward(v: real): real {
    if 16.0 * v >= 1.0 then 1.0 else if 16.0 * v <= -1.0 then -1.0 else 0.0
  }

  /** How far changing cell c to surrounder i, with some noise, is from a unit step in the direction wanted. */
  function Cost(r: seq<Vec>, res: seq<Vec>, corr: Vec, noise: (nat, nat) -> real, c: nat, i: nat): real
    requires c < |r| && i < |res|
  {
    var dot := Dot(Minus(res[i], r[c]), corr) + noise(c, i);
    if dot <= 0.0 then 10000000.0 else Square(dot - 1.0)
  }

  const BDOT: real := 1000000.0

  /** Change (c, i) is looked at before change (b, n). */
  predicate Before(c: nat, i: nat, b: nat, n: nat) {
    c < b || (c == b && i < n)
  }

  /** The cell and the surrounder of least cost, or the first of each if no cost is below the limit. */
  method BestChange(r: array<Vec>, res: seq<Vec>, corr: Vec, noise: (nat, nat) -> real) returns (b: nat, n: nat)
    requires r.Length == CELLS && res != []
    ensures b < CELLS && n < |res|
    ensures forall c, i | 0 <= c < CELLS && 0 <= i < |res| ::
      Cost(r[..], res, corr, noise, c, i) >= if Cost(r[..], res, corr, noise, b, n) < BDOT
        then Cost(r[..], res, corr, noise, b, n) else BDOT
    ensures Cost(r[..], res, corr, noise, b, n) < BDOT || b == n == 0
    ensures forall c, i | 0 <= c < CELLS && 0 <= i < |res| && Before(c, i, b, n) ::
      Cost(r[..], res, corr, noise, c, i) > Cost(r[..], res, corr, noise, b, n)
  {
    var bdot := BDOT;
    b, n := 0, 0;
    for c := 0 to CELLS
      invariant b < CELLS && n < |res| && bdot <= BDOT
      invariant if bdot == BDOT then b == n == 0 else bdot == Cost(r[..], res, corr, noise, b, n)
      invariant forall a, i | 0 <= a < c && 0 <= i < |res| :: bdot <= Cost(r[..], res, corr, noise, a, i)
      invariant forall a, i | 0 <= a < CELLS && 0 <= i < |res| && Before(a, i, b, n) ::
        bdot < Cost(r[..], res, corr, noise, a, i)
    {
      for i := 0 to |res|
        invariant b < CELLS && n < |res| && bdot <= BDOT
        invariant if bdot == BDOT then b == n == 0 else bdot == Cost(r[..], res, corr, noise, b, n)
        invariant forall a, k | 0 <= a < c && 0 <= k < |res| :: bdot <= Cost(r[..], res, corr, noise, a, k)
        invariant forall k | 0 <= k < i :: bdot <= Cost(r[..], res, corr, noise, c, k)
        invariant forall a, k | 0 <= a < CELLS && 0 <= k < |res| && Before(a, k, b, n) ::
          bdot < Cost(r[..], res, corr, noise, a, k)
      {
        var dot := Cost(r[..], res, corr, noise, c, i);
        if dot < bdot {
          bdot, b, n := dot, c, i;
        }
      }
    }
  }

  method CopyPattern(dst: array<Vec>, src: array<Vec>)
    requires dst != src && dst.Length == src.Length == CELLS
    modifies dst
    ensures dst[..] == src[..]
  {
    for c := 0 to CELLS
      invariant forall k | 0 <= k < c :: dst[k] == src[k]
    {
      dst[c] := src[c];
    }
  }

  /** What a change of a value from x to y gains in direction corr, with some noise. */
  function Gain(x: Vec, y: Vec, corr: Vec, noise: real): real {
    (y.0 - x.0) * corr.0 + (y.1 - x.1) * corr.1 + (y.2 - x.2) * corr.2 + noise
  }

  predicate Nearer(g: real, h: real) {
    0.0 < g && (h <= 0.0 || Abs(g - 1.0) <= Abs(h - 1.0))
  }

  /** Changing cell b to surrounder n gains something, and of all changes that do so it gains nearest to 1; without one
      that gains less than 1001 the first change is made. */
  ghost predicate NearestStep(r: seq<Vec>, res: seq<Vec>, corr: Vec, noise: (nat, nat) -> real, b: nat, n: nat)
    requires b < |r| && n < |res|
  {
    var g := Gain(r[b], res[n], corr, noise(b, n));
    if 0.0 < g < 1001.0
    then forall c, i | 0 <= c < |r| && 0 <= i < |res| :: Nearer(g, Gain(r[c], res[i], corr, noise(c, i)))
    else b == n == 0 && forall c, i | 0 <= c < |r| && 0 <= i < |res| ::
      var h := Gain(r[c], res[i], corr, noise(c, i)); h <= 0.0 || h >= 1001.0
  }

  function GainCost(g: real): real {
    if g <= 0.0 then 10000000.0 else Square(g - 1.0)
  }

  lemma CostIs(r: seq<Vec>, res: seq<Vec>, corr: Vec, noise: (nat, nat) -> real, c: nat, i: nat)
    requires c < |r| && i < |res|
    ensures Cost(r, res, corr, noise, c, i) == GainCost(Gain(r[c], res[i], corr, noise(c, i)))
  {
    var d := Minus(res[i], r[c]);
    assert Dot(d, corr) == d.0 * corr.0 + d.1 * corr.1 + d.2 * corr.2;
  }

  lemma CostUnder(g: real, h: real)
    requires 0.0 < g && 0.0 < h && GainCost(g) <= GainCost(h)
    ensures Nearer(g, h)
  {
    SquareAbs(h - 1.0, g - 1.0);
  }

  lemma CostSmall(g: real)
    ensures GainCost(g) < BDOT <==> 0.0 < g < 1001.0
  {
    SquareAbs(g - 1.0, 1000.0);
    assert Square(1000.0) == BDOT;
  }

  lemma LeastNearest(r: seq<Vec>, res: seq<Vec>, corr: Vec, noise: (nat, nat) -> real, b: nat, n: nat)
    requires b < |r| && n < |res|
    requires forall c, i | 0 <= c < |r| && 0 <= i < |res| ::
      Cost(r, res, corr, noise, c, i) >= if Cost(r, res, corr, noise, b, n) < BDOT
        then Cost(r, res, corr, noise, b, n) else BDOT
    requires Cost(r, res, corr, noise, b, n) < BDOT || b == n == 0
    ensures NearestStep(r, res, corr, noise, b, n)
  {
    var g := Gain(r[b], res[n], corr, noise(b, n));
    CostIs(r, res, corr, noise, b, n);
    CostSmall(g);
    forall c, i | 0 <= c < |r| && 0 <= i < |res|
      ensures var h := Gain(r[c], res[i], corr, noise(c, i));
              if 0.0 < g < 1001.0 then Nearer(g, h) else h <= 0.0 || h >= 1001.0
    {
      var h := Gain(r[c], res[i], corr, noise(c, i));
      CostIs(r, res, corr, noise, c, i);
      CostSmall(h);
      if 0.0 < g < 1001.0 && 0.0 < h {
        CostUnder(g, h);
      }
    }
  }

  /** The direction in which component d must go to come to v: none when they are less than a sixteenth apart. */
  predicate Wanted(c: real, v: real, d: real) {
    if v >= d + 0.0625 then c == 1.0 else if v <= d - 0.0625 then c == -1.0 else c == 0.0
  }

  /** Value d is less than a sixteenth from val in each component. */
  predicate Close(val: Vec, d: Vec) {
    -0.0625 < val.0 - d.0 < 0.0625 && -0.0625 < val.1 - d.1 < 0.0625 && -0.0625 < val.2 - d.2 < 0.0625
  }

  /** One change: the pattern changed, the direction wanted, the cell and its new surrounder. */
  datatype Change = Change(from: seq<Vec>, corr: Vec, cell: nat, sur: nat)

  /** The place of the first least error. */
  function BestAt(e: seq<real>): (b: nat)
    requires e != []
    ensures b < |e| && forall i | 0 <= i < |e| :: e[b] <= e[i] && (i < b ==> e[b] < e[i])
  {
    if |e| == 1 then 0 else
      var b := BestAt(e[..|e| - 1]);
      if e[|e| - 1] < e[b] then |e| - 1 else b
  }

  lemma BestNext(e: seq<real>, w: real)
    requires e != []
    ensures BestAt(e + [w]) == if w < e[BestAt(e)] then |e| else BestAt(e)
    ensures Excess(e + [w]) == if w < e[BestAt(e)] then 0.0 else Held(e) + w - e[BestAt(e)]
  {
    assert (e + [w])[..|e|] == e;
  }

  /** By how much the errors since the last best one exceeded it in all, not counting those before the last return to
      it. */
  function Excess(e: seq<real>): real
    requires e != []
  {
    if |e| == 1 then 0.0 else
      var e', w := e[..|e| - 1], e[|e| - 1];
      var x := Excess(e');
      if w < e'[BestAt(e')] then 0.0 else (if x > 2.5 then 0.0 else x) + w - e'[BestAt(e')]
  }

  function Held(e: seq<real>): real
    requires e != []
  {
    if Excess(e) > 2.5 then 0.0 else Excess(e)
  }

  /** A search: the patterns of resulting values tried, their errors, and the changes made. */
  datatype Search = Search(tried: seq<seq<Vec>>, errs: seq<real>, trail: seq<Change>) {
    ghost predicate Valid() {
      |tried| == |errs| == |trail| + 1
    }

    ghost function Best(): seq<Vec>
      requires Valid()
    {
      tried[BestAt(errs)]
    }

    ghost function BestError(): real
      requires Valid()
    {
      errs[BestAt(errs)]
    }

    ghost function Last(): seq<Vec>
      requires Valid()
    {
      tried[|trail|]
    }

    /** The pattern that is changed next: the last one, or the best once the excess is above 2.5. */
    ghost function Resume(): seq<Vec>
      requires Valid()
    {
      if Excess(errs) > 2.5 then Best() else Last()
    }

    /** The search up to its first k changes. */
    ghost function Upto(k: nat): (r: Search)
      requires Valid() && k <= |trail|
      ensures r.Valid()
    {
      Search(tried[..k + 1], errs[..k + 1], trail[..k])
    }

    ghost function With(ch: Change, next: seq<Vec>, err: real): (r: Search)
      requires Valid()
      ensures r.Valid()
    {
      Search(tried + [next], errs + [err], trail + [ch])
    }
  }

  /** Change ch of a pattern goes nearest to a unit step from value d towards val, and gives pattern next. */
  ghost predicate ChangeRight(val: Vec, d: Vec, res: seq<Vec>, noise: (nat, nat) -> real, from: seq<Vec>, ch: Change,
                               next: seq<Vec>) {
    && ch.from == from && |from| == CELLS && ch.cell < CELLS && ch.sur < |res|
    && Wanted(ch.corr.0, val.0, d.0) && Wanted(ch.corr.1, val.1, d.1) && Wanted(ch.corr.2, val.2, d.2)
    && NearestStep(from, res, ch.corr, noise, ch.cell, ch.sur) && next == from[ch.cell := res[ch.sur]]
  }

  /** What is searched for: a pattern for val out of the surrounders' resulting values. */
  datatype Task = Task(val: Vec, res: seq<Vec>, up: Upsample, noise: nat -> ((nat, nat) -> real)) {
    ghost function Err(p: seq<Vec>): real {
      Worst(up(p), val)
    }

    /** Change ch goes on from search r, as long as the error is worth it, and gives pattern next. */
    ghost predicate ChangeOn(r: Search, ch: Change, next: seq<Vec>)
      requires r.Valid()
    {
      && !Close(val, up(r.Last())) && (|r.trail| > 0 ==> r.BestError() >= 0.11)
      && ChangeRight(val, up(r.Last()), res, noise(|r.trail|), r.Resume(), ch, next)
    }

    /** Each change is right, and the errors are those of the patterns tried. */
    ghost predicate Trailed(r: Search) {
      && r.Valid() && (forall k | 0 <= k < |r.errs| :: r.errs[k] == Err(r.tried[k]))
      && forall k | 0 <= k < |r.trail| :: ChangeOn(r.Upto(k), r.trail[k], r.tried[k + 1])
    }

    /** The search goes on until 300 changes are made, the best error is below 0.11 or the last value is close. */
    ghost predicate Stops(r: Search)
      requires r.Valid()
    {
      |r.trail| == 300 || (|r.trail| > 0 && r.BestError() < 0.11) || Close(val, up(r.Last()))
    }
  }

  lemma UptoMore(r: Search, ch: Change, next: seq<Vec>, err: real, k: nat)
    requires r.Valid() && k <= |r.trail|
    ensures r.With(ch, next, err).Upto(k) == r.Upto(k) && r.Upto(|r.trail|) == r
  {
    assert (r.tried + [next])[..k + 1] == r.tried[..k + 1] && (r.errs + [err])[..k + 1] == r.errs[..k + 1];
    assert (r.trail + [ch])[..k] == r.trail[..k];
  }

  lemma TrailedMore(t: Task, r: Search, ch: Change, next: seq<Vec>)
    requires t.Trailed(r) && t.ChangeOn(r, ch, next)
    ensures t.Trailed(r.With(ch, next, t.Err(next)))
  {
    var r' := r.With(ch, next, t.Err(next));
    forall k | 0 <= k < |r'.trail|
      ensures t.ChangeOn(r'.Upto(k), r'.trail[k], r'.tried[k + 1])
    {
      UptoMore(r, ch, next, t.Err(next), k);
    }
  }

  /** The state of the search: the best pattern, the value of the last one, the best error and the excess. */
  ghost predicate Searching(t: Task, r: Search, best: seq<Vec>, dval: Vec, berr: real, xs: real) {
    t.Trailed(r) && best == r.Best() && dval == t.up(r.Last()) && berr == r.BestError() && xs == Held(r.errs)
  }

  lemma SearchStart(t: Task, p: seq<Vec>)
    ensures var r := Search([p], [t.Err(p)], []); r.Resume() == p && Searching(t, r, p, t.up(p), t.Err(p), 0.0)
  {
  }

  lemma SearchOn(t: Task, r: Search, best: seq<Vec>, dval: Vec, berr: real, xs: real, ch: Change, next: seq<Vec>)
    requires Searching(t, r, best, dval, berr, xs) && (|r.trail| > 0 ==> berr >= 0.11)
    requires !Close(t.val, dval) && ChangeRight(t.val, dval, t.res, t.noise(|r.trail|), r.Resume(), ch, next)
    ensures var w := t.Err(next);
      var best', berr', x := if w < berr then next else best, if w < berr then w else berr,
        if w < berr then 0.0 else xs + (w - berr);
      && Searching(t, r.With(ch, next, w), best', t.up(next), berr', if x > 2.5 then 0.0 else x)
      && r.With(ch, next, w).Resume() == if x > 2.5 then best' else next
  {
    TrailedMore(t, r, ch, next);
    BestNext(r.errs, t.Err(next));
  }

  /** The error of the best pattern so far never rises. */
  lemma BestFalls(e: seq<real>, i: nat, j: nat)
    requires i <= j < |e|
    ensures e[BestAt(e[..j + 1])] <= e[BestAt(e[..i + 1])]
  {
    assert e[..i + 1] == e[..j + 1][..i + 1];
  }

  lemma PairedChange(t: seq<Vec>, r: seq<Vec>, s: Surrounders, b: nat, n: nat)
    requires Proper(s) && Paired(t, r, s) && b < CELLS && n < |s.sur|
    ensures Paired(t[b := s.sur[n]], r[b := s.res[n]], s)
  {
    var t', r' := t[b := s.sur[n]], r[b := s.res[n]];
    forall c | 0 <= c < CELLS
      ensures CellPaired(t', r', s, c)
    {
      if c == b {
        assert CellIs(t', r', s, c, n);
      } else {
        assert CellPaired(t, r, s, c);
        var m: nat :| CellIs(t, r, s, c, m);
        assert CellIs(t', r', s, c, m);
      }
    }
  }

  /** Pattern t has the cells of the fill order given out by the counts. */
  ghost predicate Starts(t: seq<Vec>, s: Surrounders, biw: seq<int>)
    requires Proper(s) && Counts(biw) && |biw| == |s.sur|
  {
    |t| == Total(biw) == CELLS && Laid(t, s.res, Spread(biw), CELLS)
  }

  const GOOD: real := 0.11
  const RESTART: real := 2.5
  const ITERATIONS: nat := 300

  /** Make the change that goes nearest to a unit step from the last value towards val. */
  method ChangeCell(val: Vec, dval: Vec, s: Surrounders, noise: (nat, nat) -> real, tpat: array<Vec>,
                    rtpat: array<Vec>) returns (changed: bool, ghost ch: Change)
    requires Proper(s) && tpat.Length == rtpat.Length == CELLS && tpat != rtpat && Paired(tpat[..], rtpat[..], s)
    modifies tpat, rtpat
    ensures changed <==> !Close(val, dval)
    ensures Paired(tpat[..], rtpat[..], s)
    ensures changed ==> ChangeRight(val, dval, s.res, noise, old(rtpat[..]), ch, rtpat[..])
    ensures !changed ==> rtpat[..] == old(rtpat[..])
  {
    var corr := (Toward(val.0 - dval.0), Toward(val.1 - dval.1), Toward(val.2 - dval.2));
    changed, ch := corr != (0.0, 0.0, 0.0), Change(rtpat[..], corr, 0, 0);
    if changed {
      var b, n := BestChange(rtpat, s.res, corr, noise);
      LeastNearest(rtpat[..], s.res, corr, noise, b, n);
      PairedChange(tpat[..], rtpat[..], s, b, n);
      ghost var t, r := tpat[..], rtpat[..];
      tpat[b] := s.sur[n];
      rtpat[b] := s.res[n];
      assert tpat[..] == t[b := s.sur[n]] && rtpat[..] == r[b := s.res[n]];
      ch := Change(r, corr, b, n);
    }
  }

  /** Keep the pattern if its error is less than the best one so far. */
  method KeepBest(werr: real, best: real, xs: real, tpat: array<Vec>, rtpat: array<Vec>, itpat: array<Vec>,
                  irtpat: array<Vec>, ipat: array<Vec>) returns (berr: real, errxs: real)
    requires tpat.Length == rtpat.Length == itpat.Length == irtpat.Length == ipat.Length == CELLS
    requires tpat !in {itpat, irtpat, ipat} && rtpat !in {itpat, irtpat, ipat}
    requires itpat != irtpat && itpat != ipat && irtpat != ipat
    modifies itpat, irtpat, ipat
    ensures werr < best ==> berr == werr && errxs == 0.0
    ensures werr < best ==> itpat[..] == ipat[..] == tpat[..] && irtpat[..] == rtpat[..]
    ensures werr >= best ==> berr == best && errxs == xs + (werr - best)
    ensures werr >= best ==> itpat[..] == old(itpat[..]) && irtpat[..] == old(irtpat[..]) && ipat[..] == old(ipat[..])
  {
    berr, errxs := best, xs;
    if werr > best {
      errxs := errxs + (werr - best);
    }
    if werr < best {
      berr, errxs := werr, 0.0;
      CopyPattern(ipat, tpat);
      CopyPattern(itpat, tpat);
      CopyPattern(irtpat, rtpat);
    }
  }

  /** Change one cell at a time in the direction wanted, keep the best pattern, and go back to it when getting nowhere.
      Of the patterns of resulting values tried, the first of least error is kept. */
  method Improve(val: Vec, s: Surrounders, up: Upsample, noise: nat -> ((nat, nat) -> real),
                 tpat: array<Vec>, rtpat: array<Vec>, itpat: array<Vec>, irtpat: array<Vec>, ipat: array<Vec>)
    returns (berr: real, ghost r: Search)
    requires Proper(s) && tpat.Length == rtpat.Length == itpat.Length == irtpat.Length == ipat.Length == CELLS
    requires tpat != rtpat && tpat != itpat && tpat != irtpat && tpat != ipat && rtpat != itpat && rtpat != irtpat
      && rtpat != ipat
    requires itpat != irtpat && itpat != ipat && irtpat != ipat && Paired(tpat[..], rtpat[..], s)
    modifies tpat, rtpat, itpat, irtpat, ipat
    ensures var t := Task(val, s.res, up, noise); t.Trailed(r) && t.Stops(r)
    ensures r.tried[0] == old(rtpat[..]) && Paired(ipat[..], r.Best(), s) && berr == r.BestError()
  {
    CopyPattern(itpat, tpat);
    CopyPattern(irtpat, rtpat);
    CopyPattern(ipat, tpat);
    var dval := up(rtpat[..]);
    berr := Worst(dval, val);
    var errxs := 0.0;
    ghost var t := Task(val, s.res, up, noise);
    r := Search([rtpat[..]], [berr], []);
    SearchStart(t, rtpat[..]);
    for ii := 0 to ITERATIONS
      invariant Paired(tpat[..], rtpat[..], s) && Paired(itpat[..], irtpat[..], s) && ipat[..] == itpat[..]
      invariant Searching(t, r, irtpat[..], dval, berr, errxs) && rtpat[..] == r.Resume()
      invariant |r.trail| == ii && r.tried[0] == old(rtpat[..]) && (ii > 0 ==> berr >= GOOD)
    {
      var changed, ch := ChangeCell(val, dval, s, noise(ii), tpat, rtpat);
      if !changed {
        break;
      }
      SearchOn(t, r, irtpat[..], dval, berr, errxs, ch, rtpat[..]);
      dval := up(rtpat[..]);
      var werr := Worst(dval, val);
      r := r.With(ch, rtpat[..], werr);
      berr, errxs := KeepBest(werr, berr, errxs, tpat, rtpat, itpat, irtpat, ipat);
      if berr < GOOD {
        break;
      }
      if errxs > RESTART {
        errxs := 0.0;
        CopyPattern(tpat, itpat);
        CopyPattern(rtpat, irtpat);
      }
    }
  }

  /** Choose a pattern for val, given what the optimizer found for the surrounders. There is one exactly if each count
      fits in the cells left when it is given out, from the smallest weight up. With seven surrounders or fewer it
      does. The search starts from the pattern that the counts give. */
  method GetCcastDith(val: Vec, s: Surrounders, found: array<real>, up: Upsample, noise: nat -> ((nat, nat) -> real))
    returns (ok: bool, berr: real, ipat: array<Vec>, ghost sw: seq<nat>, ghost biw: seq<int>, ghost r: Search)
    requires Proper(s) && |s.sur| <= 8 == found.Length
    modifies found
    ensures Weighting(found[..|s.sur|]) && |sw| == |s.sur| && Naming(sw, |sw|) && Rising(InOrder(found[..|s.sur|], sw))
    ensures |biw| == |s.sur| && Counts(biw) && Shared(found[..|s.sur|], sw, biw)
    ensures ok <==> FitsRising(found[..|s.sur|], sw)
    ensures |s.sur| <= 7 ==> ok
    ensures var t := Task(val, s.res, up, noise); ok ==> t.Trailed(r) && t.Stops(r)
    ensures ok ==> Starts(r.tried[0], s, biw)
    ensures ok ==> ipat.Length == CELLS && Paired(ipat[..], r.Best(), s) && berr == r.BestError()
  {
    var nsur := |s.sur|;
    var tpat, rtpat := new Vec[CELLS], new Vec[CELLS];
    ipat := new Vec[CELLS];
    berr, r := 0.0, Search([[]], [0.0], []);
    Normalise(found, nsur);
    var counts;
    counts, sw := CountCells(found, nsur);
    biw := counts;
    ok := Total(counts) == CELLS;
    if !ok {
      return;
    }
    SetPattern(counts, s, tpat, rtpat);
    var itpat, irtpat := new Vec[CELLS], new Vec[CELLS];
    berr, r := Improve(val, s, up, noise, tpat, rtpat, itpat, irtpat, ipat);
  }
}
