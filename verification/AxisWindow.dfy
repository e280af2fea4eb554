/**
 The starting windows of the nearest-triangle search on one axis.

 Boxes are listed twice: by upper edge and by lower edge. The search will walk down the first list and
 up the second, so between them the two windows must hold every box. Boxes that straddle the query
 point are in neither window at first, and a correction loop brings them in.
 */
module AxisWindow {
  import opened PlaneEq
  import opened Boxes
  import opened Lists

  /** A triangle as the nearest-neighbour structure sees it. */
  class Box {
    const v: (Vec, Vec, Vec)
    const lo: Vec
    const hi: Vec
    var touch: nat

    constructor (v: (Vec, Vec, Vec))
      ensures this.v == v && touch == 0 && Fitted()
    {
      this.v := v;
      lo := (LowEdge(v, 0), LowEdge(v, 1), LowEdge(v, 2));
      hi := (HighEdge(v, 0), HighEdge(v, 1), HighEdge(v, 2));
      touch := 0;
    }

    ghost predicate Fitted() {
      forall f: nat | f < 3 :: At(lo, f) == LowEdge(v, f) && At(hi, f) == HighEdge(v, f)
    }
  }

  function Lo(o: Box, f: nat): real
    requires f < 3
  {
    At(o.lo, f)
  }

  function Hi(o: Box, f: nat): real
    requires f < 3
  {
    At(o.hi, f)
  }

  /** The edge that a list is sorted by: the low side of the window walks the upper edges, the high side the lower
      ones. */
  function Key(o: Box, f: nat, low: bool): real
    requires f < 3
  {
    if low then Hi(o, f) else Lo(o, f)
  }

  /** How far box o is beyond q on one side of axis f. */
  function Gap(o: Box, f: nat, low: bool, q: real): real
    requires f < 3
  {
    if low then q - Hi(o, f) else Lo(o, f) - q
  }

  ghost predicate Ordered(s: seq<Box>, f: nat, low: bool)
    requires f < 3
  {
    forall i, j | 0 <= i <= j < |s| :: Key(s[i], f, low) <= Key(s[j], f, low)
  }

  ghost predicate Boxed(s: set<Box>) {
    forall o, f: nat | o in s && f < 3 :: Lo(o, f) <= Hi(o, f)
  }

  /** The two lists of axis f. */
  ghost predicate Axis(L: seq<Box>, U: seq<Box>, f: nat) {
    && f < 3 && L != [] && NoDup(L) && NoDup(U) && Elems(L) == Elems(U) && |L| == |U|
    && Ordered(L, f, true) && Ordered(U, f, false) && Boxed(Elems(L))
  }

  /** The entries i0 and i2 of a sorted list lie next to q: both at the front if q is not after it,
      both at the back if q is not before it, and else one on each side. */
  ghost predicate Bracketed(s: seq<Box>, f: nat, low: bool, q: real, i0: nat, i2: nat)
    requires f < 3 && s != []
  {
    && i0 <= i2 < |s|
    && (q <= Key(s[0], f, low) ==> i0 == i2 == 0)
    && (Key(s[0], f, low) < q && Key(s[|s| - 1], f, low) <= q ==> i0 == i2 == |s| - 1)
    && (Key(s[0], f, low) < q < Key(s[|s| - 1], f, low) ==>
        i2 == i0 + 1 && Key(s[i0], f, low) < q <= Key(s[i2], f, low))
  }

  /** Binary search for the place of q in a sorted list. */
  method Search(s: seq<Box>, f: nat, low: bool, q: real) returns (i0: nat, i2: nat)
    requires f < 3 && s != [] && Ordered(s, f, low)
    ensures Bracketed(s, f, low, q, i0, i2)
  {
    i0, i2 := 0, |s| - 1;
    if q <= Key(s[i0], f, low) {
      i2 := i0;
    } else if q >= Key(s[i2], f, low) {
      i0 := i2;
    } else {
      while true
        invariant i0 < i2 < |s| && Key(s[i0], f, low) < q <= Key(s[i2], f, low)
        decreases i2 - i0
      {
        var i1 := (i2 + i0) / 2;
        if Key(s[i1], f, low) < q {
          i0 := i1;
        } else {
          i2 := i1;
        }
        if i2 - i0 <= 1 {
          break;
        }
      }
    }
  }

  ghost predicate Straddles(o: Box, f: nat, q: real)
    requires f < 3
  {
    Lo(o, f) < q <= Hi(o, f)
  }

  /** A straddler that the walk down the second list can recognise. */
  ghost predicate Above(o: Box, f: nat, q: real)
    requires f < 3
  {
    Lo(o, f) < q < Hi(o, f)
  }

  ghost function Straddlers(S: set<Box>, f: nat, q: real): set<Box>
    requires f < 3
  {
    set o | o in S && Straddles(o, f, q)
  }

  ghost function Aboves(S: set<Box>, f: nat, q: real): set<Box>
    requires f < 3
  {
    set o | o in S && Above(o, f, q)
  }

  /** What the correction needs of the query point so that every box ends up in a window:
      no box has its lower edge below q, or some box lies wholly below q and either all do
      (but for touching q) or some lower edge is above q. */
  ghost predicate Fits(S: set<Box>, f: nat, q: real)
    requires f < 3
  {
    || (forall o | o in S :: q <= Lo(o, f))
    || ((exists o :: o in S && Hi(o, f) < q)
        && ((forall o | o in S :: Hi(o, f) <= q) || (exists o :: o in S && q < Lo(o, f))))
  }

  /** The next entry after ti0 whose lower edge is below q. */
  method NextLow(L: seq<Box>, f: nat, q: real, ti0: nat) returns (ti: nat, found: bool)
    requires f < 3 && ti0 < |L|
    ensures ti0 <= ti < |L|
    ensures found ==> ti0 < ti && Lo(L[ti], f) < q && forall k | ti0 < k < ti :: q <= Lo(L[k], f)
    ensures !found ==> ti == |L| - 1 && forall k | ti0 < k < |L| :: q <= Lo(L[k], f)
  {
    ti, found := ti0, false;
    while ti < |L| - 1
      invariant ti0 <= ti < |L|
      invariant forall k | ti0 < k <= ti :: q <= Lo(L[k], f)
    {
      ti := ti + 1;
      if Lo(L[ti], f) < q {
        found := true;
        break;
      }
    }
  }

  /** The next entry before ti2 whose upper edge is above q. */
  method NextHigh(U: seq<Box>, f: nat, q: real, ti2: nat) returns (ti: nat, found: bool)
    requires f < 3 && ti2 < |U|
    ensures ti <= ti2
    ensures found ==> ti < ti2 && Hi(U[ti], f) > q && forall k | ti < k < ti2 :: Hi(U[k], f) <= q
    ensures !found ==> ti == 0 && forall k | 0 <= k < ti2 :: Hi(U[k], f) <= q
  {
    ti, found := ti2, false;
    while ti > 0
      invariant ti <= ti2
      invariant forall k | ti <= k < ti2 :: Hi(U[k], f) <= q
    {
      ti := ti - 1;
      if Hi(U[ti], f) > q {
        found := true;
        break;
      }
    }
  }

  datatype Window = Window(wl: nat, dl: real, wu: nat, du: real)

  /** The windows, as index and edge distance on each side. */
  ghost predicate Placed(L: seq<Box>, U: seq<Box>, f: nat, q: real, w: Window)
    requires f < 3
  {
    && w.wl < |L| && w.wu < |U|
    && w.dl == SignedSq(Gap(L[w.wl], f, true, q)) && w.du == SignedSq(Gap(U[w.wu], f, false, q))
  }

  /** A low side that the correction has given up on: its distance is too large for the search ever to use it. */
  ghost predicate Dead(w: Window) {
    w.dl == SignedSq(GNN_INF)
  }

  ghost predicate Started(L: seq<Box>, U: seq<Box>, f: nat, q: real, w: Window)
    requires f < 3
  {
    && w.wl < |L| && w.wu < |U|
    && (w.dl == SignedSq(Gap(L[w.wl], f, true, q)) || Dead(w)) && w.du == SignedSq(Gap(U[w.wu], f, false, q))
  }

  ghost predicate Covers(L: seq<Box>, U: seq<Box>, w: Window)
    requires w.wl < |L| && w.wu < |U|
  {
    forall o | o in Elems(L) :: o in Elems(L[..w.wl + 1]) || o in Elems(U[w.wu..])
  }

  /** The two searches found boxes wholly below q and lower edges at or above q, as many as there are. */
  ghost predicate Split(L: seq<Box>, U: seq<Box>, f: nat, q: real, i0: nat, i2: nat)
    requires f < 3 && i0 < |L| && i2 < |U|
  {
    && Hi(L[i0], f) < q && (i0 + 1 < |L| ==> q <= Hi(L[i0 + 1], f))
    && q <= Lo(U[i2], f) && (i2 > 0 ==> Lo(U[i2 - 1], f) < q)
  }

  ghost function Lows(S: set<Box>, f: nat, q: real): set<Box>
    requires f < 3
  {
    set o | o in S && Hi(o, f) < q
  }

  ghost function Highs(S: set<Box>, f: nat, q: real): set<Box>
    requires f < 3
  {
    set o | o in S && q <= Lo(o, f)
  }

  lemma ThreeParts(S: set<Box>, f: nat, q: real)
    requires f < 3 && Boxed(S)
    ensures |S| == |Lows(S, f, q)| + |Highs(S, f, q)| + |Straddlers(S, f, q)|
    ensures forall o | o in S :: o in Lows(S, f, q) || o in Highs(S, f, q) || o in Straddlers(S, f, q)
  {
    var A, B, D := Lows(S, f, q), Highs(S, f, q), Straddlers(S, f, q);
    forall o | o in S
      ensures o in A || o in B || o in D
      ensures !(o in A && o in B) && !(o in A && o in D) && !(o in B && o in D)
    {
      assert Lo(o, f) <= Hi(o, f);
    }
    assert A !! B && (A + B) !! D;
    assert S == A + B + D;
    assert |A + B| == |A| + |B|;
  }

  lemma LowPart(L: seq<Box>, f: nat, q: real, i0: nat)
    requires f < 3 && i0 < |L| && Ordered(L, f, true) && Hi(L[i0], f) < q && (i0 + 1 < |L| ==> q <= Hi(L[i0 + 1], f))
    ensures Elems(L[..i0 + 1]) == Lows(Elems(L), f, q)
  {
    forall k | 0 <= k < |L|
      ensures Hi(L[k], f) < q <==> k <= i0
    {
      assert Key(L[k], f, true) <= Key(L[i0], f, true) || k > i0;
      assert k > i0 ==> Key(L[i0 + 1], f, true) <= Key(L[k], f, true);
    }
    forall o | o in Elems(L)
      ensures o in Elems(L[..i0 + 1]) <==> Hi(o, f) < q
    {
      var k :| 0 <= k < |L| && L[k] == o;
      if k <= i0 { assert L[..i0 + 1][k] == o; }
      if o in Elems(L[..i0 + 1]) {
        var m :| 0 <= m < i0 + 1 && L[..i0 + 1][m] == o;
        assert Hi(L[m], f) < q;
      }
    }
  }

  lemma HighPart(U: seq<Box>, f: nat, q: real, i2: nat)
    requires f < 3 && i2 < |U| && Ordered(U, f, false) && q <= Lo(U[i2], f) && (i2 > 0 ==> Lo(U[i2 - 1], f) < q)
    ensures Elems(U[i2..]) == Highs(Elems(U), f, q)
  {
    forall k | 0 <= k < |U|
      ensures q <= Lo(U[k], f) <==> i2 <= k
    {
      assert k >= i2 ==> Key(U[i2], f, false) <= Key(U[k], f, false);
      assert k < i2 ==> Key(U[k], f, false) <= Key(U[i2 - 1], f, false);
    }
    forall o | o in Elems(U)
      ensures o in Elems(U[i2..]) <==> q <= Lo(o, f)
    {
      var k :| 0 <= k < |U| && U[k] == o;
      if i2 <= k { assert U[i2..][k - i2] == o; }
      if o in Elems(U[i2..]) {
        var m :| 0 <= m < |U| - i2 && U[i2..][m] == o;
        assert q <= Lo(U[i2 + m], f);
      }
    }
  }

  lemma SlicesSize(s: seq<Box>, i: nat)
    requires i <= |s| && NoDup(s)
    ensures |Elems(s)| == |s| && |Elems(s[..i])| == i && |Elems(s[i..])| == |s| - i
  {
    ElemsSize(s);
    ElemsSize(s[..i]);
    ElemsSize(s[i..]);
  }

  /** The correction counts the straddlers right: those that are in neither window. */
  lemma CountStraddlers(L: seq<Box>, U: seq<Box>, f: nat, q: real, i0: nat, i2: nat)
    requires Axis(L, U, f) && i0 < |L| && i2 < |U| && Split(L, U, f, q, i0, i2)
    ensures |Straddlers(Elems(L), f, q)| == |L| - ((|L| - i2) + i0 + 1)
  {
    LowPart(L, f, q, i0);
    HighPart(U, f, q, i2);
    SlicesSize(L, i0 + 1);
    SlicesSize(U, i2);
    ThreeParts(Elems(L), f, q);
  }

  /** The straddlers among the entries of the first list up to ti. */
  ghost function SeenLow(L: seq<Box>, f: nat, q: real, ti: nat): set<Box>
    requires f < 3 && ti < |L|
  {
    Straddlers(Elems(L[..ti + 1]), f, q)
  }

  /** The recognisable straddlers among the entries of the second list from ti on. */
  ghost function SeenHigh(U: seq<Box>, f: nat, q: real, ti: nat): set<Box>
    requires f < 3 && ti < |U|
  {
    Aboves(Elems(U[ti..]), f, q)
  }

  lemma LowQuiet(L: seq<Box>, f: nat, q: real, i: nat, j: nat)
    requires f < 3 && i <= j < |L| && forall k | i < k <= j :: q <= Lo(L[k], f)
    ensures SeenLow(L, f, q, j) == SeenLow(L, f, q, i)
  {
    forall o | o in SeenLow(L, f, q, j)
      ensures o in SeenLow(L, f, q, i)
    {
      var k :| 0 <= k < j + 1 && L[..j + 1][k] == o;
      assert k <= i;
      assert L[..i + 1][k] == o;
    }
    forall o | o in SeenLow(L, f, q, i)
      ensures o in SeenLow(L, f, q, j)
    {
      var k :| 0 <= k < i + 1 && L[..i + 1][k] == o;
      assert L[..j + 1][k] == o;
    }
  }

  lemma HighQuiet(U: seq<Box>, f: nat, q: real, i: nat, j: nat)
    requires f < 3 && i <= j < |U| && forall k | i <= k < j :: Hi(U[k], f) <= q
    ensures SeenHigh(U, f, q, i) == SeenHigh(U, f, q, j)
  {
    forall o | o in SeenHigh(U, f, q, i)
      ensures o in SeenHigh(U, f, q, j)
    {
      var k :| 0 <= k < |U| - i && U[i..][k] == o;
      assert i + k >= j;
      assert U[j..][i + k - j] == o;
    }
    forall o | o in SeenHigh(U, f, q, j)
      ensures o in SeenHigh(U, f, q, i)
    {
      var k :| 0 <= k < |U| - j && U[j..][k] == o;
      assert U[i..][j + k - i] == o;
    }
  }

  /** The walk up the first list finds exactly one more straddler. */
  lemma LowStep(L: seq<Box>, f: nat, q: real, i0: nat, i: nat, j: nat)
    requires f < 3 && i0 <= i < j < |L| && NoDup(L) && Ordered(L, f, true)
    requires i0 + 1 < |L| ==> q <= Hi(L[i0 + 1], f)
    requires Lo(L[j], f) < q && forall k | i < k < j :: q <= Lo(L[k], f)
    ensures |SeenLow(L, f, q, j)| == |SeenLow(L, f, q, i)| + 1
  {
    LowQuiet(L, f, q, i, j - 1);
    assert Key(L[i0 + 1], f, true) <= Key(L[j], f, true);
    PrefixElems(L, j);
    StraddlersAdd(Elems(L[..j]), L[j], f, q);
  }

  lemma StraddlersAdd(S: set<Box>, o: Box, f: nat, q: real)
    requires f < 3 && o !in S && Straddles(o, f, q)
    ensures |Straddlers(S + {o}, f, q)| == |Straddlers(S, f, q)| + 1
  {
    assert Straddlers(S + {o}, f, q) == Straddlers(S, f, q) + {o};
  }

  lemma HighStep(U: seq<Box>, f: nat, q: real, i2: nat, i: nat, j: nat)
    requires f < 3 && i < j <= i2 < |U| && NoDup(U) && Ordered(U, f, false)
    requires i2 > 0 ==> Lo(U[i2 - 1], f) < q
    requires Hi(U[i], f) > q && forall k | i < k < j :: Hi(U[k], f) <= q
    ensures |SeenHigh(U, f, q, i)| == |SeenHigh(U, f, q, j)| + 1
  {
    HighQuiet(U, f, q, i + 1, j);
    assert Key(U[i], f, false) <= Key(U[i2 - 1], f, false);
    assert U[i..] == [U[i]] + U[i + 1..];
    assert SeenHigh(U, f, q, i) == SeenHigh(U, f, q, i + 1) + {U[i]};
    forall k | i + 1 <= k < |U|
      ensures U[k] != U[i]
    {
    }
    assert U[i] !in SeenHigh(U, f, q, i + 1);
  }

  /** While some straddler is unseen, the walk up the first list finds one. */
  lemma MoreLow(L: seq<Box>, f: nat, q: real, i: nat)
    requires f < 3 && i < |L| && |SeenLow(L, f, q, i)| < |Straddlers(Elems(L), f, q)|
    ensures exists k :: i < k < |L| && Lo(L[k], f) < q
  {
    assert L[..|L|] == L;
    if forall k | i < k < |L| :: q <= Lo(L[k], f) {
      LowQuiet(L, f, q, i, |L| - 1);
    }
  }

  // ---- the correction loop

  /** What holds between two rounds of the correction, when the searches have split the lists and
      count rounds are done. The walk up the first list has seen that many straddlers; the walk down
      the second as many, unless it has run out; and the window moved last reaches that far. */
  ghost predicate Correcting(L: seq<Box>, U: seq<Box>, f: nat, q: real, i0: nat, i2: nat, ti0: nat, ti2: nat, w: Window,
      count: nat) {
    && Axis(L, U, f) && i0 <= ti0 < |L| && ti2 <= i2 < |U| && Split(L, U, f, q, i0, i2)
    && Placed(L, U, f, q, w) && i0 <= w.wl && w.wu <= i2
    && |SeenLow(L, f, q, ti0)| == count
    && (|SeenHigh(U, f, q, ti2)| == count || (ti2 == 0 && |SeenHigh(U, f, q, 0)| < count))
    && (count > 0 ==> w.wl == ti0 || (w.wu == ti2 && |SeenHigh(U, f, q, ti2)| == count))
  }

  lemma StartCorrecting(L: seq<Box>, U: seq<Box>, f: nat, q: real, i0: nat, i2: nat, w: Window)
    requires Axis(L, U, f) && i0 < |L| && i2 < |U| && Split(L, U, f, q, i0, i2) && Placed(L, U, f, q, w) && w.wl == i0
      && w.wu == i2
    ensures Correcting(L, U, f, q, i0, i2, i0, i2, w, 0)
  {
    LowPart(L, f, q, i0);
    HighPart(U, f, q, i2);
    assert SeenLow(L, f, q, i0) == {};
    assert SeenHigh(U, f, q, i2) == {};
  }

  /** After as many rounds as there are straddlers every box is in a window: the window moved last holds all
      straddlers. */
  lemma DoneCorrecting(L: seq<Box>, U: seq<Box>, f: nat, q: real, i0: nat, i2: nat, ti0: nat, ti2: nat, w: Window,
      count: nat)
    requires Correcting(L, U, f, q, i0, i2, ti0, ti2, w, count) && count == |Straddlers(Elems(L), f, q)|
    ensures Covers(L, U, w)
  {
    LowPart(L, f, q, i0);
    HighPart(U, f, q, i2);
    ThreeParts(Elems(L), f, q);
    var D := Straddlers(Elems(L), f, q);
    SlicesWithin(L, U, i0, ti0, w.wl, i2, ti2, w.wu);
    if w.wl == ti0 {
      SubsetSize(SeenLow(L, f, q, ti0), D);
    } else if count > 0 {
      assert SeenHigh(U, f, q, ti2) <= D;
      SubsetSize(SeenHigh(U, f, q, ti2), D);
    } else {
      assert D == {};
    }
  }

  lemma SlicesWithin(L: seq<Box>, U: seq<Box>, i0: nat, ti0: nat, wl: nat, i2: nat, ti2: nat, wu: nat)
    requires i0 <= wl < |L| && ti0 < |L| && wu <= i2 < |U| && ti2 < |U|
    ensures Elems(L[..i0 + 1]) <= Elems(L[..wl + 1]) && Elems(L[..ti0 + 1]) <= Elems(L)
    ensures Elems(U[i2..]) <= Elems(U[wu..]) && Elems(U[ti2..]) <= Elems(U)
  {
    assert L[..i0 + 1] == L[..wl + 1][..i0 + 1];
    assert U[i2..] == U[wu..][i2 - wu..];
  }

  /** No upper edge is so far above q that it meets the guard value of the correction. */
  ghost predicate Reachable(S: set<Box>, f: nat, q: real)
    requires f < 3
  {
    forall o | o in S :: Hi(o, f) - q < GNN_INF
  }

  /** What the walk down the second list has seen after one more round. */
  lemma HighRound(L: seq<Box>, U: seq<Box>, f: nat, q: real, i0: nat, i2: nat, ti0: nat, ti2: nat, w: Window,
      count: nat, tj2: nat, found: bool)
    requires Correcting(L, U, f, q, i0, i2, ti0, ti2, w, count) && tj2 <= ti2
    requires found ==> tj2 < ti2 && Hi(U[tj2], f) > q && forall k | tj2 < k < ti2 :: Hi(U[k], f) <= q
    requires !found ==> tj2 == 0 && forall k | 0 <= k < ti2 :: Hi(U[k], f) <= q
    ensures if found then |SeenHigh(U, f, q, tj2)| == count + 1 else |SeenHigh(U, f, q, 0)| < count + 1
  {
    if found {
      HighStep(U, f, q, i2, tj2, ti2);
    } else {
      HighQuiet(U, f, q, 0, ti2);
    }
  }

  /** The distance from q down to a box that the walk up the first list stops at, or the guard value. */
  function LowReach(L: seq<Box>, f: nat, q: real, ti: nat, found: bool): real
    requires f < 3 && ti < |L|
  {
    if found then Gap(L[ti], f, true, q) else GNN_INF
  }

  function HighReach(U: seq<Box>, f: nat, q: real, ti: nat, found: bool): real
    requires f < 3 && ti < |U|
  {
    if found then Gap(U[ti], f, false, q) else -GNN_INF
  }

  /** The choice that the correction makes between the two walks. */
  function Choose(w: Window, tj0: nat, tv0: real, tj2: nat, tv2: real): Window {
    if tv0 > tv2 then w.(wl := tj0, dl := SignedSq(tv0)) else w.(wu := tj2, du := SignedSq(tv2))
  }

  lemma RoundSeen(L: seq<Box>, U: seq<Box>, f: nat, q: real, i0: nat, i2: nat, ti0: nat, ti2: nat, w: Window,
      count: nat, tj0: nat, found0: bool)
    requires Correcting(L, U, f, q, i0, i2, ti0, ti2, w, count) && count < |Straddlers(Elems(L), f, q)|
    requires ti0 <= tj0 < |L|
    requires found0 ==> ti0 < tj0 && Lo(L[tj0], f) < q && forall k | ti0 < k < tj0 :: q <= Lo(L[k], f)
    requires !found0 ==> forall k | ti0 < k < |L| :: q <= Lo(L[k], f)
    ensures found0 && |SeenLow(L, f, q, tj0)| == count + 1
  {
    MoreLow(L, f, q, ti0);
    LowStep(L, f, q, i0, ti0, tj0);
  }

  lemma CorrectRound(L: seq<Box>, U: seq<Box>, f: nat, q: real, i0: nat, i2: nat, ti0: nat, ti2: nat, w: Window,
      count: nat, tj0: nat, tj2: nat, found2: bool)
    requires Correcting(L, U, f, q, i0, i2, ti0, ti2, w, count) && Reachable(Elems(L), f, q)
    requires ti0 <= tj0 < |L| && tj2 <= ti2 && |SeenLow(L, f, q, tj0)| == count + 1
    requires if found2 then |SeenHigh(U, f, q, tj2)| == count + 1 else tj2 == 0 && |SeenHigh(U, f, q, 0)| < count + 1
    ensures Correcting(L, U, f, q, i0, i2, tj0, tj2,
      Choose(w, tj0, Gap(L[tj0], f, true, q), tj2, HighReach(U, f, q, tj2, found2)), count + 1)
  {
    var tv0, tv2 := Gap(L[tj0], f, true, q), HighReach(U, f, q, tj2, found2);
    var w' := Choose(w, tj0, tv0, tj2, tv2);
    assert L[tj0] in Elems(L);
    assert Placed(L, U, f, q, w') by {
      if tv0 > tv2 {
        assert w' == Window(tj0, SignedSq(tv0), w.wu, w.du);
      } else {
        assert found2;
        assert w' == Window(w.wl, w.dl, tj2, SignedSq(tv2));
      }
    }
  }

  /** Whatever the two walks find, the window keeps the distance of the box it stands at, or is given up. */
  lemma ChooseStarted(L: seq<Box>, U: seq<Box>, f: nat, q: real, w: Window, tj0: nat, found0: bool, tj2: nat,
      found2: bool)
    requires f < 3 && tj0 < |L| && tj2 < |U| && Started(L, U, f, q, w) && Reachable(Elems(L), f, q)
    ensures Started(L, U, f, q, Choose(w, tj0, LowReach(L, f, q, tj0, found0), tj2, HighReach(U, f, q, tj2, found2)))
  {
    assert L[tj0] in Elems(L);
    assert GNN_INF > 0.0 by { InfBig(); }
    var w' := Choose(w, tj0, LowReach(L, f, q, tj0, found0), tj2, HighReach(U, f, q, tj2, found2));
    if LowReach(L, f, q, tj0, found0) > HighReach(U, f, q, tj2, found2) {
      assert w' == Window(tj0, SignedSq(LowReach(L, f, q, tj0, found0)), w.wu, w.du);
    } else {
      assert found2;
      assert w' == Window(w.wl, w.dl, tj2, SignedSq(Gap(U[tj2], f, false, q)));
    }
  }

  /** The correction loop. */
  method Correct(L: seq<Box>, U: seq<Box>, f: nat, q: real, i0: nat, i2: nat, w0: Window, ghost ok: bool)
    returns (w: Window)
    requires Axis(L, U, f) && i0 < |L| && i2 < |U| && w0.wl == i0 && w0.wu == i2
    requires Placed(L, U, f, q, w0) && (ok ==> Split(L, U, f, q, i0, i2) && Reachable(Elems(L), f, q))
    ensures w.wl < |L| && w.wu < |U| && (Reachable(Elems(L), f, q) ==> Started(L, U, f, q, w))
    ensures ok && |L| - i2 + i0 + 1 < |L| ==> Placed(L, U, f, q, w) && Covers(L, U, w)
    ensures |L| - i2 + i0 + 1 >= |L| ==> w == w0
  {
    var n := |L|;
    w := w0;
    var tc := n - i2 + i0 + 1;
    var ti0: nat, ti2: nat := i0, i2;
    ghost var count: nat := 0;
    if ok {
      CountStraddlers(L, U, f, q, i0, i2);
      StartCorrecting(L, U, f, q, i0, i2, w);
    }
    while tc < n
      invariant ti0 < n && ti2 < n && w.wl < n && w.wu < n && tc == n - i2 + i0 + 1 + count
      invariant (count > 0 ==> n - i2 + i0 + 1 < n && tc <= n) && (count == 0 ==> w == w0)
      invariant ok ==> Correcting(L, U, f, q, i0, i2, ti0, ti2, w, count)
      invariant Reachable(Elems(L), f, q) ==> Started(L, U, f, q, w)
    {
      var tj0, found0 := NextLow(L, f, q, ti0);
      var tj2, found2 := NextHigh(U, f, q, ti2);
      if ok {
        RoundSeen(L, U, f, q, i0, i2, ti0, ti2, w, count, tj0, found0);
        HighRound(L, U, f, q, i0, i2, ti0, ti2, w, count, tj2, found2);
        CorrectRound(L, U, f, q, i0, i2, ti0, ti2, w, count, tj0, tj2, found2);
      }
      if Reachable(Elems(L), f, q) {
        ChooseStarted(L, U, f, q, w, tj0, found0, tj2, found2);
      }
      w := Choose(w, tj0, LowReach(L, f, q, tj0, found0), tj2, HighReach(U, f, q, tj2, found2));
      ti0, ti2 := tj0, tj2;
      tc, count := tc + 1, count + 1;
    }
    if ok && count > 0 {
      DoneCorrecting(L, U, f, q, i0, i2, ti0, ti2, w, count);
    }
  }

  /** The lists of a point that fits: either one window holds a whole list, or the lists are split as the count
      expects. */
  lemma FitsSplit(L: seq<Box>, U: seq<Box>, f: nat, q: real, i0: nat, j0: nat, j2: nat, i2: nat)
    requires Axis(L, U, f) && Fits(Elems(L), f, q)
    requires Bracketed(L, f, true, q, i0, j0) && Bracketed(U, f, false, q, j2, i2)
    ensures i2 == 0 || i0 == |L| - 1 || Split(L, U, f, q, i0, i2)
  {
    if forall o | o in Elems(L) :: q <= Lo(o, f) {
      AllAbove(U, f, q);
    } else {
      FirstBelow(L, f, q);
      if forall o | o in Elems(L) :: Hi(o, f) <= q {
        AllBelow(L, f, q);
      } else {
        LastAbove(U, f, q);
      }
    }
  }

  lemma AllAbove(U: seq<Box>, f: nat, q: real)
    requires f < 3 && U != [] && forall o | o in Elems(U) :: q <= Lo(o, f)
    ensures q <= Key(U[0], f, false)
  {
    assert U[0] in Elems(U);
  }

  lemma AllBelow(L: seq<Box>, f: nat, q: real)
    requires f < 3 && L != [] && forall o | o in Elems(L) :: Hi(o, f) <= q
    ensures Key(L[|L| - 1], f, true) <= q
  {
    assert L[|L| - 1] in Elems(L);
  }

  /** When the windows together are long enough, no correction is needed. */
  lemma LongCovers(L: seq<Box>, U: seq<Box>, f: nat, q: real, i0: nat, i2: nat, w: Window)
    requires Axis(L, U, f) && i0 < |L| && i2 < |U| && w.wl == i0 && w.wu == i2 && |L| - i2 + i0 + 1 >= |L|
    requires i2 == 0 || i0 == |L| - 1 || Split(L, U, f, q, i0, i2)
    ensures Covers(L, U, w)
  {
    assert L[..|L|] == L && U[0..] == U;
    if i2 != 0 && i0 != |L| - 1 {
      SplitCovers(L, U, f, q, i0, i2, w);
    }
  }

  lemma FirstBelow(L: seq<Box>, f: nat, q: real)
    requires f < 3 && L != [] && Ordered(L, f, true) && exists o :: o in Elems(L) && Hi(o, f) < q
    ensures Key(L[0], f, true) < q
  {
    var o :| o in Elems(L) && Hi(o, f) < q;
    var k :| 0 <= k < |L| && L[k] == o;
    assert Key(L[0], f, true) <= Key(L[k], f, true);
  }

  lemma LastAbove(U: seq<Box>, f: nat, q: real)
    requires f < 3 && U != [] && Ordered(U, f, false) && exists o :: o in Elems(U) && q < Lo(o, f)
    ensures q < Key(U[|U| - 1], f, false)
  {
    var o :| o in Elems(U) && q < Lo(o, f);
    var k :| 0 <= k < |U| && U[k] == o;
    assert Key(U[k], f, false) <= Key(U[|U| - 1], f, false);
  }

  /** The starting windows of axis f. */
  method AxisStart(L: seq<Box>, U: seq<Box>, f: nat, q: real)
    returns (w: Window, ghost i0: nat, ghost j0: nat, ghost j2: nat, ghost i2: nat)
    requires Axis(L, U, f)
    ensures w.wl < |L| && w.wu < |U|
    ensures Bracketed(L, f, true, q, i0, j0) && Bracketed(U, f, false, q, j2, i2)
    ensures |L| - i2 + i0 + 1 >= |L| ==> w.wl == i0 && w.wu == i2 && Placed(L, U, f, q, w)
    ensures Reachable(Elems(L), f, q) ==> Started(L, U, f, q, w)
    ensures Fits(Elems(L), f, q) && Reachable(Elems(L), f, q) ==> Placed(L, U, f, q, w) && Covers(L, U, w)
  {
    var k0, m0 := Search(L, f, true, q);
    var m2, k2 := Search(U, f, false, q);
    i0, j0, j2, i2 := k0, m0, m2, k2;
    w := Window(k0, SignedSq(Gap(L[k0], f, true, q)), k2, SignedSq(Gap(U[k2], f, false, q)));
    ghost var ok := Fits(Elems(L), f, q) && Reachable(Elems(L), f, q);
    if Fits(Elems(L), f, q) {
      FitsSplit(L, U, f, q, i0, j0, j2, i2);
      if |L| - i2 + i0 + 1 >= |L| {
        LongCovers(L, U, f, q, i0, i2, w);
      }
    }
    w := Correct(L, U, f, q, k0, k2, w, ok && Split(L, U, f, q, i0, i2));
  }

  lemma SplitCovers(L: seq<Box>, U: seq<Box>, f: nat, q: real, i0: nat, i2: nat, w: Window)
    requires Axis(L, U, f) && i0 < |L| && i2 < |U| && w.wl == i0 && w.wu == i2
    requires Split(L, U, f, q, i0, i2) && |L| - i2 + i0 + 1 >= |L|
    ensures Covers(L, U, w)
  {
    CountStraddlers(L, U, f, q, i0, i2);
    LowPart(L, f, q, i0);
    HighPart(U, f, q, i2);
    ThreeParts(Elems(L), f, q);
  }

  // ---- a point that does not fit

  /** Seen from q on axis f, every box reaches past q, one lies wholly above it and at most one straddles it. */
  ghost predicate Corner(S: set<Box>, f: nat, q: real)
    requires f < 3
  {
    && (forall o | o in S :: q <= Hi(o, f))
    && (exists o :: o in S && q < Lo(o, f))
    && (forall o, x | o in S && x in S && Lo(o, f) < q && Lo(x, f) < q :: o == x)
  }

  /** In a corner the windows are long enough to stop the correction: the low side holds the first box of the first list
      only, the high side all boxes above q. */
  lemma CornerWindows(L: seq<Box>, U: seq<Box>, f: nat, q: real, i0: nat, j0: nat, j2: nat, i2: nat)
    requires Axis(L, U, f) && Bracketed(L, f, true, q, i0, j0) && Bracketed(U, f, false, q, j2, i2)
      && Corner(Elems(L), f, q)
    ensures |L| - i2 + i0 + 1 >= |L|
    ensures Elems(L[..i0 + 1]) == {L[0]} && Elems(U[i2..]) == Highs(Elems(L), f, q)
  {
    assert L[0] in Elems(L);
    assert i0 == 0 && L[..1] == [L[0]];
    LastAbove(U, f, q);
    assert U[i2] in Elems(U) && U[0] in Elems(U) && U[j2] in Elems(U);
    if i2 > 0 {
      assert Key(U[0], f, false) <= Key(U[i2 - 1], f, false);
      assert U[i2 - 1] in Elems(U);
    }
    HighPart(U, f, q, i2);
  }

  /** In a corner every box is in a window exactly if the straddler, if there is one, heads the first list. */
  lemma CornerCovers(L: seq<Box>, U: seq<Box>, f: nat, q: real, i0: nat, j0: nat, j2: nat, i2: nat, w: Window)
    requires Axis(L, U, f) && Bracketed(L, f, true, q, i0, j0) && Bracketed(U, f, false, q, j2, i2)
      && Corner(Elems(L), f, q)
    requires w.wl == i0 && w.wu == i2
    ensures Covers(L, U, w) <==> forall o | o in Elems(L) && Lo(o, f) < q :: o == L[0]
  {
    CornerWindows(L, U, f, q, i0, j0, j2, i2);
    forall o | o in Elems(L)
      ensures (o in Elems(L[..i0 + 1]) || o in Elems(U[i2..])) <==> (Lo(o, f) < q ==> o == L[0])
    {
    }
  }
}
