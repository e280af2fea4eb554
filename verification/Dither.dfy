/** Choosing a dither pattern: weights of the surrounding values, cell counts, and the search for a better pattern. */
module Dither {
  import opened Lists

  const CELLS: nat := 16

  // ---- weights

  function Sum(s: seq<real>): real {
    if s == [] then 0.0 else Sum(s[..|s| - 1]) + s[|s| - 1]
  }

  lemma SumSnoc(s: seq<real>, x: real)
    ensures Sum(s + [x]) == Sum(s) + x
  {
    assert (s + [x])[..|s|] == s;
  }

  /** Barycentric weights: none negative, and together one. */
  ghost predicate Weighting(w: seq<real>) {
    (forall i | 0 <= i < |w| :: w[i] >= 0.0) && Sum(w) == 1.0
  }

  function Clamp(v: real): (r: real)
    ensures 0.0 <= r <= 1.0 && (v < 0.0 ==> r == 0.0) && (v > 1.0 ==> r == 1.0) && (0.0 <= v <= 1.0 ==> r == v)
  {
    if v < 0.0 then 0.0 else if v > 1.0 then 1.0 else v
  }

  function Clamped(x: seq<real>): (r: seq<real>)
    ensures |r| == |x| && forall i | 0 <= i < |x| :: r[i] == Clamp(x[i])
  {
    seq(|x|, i requires 0 <= i < |x| => Clamp(x[i]))
  }

  /** What the weights found are multiplied by, given their sum. */
  function Shrink(total: real): (r: real)
    ensures if total > 1.0 then total * r == 1.0 else r == 1.0
  {
    if total > 1.0 then 1.0 / total else 1.0
  }

  /** Limit the first m weights found, and sum them up. */
  method ClampAll(bw: array<real>, m: nat) returns (total: real)
    requires m <= bw.Length
    modifies bw
    ensures bw[..m] == Clamped(old(bw[..m])) && bw[m..] == old(bw[m..]) && total == Sum(bw[..m]) >= 0.0
  {
    ghost var c := Clamped(bw[..m]);
    total := 0.0;
    for n := 0 to m
      invariant total == Sum(c[..n]) >= 0.0 && bw[..n] == c[..n] && bw[n..] == old(bw[n..])
    {
      assert bw[n] == old(bw[n..])[0];
      bw[n] := Clamp(bw[n]);
      total := total + bw[n];
      assert c[..n + 1] == c[..n] + [c[n]];
      SumSnoc(c[..n], c[n]);
    }
    assert c[..m] == c;
  }

  /** Make weights of what the optimizer found for all but the last surrounder: each limited to between 0 and 1,
      all divided by their sum if that is over 1, and the rest given to the last. */
  method Normalise(bw: array<real>, nsur: nat)
    requires 1 <= nsur <= bw.Length
    modifies bw
    ensures Weighting(bw[..nsur])
    ensures forall i | 0 <= i < nsur - 1 :: bw[i] == Times(Clamp(old(bw[i])), Shrink(Sum(Clamped(old(bw[..nsur - 1])))))
    ensures forall i | nsur <= i < bw.Length :: bw[i] == old(bw[i])
  {
    ghost var c := Clamped(bw[..nsur - 1]);
    var total := ClampAll(bw, nsur - 1);
    total := Limit(bw, nsur - 1, total);
    ghost var w := bw[..nsur - 1];
    bw[nsur - 1] := 1.0 - total;
    assert bw[..nsur] == w + [1.0 - total];
    SumSnoc(w, 1.0 - total);
  }

  /** Divide the first m weights by their sum if that is over 1. */
  method Limit(bw: array<real>, m: nat, sum: real) returns (total: real)
    requires m <= bw.Length && sum == Sum(bw[..m]) >= 0.0 && forall i | 0 <= i < m :: bw[i] >= 0.0
    modifies bw
    ensures total == Sum(bw[..m]) <= 1.0 && bw[m..] == old(bw[m..])
    ensures forall i | 0 <= i < m :: bw[i] == Times(old(bw[i]), Shrink(sum)) >= 0.0
  {
    total := sum;
    if total > 1.0 {
      Scale(bw, m, total);
      total := 1.0;
    } else {
      forall i | 0 <= i < m
        ensures bw[i] == Times(bw[i], 1.0)
      {
      }
    }
  }

  /** Divide the first m weights by their sum. */
  method Scale(bw: array<real>, m: nat, total: real)
    requires m <= bw.Length && total == Sum(bw[..m]) > 1.0 && forall i | 0 <= i < m :: bw[i] >= 0.0
    modifies bw
    ensures Sum(bw[..m]) == 1.0 && forall i | 0 <= i < m :: bw[i] >= 0.0 && bw[i] == Times(old(bw[i]), 1.0 / total)
    ensures forall i | m <= i < bw.Length :: bw[i] == old(bw[i])
  {
    ghost var w := bw[..m];
    var k := 1.0 / total;
    for n := 0 to m
      invariant forall i | 0 <= i < n :: bw[i] == Times(w[i], k)
      invariant forall i | n <= i < bw.Length :: bw[i] == old(bw[i])
    {
      bw[n] := Times(bw[n], k);
    }
    SumScaled(w, bw[..m], k);
    Inverse(total, k);
    forall i | 0 <= i < m
      ensures bw[i] >= 0.0
    {
      NotNegative(w[i], k);
    }
  }

  function Times(x: real, k: real): real {
    x * k
  }

  lemma Inverse(x: real, k: real)
    requires x > 0.0 && k == 1.0 / x
    ensures Times(x, k) == 1.0 && k > 0.0
  {
  }

  lemma NotNegative(x: real, k: real)
    requires x >= 0.0 && k >= 0.0
    ensures Times(x, k) >= 0.0
  {
  }

  lemma TimesAdds(x: real, y: real, k: real)
    ensures Times(x + y, k) == Times(x, k) + Times(y, k)
  {
  }

  lemma {:induction false} SumScaled(s: seq<real>, t: seq<real>, k: real)
    requires |t| == |s| && forall i | 0 <= i < |s| :: t[i] == Times(s[i], k)
    ensures Sum(t) == Times(Sum(s), k)
    decreases s
  {
    if s == [] {
    } else {
      SumScaled(s[..|s| - 1], t[..|s| - 1], k);
      TimesAdds(Sum(s[..|s| - 1]), s[|s| - 1], k);
    }
  }

  // ---- the order of the weights

  /** The first n entries name each of the n surrounders once. */
  ghost predicate Naming(sw: seq<nat>, n: nat)
    requires n <= |sw|
  {
    (forall a | 0 <= a < n :: sw[a] < n) && forall a, b | 0 <= a < b < n :: sw[a] != sw[b]
  }

  /** The first i entries are in order of weight and not above the others. */
  ghost predicate Ordered(sw: seq<nat>, n: nat, w: seq<real>, i: nat)
    requires i <= n <= |sw| && n <= |w| && Naming(sw, n)
  {
    forall a, b | 0 <= a < i && a < b < n :: w[sw[a]] <= w[sw[b]]
  }

  /** Entry i is not above those up to j. */
  ghost predicate LeastTo(sw: seq<nat>, n: nat, w: seq<real>, i: nat, j: nat)
    requires i < n && j <= n <= |sw| && n <= |w| && Naming(sw, n)
  {
    forall b | i < b < j :: w[sw[i]] <= w[sw[b]]
  }

  function Swapped(s: seq<nat>, i: nat, j: nat): (t: seq<nat>)
    requires i < j < |s|
    ensures |t| == |s|
  {
    s[i := s[j]][j := s[i]]
  }

  lemma SwapNames(s: seq<nat>, n: nat, i: nat, j: nat)
    requires i < j < n <= |s| && Naming(s, n)
    ensures Naming(Swapped(s, i, j), n)
  {
  }

  lemma SwapOrders(s: seq<nat>, n: nat, w: seq<real>, i: nat, j: nat)
    requires i < j < n <= |s| && n <= |w| && Naming(s, n) && Ordered(s, n, w, i) && LeastTo(s, n, w, i, j)
      && w[s[j]] < w[s[i]]
    ensures Naming(Swapped(s, i, j), n) && Ordered(Swapped(s, i, j), n, w, i)
      && LeastTo(Swapped(s, i, j), n, w, i, j + 1)
  {
    SwapNames(s, n, i, j);
    var t := Swapped(s, i, j);
    forall a, b | 0 <= a < i && a < b < n
      ensures w[t[a]] <= w[t[b]]
    {
      assert w[s[a]] <= w[s[if b == i then j else if b == j then i else b]];
    }
    forall b | i < b < j + 1
      ensures w[t[i]] <= w[t[b]]
    {
    }
  }

  lemma LeastOrders(s: seq<nat>, n: nat, w: seq<real>, i: nat)
    requires i < n <= |s| && n <= |w| && Naming(s, n) && Ordered(s, n, w, i) && LeastTo(s, n, w, i, n)
    ensures Ordered(s, n, w, i + 1)
  {
  }

  /** Put the smaller of the weights i and j first. */
  method PutLess(bw: array<real>, sw: array<nat>, ncomb: nat, i: nat, j: nat)
    requires i < j < ncomb <= sw.Length && ncomb <= bw.Length && Naming(sw[..], ncomb)
    requires Ordered(sw[..], ncomb, bw[..], i) && LeastTo(sw[..], ncomb, bw[..], i, j)
    modifies sw
    ensures Naming(sw[..], ncomb) && Ordered(sw[..], ncomb, bw[..], i) && LeastTo(sw[..], ncomb, bw[..], i, j + 1)
  {
    ghost var s := sw[..];
    assert s[i] == sw[i] && s[j] == sw[j];
    if bw[sw[j]] < bw[sw[i]] {
      SwapOrders(s, ncomb, bw[..], i, j);
      sw[i], sw[j] := sw[j], sw[i];
      assert sw[..] == Swapped(s, i, j);
    }
  }

  /** Sort the weights from smallest to largest. */
  method SortWeights(bw: array<real>, ncomb: nat) returns (sw: array<nat>)
    requires ncomb <= 8 == bw.Length
    ensures fresh(sw) && sw.Length == 8 && Naming(sw[..], ncomb) && Ordered(sw[..], ncomb, bw[..], ncomb)
  {
    sw := new nat[8](n => n);
    ghost var w := bw[..];
    var i := 0;
    while i + 1 < ncomb
      invariant i <= ncomb && Naming(sw[..], ncomb) && Ordered(sw[..], ncomb, w, i)
    {
      for j := i + 1 to ncomb
        invariant Naming(sw[..], ncomb) && Ordered(sw[..], ncomb, w, i) && LeastTo(sw[..], ncomb, w, i, j)
      {
        PutLess(bw, sw, ncomb, i, j);
      }
      LeastOrders(sw[..], ncomb, w, i);
      i := i + 1;
    }
  }

  // ---- counts out of sixteen

  /** A weight in sixteenths, to the nearest. */
  function Nearest(w: real): (r: int)
    ensures r as real - 0.5 <= 16.0 * w < r as real + 0.5
  {
    (16.0 * w + 0.5).Floor
  }

  /** The counts for weights x from position i on, when rem cells are left: each but the last gets the nearest count as
      long as cells are left, and the last what remains. */
  function Allot(x: seq<real>, i: nat, rem: nat): seq<int>
    requires i < |x|
    decreases |x| - i
  {
    if i + 1 == |x| then [rem]
    else if rem == 0 then [0] + Allot(x, i + 1, 0)
    else [Nearest(x[i])] + Allot(x, i + 1, if Nearest(x[i]) >= rem then 0 else rem - Nearest(x[i]))
  }

  function Total(s: seq<int>): int {
    if s == [] then 0 else Total(s[..|s| - 1]) + s[|s| - 1]
  }

  lemma {:induction false} TotalCons(a: int, s: seq<int>)
    ensures Total([a] + s) == a + Total(s)
    decreases s
  {
    if s == [] {
      assert [a] + s == [a] && [a][..0] == [];
    } else {
      TotalCons(a, s[..|s| - 1]);
      assert ([a] + s)[..|s|] == [a] + s[..|s| - 1];
    }
  }

  lemma {:induction false} AllotSize(x: seq<real>, i: nat, rem: nat)
    requires i < |x| && forall k | 0 <= k < |x| :: x[k] >= 0.0
    ensures |Allot(x, i, rem)| == |x| - i && forall a | 0 <= a < |x| - i :: Allot(x, i, rem)[a] >= 0
    decreases |x| - i
  {
    if i + 1 == |x| {
    } else {
      AllotSize(x, i + 1, 0);
      if Nearest(x[i]) < rem {
        AllotSize(x, i + 1, rem - Nearest(x[i]));
      }
    }
  }

  /** No count is larger than what is left when it is given out. */
  predicate Fits(x: seq<real>, i: nat, rem: nat)
    requires i < |x| && forall k | 0 <= k < |x| :: x[k] >= 0.0
    decreases |x| - i
  {
    i + 1 == |x| || rem == 0 || (Nearest(x[i]) <= rem && Fits(x, i + 1, rem - Nearest(x[i])))
  }

  /** The counts add up to the cells left exactly when each fits, and to more otherwise. */
  lemma {:induction false} AllotTotal(x: seq<real>, i: nat, rem: nat)
    requires i < |x| && forall k | 0 <= k < |x| :: x[k] >= 0.0
    ensures Total(Allot(x, i, rem)) >= rem && (Total(Allot(x, i, rem)) == rem <==> Fits(x, i, rem))
    decreases |x| - i
  {
    if i + 1 == |x| {
      assert [rem][..0] == [];
    } else if rem == 0 {
      AllotTotal(x, i + 1, 0);
      TotalCons(0, Allot(x, i + 1, 0));
      NoneLeft(x, i + 1);
    } else {
      var left := if Nearest(x[i]) >= rem then 0 else rem - Nearest(x[i]);
      AllotTotal(x, i + 1, left);
      TotalCons(Nearest(x[i]), Allot(x, i + 1, left));
      NoneLeft(x, i + 1);
    }
  }

  lemma NoneLeft(x: seq<real>, i: nat)
    requires i < |x| && forall k | 0 <= k < |x| :: x[k] >= 0.0
    ensures Fits(x, i, 0)
  {
  }

  // ---- at most seven surrounders always fit

  ghost predicate Rising(x: seq<real>) {
    forall i, j | 0 <= i < j < |x| :: x[i] <= x[j]
  }

  /** k times p. */
  function Reps(k: nat, p: real): real {
    if k == 0 then 0.0 else Reps(k - 1, p) + p
  }

  lemma {:induction false} RepsUp(k: nat, m: nat, p: real)
    requires k <= m && p >= 0.0
    ensures Reps(k, p) <= Reps(m, p)
    decreases m - k
  {
    if k == m {
    } else {
      RepsUp(k, m - 1, p);
    }
  }

  lemma {:induction false} SumBelow(s: seq<real>, p: real)
    requires forall i | 0 <= i < |s| :: s[i] <= p
    ensures Sum(s) <= Reps(|s|, p)
    decreases s
  {
    if s == [] {
    } else {
      SumBelow(s[..|s| - 1], p);
    }
  }

  lemma {:induction false} SumNatural(s: seq<real>)
    requires forall i | 0 <= i < |s| :: s[i] >= 0.0
    ensures Sum(s) >= 0.0 && (s != [] ==> Sum(s) >= s[|s| - 1])
    decreases s
  {
    if s == [] {
    } else {
      SumNatural(s[..|s| - 1]);
    }
  }

  lemma {:induction false} SumJoins(s: seq<real>, t: seq<real>)
    ensures Sum(s + t) == Sum(s) + Sum(t)
    decreases t
  {
    if t == [] {
      assert s + t == s;
    } else {
      SumJoins(s, t[..|t| - 1]);
      assert s + t == (s + t[..|t| - 1]) + [t[|t| - 1]];
      SumSnoc(s + t[..|t| - 1], t[|t| - 1]);
    }
  }

  /** Of weights in order, the first six or fewer have at most six sevenths of the whole if there are more. */
  lemma LowShare(low: seq<real>, high: seq<real>)
    requires Rising(low + high) && 1 <= |low| <= SIX && high != [] && Sum(low) + Sum(high) == 1.0
    requires forall i | 0 <= i < |low + high| :: (low + high)[i] >= 0.0
    ensures 7.0 * Sum(low) <= 6.0
  {
    var x, p := low + high, low[|low| - 1];
    forall i | 0 <= i < |low|
      ensures low[i] <= p
    {
      assert x[i] == low[i] && x[|low| - 1] == p;
    }
    forall i | 0 <= i < |high|
      ensures high[i] >= p >= 0.0
    {
      assert x[|low| + i] == high[i] && x[|low| - 1] == p;
    }
    SumBelow(low, p);
    SumNatural(high);
    RepsUp(|low|, SIX, p);
    SixReps(SIX, p);
  }

  const SIX: nat := 6

  lemma SixReps(k: nat, p: real)
    requires k == 6
    ensures Reps(k, p) == 6.0 * p
  {
    assert Reps(k, p) == Reps(k - 1, p) + p == Reps(k - 2, p) + 2.0 * p == Reps(k - 3, p) + 3.0 * p;
    assert Reps(k - 3, p) == Reps(k - 4, p) + p == Reps(k - 5, p) + 2.0 * p == 3.0 * p;
  }

  lemma SplitSum(x: seq<real>, j: nat)
    requires j <= |x|
    ensures x == x[..j] + x[j..] && Sum(x) == Sum(x[..j]) + Sum(x[j..])
  {
    assert x == x[..j] + x[j..];
    SumJoins(x[..j], x[j..]);
  }

  /** The sum of the first j nearest counts. */
  function Given(x: seq<real>, j: nat): int
    requires j <= |x|
  {
    if j == 0 then 0 else Given(x, j - 1) + Nearest(x[j - 1])
  }

  lemma {:induction false} GivenBelow(x: seq<real>, j: nat)
    requires j <= |x|
    ensures Given(x, j) as real <= 16.0 * Sum(x[..j]) + 0.5 * j as real
  {
    if j == 0 {
    } else {
      GivenBelow(x, j - 1);
      assert x[..j] == x[..j - 1] + [x[j - 1]];
      SumSnoc(x[..j - 1], x[j - 1]);
    }
  }

  /** With at most seven weights, the nearest counts of all but the largest come to at most sixteen. */
  lemma GivenFits(x: seq<real>, j: nat)
    requires Rising(x) && Weighting(x) && j < |x| <= 7
    ensures Given(x, j) <= 16
  {
    if j > 0 {
      SplitSum(x, j);
      GivenBelow(x, j);
      LowShare(x[..j], x[j..]);
    }
  }

  lemma {:induction false} SevenFit(x: seq<real>, i: nat)
    requires Rising(x) && Weighting(x) && i < |x| <= 7 && 0 <= Given(x, i) <= 16
    ensures Fits(x, i, 16 - Given(x, i))
    decreases |x| - i
  {
    if i + 1 == |x| {
    } else {
      GivenFits(x, i + 1);
      SevenFit(x, i + 1);
    }
  }

  // ---- the counts of the surrounders

  ghost function Upto(n: nat): (r: set<nat>)
    ensures |r| == n && forall k :: k in r <==> 0 <= k < n
  {
    if n == 0 then {} else Upto(n - 1) + {n - 1}
  }

  lemma NamesAll(sw: seq<nat>, n: nat, k: nat) returns (a: nat)
    requires n <= |sw| && Naming(sw, n) && k < n
    ensures a < n && sw[a] == k
  {
    var S, R := Elems(sw[..n]), Upto(n);
    assert NoDup(sw[..n]);
    ElemsSize(sw[..n]);
    SubsetSize(S, R);
    assert k in S;
    a :| 0 <= a < n && sw[..n][a] == k;
  }

  lemma {:induction false} TotalWithout(s: seq<int>, a: nat)
    requires a < |s|
    ensures Total(Without(s, a)) == Total(s) - s[a]
    decreases s
  {
    var r := s[..|s| - 1];
    if a == |s| - 1 {
      assert Without(s, a) == r;
    } else {
      TotalWithout(r, a);
      var w := Without(s, a);
      assert w[..|w| - 1] == Without(r, a) && w[|w| - 1] == s[|s| - 1];
    }
  }

  /** Counts given out in another order come to the same total. */
  lemma {:induction false} TotalNamed(sw: seq<nat>, w: seq<int>, v: seq<int>)
    requires Naming(sw, |sw|) && |v| == |w| == |sw| && forall a | 0 <= a < |sw| :: v[a] == w[sw[a]]
    ensures Total(v) == Total(w)
    decreases sw
  {
    var n := |sw|;
    if n == 0 {
    } else {
      var a := NamesAll(sw, n, n - 1);
      TotalWithout(v, a);
      NamingWithout(sw, a);
      forall b | 0 <= b < n - 1
        ensures Without(v, a)[b] == w[..n - 1][Without(sw, a)[b]]
      {
      }
      TotalNamed(Without(sw, a), w[..n - 1], Without(v, a));
    }
  }

  lemma NamingWithout(sw: seq<nat>, a: nat)
    requires Naming(sw, |sw|) && a < |sw| && sw[a] == |sw| - 1
    ensures Naming(Without(sw, a), |sw| - 1)
  {
  }

  /** The weights in the order given by sw. */
  function InOrder(bw: seq<real>, sw: seq<nat>): (x: seq<real>)
    requires Naming(sw, |sw|) && |sw| <= |bw|
    ensures |x| == |sw|
  {
    seq(|sw|, a requires 0 <= a < |sw| => bw[sw[a]])
  }

  /** The next count, and those after it. */
  lemma AllotAt(all: seq<int>, x: seq<real>, i: nat, rem: nat)
    requires i < |x| == |all| && all[i..] == Allot(x, i, rem)
    ensures var b := if i + 1 == |x| then rem else if rem == 0 then 0 else Nearest(x[i]);
      all[i] == b && (i + 1 < |x| ==> all[i + 1..] == Allot(x, i + 1, if b >= rem then 0 else rem - b))
  {
    assert all[i..][0] == all[i] && all[i..][1..] == all[i + 1..];
  }

  /** The first i counts are given to the surrounders that sw names. */
  ghost predicate GivenTo(biw: seq<int>, sw: seq<nat>, all: seq<int>, i: nat)
    requires i <= |sw| == |biw| == |all| && Naming(sw, |sw|)
  {
    forall a | 0 <= a < i :: biw[sw[a]] == all[a]
  }

  lemma GiveNext(biw: seq<int>, sw: seq<nat>, all: seq<int>, i: nat)
    requires i < |sw| == |biw| == |all| && Naming(sw, |sw|) && GivenTo(biw, sw, all, i)
    ensures GivenTo(biw[sw[i] := all[i]], sw, all, i + 1)
  {
  }

  /** Compute the nearest count out of sixteen for each surrounder. */
  method RoundWeights(bw: seq<real>, sw: seq<nat>) returns (biw: array<int>)
    requires 1 <= |sw| <= |bw| <= 8 && Naming(sw, |sw|) && forall k | 0 <= k < |bw| :: bw[k] >= 0.0
    ensures fresh(biw) && biw.Length == |sw|
    ensures |Allot(InOrder(bw, sw), 0, CELLS)| == |sw| && GivenTo(biw[..], sw, Allot(InOrder(bw, sw), 0, CELLS), |sw|)
  {
    var ncomb := |sw|;
    ghost var x := InOrder(bw, sw);
    ghost var all := Allot(x, 0, CELLS);
    AllotSize(x, 0, CELLS);
    biw := new int[ncomb](_ => 0);
    var rem: nat := CELLS;
    var i := 0;
    while i < ncomb - 1 && rem > 0
      invariant 0 <= i <= ncomb - 1 && all[i..] == Allot(x, i, rem) && GivenTo(biw[..], sw, all, i)
    {
      AllotAt(all, x, i, rem);
      var n := sw[i];
      var b := Nearest(bw[n]);
      GiveNext(biw[..], sw, all, i);
      ghost var before := biw[..];
      biw[n] := b;
      assert biw[..] == before[n := b];
      rem := if rem - b <= 0 then 0 else rem - b;
      i := i + 1;
    }
    while i < ncomb
      invariant i <= ncomb && (i < ncomb ==> all[i..] == Allot(x, i, rem)) && (i < ncomb - 1 ==> rem == 0)
        && GivenTo(biw[..], sw, all, i)
    {
      AllotAt(all, x, i, rem);
      GiveNext(biw[..], sw, all, i);
      ghost var before := biw[..];
      biw[sw[i]] := rem;
      assert biw[..] == before[sw[i] := rem];
      i := i + 1;
    }
  }

  /** The counts come to sixteen exactly when each fits, and to more otherwise. */
  lemma CountsTotal(bw: seq<real>, sw: seq<nat>, biw: seq<int>)
    requires 1 <= |sw| <= |bw| && Naming(sw, |sw|) && |biw| == |sw| && forall k | 0 <= k < |bw| :: bw[k] >= 0.0
    requires |Allot(InOrder(bw, sw), 0, CELLS)| == |sw| && GivenTo(biw, sw, Allot(InOrder(bw, sw), 0, CELLS), |sw|)
    ensures Total(biw) >= CELLS && (Total(biw) == CELLS <==> Fits(InOrder(bw, sw), 0, CELLS))
  {
    var x := InOrder(bw, sw);
    AllotTotal(x, 0, CELLS);
    TotalNamed(sw, biw, Allot(x, 0, CELLS));
  }

  lemma {:induction false} SumWithout(s: seq<real>, a: nat)
    requires a < |s|
    ensures Sum(Without(s, a)) == Sum(s) - s[a]
    decreases s
  {
    var r := s[..|s| - 1];
    if a == |s| - 1 {
      assert Without(s, a) == r;
    } else {
      SumWithout(r, a);
      var w := Without(s, a);
      assert w[..|w| - 1] == Without(r, a) && w[|w| - 1] == s[|s| - 1];
    }
  }

  /** Weights in another order have the same sum. */
  lemma {:induction false} SumNamed(sw: seq<nat>, w: seq<real>, v: seq<real>)
    requires Naming(sw, |sw|) && |v| == |w| == |sw| && forall a | 0 <= a < |sw| :: v[a] == w[sw[a]]
    ensures Sum(v) == Sum(w)
    decreases sw
  {
    var n := |sw|;
    if n == 0 {
    } else {
      var a := NamesAll(sw, n, n - 1);
      SumWithout(v, a);
      NamingWithout(sw, a);
      forall b | 0 <= b < n - 1
        ensures Without(v, a)[b] == w[..n - 1][Without(sw, a)[b]]
      {
      }
      SumNamed(Without(sw, a), w[..n - 1], Without(v, a));
    }
  }

  lemma AllRise(bw: seq<real>, sw: seq<nat>)
    requires |sw| == |bw| && Naming(sw, |sw|) && Weighting(bw) && Ordered(sw, |sw|, bw, |sw|)
    ensures Rising(InOrder(bw, sw)) && Weighting(InOrder(bw, sw))
  {
    SumNamed(sw, bw, InOrder(bw, sw));
  }

  lemma AllCounts(bw: seq<real>, sw: seq<nat>, biw: seq<int>)
    requires 1 <= |sw| == |bw| && Naming(sw, |sw|) && |biw| == |sw| && forall k | 0 <= k < |bw| :: bw[k] >= 0.0
    requires |Allot(InOrder(bw, sw), 0, CELLS)| == |sw| && GivenTo(biw, sw, Allot(InOrder(bw, sw), 0, CELLS), |sw|)
    ensures forall n | 0 <= n < |biw| :: biw[n] >= 0
  {
    AllotSize(InOrder(bw, sw), 0, CELLS);
    forall n | 0 <= n < |biw|
      ensures biw[n] >= 0
    {
      var a := NamesAll(sw, |sw|, n);
      assert biw[sw[a]] == Allot(InOrder(bw, sw), 0, CELLS)[a];
    }
  }

  /** The cells left once the first i counts are given out. */
  function CellsLeft(x: seq<real>, i: nat): nat
    requires i <= |x|
  {
    if Given(x, i) >= 16 then 0 else 16 - Given(x, i)
  }

  /** The count for position a: the last gets the cells left, and each before it its nearest count while any are
      left. */
  function Share(x: seq<real>, a: nat): int
    requires a < |x|
  {
    if a + 1 == |x| then CellsLeft(x, a) else if CellsLeft(x, a) == 0 then 0 else Nearest(x[a])
  }

  lemma {:induction false} AllotIs(x: seq<real>, i: nat, a: nat)
    requires i <= a < |x| && forall k | 0 <= k < |x| :: x[k] >= 0.0
    ensures |Allot(x, i, CellsLeft(x, i))| == |x| - i && Allot(x, i, CellsLeft(x, i))[a - i] == Share(x, a)
    decreases a - i
  {
    AllotSize(x, i, CellsLeft(x, i));
    if i < a {
      AllotIs(x, i + 1, a);
    }
  }

  lemma {:induction false} GivenUp(x: seq<real>, i: nat, j: nat)
    requires i <= j <= |x| && forall k | 0 <= k < |x| :: x[k] >= 0.0
    ensures Given(x, i) <= Given(x, j)
    decreases j
  {
    if i < j {
      GivenUp(x, i, j - 1);
    }
  }

  /** Giving out one more of the nearest counts, the last apart, goes past sixteen. */
  predicate Passes(x: seq<real>, a: nat) {
    a + 1 < |x| && Given(x, a) < 16 < Given(x, a + 1)
  }

  lemma {:induction false} FitsIs(x: seq<real>, i: nat)
    requires i < |x| && forall k | 0 <= k < |x| :: x[k] >= 0.0
    ensures Fits(x, i, CellsLeft(x, i)) <==> forall a | i <= a < |x| :: !Passes(x, a)
    decreases |x| - i
  {
    if i + 1 < |x| {
      if CellsLeft(x, i) == 0 {
        forall a | i <= a < |x|
          ensures !Passes(x, a)
        {
          GivenUp(x, i, a);
        }
      } else if Nearest(x[i]) <= CellsLeft(x, i) {
        FitsIs(x, i + 1);
        assert !Passes(x, i);
      } else {
        assert Passes(x, i);
      }
    }
  }

  /** The counts fit if the weights are taken in the order sw, which goes from the smallest to the largest: none takes
      the cells given out past sixteen. */
  ghost predicate FitsRising(w: seq<real>, sw: seq<nat>)
    requires |sw| == |w| && Naming(sw, |sw|)
  {
    forall a | 0 <= a < |w| :: !Passes(InOrder(w, sw), a)
  }

  /** Each surrounder has its share of the cells. */
  ghost predicate Shared(w: seq<real>, sw: seq<nat>, biw: seq<int>)
    requires |biw| == |sw| == |w| && Naming(sw, |sw|)
  {
    forall a | 0 <= a < |w| :: biw[sw[a]] == Share(InOrder(w, sw), a)
  }

  lemma CountsShared(w: seq<real>, sw: seq<nat>, biw: seq<int>)
    requires 1 <= |sw| == |w| == |biw| && Naming(sw, |sw|) && forall k | 0 <= k < |w| :: w[k] >= 0.0
    requires |Allot(InOrder(w, sw), 0, CELLS)| == |sw| && GivenTo(biw, sw, Allot(InOrder(w, sw), 0, CELLS), |sw|)
    ensures Shared(w, sw, biw) && (Fits(InOrder(w, sw), 0, CELLS) <==> FitsRising(w, sw))
  {
    var x := InOrder(w, sw);
    FitsIs(x, 0);
    forall a | 0 <= a < |w|
      ensures biw[sw[a]] == Share(x, a)
    {
      AllotIs(x, 0, a);
    }
  }

  lemma SevenFits(x: seq<real>)
    requires Rising(x) && Weighting(x) && 1 <= |x| <= 7
    ensures Fits(x, 0, CELLS)
  {
    SevenFit(x, 0);
  }

  lemma CountsRight(w: seq<real>, sw: seq<nat>, biw: seq<int>)
    requires 1 <= |sw| == |w| == |biw| <= 8 && Naming(sw, |sw|) && Weighting(w) && Ordered(sw, |sw|, w, |sw|)
    requires |Allot(InOrder(w, sw), 0, CELLS)| == |sw| && GivenTo(biw, sw, Allot(InOrder(w, sw), 0, CELLS), |sw|)
    ensures Rising(InOrder(w, sw)) && Shared(w, sw, biw) && forall n | 0 <= n < |biw| :: biw[n] >= 0
    ensures Total(biw) >= CELLS && (Total(biw) == CELLS <==> FitsRising(w, sw))
    ensures |w| <= 7 ==> Total(biw) == CELLS
  {
    AllRise(w, sw);
    AllCounts(w, sw, biw);
    CountsTotal(w, sw, biw);
    CountsShared(w, sw, biw);
    if |w| <= 7 {
      SevenFits(InOrder(w, sw));
    }
  }

  /** Sort the weights and give each surrounder its count of the sixteen cells: the counts come to exactly
      sixteen when each fits, as they always do with at most seven surrounders. */
  method CountCells(bw: array<real>, ncomb: nat) returns (biw: seq<int>, ghost sw: seq<nat>)
    requires 1 <= ncomb <= 8 == bw.Length && Weighting(bw[..ncomb])
    ensures |biw| == ncomb && (forall n | 0 <= n < ncomb :: biw[n] >= 0) && Total(biw) >= CELLS
    ensures |sw| == ncomb && Naming(sw, ncomb) && Rising(InOrder(bw[..ncomb], sw)) && Shared(bw[..ncomb], sw, biw)
    ensures Total(biw) == CELLS <==> FitsRising(bw[..ncomb], sw)
    ensures ncomb <= 7 ==> Total(biw) == CELLS
  {
    var order := SortWeights(bw, ncomb);
    ghost var w := bw[..ncomb];
    sw := order[..ncomb];
    forall a, b | 0 <= a < ncomb && a < b < ncomb
      ensures w[sw[a]] <= w[sw[b]]
    {
      assert bw[order[a]] <= bw[order[b]] && w[sw[a]] == bw[order[a]] && w[sw[b]] == bw[order[b]];
    }
    var counts := RoundWeights(bw[..ncomb], order[..ncomb]);
    biw := counts[..];
    CountsRight(w, sw, biw);
  }

  lemma AllotMore(x: seq<real>, i: nat, rem: nat, b: nat, left: nat)
    requires i + 1 < |x| && rem > 0 && Nearest(x[i]) == b && left == if b >= rem then 0 else rem - b
    ensures Total(Allot(x, i, rem)) == b + Total(Allot(x, i + 1, left))
  {
    TotalCons(b, Allot(x, i + 1, left));
  }

  const EIGHT: seq<real> := [0.09375, 0.09375, 0.09375, 0.09375, 0.15625, 0.15625, 0.15625, 0.15625]

  lemma EightSum()
    ensures Weighting(EIGHT) && Rising(EIGHT)
  {
    var x := EIGHT;
    assert x[..1] == [] + [x[0]] && x[..2] == x[..1] + [x[1]] && x[..3] == x[..2] + [x[2]] && x[..4] == x[..3] + [x[3]];
    assert x[..5] == x[..4] + [x[4]] && x[..6] == x[..5] + [x[5]] && x[..7] == x[..6] + [x[6]] && x == x[..7] + [x[7]];
    SumSnoc([], x[0]);
    SumSnoc(x[..1], x[1]);
    SumSnoc(x[..2], x[2]);
    SumSnoc(x[..3], x[3]);
    SumSnoc(x[..4], x[4]);
    SumSnoc(x[..5], x[5]);
    SumSnoc(x[..6], x[6]);
    SumSnoc(x[..7], x[7]);
  }

  /** A run of the counting: c are the counts, r the cells left before each, t the totals from each on. */
  lemma {:induction false} AllotRun(x: seq<real>, c: seq<nat>, r: seq<nat>, t: seq<nat>, i: nat)
    requires i < |x| == |r| == |t| == |c| + 1 && t[|c|] == r[|c|]
    requires forall k | 0 <= k < |c| :: r[k] > 0 && Nearest(x[k]) == c[k] && t[k] == c[k] + t[k + 1]
    requires forall k | 0 <= k < |c| :: r[k + 1] == if c[k] >= r[k] then 0 else r[k] - c[k]
    ensures Total(Allot(x, i, r[i])) == t[i]
    decreases |x| - i
  {
    if i == |c| {
      assert [r[i]][..0] == [];
    } else {
      AllotRun(x, c, r, t, i + 1);
      AllotMore(x, i, r[i], c[i], r[i + 1]);
    }
  }

  /** Eight surrounders can be given seventeen cells. */
  lemma EightOver(x: seq<real>)
    requires x == EIGHT
    ensures Weighting(x) && Rising(x) && Total(Allot(x, 0, CELLS)) == 17
  {
    EightSum();
    var c, r, t := [2, 2, 2, 2, 3, 3, 3], [CELLS, 14, 12, 10, 8, 5, 2, 0], [17, 15, 13, 11, 9, 6, 3, 0];
    AllotRun(x, c, r, t, 0);
  }
}
