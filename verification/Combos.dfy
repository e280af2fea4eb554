/** The combination counter, and the simplex counter that skips some combinations. */
module Combos {
  type Sel = seq<int>

  /** A selection of cmb out of tot: strictly decreasing numbers below tot. */
  ghost predicate Selection(s: Sel, cmb: nat, tot: nat) {
    |s| == cmb && (forall k | 0 <= k < cmb :: 0 <= s[k] < tot) && forall i, j | 0 <= i < j < cmb :: s[i] > s[j]
  }

  /** s comes before t at position k: they agree after k, and s is smaller at k. */
  ghost predicate LessAt(s: Sel, t: Sel, k: int) {
    |s| == |t| && 0 <= k < |s| && s[k] < t[k] && forall j | k < j < |s| :: s[j] == t[j]
  }

  /** Lexicographic order from the last index. */
  ghost predicate Less(s: Sel, t: Sel) {
    exists k :: LessAt(s, t, k)
  }

  lemma LessTrans(s: Sel, t: Sel, u: Sel)
    requires Less(s, t) && Less(t, u)
    ensures Less(s, u)
  {
    var i :| LessAt(s, t, i);
    var j :| LessAt(t, u, j);
    var k := if i > j then i else j;
    assert LessAt(s, u, k);
  }

  /** Two different sequences differ last somewhere. */
  lemma {:induction false} Differ(s: Sel, t: Sel) returns (k: int)
    requires |s| == |t| && s != t
    ensures 0 <= k < |s| && s[k] != t[k] && forall j | k < j < |s| :: s[j] == t[j]
    decreases |s|
  {
    k := |s| - 1;
    while s[k] == t[k]
      invariant 0 <= k < |s| && forall j | k < j < |s| :: s[j] == t[j]
      decreases k
    {
      k := k - 1;
    }
  }

  /** The digits of a selection from the last index, as a number in base tot. */
  function Rank(s: Sel, tot: nat): int {
    if s == [] then 0 else s[0] + tot * Rank(s[1..], tot)
  }

  ghost predicate Digits(s: Sel, tot: nat) {
    forall k | 0 <= k < |s| :: 0 <= s[k] < tot
  }

  lemma ScaleInt(k: int, x: int, y: int)
    requires k >= 0 && x <= y
    ensures k * x <= k * y
  {
  }

  lemma {:induction false} RankUp(s: Sel, t: Sel, tot: nat)
    requires Less(s, t) && Digits(s, tot) && Digits(t, tot)
    ensures Rank(s, tot) < Rank(t, tot)
    decreases |s|
  {
    var k :| LessAt(s, t, k);
    if k == 0 {
      assert s[1..] == t[1..];
    } else {
      assert s[1..][k - 1] == s[k] && t[1..][k - 1] == t[k];
      assert LessAt(s[1..], t[1..], k - 1);
      RankUp(s[1..], t[1..], tot);
      ScaleInt(tot, Rank(s[1..], tot) + 1, Rank(t[1..], tot));
      assert tot * (Rank(s[1..], tot) + 1) == tot * Rank(s[1..], tot) + tot;
    }
  }

  function Power(b: nat, n: nat): nat {
    if n == 0 then 1 else b * Power(b, n - 1)
  }

  lemma {:induction false} RankBound(s: Sel, tot: nat)
    requires Digits(s, tot)
    ensures 0 <= Rank(s, tot) < Power(tot, |s|)
    decreases |s|
  {
    if s == [] {
    } else {
      RankBound(s[1..], tot);
      ScaleInt(tot, Rank(s[1..], tot) + 1, Power(tot, |s| - 1));
      ScaleInt(tot, 0, Rank(s[1..], tot));
      assert tot * (Rank(s[1..], tot) + 1) == tot * Rank(s[1..], tot) + tot;
    }
  }

  // ---- the increment

  /** The next selection when e is the first entry that can grow: it grows, and the entries before it follow upwards. */
  ghost predicate Grown(s: Sel, t: Sel, e: int, tot: nat) {
    && |s| == |t| && 0 <= e < |s|
    && (forall k | 0 <= k < e :: s[k] == tot - k - 1 && t[k] == s[e] + 1 + e - k)
    && s[e] + 1 < tot - e && t[e] == s[e] + 1
    && forall k | e < k < |s| :: s[k] == t[k]
  }

  lemma GrownSelection(s: Sel, t: Sel, e: int, tot: nat)
    requires Selection(s, |s|, tot) && Grown(s, t, e, tot)
    ensures Selection(t, |s|, tot) && Less(s, t)
  {
    assert LessAt(s, t, e);
  }

  /** No selection lies between s and the next one. */
  lemma GrownNext(s: Sel, t: Sel, e: int, tot: nat, u: Sel)
    requires Selection(s, |s|, tot) && Grown(s, t, e, tot) && Selection(u, |s|, tot) && Less(s, u)
    ensures u == t || Less(t, u)
  {
    GrownSelection(s, t, e, tot);
    var k :| LessAt(s, u, k);
    AtMost(u, tot, k);
    assert k >= e;
    if u != t {
      var d := Differ(t, u);
      assert d <= k;
      if d < e {
        AtLeast(u, d, e);
      } else {
        assert d == k;
      }
      assert LessAt(t, u, d);
    }
  }

  /** Entry k of a selection leaves room for the entries before it. */
  lemma {:induction false} AtMost(u: Sel, tot: nat, k: int)
    requires Selection(u, |u|, tot) && 0 <= k < |u|
    ensures u[k] <= tot - k - 1
    decreases k
  {
    if k > 0 {
      AtMost(u, tot, k - 1);
    }
  }

  lemma {:induction false} AtLeast(u: Sel, d: int, e: int)
    requires 0 <= d <= e < |u| && forall i, j | 0 <= i < j < |u| :: u[i] > u[j]
    ensures u[d] >= u[e] + e - d
    decreases e - d
  {
    if d < e {
      AtLeast(u, d + 1, e);
    }
  }

  /** When no entry can grow, s is the last selection. */
  lemma NoneGreater(s: Sel, tot: nat, u: Sel)
    requires Selection(s, |s|, tot) && Selection(u, |s|, tot) && forall k | 0 <= k < |s| :: s[k] == tot - k - 1
    ensures !Less(s, u)
  {
    forall k
      ensures !LessAt(s, u, k)
    {
      if 0 <= k < |u| {
        AtMost(u, tot, k);
      }
    }
  }

  /** The first selection: the smallest numbers. */
  ghost predicate First(s: Sel, cmb: nat) {
    |s| == cmb && forall k | 0 <= k < cmb :: s[k] == cmb - k - 1
  }

  lemma FirstLeast(s: Sel, cmb: nat, tot: nat, u: Sel)
    requires cmb <= tot && First(s, cmb) && Selection(u, cmb, tot)
    ensures Selection(s, cmb, tot) && (u == s || Less(s, u))
  {
    if u != s {
      var d := Differ(s, u);
      AtLeast(u, d, cmb - 1);
      assert LessAt(s, u, d);
    }
  }

  // ---- the simplex condition

  /** (a ^ b) & b, bit by bit. */
  function XorAnd(a: nat, b: nat): nat {
    if b == 0 then 0 else 2 * XorAnd(a / 2, b / 2) + (if b % 2 == 1 && a % 2 == 0 then 1 else 0)
  }

  /** Bit k of a number. */
  function Bit(a: nat, k: nat): bool {
    if k == 0 then a % 2 == 1 else Bit(a / 2, k - 1)
  }

  /** Every bit of b is a bit of a. */
  ghost predicate BitsIn(a: nat, b: nat) {
    forall k: nat :: Bit(b, k) ==> Bit(a, k)
  }

  /** The test of XCB_INC is zero exactly when every bit of b is a bit of a. */
  lemma {:induction false} XorAndZero(a: nat, b: nat)
    ensures XorAnd(a, b) == 0 <==> BitsIn(a, b)
    decreases b
  {
    if b == 0 {
      forall k: nat ensures !Bit(0, k) { NoBits(k); }
    } else {
      XorAndZero(a / 2, b / 2);
      BitsHalf(a, b);
    }
  }

  lemma BitsHalf(a: nat, b: nat)
    ensures BitsIn(a, b) <==> BitsIn(a / 2, b / 2) && (b % 2 == 1 ==> a % 2 == 1)
  {
    if BitsIn(a, b) {
      assert Bit(b, 0) ==> Bit(a, 0);
      forall k: nat | Bit(b / 2, k)
        ensures Bit(a / 2, k)
      {
        assert Bit(b, k + 1) && Bit(a, k + 1);
      }
    }
    if BitsIn(a / 2, b / 2) && (b % 2 == 1 ==> a % 2 == 1) {
      forall k: nat | Bit(b, k)
        ensures Bit(a, k)
      {
        if k > 0 { assert Bit(b / 2, k - 1); }
      }
    }
  }

  lemma {:induction false} NoBits(k: nat)
    ensures !Bit(0, k)
  {
    if k > 0 { NoBits(k - 1); }
  }

  ghost predicate Nested(a: int, b: int) {
    a >= 0 && b >= 0 && XorAnd(a, b) == 0
  }

  /** Each entry's bits contain the next entry's bits. */
  ghost predicate Simplex(s: Sel) {
    forall i, j {:trigger Nested(s[i], s[j])} | 0 <= i && j == i + 1 && j < |s| :: Nested(s[i], s[j])
  }

  // ---- when there is a simplex selection at all

  function Pow2(n: nat): (p: nat)
    ensures p >= 1
  {
    if n == 0 then 1 else 2 * Pow2(n - 1)
  }

  /** How many bits are set. */
  function Pop(a: nat): nat {
    if a == 0 then 0 else a % 2 + Pop(a / 2)
  }

  lemma {:induction false} PopLeast(a: nat)
    ensures a + 1 >= Pow2(Pop(a))
  {
    if a == 0 {
    } else {
      PopLeast(a / 2);
    }
  }

  lemma {:induction false} PopMore(a: nat, b: nat)
    requires XorAnd(a, b) == 0
    ensures Pop(a) >= Pop(b) && (a != b ==> Pop(a) > Pop(b))
    decreases a + b
  {
    if a > 0 || b > 0 {
      PopMore(a / 2, b / 2);
    }
  }

  lemma {:induction false} ChainPop(s: Sel, cmb: nat, tot: nat, k: nat)
    requires Selection(s, cmb, tot) && Simplex(s) && k < cmb
    ensures Pop(s[k]) >= cmb - 1 - k
    decreases cmb - k
  {
    if k + 1 < cmb {
      ChainPop(s, cmb, tot, k + 1);
      assert Nested(s[k], s[k + 1]);
      PopMore(s[k], s[k + 1]);
    }
  }

  lemma {:induction false} Pow2Up(m: nat, n: nat)
    requires m <= n
    ensures Pow2(m) <= Pow2(n)
  {
    if m < n {
      Pow2Up(m, n - 1);
    }
  }

  /** All ones. */
  lemma {:induction false} OnesNested(m: nat)
    ensures XorAnd(Pow2(m + 1) - 1, Pow2(m) - 1) == 0
  {
    if m == 0 {
    } else {
      OnesNested(m - 1);
      assert (Pow2(m + 1) - 1) / 2 == Pow2(m) - 1 && (Pow2(m) - 1) / 2 == Pow2(m - 1) - 1;
    }
  }

  function OnesChain(cmb: nat): Sel {
    seq(cmb, k requires 0 <= k < cmb => Pow2(cmb - 1 - k) - 1)
  }

  /** There is a simplex selection exactly when the total is at least 2 to the power of one less than the number
      chosen. */
  lemma SimplexExists(cmb: nat, tot: nat)
    requires cmb >= 1
    ensures (exists s: Sel :: Selection(s, cmb, tot) && Simplex(s)) <==> tot >= Pow2(cmb - 1)
  {
    if s: Sel :| Selection(s, cmb, tot) && Simplex(s) {
      ChainPop(s, cmb, tot, 0);
      PopLeast(s[0]);
      Pow2Up(cmb - 1, Pop(s[0]));
    }
    if tot >= Pow2(cmb - 1) {
      OnesSelection(cmb, tot);
    }
  }

  lemma OnesSelection(cmb: nat, tot: nat)
    requires cmb >= 1 && tot >= Pow2(cmb - 1)
    ensures Selection(OnesChain(cmb), cmb, tot) && Simplex(OnesChain(cmb))
  {
    var s := OnesChain(cmb);
    forall i, j | 0 <= i < j < cmb
      ensures s[i] > s[j]
    {
      var x, y := cmb - 1 - j, cmb - 2 - i;
      Pow2Up(x, y);
      assert Pow2(y + 1) == 2 * Pow2(y);
    }
    forall k | 0 <= k < cmb
      ensures 0 <= s[k] < tot
    {
      Pow2Up(cmb - 1 - k, cmb - 1);
      assert s[k] == Pow2(cmb - 1 - k) - 1;
    }
    forall i, j | 0 <= i && j == i + 1 && j < |s|
      ensures Nested(s[i], s[j])
    {
      OnesNested(cmb - 1 - j);
    }
  }
}
