/** The in-place heapsort macro, for any strict weak order given by the comparison less. */
module Sort {
  import opened Lists

  /** Of the elements S, less is a strict weak order: asymmetric, and "not less" is transitive. */
  ghost predicate WeakOrder<T>(less: (T, T) -> bool, S: set<T>) {
    && (forall x, y | x in S && y in S && less(x, y) :: !less(y, x))
    && (forall x, y, z | x in S && y in S && z in S && !less(x, y) && !less(y, z) :: !less(x, z))
  }

  ghost function Range<T>(s: seq<T>): set<T> {
    set x | x in s
  }

  ghost predicate Sorted<T>(less: (T, T) -> bool, s: seq<T>) {
    forall i, j | 0 <= i < j < |s| :: !less(s[j], s[i])
  }

  function Parent(k: nat): nat
    requires k > 0
  {
    (k - 1) / 2
  }

  /** Entry k is not above its parent, if that is at l or later. */
  ghost predicate Under<T>(less: (T, T) -> bool, s: seq<T>, l: nat, k: nat)
    requires k < |s|
  {
    k > 0 && Parent(k) >= l ==> !less(s[Parent(k)], s[k])
  }

  ghost predicate Heap<T>(less: (T, T) -> bool, s: seq<T>, l: nat, ir: nat)
    requires ir < |s|
  {
    forall k: nat {:trigger Under(less, s, l, k)} | k <= ir :: Under(less, s, l, k)
  }

  /** A heap with a hole at i where the element x will go: everything else is in heap order,
      and neither x nor the children of the hole are above the hole's parent. */
  ghost predicate HoleAt<T>(less: (T, T) -> bool, s: seq<T>, l: nat, ir: nat, i: nat, x: T)
    requires l <= i <= ir < |s|
  {
    && (forall k: nat {:trigger Under(less, s, l, k)} | k <= ir && k != i && (k > 0 ==> Parent(k) != i) ::
        Under(less, s, l, k))
    && (i > 0 && Parent(i) >= l ==> !less(s[Parent(i)], x))
    && (i > 0 && Parent(i) >= l ==>
        forall k: nat {:trigger s[k]} | i < k <= ir && Parent(k) == i :: !less(s[Parent(i)], s[k]))
  }

  lemma HeapHole<T>(less: (T, T) -> bool, s: seq<T>, l: nat, ir: nat, x: T)
    requires l <= ir < |s| && Heap(less, s, l + 1, ir)
    ensures HoleAt(less, s, l, ir, l, x)
  {
    forall k: nat | k <= ir && k != l && (k > 0 ==> Parent(k) != l)
      ensures Under(less, s, l, k)
    {
      assert Under(less, s, l + 1, k);
    }
  }

  /** Moving the larger child j of the hole up moves the hole down to j. */
  lemma MoveUp<T>(less: (T, T) -> bool, s: seq<T>, l: nat, ir: nat, i: nat, j: nat, x: T)
    requires l <= i < j <= ir < |s| && Parent(j) == i && HoleAt(less, s, l, ir, i, x) && less(x, s[j])
    requires WeakOrder(less, Range(s) + {x})
    requires forall k: nat {:trigger s[k]} | i < k <= ir && Parent(k) == i :: !less(s[j], s[k])
    ensures HoleAt(less, s[i := s[j]], l, ir, j, x)
  {
    var t := s[i := s[j]];
    forall k: nat | k <= ir && k != j && (k > 0 ==> Parent(k) != j)
      ensures Under(less, t, l, k)
    {
      if k > 0 && Parent(k) == i {
        assert t[k] == s[k];
      } else if k == i {
      } else {
        assert Under(less, s, l, k);
      }
    }
    assert s[j] in Range(s);
    forall k: nat | j < k <= ir && Parent(k) == j
      ensures !less(t[Parent(j)], t[k])
    {
      assert Under(less, s, l, k);
    }
  }

  lemma FillHole<T>(less: (T, T) -> bool, s: seq<T>, l: nat, ir: nat, i: nat, x: T)
    requires l <= i <= ir < |s| && HoleAt(less, s, l, ir, i, x)
    requires forall k: nat {:trigger s[k]} | i < k <= ir && Parent(k) == i :: !less(x, s[k])
    ensures Heap(less, s[i := x], l, ir)
  {
    var t := s[i := x];
    forall k: nat | k <= ir
      ensures Under(less, t, l, k)
    {
      if k == i {
      } else if k > 0 && Parent(k) == i {
        assert t[k] == s[k];
      } else {
        assert Under(less, s, l, k);
      }
    }
  }

  /** The top of a heap is its largest element. */
  lemma {:induction false} HeapTop<T>(less: (T, T) -> bool, s: seq<T>, ir: nat, k: nat)
    requires k <= ir < |s| && Heap(less, s, 0, ir) && WeakOrder(less, Range(s))
    ensures !less(s[0], s[k])
  {
    assert s[k] in Range(s) && s[0] in Range(s);
    if k > 0 {
      HeapTop(less, s, ir, Parent(k));
      assert Under(less, s, 0, k);
      assert s[Parent(k)] in Range(s);
    }
  }

  lemma FillMoved<T>(s: seq<T>, i: nat, j: nat, x: T)
    requires i < |s| && j < |s| && i != j
    ensures multiset(s[i := s[j]][j := x]) == multiset(s[i := x])
  {
    var t, u := s[i := x], s[i := s[j]][j := x];
    assert u == t[i := t[j]][j := t[i]];
  }

  lemma RangeKept<T>(s: seq<T>, t: seq<T>)
    requires multiset(s) == multiset(t)
    ensures Range(s) == Range(t)
  {
    forall x
      ensures x in s <==> x in t
    {
      assert x in multiset(s) <==> x in multiset(t);
    }
  }

  lemma WeakOrderSubset<T>(less: (T, T) -> bool, S: set<T>, R: set<T>)
    requires WeakOrder(less, S) && R <= S
    ensures WeakOrder(less, R)
  {
  }

  /** The larger of the children j and j + 1 of i, where j is in the heap. */
  method Larger<T>(a: array<T>, less: (T, T) -> bool, i: nat, j: nat, ir: nat) returns (c: nat)
    requires j == i + i + 1 <= ir < a.Length && WeakOrder(less, Range(a[..]))
    ensures i < c <= ir && Parent(c) == i
    ensures forall k: nat {:trigger a[k]} | i < k <= ir && Parent(k) == i :: !less(a[c], a[k])
  {
    c := j;
    assert a[j] in a[..];
    if j < ir && less(a[j], a[j + 1]) {
      c := j + 1;
    }
    forall k: nat | i < k <= ir && Parent(k) == i
      ensures !less(a[c], a[k])
    {
      assert k == j || k == j + 1;
      assert a[k] in a[..];
    }
  }

  /** x is sinking through the hole at i; s0 is the sequence with x at its first place. */
  ghost predicate Sinking<T>(less: (T, T) -> bool, s0: seq<T>, s: seq<T>, l: nat, ir: nat, i: nat, x: T, S: set<T>) {
    && |s| == |s0| && l <= i <= ir < |s| && HoleAt(less, s, l, ir, i, x)
    && WeakOrder(less, S) && Range(s) <= S && x in S
    && multiset(s[i := x]) == multiset(s0)
    && forall k | 0 <= k < l || ir < k < |s| :: s[k] == s0[k]
  }

  /** x is not below any child of i. */
  ghost predicate Settled<T>(less: (T, T) -> bool, s: seq<T>, ir: nat, i: nat, x: T)
    requires ir < |s|
  {
    forall k: nat {:trigger s[k]} | i < k <= ir && Parent(k) == i :: !less(x, s[k])
  }

  /** Let x sink from position l to its place among the heap entries up to ir. */
  method SiftDown<T>(a: array<T>, less: (T, T) -> bool, l: nat, ir: nat, x: T, ghost S: set<T>)
    requires l <= ir < a.Length && Heap(less, a[..], l + 1, ir)
    requires WeakOrder(less, S) && Range(a[..]) <= S && x in S
    modifies a
    ensures Heap(less, a[..], l, ir) && multiset(a[..]) == multiset(old(a[..])[l := x])
    ensures forall k | 0 <= k < l || ir < k < a.Length :: a[k] == old(a[k])
  {
    ghost var s0 := a[..][l := x];
    var i, j := l, l + l + 1;
    HeapHole(less, a[..], l, ir, x);
    while j <= ir
      invariant j == i + i + 1 || j == ir + 1
      invariant Sinking(less, s0, a[..], l, ir, i, x, S)
      invariant j > ir ==> Settled(less, a[..], ir, i, x)
      decreases ir + 1 - j, ir + 1 - i
    {
      WeakOrderSubset(less, S, Range(a[..]));
      ghost var s := a[..];
      var c := Larger(a, less, i, j, ir);
      if less(x, a[c]) {
        MoveStep(less, s0, s, l, ir, i, c, x, S);
        a[i] := a[c];
        assert a[..] == s[i := s[c]];
        i := c;
        j := c + c + 1;
      } else {
        NoLarger(less, s, i, c, ir, x, S);
        j := ir + 1;
      }
    }
    ghost var s := a[..];
    FillHole(less, s, l, ir, i, x);
    a[i] := x;
    assert a[..] == s[i := x];
  }

  lemma NoLarger<T>(less: (T, T) -> bool, s: seq<T>, i: nat, c: nat, ir: nat, x: T, S: set<T>)
    requires i < c <= ir < |s| && WeakOrder(less, S) && Range(s) <= S && x in S && !less(x, s[c])
    requires forall k: nat {:trigger s[k]} | i < k <= ir && Parent(k) == i :: !less(s[c], s[k])
    ensures Settled(less, s, ir, i, x)
  {
    assert s[c] in Range(s);
    forall k: nat | i < k <= ir && Parent(k) == i
      ensures !less(x, s[k])
    {
      assert s[k] in Range(s);
    }
  }

  lemma MoveStep<T>(less: (T, T) -> bool, s0: seq<T>, s: seq<T>, l: nat, ir: nat, i: nat, c: nat, x: T, S: set<T>)
    requires Sinking(less, s0, s, l, ir, i, x, S) && i < c <= ir && Parent(c) == i && less(x, s[c])
    requires forall k: nat {:trigger s[k]} | i < k <= ir && Parent(k) == i :: !less(s[c], s[k])
    ensures Sinking(less, s0, s[i := s[c]], l, ir, c, x, S)
  {
    WeakOrderSubset(less, S, Range(s) + {x});
    MoveUp(less, s, l, ir, i, c, x);
    FillMoved(s, i, c, x);
    var t := s[i := s[c]];
    forall y | y in t
      ensures y in S
    {
      assert s[c] in Range(s);
    }
  }

  // ---- the two phases

  /** The entries after ir are in order and none of them is below an entry up to ir. */
  ghost predicate Tail<T>(less: (T, T) -> bool, s: seq<T>, ir: nat)
    requires ir < |s|
  {
    && Sorted(less, s[ir + 1..])
    && forall i, j | 0 <= i <= ir < j < |s| :: !less(s[j], s[i])
  }

  /** Entries in the second half have no children. */
  lemma LeavesHeap<T>(less: (T, T) -> bool, s: seq<T>, l: nat, ir: nat)
    requires |s| >= 2 && l == |s| / 2 && ir == |s| - 1
    ensures Heap(less, s, l, ir) && Tail(less, s, ir)
  {
    forall k: nat | k <= ir
      ensures Under(less, s, l, k)
    {
    }
  }

  /** Taking the top off leaves a heap but for position 0. */
  lemma TopOff<T>(less: (T, T) -> bool, s: seq<T>, ir: nat)
    requires 1 < ir < |s| && Heap(less, s, 0, ir)
    ensures Heap(less, s[ir := s[0]], 1, ir - 1)
  {
    var t := s[ir := s[0]];
    forall k: nat | k <= ir - 1
      ensures Under(less, t, 1, k)
    {
      assert Under(less, s, 0, k);
    }
  }

  /** What stands before position ir afterwards was in the heap before. */
  lemma PrefixFrom<T>(s: seq<T>, t: seq<T>, ir: nat, i: nat)
    requires i < ir < |s| == |t| && multiset(t) == multiset(s) && t[ir] == s[0] && forall k | ir < k < |s| ::
      t[k] == s[k]
    ensures exists k :: 0 <= k <= ir && s[k] == t[i]
  {
    assert s == s[..ir + 1] + s[ir + 1..];
    assert t == t[..ir] + [t[ir]] + t[ir + 1..];
    assert t[ir + 1..] == s[ir + 1..];
    assert multiset(s) == multiset(s[..ir + 1]) + multiset(s[ir + 1..]);
    assert multiset(t) == multiset(t[..ir]) + multiset([t[ir]]) + multiset(s[ir + 1..]);
    SumCancel(multiset(t[..ir]) + multiset([t[ir]]), multiset(s[..ir + 1]), multiset(s[ir + 1..]));
    assert t[i] in multiset(t[..ir]);
    assert t[i] in multiset(s[..ir + 1]);
  }

  /** Moving the top of the heap behind the heap lengthens the sorted tail. */
  lemma TailStep<T>(less: (T, T) -> bool, s: seq<T>, t: seq<T>, ir: nat)
    requires 0 < ir < |s| == |t| && Heap(less, s, 0, ir) && Tail(less, s, ir) && WeakOrder(less, Range(s))
    requires multiset(t) == multiset(s) && t[ir] == s[0] && forall k | ir < k < |s| :: t[k] == s[k]
    ensures Tail(less, t, ir - 1)
    ensures ir == 1 ==> Sorted(less, t)
  {
    forall i, j | 0 <= i < ir <= j < |t|
      ensures !less(t[j], t[i])
    {
      PrefixFrom(s, t, ir, i);
      var k: nat :| k <= ir && s[k] == t[i];
      HeapTop(less, s, ir, k);
    }
    forall i, j | 0 <= i < j < |t[ir..]|
      ensures !less(t[ir..][j], t[ir..][i])
    {
      if i > 0 {
        assert s[ir + 1..][i - 1] == s[ir + i] && s[ir + 1..][j - 1] == s[ir + j];
      }
    }
    if ir == 1 {
      forall i, j | 0 <= i < j < |t|
        ensures !less(t[j], t[i])
      {
        assert i > 0 ==> t[ir..][i - 1] == t[i] && t[ir..][j - 1] == t[j];
      }
    }
  }

  /** Move the top of the heap behind it, and let the displaced last entry sink from the top. */
  method MoveTop<T(==)>(a: array<T>, less: (T, T) -> bool, ir0: nat, ghost S: set<T>) returns (ir: nat)
    requires 0 < ir0 < a.Length && Heap(less, a[..], 0, ir0) && Tail(less, a[..], ir0)
    requires WeakOrder(less, S) && Range(a[..]) == S
    modifies a
    ensures ir == ir0 - 1 && multiset(a[..]) == multiset(old(a[..]))
    ensures ir == 0 ==> Sorted(less, a[..])
    ensures ir > 0 ==> Heap(less, a[..], 0, ir) && Tail(less, a[..], ir)
  {
    ghost var s := a[..];
    var x := a[ir0];
    assert s[0] in Range(s) && x in Range(s);
    a[ir0] := a[0];
    ir := ir0 - 1;
    SwapKept(s, ir0);
    assert a[..] == s[ir0 := s[0]];
    if ir == 0 {
      a[0] := x;
      assert a[..] == s[ir0 := s[0]][0 := s[ir0]];
    } else {
      TopOff(less, s, ir0);
      MovedRange(s, ir0);
      SiftDown(a, less, 0, ir, x, S);
    }
    TailStep(less, s, a[..], ir0);
  }

  lemma SwapKept<T>(s: seq<T>, k: nat)
    requires k < |s|
    ensures multiset(s[k := s[0]][0 := s[k]]) == multiset(s)
  {
  }

  lemma MovedRange<T>(s: seq<T>, k: nat)
    requires 0 < k < |s|
    ensures Range(s[k := s[0]]) <= Range(s)
  {
    assert s[0] in Range(s);
  }

  /** Sort smallest to largest. */
  method HeapSort<T(==)>(a: array<T>, less: (T, T) -> bool)
    requires WeakOrder(less, Range(a[..]))
    modifies a
    ensures Sorted(less, a[..]) && multiset(a[..]) == multiset(old(a[..]))
  {
    if a.Length < 2 {
      return;
    }
    ghost var s0 := a[..];
    var l: nat, ir: nat := a.Length / 2, a.Length - 1;
    LeavesHeap(less, a[..], l, ir);
    while true
      invariant l <= a.Length / 2 && 0 < ir < a.Length && (l > 0 ==> ir == a.Length - 1)
      invariant multiset(a[..]) == multiset(s0) && WeakOrder(less, Range(s0))
      invariant Heap(less, a[..], l, ir) && Tail(less, a[..], ir)
      decreases l + ir
    {
      RangeKept(a[..], s0);
      if l > 0 {
        l := l - 1;
        assert a[l] in a[..] && a[..][l := a[l]] == a[..];
        SiftDown(a, less, l, ir, a[l], Range(s0));
        assert a[ir + 1..] == [];
      } else {
        ir := MoveTop(a, less, ir, Range(s0));
        if ir == 0 {
          break;
        }
      }
    }
  }
}
