/** The permutation counter as it runs: an array that is rearranged in place, and a counter for each level. */
module PermuteCounter {
  import opened Lists
  import opened Permute

  ghost predicate Counts(p: seq<nat>, n: nat) {
    n <= |p| && forall k | 0 <= k < n :: p[k] <= k
  }

  /** The arrangement when the current run at level n will have ended. */
  ghost function Finish(n: nat, a: seq<nat>, p: seq<nat>): (r: seq<nat>)
    requires n <= |a| && Counts(p, n)
    ensures |r| == |a|
  {
    if n <= 1 then a else RunFrom(n, Finish(n - 1, a, p), p[n - 1])
  }

  /** What is still to be visited in the current run at level n, after the arrangement a. */
  ghost function Pending(n: nat, a: seq<nat>, p: seq<nat>): seq<seq<nat>>
    requires n <= |a| && Counts(p, n)
  {
    if n <= 1 then [] else Pending(n - 1, a, p) + RoundsFrom(n, Finish(n - 1, a, p), p[n - 1])
  }

  /** All counters at their limit: the run has ended. */
  lemma {:induction false} AllFull(n: nat, a: seq<nat>, p: seq<nat>)
    requires n <= |a| && Counts(p, n) && forall k | 0 <= k < n :: p[k] == k
    ensures Pending(n, a, p) == [] && Finish(n, a, p) == a
  {
    if n >= 2 {
      AllFull(n - 1, a, p);
    }
  }

  /** All counters zero: the run has just begun. */
  lemma {:induction false} AllZero(n: nat, a: seq<nat>, p: seq<nat>)
    requires n <= |a| && Counts(p, n) && forall k | 0 <= k < n :: p[k] == 0
    ensures [a] + Pending(n, a, p) == Visits(n, a) && Finish(n, a, p) == End(n, a)
  {
    if n >= 2 {
      AllZero(n - 1, a, p);
      var e := End(n - 1, a);
      assert [a] + (Pending(n - 1, a, p) + RoundsFrom(n, e, 0)) == ([a] + Pending(n - 1, a, p)) + RoundsFrom(n, e, 0);
    }
  }

  /** All but the arrangement: the levels below i are at their limit and then at zero, and level i goes up. */
  ghost predicate Carried(i: nat, a: seq<nat>, p: seq<nat>, a': seq<nat>, p': seq<nat>) {
    && 1 <= i < |p| == |p'| && |a'| == |a| && i < |a| && Counts(p, |p|) && Counts(p', |p|)
    && (forall k | 0 <= k < i :: p[k] == k && p'[k] == 0)
    && p[i] < i && p'[i] == p[i] + 1
    && (forall k | i < k < |p| :: p'[k] == p[k])
  }

  /** One increment: level i + 1 ends a round and all levels below start afresh. */
  ghost predicate Incremented(i: nat, a: seq<nat>, p: seq<nat>, a': seq<nat>, p': seq<nat>) {
    Carried(i, a, p, a', p') && a' == Step(i + 1, p[i], a)
  }

  lemma Regroup<A>(x: A, v: seq<A>, r: seq<A>)
    ensures ([x] + v) + r == [x] + (v + r)
  {
  }

  /** One arrangement fewer is pending at level n, and the run ends as before. */
  ghost predicate OneFewer(n: nat, a: seq<nat>, p: seq<nat>, a': seq<nat>, p': seq<nat>)
    requires n <= |a| && n <= |a'| && Counts(p, n) && Counts(p', n)
  {
    Pending(n, a, p) == [a'] + Pending(n, a', p') && Finish(n, a, p) == Finish(n, a', p')
  }

  /** Before the increment nothing is pending below level n, and after it a whole run is. */
  lemma LevelBefore(n: nat, a: seq<nat>, p: seq<nat>, c: nat)
    requires 2 <= n <= |a| && Counts(p, n) && c == p[n - 1] && forall k | 0 <= k < n - 1 :: p[k] == k
    ensures Pending(n, a, p) == RoundsFrom(n, a, c) && Finish(n, a, p) == RunFrom(n, a, c)
  {
    AllFull(n - 1, a, p);
    Level(n, a, p, a);
    assert [] + RoundsFrom(n, a, c) == RoundsFrom(n, a, c);
  }

  lemma LevelAfter(n: nat, a: seq<nat>, p: seq<nat>, c: nat, e: seq<nat>)
    requires 2 <= n <= |a| && Counts(p, n) && c == p[n - 1] && forall k | 0 <= k < n - 1 :: p[k] == 0
    requires e == End(n - 1, a)
    ensures [a] + Pending(n, a, p) == Visits(n - 1, a) + RoundsFrom(n, e, c) && Finish(n, a, p) == RunFrom(n, e, c)
  {
    AllZero(n - 1, a, p);
    Level(n, a, p, e);
    Regroup(a, Pending(n - 1, a, p), RoundsFrom(n, e, c));
  }

  lemma NextAtLevel(i: nat, a: seq<nat>, p: seq<nat>, a': seq<nat>, p': seq<nat>)
    requires Incremented(i, a, p, a', p')
    ensures OneFewer(i + 1, a, p, a', p')
  {
    NextRound(i + 1, a, p[i], a');
    LevelBefore(i + 1, a, p, p[i]);
    LevelAfter(i + 1, a', p', p'[i], End(i, a'));
  }

  lemma Level(n: nat, a: seq<nat>, p: seq<nat>, f: seq<nat>)
    requires 2 <= n <= |a| && Counts(p, n) && Finish(n - 1, a, p) == f
    ensures |f| == |a|
    ensures Pending(n, a, p) == Pending(n - 1, a, p) + RoundsFrom(n, f, p[n - 1])
      && Finish(n, a, p) == RunFrom(n, f, p[n - 1])
  {
  }

  lemma NextRound(n: nat, b: seq<nat>, j: nat, c: seq<nat>)
    requires 2 <= n <= |b| && j < n - 1 && c == Step(n, j, b)
    ensures RoundsFrom(n, b, j) == Visits(n - 1, c) + RoundsFrom(n, End(n - 1, c), j + 1)
    ensures RunFrom(n, b, j) == RunFrom(n, End(n - 1, c), j + 1)
  {
  }

  lemma {:induction false} FewerAbove(n: nat, i: nat, a: seq<nat>, p: seq<nat>, a': seq<nat>, p': seq<nat>)
    requires Carried(i, a, p, a', p') && i < n <= |a| && n <= |p| && OneFewer(i + 1, a, p, a', p')
    ensures OneFewer(n, a, p, a', p')
    decreases n
  {
    if n > i + 1 {
      FewerAbove(n - 1, i, a, p, a', p');
      var f := Finish(n - 1, a, p);
      Level(n, a, p, f);
      Level(n, a', p', f);
      Regroup(a', Pending(n - 1, a', p'), RoundsFrom(n, f, p[n - 1]));
    }
  }

  /** The increment visits the next pending arrangement. */
  lemma NextPending(n: nat, i: nat, a: seq<nat>, p: seq<nat>, a': seq<nat>, p': seq<nat>)
    requires Incremented(i, a, p, a', p') && i < n <= |a| && n <= |p|
    ensures Pending(n, a, p) == [a'] + Pending(n, a', p') && Finish(n, a, p) == Finish(n, a', p')
  {
    NextAtLevel(i, a, p, a', p');
    FewerAbove(n, i, a, p, a', p');
  }

  class Permut {
    const nn: array<nat>
    const p: array<nat>
    const num: nat
    var i: nat

    ghost predicate Valid()
      reads this, p
    {
      nn.Length == num && p.Length == num && num >= 1 && nn != p && Counts(p[..], num)
    }

    predicate Done()
      reads this
    {
      i >= num
    }

    /** What the counter has still to visit. */
    ghost function ToCome(): seq<seq<nat>>
      reads this, nn, p
      requires Valid()
    {
      Pending(num, nn[..], p[..])
    }

    /** Set the counter to its initial value. */
    constructor (num: nat)
      requires num >= 1
      ensures Valid() && fresh(nn) && fresh(p) && i == 0 && this.num == num
      ensures nn[..] == Ident(num) && [nn[..]] + ToCome() == Visits(num, Ident(num))
    {
      nn := new nat[num](k => k);
      p := new nat[num](_ => 0);
      this.num := num;
      i := 0;
      new;
      assert nn[..] == Ident(num);
      AllZero(num, nn[..], p[..]);
    }

    /** The swap of level i. */
    method SwapEntries()
      requires nn.Length == p.Length == num && nn != p && 1 <= i < num && p[i] < i
      modifies nn
      ensures nn[..] == Step(i + 1, p[i], old(nn[..]))
    {
      if i % 2 == 0 {
        nn[0], nn[i] := nn[i], nn[0];
      } else {
        var c := p[i];
        nn[c], nn[i] := nn[i], nn[c];
      }
    }

    /** Increment the counter: go to the next arrangement, or be done when there is none. */
    method Inc()
      requires Valid() && i == 0
      modifies this`i, nn, p
      ensures Valid()
      ensures Done() <==> old(ToCome()) == []
      ensures Done() ==> nn[..] == old(nn[..])
      ensures !Done() ==> i == 0 && old(ToCome()) == [nn[..]] + ToCome()
    {
      ghost var a, p0 := nn[..], p[..];
      while i < num && p[i] >= i
        invariant i <= num && nn[..] == a
        invariant forall k | 0 <= k < i :: p0[k] == k && p[k] == 0
        invariant forall k | i <= k < num :: p[k] == p0[k]
      {
        p[i] := 0;
        i := i + 1;
      }
      if i >= num {
        AllFull(num, a, p0);
        return;
      }
      SwapEntries();
      p[i] := p[i] + 1;
      NextPending(num, i, a, p0, nn[..], p[..]);
      i := 0;
    }
  }

  function Ident(num: nat): (s: seq<nat>)
    ensures |s| == num && NoDup(s)
  {
    seq(num, k => k)
  }

  /** Run the counter from its initial value until it is done. */
  method RunAll(num: nat) returns (visited: seq<seq<nat>>)
    requires num >= 1
    ensures visited == Visits(num, Ident(num))
  {
    var nn := new Permut(num);
    visited := [nn.nn[..]];
    while !nn.Done()
      invariant nn.Valid() && fresh(nn) && fresh(nn.nn) && fresh(nn.p) && nn.num == num
      invariant nn.Done() ==> visited == Visits(num, Ident(num))
      invariant !nn.Done() ==> nn.i == 0 && visited + nn.ToCome() == Visits(num, Ident(num))
      decreases if nn.Done() then 0 else 1 + |nn.ToCome()|
    {
      ghost var before := nn.ToCome();
      nn.Inc();
      if !nn.Done() {
        assert visited + before == visited + [nn.nn[..]] + nn.ToCome();
        visited := visited + [nn.nn[..]];
      }
    }
  }

  /** The counter visits every permutation of num elements exactly once, num! in all. */
  lemma AllPermutations(num: nat)
    requires num >= 1
    ensures NoDup(Visits(num, Ident(num))) && |Visits(num, Ident(num))| == Factorial(num)
    ensures forall t: seq<nat> :: t in Visits(num, Ident(num)) <==> multiset(t) == multiset(Ident(num))
  {
    var s := Ident(num);
    VisitsOnce(num, s);
    VisitsCount(num, s);
    forall t: seq<nat>
      ensures t in Visits(num, s) <==> multiset(t) == multiset(s)
    {
      if t in Visits(num, s) {
        VisitsOnly(num, s, t);
      }
      if multiset(t) == multiset(s) {
        assert |multiset(t)| == |t| && |multiset(s)| == |s|;
        VisitsAll(num, s, t);
      }
    }
  }
}
