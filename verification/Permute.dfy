/**
 The permutation counter: which arrangements it visits, level by level.

 A run at level n moves only the first n entries. It has n rounds; each round is a run at level n - 1,
 and between rounds an entry is swapped into position n - 1: entry 0 if n is odd, entry j after round j if n is even.
 */
module Permute {
  import opened Lists

  function SwapAt<A>(s: seq<A>, i: nat, j: nat): (r: seq<A>)
    requires i < |s| && j < |s|
    ensures |r| == |s| && forall k | 0 <= k < |s| :: r[k] == if k == j then s[i] else if k == i then s[j] else s[k]
  {
    seq(|s|, k requires 0 <= k < |s| => if k == j then s[i] else if k == i then s[j] else s[k])
  }

  /** The swap that ends round j at level n. */
  function Step<A>(n: nat, j: nat, s: seq<A>): (r: seq<A>)
    requires 2 <= n <= |s| && j < n - 1
    ensures |r| == |s|
  {
    if n % 2 == 1 then SwapAt(s, 0, n - 1) else SwapAt(s, j, n - 1)
  }

  /** The arrangement after a whole run at level n. */
  function End<A>(n: nat, s: seq<A>): (r: seq<A>)
    requires n <= |s|
    ensures |r| == |s|
    decreases n, n + 1
  {
    if n <= 1 then s else RunFrom(n, End(n - 1, s), 0)
  }

  /** The arrangement after the rest of a run, when round j has just ended with b. */
  function RunFrom<A>(n: nat, b: seq<A>, j: nat): (r: seq<A>)
    requires 1 <= n <= |b| && j < n
    ensures |r| == |b|
    decreases n, n - j
  {
    if j == n - 1 then b else RunFrom(n, End(n - 1, Step(n, j, b)), j + 1)
  }

  /** The arrangements that a run at level n visits, in order. */
  ghost function Visits<A>(n: nat, s: seq<A>): (v: seq<seq<A>>)
    requires n <= |s|
    decreases n, n + 1
  {
    if n <= 1 then [s] else Visits(n - 1, s) + RoundsFrom(n, End(n - 1, s), 0)
  }

  /** What the rounds after round j visit. */
  ghost function RoundsFrom<A>(n: nat, b: seq<A>, j: nat): seq<seq<A>>
    requires 1 <= n <= |b| && j < n
    decreases n, n - j
  {
    if j == n - 1 then [] else
      Visits(n - 1, Step(n, j, b)) + RoundsFrom(n, End(n - 1, Step(n, j, b)), j + 1)
  }

  /** The arrangement at the start of round j. */
  function Start<A>(n: nat, s: seq<A>, j: nat): (r: seq<A>)
    requires 2 <= n <= |s| && j < n
    ensures |r| == |s|
  {
    if j == 0 then s else Step(n, j - 1, End(n - 1, Start(n, s, j - 1)))
  }

  lemma StartNext<A>(n: nat, s: seq<A>, j: nat)
    requires 2 <= n <= |s| && 0 < j < n
    ensures Start(n, s, j) == Step(n, j - 1, End(n - 1, Start(n, s, j - 1)))
  {
  }

  lemma {:induction false} RunFromStart<A>(n: nat, s: seq<A>, j: nat)
    requires 2 <= n <= |s| && j < n
    ensures RunFrom(n, End(n - 1, Start(n, s, j)), j) == End(n - 1, Start(n, s, n - 1))
    decreases n - j
  {
    if j < n - 1 {
      StartNext(n, s, j + 1);
      RunFromStart(n, s, j + 1);
    }
  }

  lemma EndIsLastRound<A>(n: nat, s: seq<A>)
    requires 2 <= n <= |s|
    ensures End(n, s) == End(n - 1, Start(n, s, n - 1))
  {
    RunFromStart(n, s, 0);
  }

  // ---- where every entry is, in closed form

  /** Which entry a run at level n leaves at position p. */
  function EndSrc(n: nat, p: nat): nat {
    if p >= n then p
    else if n % 2 == 1 || n == 2 then (if p == 0 then n - 1 else if p == n - 1 then 0 else p)
    else if p == 0 then n - 3
    else if p == 1 then n - 2
    else if p == n - 2 then n - 1
    else if p == n - 1 then 0
    else p - 1
  }

  /** Which entry is at position p at the start of round j of a run at an even level. */
  function EvenSrc(n: nat, j: nat, p: nat): nat {
    if p >= n || j == 0 then p
    else if j == n - 1 then (if p == 0 then n - 1 else if p == 1 then n - 2 else if p == n - 1 then 0 else p - 1)
    else if p == 0 then (if j % 2 == 1 then n - 1 else 0)
    else if p == n - 2 then (if j % 2 == 1 then 0 else n - 1)
    else if p == n - 1 then (if j == 1 then n - 2 else j - 1)
    else if p >= j then p
    else if p == 1 then n - 2
    else p - 1
  }

  /** The positions of an odd level in the order in which an entry moves through them. */
  function Cycle(n: nat, k: nat): (p: nat)
    requires n % 2 == 1 && n >= 3 && k < n
    ensures p < n
  {
    if n == 3 then 2 - k
    else if k == 0 then n - 1
    else if k <= n - 4 then n - 3 - k
    else if k == n - 1 then 0
    else k
  }

  /** The place of position p in the cycle. */
  function Place(n: nat, p: nat): (k: nat)
    requires n % 2 == 1 && n >= 3 && p < n
    ensures k < n && Cycle(n, k) == p
  {
    if n == 3 then 2 - p
    else if p == n - 1 then 0
    else if p == 0 then n - 1
    else if p <= n - 4 then n - 3 - p
    else p
  }

  function Ahead(n: nat, k: nat, j: nat): (r: nat)
    requires k < n && j <= n
    ensures r < n
  {
    if k + j < n then k + j else k + j - n
  }

  /** The entry that a swap of i and j brings to position p. */
  function SwapSrc(i: nat, j: nat, p: nat): nat {
    if p == i then j else if p == j then i else p
  }

  lemma SwapEntry<A>(s: seq<A>, i: nat, j: nat, p: nat)
    requires i < |s| && j < |s| && p < |s|
    ensures SwapAt(s, i, j)[p] == s[SwapSrc(i, j, p)]
  {
  }

  lemma EvenSrcStep(n: nat, j: nat, p: nat, m: nat)
    requires n % 2 == 0 && 4 <= n <= m && 0 < j < n && p < m
    ensures EndSrc(n - 1, SwapSrc(j - 1, n - 1, p)) < m
    ensures EvenSrc(n, j - 1, EndSrc(n - 1, SwapSrc(j - 1, n - 1, p))) == EvenSrc(n, j, p) < m
  {
  }

  lemma {:induction false} EvenStartAt<A>(n: nat, s: seq<A>, j: nat, p: nat)
    requires n % 2 == 0 && 4 <= n <= |s| && j < n && p < |s|
    ensures EvenSrc(n, j, p) < |s| && Start(n, s, j)[p] == s[EvenSrc(n, j, p)]
    decreases n, 0, j
  {
    if j == 0 {
    } else {
      var t := Start(n, s, j - 1);
      var q := SwapSrc(j - 1, n - 1, p);
      SwapEntry(End(n - 1, t), j - 1, n - 1, p);
      EvenSrcStep(n, j, p, |s|);
      EndAt(n - 1, t, q);
      EvenStartAt(n, s, j - 1, EndSrc(n - 1, q));
    }
  }

  lemma OddSrcStep(n: nat, k: nat)
    requires n % 2 == 1 && 3 <= n && k < n
    ensures EndSrc(n - 1, SwapSrc(0, n - 1, Cycle(n, k))) == Cycle(n, Ahead(n, k, 1))
  {
    if n == 3 {
      assert k == 0 || k == 1 || k == 2;
    }
  }

  /** One round of an odd level moves every entry one place along the cycle. */
  lemma {:induction false} OddRoundAt<A>(n: nat, t: seq<A>, k: nat)
    requires n % 2 == 1 && 3 <= n <= |t| && k < n
    ensures SwapAt(End(n - 1, t), 0, n - 1)[Cycle(n, k)] == t[Cycle(n, Ahead(n, k, 1))]
    decreases n, 0, 0
  {
    var u := End(n - 1, t);
    var q := SwapSrc(0, n - 1, Cycle(n, k));
    SwapEntry(u, 0, n - 1, Cycle(n, k));
    OddSrcStep(n, k);
    EndAt(n - 1, t, q);
  }

  lemma {:induction false} OddStartAt<A>(n: nat, s: seq<A>, j: nat, k: nat)
    requires n % 2 == 1 && 3 <= n <= |s| && j < n && k < n
    ensures Start(n, s, j)[Cycle(n, k)] == s[Cycle(n, Ahead(n, k, j))]
    decreases n, 1, j
  {
    if j == 0 {
    } else {
      OddRoundAt(n, Start(n, s, j - 1), k);
      OddStartAt(n, s, j - 1, Ahead(n, k, 1));
    }
  }

  lemma {:induction false} StartRest<A>(n: nat, s: seq<A>, j: nat, p: nat)
    requires 2 <= n <= |s| && j < n && n <= p < |s|
    ensures Start(n, s, j)[p] == s[p]
    decreases n, 1, j
  {
    if j == 0 {
    } else {
      var t := Start(n, s, j - 1);
      var i := if n % 2 == 1 then 0 else j - 1;
      SwapEntry(End(n - 1, t), i, n - 1, p);
      EndAt(n - 1, t, p);
      StartRest(n, s, j - 1, p);
    }
  }

  lemma AheadAll(n: nat, k: nat)
    requires k < n && n >= 1
    ensures Ahead(n, Ahead(n, k, 1), n - 1) == k
  {
  }

  lemma {:induction false} OddCloseAt<A>(n: nat, s: seq<A>, p: nat)
    requires n % 2 == 1 && 3 <= n <= |s| && p < |s|
    ensures SwapAt(End(n - 1, Start(n, s, n - 1)), 0, n - 1)[p] == s[p]
    decreases n, 2, 0
  {
    var t := Start(n, s, n - 1);
    if p < n {
      var k := Place(n, p);
      OddRoundAt(n, t, k);
      OddStartAt(n, s, n - 1, Ahead(n, k, 1));
      AheadAll(n, k);
    } else {
      StartRest(n, s, n - 1, p);
      SwapEntry(End(n - 1, t), 0, n - 1, p);
      EndAt(n - 1, t, p);
    }
  }

  /** After n rounds the cycle has closed: one more swap would give back the start. */
  lemma {:induction false} OddCloses<A>(n: nat, s: seq<A>)
    requires n % 2 == 1 && 3 <= n <= |s|
    ensures SwapAt(End(n - 1, Start(n, s, n - 1)), 0, n - 1) == s
    decreases n, 3, 0
  {
    var r := SwapAt(End(n - 1, Start(n, s, n - 1)), 0, n - 1);
    forall p: nat | p < |s|
      ensures r[p] == s[p]
    {
      OddCloseAt(n, s, p);
    }
  }

  lemma SwapBack<A>(u: seq<A>, i: nat, j: nat, s: seq<A>)
    requires i < |u| == |s| && j < |u| && SwapAt(u, i, j) == s
    ensures u == SwapAt(s, i, j)
  {
  }

  lemma EvenEndSrc(n: nat, p: nat, m: nat)
    requires n % 2 == 0 && 4 <= n <= m && p < m
    ensures EndSrc(n - 1, p) < m && EvenSrc(n, n - 1, EndSrc(n - 1, p)) == EndSrc(n, p) < m
  {
  }

  lemma EndTwo<A>(s: seq<A>, p: nat)
    requires 2 <= |s| && p < |s|
    ensures End(2, s)[p] == s[EndSrc(2, p)]
  {
    assert End(1, s) == s && End(1, Step(2, 0, s)) == Step(2, 0, s);
    assert End(2, s) == SwapAt(s, 0, 1);
    SwapEntry(s, 0, 1, p);
  }

  lemma {:induction false} EndOdd<A>(n: nat, s: seq<A>, p: nat)
    requires n % 2 == 1 && 3 <= n <= |s| && p < |s|
    ensures End(n, s)[p] == s[EndSrc(n, p)]
    decreases n, 4, 0
  {
    EndIsLastRound(n, s);
    OddCloses(n, s);
    SwapBack(End(n - 1, Start(n, s, n - 1)), 0, n - 1, s);
    SwapEntry(s, 0, n - 1, p);
  }

  lemma {:induction false} EndEven<A>(n: nat, s: seq<A>, p: nat)
    requires n % 2 == 0 && 4 <= n <= |s| && p < |s|
    ensures EndSrc(n, p) < |s| && End(n, s)[p] == s[EndSrc(n, p)]
    decreases n, 4, 0
  {
    EndIsLastRound(n, s);
    var t := Start(n, s, n - 1);
    EvenEndSrc(n, p, |s|);
    EndAt(n - 1, t, p);
    EvenStartAt(n, s, n - 1, EndSrc(n - 1, p));
  }

  /** Which entry a run leaves at position p. */
  lemma {:induction false} EndAt<A>(n: nat, s: seq<A>, p: nat)
    requires n <= |s| && p < |s|
    ensures EndSrc(n, p) < |s| && End(n, s)[p] == s[EndSrc(n, p)]
    decreases n, 5, 0
  {
    if n == 2 {
      EndTwo(s, p);
    } else if n >= 3 && n % 2 == 0 {
      EndEven(n, s, p);
    } else if n >= 3 {
      EndOdd(n, s, p);
    }
  }

  // ---- every arrangement, each once

  /** t is an arrangement of s that keeps all but the first n entries in place. */
  ghost predicate Arranged<A>(n: nat, s: seq<A>, t: seq<A>)
    requires n <= |s|
  {
    |t| == |s| && multiset(t) == multiset(s) && t[n..] == s[n..]
  }

  lemma ArrangedUp<A>(n: nat, s: seq<A>, t: seq<A>)
    requires 0 < n <= |s| && Arranged(n - 1, s, t)
    ensures Arranged(n, s, t)
  {
    assert t[n..] == t[n - 1..][1..] && s[n..] == s[n - 1..][1..];
  }

  lemma SwapKeeps<A>(s: seq<A>, i: nat, j: nat)
    requires i < |s| && j < |s|
    ensures multiset(SwapAt(s, i, j)) == multiset(s)
  {
    assert SwapAt(s, i, j) == s[i := s[j]][j := s[i]];
  }

  lemma StepKeeps<A>(n: nat, j: nat, s: seq<A>)
    requires 2 <= n <= |s| && j < n - 1
    ensures multiset(Step(n, j, s)) == multiset(s)
  {
    SwapKeeps(s, if n % 2 == 1 then 0 else j, n - 1);
  }

  lemma {:induction false} EndKeeps<A>(n: nat, s: seq<A>)
    requires n <= |s|
    ensures multiset(End(n, s)) == multiset(s)
    decreases n, n + 1
  {
    if n >= 2 {
      EndKeeps(n - 1, s);
      RunKeeps(n, End(n - 1, s), 0);
    }
  }

  lemma {:induction false} RunKeeps<A>(n: nat, b: seq<A>, j: nat)
    requires 1 <= n <= |b| && j < n
    ensures multiset(RunFrom(n, b, j)) == multiset(b)
    decreases n, n - j
  {
    if j < n - 1 {
      var c := Step(n, j, b);
      StepKeeps(n, j, b);
      EndKeeps(n - 1, c);
      RunKeeps(n, End(n - 1, c), j + 1);
    }
  }

  lemma RoundKeeps<A>(n: nat, j: nat, t: seq<A>)
    requires 2 <= n <= |t| && j < n - 1
    ensures multiset(Step(n, j, End(n - 1, t))) == multiset(t)
  {
    EndKeeps(n - 1, t);
    StepKeeps(n, j, End(n - 1, t));
  }

  lemma {:induction false} StartKeeps<A>(n: nat, s: seq<A>, j: nat)
    requires 2 <= n <= |s| && j < n
    ensures multiset(Start(n, s, j)) == multiset(s)
  {
    if j == 0 {
    } else {
      StartKeeps(n, s, j - 1);
      RoundKeeps(n, j - 1, Start(n, s, j - 1));
      StartNext(n, s, j);
    }
  }

  lemma RoundsNext<A>(n: nat, s: seq<A>, j: nat)
    requires 2 <= n <= |s| && j < n - 1
    ensures RoundsFrom(n, End(n - 1, Start(n, s, j)), j)
         == Visits(n - 1, Start(n, s, j + 1)) + RoundsFrom(n, End(n - 1, Start(n, s, j + 1)), j + 1)
  {
    StartNext(n, s, j + 1);
  }

  lemma StartArranged<A>(n: nat, s: seq<A>, j: nat)
    requires 2 <= n <= |s| && j < n
    ensures Arranged(n, s, Start(n, s, j))
  {
    StartKeeps(n, s, j);
    var t := Start(n, s, j);
    forall p | n <= p < |s|
      ensures t[p] == s[p]
    {
      StartRest(n, s, j, p);
    }
  }

  /** Whether t is visited in a round from j on. */
  ghost predicate Visited<A>(n: nat, s: seq<A>, j: nat, t: seq<A>)
    requires 2 <= n <= |s|
    decreases n - j
  {
    j < n && (t in Visits(n - 1, Start(n, s, j)) || Visited(n, s, j + 1, t))
  }

  /** The round in which t is visited. */
  lemma {:induction false} VisitedIn<A>(n: nat, s: seq<A>, j: nat, t: seq<A>) returns (i: nat)
    requires 2 <= n <= |s| && Visited(n, s, j, t)
    ensures j <= i < n && t in Visits(n - 1, Start(n, s, i))
    decreases n - j
  {
    i := j;
    if t !in Visits(n - 1, Start(n, s, j)) {
      i := VisitedIn(n, s, j + 1, t);
    }
  }

  lemma {:induction false} InVisited<A>(n: nat, s: seq<A>, j: nat, t: seq<A>, i: nat)
    requires 2 <= n <= |s| && j <= i < n && t in Visits(n - 1, Start(n, s, i))
    ensures Visited(n, s, j, t)
    decreases n - j
  {
    if j < i {
      InVisited(n, s, j + 1, t, i);
    }
  }

  /** The rounds after round j visit what the runs from their starts visit. */
  /** What the rounds after round j visit, in a run that begins with s. */
  ghost function After<A>(n: nat, s: seq<A>, j: nat): seq<seq<A>>
    requires 2 <= n <= |s| && j < n
  {
    RoundsFrom(n, End(n - 1, Start(n, s, j)), j)
  }

  lemma {:induction false} RoundMember<A>(n: nat, s: seq<A>, j: nat, t: seq<A>)
    requires 2 <= n <= |s| && j < n
    ensures t in After(n, s, j) <==> Visited(n, s, j + 1, t)
    decreases n - j
  {
    if j + 1 < n {
      RoundMember(n, s, j + 1, t);
      RoundStep(n, s, j, t);
      VisitedNext(n, s, j + 1, t);
    } else {
      NoRounds(n, s, j, t);
    }
  }

  lemma NoRounds<A>(n: nat, s: seq<A>, j: nat, t: seq<A>)
    requires 2 <= n <= |s| && j == n - 1
    ensures After(n, s, j) == [] && !Visited(n, s, j + 1, t)
  {
  }

  lemma VisitedNext<A>(n: nat, s: seq<A>, i: nat, t: seq<A>)
    requires 2 <= n <= |s| && i < n
    ensures Visited(n, s, i, t) <==> t in Visits(n - 1, Start(n, s, i)) || Visited(n, s, i + 1, t)
  {
  }

  lemma RoundStep<A>(n: nat, s: seq<A>, j: nat, t: seq<A>)
    requires 2 <= n <= |s| && j < n - 1
    ensures t in After(n, s, j) <==> t in Visits(n - 1, Start(n, s, j + 1)) || t in After(n, s, j + 1)
  {
    RoundsNext(n, s, j);
  }

  lemma VisitMember<A>(n: nat, s: seq<A>, t: seq<A>)
    requires 2 <= n <= |s|
    ensures t in Visits(n, s) <==> Visited(n, s, 0, t)
  {
    MemberFrom(n, s, 0, t);
  }

  lemma MemberFrom<A>(n: nat, s: seq<A>, j: nat, t: seq<A>)
    requires 2 <= n <= |s| && j == 0
    ensures t in Visits(n, s) <==> Visited(n, s, j, t)
  {
    RoundMember(n, s, j, t);
    VisitedNext(n, s, j, t);
    VisitsSplit(n, s, j, t);
  }

  lemma VisitsSplit<A>(n: nat, s: seq<A>, j: nat, t: seq<A>)
    requires 2 <= n <= |s| && j == 0
    ensures Start(n, s, j) == s
    ensures t in Visits(n, s) <==> t in Visits(n - 1, s) || t in After(n, s, j)
  {
  }

  lemma FromRound<A>(n: nat, s: seq<A>, i: nat, t: seq<A>)
    requires 2 <= n <= |s| && i < n && Arranged(n - 1, Start(n, s, i), t)
    ensures Arranged(n, s, t)
  {
    StartArranged(n, s, i);
    ArrangedUp(n, Start(n, s, i), t);
  }

  lemma {:induction false} VisitsOnly<A>(n: nat, s: seq<A>, t: seq<A>)
    requires n <= |s| && t in Visits(n, s)
    ensures Arranged(n, s, t)
    decreases n
  {
    if n >= 2 {
      VisitMember(n, s, t);
      var i := VisitedIn(n, s, 0, t);
      VisitsOnly(n - 1, Start(n, s, i), t);
      FromRound(n, s, i, t);
    }
  }

  /** Which entry stays at position n - 1 throughout round j. */
  function LastSrc(n: nat, j: nat): (i: nat)
    requires 2 <= n && j < n
    ensures i < n
  {
    if n == 2 then 1 - j else if n % 2 == 0 then EvenSrc(n, j, n - 1) else Cycle(n, j)
  }

  /** The round in which entry i is at position n - 1. */
  function RoundOf(n: nat, i: nat): (j: nat)
    requires 2 <= n && i < n
    ensures j < n && LastSrc(n, j) == i
  {
    if n == 2 then 1 - i
    else if n % 2 == 1 then Place(n, i)
    else if i == n - 1 then 0 else if i == n - 2 then 1 else if i == 0 then n - 1 else i + 1
  }

  lemma OneRound(n: nat, j: nat)
    requires 2 <= n && j < n
    ensures RoundOf(n, LastSrc(n, j)) == j
  {
  }

  lemma LastAt<A>(n: nat, s: seq<A>, j: nat)
    requires 2 <= n <= |s| && j < n
    ensures Start(n, s, j)[n - 1] == s[LastSrc(n, j)]
  {
    if n == 2 {
      if j == 1 {
        assert Start(2, s, 1) == Step(2, 0, End(1, Start(2, s, 0)));
      }
    } else if n % 2 == 0 {
      EvenStartAt(n, s, j, n - 1);
    } else {
      assert Cycle(n, 0) == n - 1;
      OddStartAt(n, s, j, 0);
    }
  }

  /** In every visit of round i the last entry of the level is the one that the round started with. */
  lemma LastKept<A>(n: nat, s: seq<A>, i: nat, t: seq<A>)
    requires 2 <= n <= |s| && i < n && t in Visits(n - 1, Start(n, s, i))
    ensures |t| == |s| && t[n - 1] == s[LastSrc(n, i)]
  {
    VisitsOnly(n - 1, Start(n, s, i), t);
    LastAt(n, s, i);
    assert t[n - 1] == t[n - 1..][0];
  }

  /** Every arrangement is visited. */
  lemma {:induction false} VisitsAll<A>(n: nat, s: seq<A>, t: seq<A>)
    requires n <= |s| && NoDup(s) && Arranged(n, s, t)
    ensures t in Visits(n, s)
    decreases n
  {
    if n <= 1 {
      FewArranged(n, s, t);
    } else {
      var i := LastFrom(n, s, t);
      var j := RoundOf(n, i);
      var u := Start(n, s, j);
      StartArranged(n, s, j);
      LastAt(n, s, j);
      KeepNoDup(s, u);
      assert t[n - 1..] == [t[n - 1]] + t[n..] && u[n - 1..] == [u[n - 1]] + u[n..];
      VisitsAll(n - 1, u, t);
      InVisited(n, s, 0, t, j);
      VisitMember(n, s, t);
    }
  }

  lemma KeepNoDup<A>(s: seq<A>, t: seq<A>)
    requires NoDup(s) && multiset(s) == multiset(t)
    ensures NoDup(t)
  {
    PermutedNoDup(s, t);
  }

  lemma PrefixKept<A>(n: nat, s: seq<A>, t: seq<A>)
    requires n <= |s| && Arranged(n, s, t)
    ensures multiset(t[..n]) == multiset(s[..n])
  {
    assert s == s[..n] + s[n..] && t == t[..n] + t[n..];
    SumCancel(multiset(t[..n]), multiset(s[..n]), multiset(s[n..]));
  }

  /** With at most one movable entry there is only one arrangement. */
  lemma FewArranged<A>(n: nat, s: seq<A>, t: seq<A>)
    requires n <= 1 && n <= |s| && Arranged(n, s, t)
    ensures t == s
  {
    PrefixKept(n, s, t);
    if n == 1 {
      assert t[..1] == [t[0]] && s[..1] == [s[0]];
      assert t[0] in multiset(t[..1]);
    }
    assert s == s[..n] + s[n..] && t == t[..n] + t[n..];
  }

  lemma LastFrom<A>(n: nat, s: seq<A>, t: seq<A>) returns (i: nat)
    requires 0 < n <= |s| && Arranged(n, s, t)
    ensures i < n && s[i] == t[n - 1]
  {
    PrefixKept(n, s, t);
    assert t[..n][n - 1] == t[n - 1];
    assert t[n - 1] in multiset(t[..n]);
    assert t[n - 1] in s[..n];
    i :| i < n && s[..n][i] == t[n - 1];
  }

  /** No arrangement is visited twice. */
  lemma {:induction false} VisitsOnce<A>(n: nat, s: seq<A>)
    requires n <= |s| && NoDup(s)
    ensures NoDup(Visits(n, s))
    decreases n, n + 1
  {
    if n >= 2 {
      VisitsOnce(n - 1, s);
      assert Start(n, s, 0) == s;
      RoundsOnce(n, s, 0, End(n - 1, s));
      RoundFresh(n, s, 0);
      JoinNoDup(Visits(n - 1, s), RoundsFrom(n, End(n - 1, s), 0));
    }
  }

  ghost predicate Disjoint<A>(a: seq<A>, b: seq<A>) {
    forall x | x in a :: x !in b
  }

  /** What round j visits, no later round visits. */
  lemma RoundFresh<A>(n: nat, s: seq<A>, j: nat)
    requires 2 <= n <= |s| && NoDup(s) && j < n
    ensures Disjoint(Visits(n - 1, Start(n, s, j)), RoundsFrom(n, End(n - 1, Start(n, s, j)), j))
  {
    var a, b := Visits(n - 1, Start(n, s, j)), RoundsFrom(n, End(n - 1, Start(n, s, j)), j);
    forall t | t in a
      ensures t !in b
    {
      RoundMember(n, s, j, t);
      if Visited(n, s, j + 1, t) {
        var i := VisitedIn(n, s, j + 1, t);
        RoundsApart(n, s, j, i, t);
      }
    }
  }

  /** Different rounds visit different arrangements. */
  lemma RoundsApart<A>(n: nat, s: seq<A>, i: nat, j: nat, t: seq<A>)
    requires 2 <= n <= |s| && NoDup(s) && i < n && j < n
    requires t in Visits(n - 1, Start(n, s, i)) && t in Visits(n - 1, Start(n, s, j))
    ensures i == j
  {
    LastKept(n, s, i, t);
    LastKept(n, s, j, t);
    OneRound(n, i);
    OneRound(n, j);
  }

  lemma NextRounds<A>(n: nat, s: seq<A>, j: nat)
    requires 2 <= n <= |s| && j < n - 1
    ensures RoundsFrom(n, End(n - 1, Start(n, s, j)), j) ==
      Visits(n - 1, Start(n, s, j + 1)) + RoundsFrom(n, End(n - 1, Start(n, s, j + 1)), j + 1)
  {
  }

  lemma {:induction false} RoundsOnce<A>(n: nat, s: seq<A>, j: nat, b: seq<A>)
    requires 2 <= n <= |s| && NoDup(s) && j < n && b == End(n - 1, Start(n, s, j))
    ensures NoDup(RoundsFrom(n, b, j))
    decreases n, n - j
  {
    if j < n - 1 {
      var u := Start(n, s, j + 1);
      var e := End(n - 1, u);
      StartNoDup(n, s, j + 1);
      VisitsOnce(n - 1, u);
      RoundsOnce(n, s, j + 1, e);
      RoundFresh(n, s, j + 1);
      JoinNoDup(Visits(n - 1, u), RoundsFrom(n, e, j + 1));
      NextRounds(n, s, j);
    }
  }

  lemma StartNoDup<A>(n: nat, s: seq<A>, j: nat)
    requires 2 <= n <= |s| && NoDup(s) && j < n
    ensures NoDup(Start(n, s, j))
  {
    StartArranged(n, s, j);
    KeepNoDup(s, Start(n, s, j));
  }

  lemma JoinNoDup<A>(a: seq<A>, b: seq<A>)
    requires NoDup(a) && NoDup(b) && Disjoint(a, b)
    ensures NoDup(a + b)
  {
    forall i, j | 0 <= i < j < |a + b|
      ensures (a + b)[i] != (a + b)[j]
    {
      if i < |a| <= j {
        assert a[i] in a && b[j - |a|] in b;
      }
    }
  }

  function Factorial(n: nat): nat {
    if n == 0 then 1 else n * Factorial(n - 1)
  }

  lemma OneMore(k: nat, f: nat)
    ensures (k + 1) * f == f + k * f
  {
  }

  lemma {:induction false} VisitsCount<A>(n: nat, s: seq<A>)
    requires n <= |s|
    ensures |Visits(n, s)| == Factorial(n)
    decreases n, n + 1
  {
    if n == 1 {
      assert Factorial(1) == 1 * Factorial(0);
    } else if n >= 2 {
      VisitsCount(n - 1, s);
      RoundsCount(n, End(n - 1, s), 0, n - 1, Factorial(n - 1));
      OneMore(n - 1, Factorial(n - 1));
    }
  }

  lemma {:induction false} RoundsCount<A>(n: nat, b: seq<A>, j: nat, k: nat, f: nat)
    requires 2 <= n <= |b| && j < n && k == n - 1 - j && f == Factorial(n - 1)
    ensures |RoundsFrom(n, b, j)| == k * f
    decreases n, n - j
  {
    if j < n - 1 {
      var c := Step(n, j, b);
      var e := End(n - 1, c);
      var v, r := Visits(n - 1, c), RoundsFrom(n, e, j + 1);
      assert RoundsFrom(n, b, j) == v + r;
      VisitsCount(n - 1, c);
      RoundsCount(n, e, j + 1, k - 1, f);
      OneMore(k - 1, f);
    }
  }
}
