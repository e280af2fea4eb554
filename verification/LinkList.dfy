/** The circular doubly linked lists: insertion, deletion, concatenation, and iteration that survives deletion. */
module LinkList {
  import opened Lists

  /** An object with its link fields. */
  class Link {
    var fwd: Link
    var bwd: Link

    /** A link on its own, as INIT_LINK leaves it. */
    constructor ()
      ensures fwd == bwd == this
    {
      fwd, bwd := this, this;
    }
  }

  function Succ(n: nat, i: nat): (j: nat)
    requires i < n
    ensures j < n
  {
    if i + 1 == n then 0 else i + 1
  }

  /** The two links between neighbours x and y. */
  predicate Joined(x: Link, y: Link)
    reads x, y
  {
    x.fwd == y && y.bwd == x
  }

  /** The links of s, each followed by the next and the last by the first. */
  ghost predicate Ring(s: seq<Link>)
    reads s
  {
    NoDup(s) && forall i {:trigger Succ(|s|, i)} | 0 <= i < |s| :: Joined(s[i], s[Succ(|s|, i)])
  }

  lemma NoDupTurns<A>(a: seq<A>, b: seq<A>)
    requires NoDup(a + b)
    ensures NoDup(b + a)
  {
    var s, t := a + b, b + a;
    forall i, j | 0 <= i < j < |t|
      ensures t[i] != t[j]
    {
      var m, n := if i < |b| then |a| + i else i - |b|, if j < |b| then |a| + j else j - |b|;
      assert t[i] == s[m] && t[j] == s[n] && m != n;
    }
  }

  /** Where a ring starts does not matter. */
  lemma RingTurns(a: seq<Link>, b: seq<Link>)
    requires Ring(a + b)
    ensures Ring(b + a)
  {
    var s, t := a + b, b + a;
    NoDupTurns(a, b);
    forall i | 0 <= i < |t|
      ensures Joined(t[i], t[Succ(|t|, i)])
    {
      var m := if i < |b| then |a| + i else i - |b|;
      assert Joined(s[m], s[Succ(|s|, m)]);
      assert t[i] == s[m] && t[Succ(|t|, i)] == s[Succ(|s|, m)];
    }
  }

  /** All neighbours in a row are joined. */
  ghost predicate Row(s: seq<Link>)
    reads s
  {
    NoDup(s) && forall i | 0 <= i < |s| - 1 :: Joined(s[i], s[i + 1])
  }

  /** A ring is a row whose ends are joined. */
  lemma RingRow(s: seq<Link>)
    requires s != []
    ensures Ring(s) <==> Row(s) && Joined(s[|s| - 1], s[0])
  {
    if Ring(s) {
      forall i | 0 <= i < |s| - 1
        ensures Joined(s[i], s[i + 1])
      {
        assert Joined(s[i], s[Succ(|s|, i)]);
      }
      assert Joined(s[|s| - 1], s[Succ(|s|, |s| - 1)]);
    }
    if Row(s) && Joined(s[|s| - 1], s[0]) {
      forall i | 0 <= i < |s|
        ensures Joined(s[i], s[Succ(|s|, i)])
      {
      }
    }
  }

  /** Insert nob backward of oob: seen from oob, at the end. */
  method AddLinkBwd(oob: Link, nob: Link, ghost s: seq<Link>)
    requires s != [] && Ring(s) && s[0] == oob && nob !in s
    modifies nob, oob, oob.bwd
    ensures Ring(s + [nob])
  {
    ghost var n := |s|;
    RingRow(s);
    nob.bwd := oob.bwd;
    nob.fwd := oob;
    oob.bwd.fwd := nob;
    oob.bwd := nob;
    ghost var t := s + [nob];
    assert t[n] == nob && t[n - 1] == s[n - 1];
    assert Row(t);
    RingRow(t);
  }

  /** Insert nob forward of oob: seen from the next, at the end. */
  method AddLinkFwd(oob: Link, nob: Link, ghost s: seq<Link>)
    requires s != [] && Ring(s) && s[|s| - 1] == oob && nob !in s
    modifies nob, oob, oob.fwd
    ensures Ring(s + [nob])
  {
    ghost var n := |s|;
    RingRow(s);
    nob.fwd := oob.fwd;
    nob.bwd := oob;
    oob.fwd.bwd := nob;
    oob.fwd := nob;
    ghost var t := s + [nob];
    assert t[n] == nob && t[n - 1] == s[n - 1];
    assert Row(t);
    RingRow(t);
  }

  /** Join two rings, backward of oob and forward of nob. */
  method MergeLink(oob: Link, nob: Link, ghost s: seq<Link>, ghost t: seq<Link>)
    requires s != [] && t != [] && Ring(s) && Ring(t) && s[0] == oob && t[|t| - 1] == nob && Elems(s) !! Elems(t)
    modifies nob, nob.fwd, oob, oob.bwd
    ensures Ring(s + t)
  {
    RingRow(s);
    RingRow(t);
    nob.fwd.bwd := oob.bwd;
    oob.bwd.fwd := nob.fwd;
    nob.fwd := oob;
    oob.bwd := nob;
    ghost var u := s + t;
    assert forall i, j | 0 <= i < |s| && 0 <= j < |t| :: s[i] in Elems(s) && t[j] in Elems(t);
    forall i | 0 <= i < |u| - 1
      ensures Joined(u[i], u[i + 1])
    {
      if i < |s| - 1 {
        assert old(Joined(s[i], s[i + 1]));
      } else if i >= |s| {
        assert old(Joined(t[i - |s|], t[i - |s| + 1]));
      }
    }
    RingRow(u);
  }

  /** Take objp out of the ring: seen from the next, from the end. */
  method Unlink(objp: Link, ghost s: seq<Link>)
    requires s != [] && Ring(s + [objp])
    modifies objp, objp.fwd, objp.bwd
    ensures Ring(s) && objp.fwd == objp.bwd == objp
  {
    ghost var t := s + [objp];
    RingRow(t);
    assert t[0] == s[0] && t[|s| - 1] == s[|s| - 1] && t[|s|] == objp && Joined(t[|s| - 1], t[|s| - 1 + 1]);
    assert forall i | 0 <= i < |s| :: s[i] == t[i];
    objp.fwd.bwd := objp.bwd;
    objp.bwd.fwd := objp.fwd;
    objp.fwd, objp.bwd := objp, objp;
    forall i | 0 <= i < |s| - 1
      ensures Joined(s[i], s[i + 1])
    {
      assert old(Joined(t[i], t[i + 1]));
    }
    RingRow(s);
  }

  /** The items that the body of a scan over s deletes. */
  ghost function Doomed(s: seq<Link>, body: (seq<Link>, Link) -> bool): set<Link> {
    set k | 0 <= k < |s| && body(s[..k], s[k]) :: s[k]
  }

  ghost predicate Decides(body: (seq<Link>, Link) -> bool, s: seq<Link>, doomed: set<Link>, k: nat)
    requires k < |s|
  {
    body(s[..k], s[k]) <==> s[k] in doomed
  }

  lemma DoomedDecided(s: seq<Link>, body: (seq<Link>, Link) -> bool)
    requires NoDup(s)
    ensures forall k: nat | k < |s| :: Decides(body, s, Doomed(s, body), k)
  {
  }

  /** The links of s that are not doomed. */
  function Kept(s: seq<Link>, doomed: set<Link>): seq<Link> {
    if s == [] then [] else
      var r := Kept(s[..|s| - 1], doomed);
      if s[|s| - 1] in doomed then r else r + [s[|s| - 1]]
  }

  lemma KeptSnoc(s: seq<Link>, doomed: set<Link>, k: nat)
    requires k < |s|
    ensures Kept(s[..k + 1], doomed) == if s[k] in doomed then Kept(s[..k], doomed) else Kept(s[..k], doomed) + [s[k]]
  {
    assert s[..k + 1][..k] == s[..k];
  }

  lemma {:induction false} KeptWithin(s: seq<Link>, doomed: set<Link>)
    ensures forall o | o in Kept(s, doomed) :: o in s
  {
    if s == [] {
    } else {
      KeptWithin(s[..|s| - 1], doomed);
    }
  }

  /** What is left of all when the first k items have been visited. */
  function Remaining(all: seq<Link>, doomed: set<Link>, k: nat): seq<Link>
    requires k <= |all|
  {
    Kept(all[..k], doomed) + all[k..]
  }

  function KeptCount(all: seq<Link>, doomed: set<Link>, k: nat): nat
    requires k <= |all|
  {
    |Kept(all[..k], doomed)|
  }

  lemma RemainingEnds(all: seq<Link>, doomed: set<Link>)
    ensures Remaining(all, doomed, 0) == all && Remaining(all, doomed, |all|) == Kept(all, doomed)
  {
    assert all[..|all|] == all;
  }

  lemma RemainingStep(all: seq<Link>, doomed: set<Link>, k: nat)
    requires k < |all|
    ensures var s, i := Remaining(all, doomed, k), KeptCount(all, doomed, k);
      && i < |s| && s[i] == all[k] && (k + 1 < |all| ==> i + 1 < |s| && s[i + 1] == all[k + 1])
      && Remaining(all, doomed, k + 1) == if all[k] in doomed then Without(s, i) else s
  {
    KeptSnoc(all, doomed, k);
    var r := Kept(all[..k], doomed);
    assert all[k..] == [all[k]] + all[k + 1..];
    assert r + all[k..] == (r + [all[k]]) + all[k + 1..];
  }

  lemma RemainingWithin(all: seq<Link>, doomed: set<Link>, k: nat)
    requires k <= |all|
    ensures Elems(Remaining(all, doomed, k)) <= Elems(all)
  {
    KeptWithin(all[..k], doomed);
  }

  /** A list: its head, and the links in order from it. */
  class List {
    var head: Link?
    ghost var items: seq<Link>

    ghost predicate Valid()
      reads this, items
    {
      (head == null <==> items == []) && (items != [] ==> head == items[0]) && Ring(items)
    }

    constructor ()
      ensures Valid() && items == []
    {
      head, items := null, [];
    }

    method AddItemToTop(objp: Link)
      requires Valid() && objp !in items
      modifies this, objp, Elems(items)
      ensures Valid() && items == [objp] + old(items)
    {
      if head == null {
        objp.fwd, objp.bwd := objp, objp;
      } else {
        RingRow(items);
        AddLinkBwd(head, objp, items);
        RingTurns(items, [objp]);
      }
      head, items := objp, [objp] + items;
    }

    method AddItemToBot(objp: Link)
      requires Valid() && objp !in items
      modifies this, objp, Elems(items)
      ensures Valid() && items == old(items) + [objp]
    {
      if head == null {
        objp.fwd, objp.bwd := objp, objp;
        head := objp;
      } else {
        RingRow(items);
        AddLinkBwd(head, objp, items);
      }
      items := items + [objp];
    }

    /** Delete the item at position i, and move the head on if it is the head. */
    method DelLink(objp: Link, ghost i: nat)
      requires Valid() && i < |items| && items[i] == objp
      modifies this, Elems(items)
      ensures Valid() && items == Without(old(items), i) && objp.fwd == objp.bwd == objp
    {
      RingRow(items);
      ghost var p := if i == 0 then |items| - 1 else i - 1;
      assert Joined(items[i], items[Succ(|items|, i)]) && Joined(items[p], items[Succ(|items|, p)]);
      if objp.fwd == objp {
        head, items := null, [];
      } else {
        ghost var a, b := items[..i], items[i + 1..];
        assert items == (a + [objp]) + b;
        RingTurns(a + [objp], b);
        assert b + (a + [objp]) == (b + a) + [objp];
        if objp == head {
          head := head.fwd;
        }
        Unlink(objp, b + a);
        RingTurns(b, a);
        items := a + b;
      }
    }

    /** What follows position i. */
    lemma FwdAt(i: nat)
      requires Valid() && i < |items|
      ensures items[i].fwd == items[Succ(|items|, i)] && items[|items| - 1] == head.bwd
        && head.fwd == items[Succ(|items|, 0)]
    {
      assert Joined(items[i], items[Succ(|items|, i)]) && Joined(items[0], items[Succ(|items|, 0)]);
      assert Joined(items[|items| - 1], items[Succ(|items|, |items| - 1)]);
    }

    /** The body of the scan at position k: the item is deleted if it is doomed. */
    method Visit(objp: Link, drop: bool, ghost doomed: set<Link>, ghost all: seq<Link>, ghost k: nat)
      requires Valid() && k < |all| && items == Remaining(all, doomed, k) && objp == all[k]
        && (drop <==> objp in doomed)
      modifies this, Elems(all)
      ensures Valid() && items == Remaining(all, doomed, k + 1)
    {
      RemainingStep(all, doomed, k);
      RemainingWithin(all, doomed, k);
      if drop {
        DelLink(objp, KeptCount(all, doomed, k));
      }
    }

    /** The forward link of the current item leads to the next, when there is one. */
    lemma NextOf(all: seq<Link>, doomed: set<Link>, k: nat)
      requires k + 1 < |all| && Valid() && items == Remaining(all, doomed, k)
      ensures all[k].fwd == all[k + 1]
    {
      RemainingStep(all, doomed, k);
      FwdAt(KeptCount(all, doomed, k));
    }

    /** Scan through all the items with a body that may delete the current one, depending on the items seen so far:
        every item is visited once, in order, and those that the body kept are left, in order. */
    method ForAllItems(body: (seq<Link>, Link) -> bool) returns (seen: seq<Link>)
      requires Valid()
      modifies this, Elems(items)
      ensures Valid() && seen == old(items) && items == Kept(old(items), Doomed(old(items), body))
    {
      seen := [];
      if head == null {
        return;
      }
      FwdAt(0);
      DoomedDecided(items, body);
      seen := Scan(head, head.bwd, body, items, Doomed(items, body));
    }

    method Scan(objp0: Link, end: Link, body: (seq<Link>, Link) -> bool, ghost all: seq<Link>, ghost doomed: set<Link>)
      returns (seen: seq<Link>)
      requires Valid() && all == items != [] && objp0 == all[0] && end == all[|all| - 1]
      requires forall k: nat | k < |all| :: Decides(body, all, doomed, k)
      modifies this, Elems(all)
      ensures Valid() && seen == all && items == Kept(all, doomed)
    {
      assert NoDup(all);
      ghost var k: nat := 0;
      RemainingEnds(all, doomed);
      var objp, next := objp0, objp0.fwd;
      if 1 < |all| {
        NextOf(all, doomed, 0);
      }
      seen := [];
      while true
        invariant k < |all| && objp == all[k] && (k + 1 < |all| ==> next == all[k + 1]) && seen == all[..k]
        invariant Valid() && items == Remaining(all, doomed, k)
        decreases |all| - k
      {
        Prefix(all, k);
        assert Decides(body, all, doomed, k);
        var drop := body(seen, objp);
        seen := seen + [objp];
        Visit(objp, drop, doomed, all, k);
        if objp == end {
          assert k == |all| - 1;
          break;
        }
        k := k + 1;
        objp := next;
        next := objp.fwd;
        if k + 1 < |all| {
          NextOf(all, doomed, k);
        }
      }
    }
  }
}
