/** The combination counters as they run. */
module ComboCounter {
  import opened Combos

  /** The selections that a counter visits: all of them, or the simplex ones. */
  ghost predicate Good(simplex: bool, s: Sel, cmb: nat, tot: nat) {
    Selection(s, cmb, tot) && (simplex ==> Simplex(s))
  }

  /** t is the least good selection after s. */
  ghost predicate NextGood(simplex: bool, s: Sel, t: Sel, cmb: nat, tot: nat) {
    Good(simplex, t, cmb, tot) && Less(s, t) && forall u: Sel | Good(simplex, u, cmb, tot) && Less(s, u) ::
      u == t || Less(t, u)
  }

  ghost predicate LastGood(simplex: bool, s: Sel, cmb: nat, tot: nat) {
    forall u: Sel | Good(simplex, u, cmb, tot) :: !Less(s, u)
  }

  ghost predicate LeastGood(simplex: bool, t: Sel, cmb: nat, tot: nat) {
    Good(simplex, t, cmb, tot) && forall u: Sel | Good(simplex, u, cmb, tot) :: u == t || Less(t, u)
  }

  lemma GrownIsNext(s: Sel, t: Sel, e: int, cmb: nat, tot: nat)
    requires Selection(s, cmb, tot) && Grown(s, t, e, tot)
    ensures NextGood(false, s, t, cmb, tot)
  {
    GrownSelection(s, t, e, tot);
    forall u: Sel | Good(false, u, cmb, tot) && Less(s, u)
      ensures u == t || Less(t, u)
    {
      GrownNext(s, t, e, tot, u);
    }
  }

  lemma NoneAfter(s: Sel, cmb: nat, tot: nat)
    requires Selection(s, cmb, tot) && forall k | 0 <= k < cmb :: s[k] == tot - k - 1
    ensures LastGood(false, s, cmb, tot)
  {
    forall u: Sel | Good(false, u, cmb, tot)
      ensures !Less(s, u)
    {
      NoneGreater(s, tot, u);
    }
  }

  class Combo {
    const nn: array<int>
    const cmb: nat
    const tot: nat
    var e: nat

    constructor (mxdi: nat, cmb: nat, tot: nat)
      requires 1 <= cmb <= mxdi
      ensures this.cmb == cmb && this.tot == tot && fresh(nn) && Valid()
    {
      nn := new int[mxdi + 2](_ => 0);
      this.cmb, this.tot := cmb, tot;
      e := 0;
    }

    ghost predicate Valid() {
      1 <= cmb <= nn.Length
    }

    ghost function Entries(): Sel
      reads nn
      requires Valid()
    {
      nn[..cmb]
    }

    predicate Done()
      reads this
    {
      e >= cmb
    }

    /** Set the counter to the first selection. */
    method Init()
      requires Valid()
      modifies this`e, nn
      ensures e == 0 && First(Entries(), cmb)
    {
      e := 0;
      while e < cmb
        invariant e <= cmb && forall k | 0 <= k < e :: nn[k] == cmb - k - 1
      {
        nn[e] := cmb - e - 1;
        e := e + 1;
      }
      e := 0;
    }

    /** Go to the next selection, or be done after the last one. */
    method Inc()
      requires Valid() && Selection(Entries(), cmb, tot)
      modifies this`e, nn
      ensures e < cmb ==> Grown(old(Entries()), Entries(), e, tot)
      ensures e >= cmb ==> forall k | 0 <= k < cmb :: old(nn[k]) == tot - k - 1
    {
      ghost var s := Entries();
      e := 0;
      while e < cmb
        invariant e <= cmb
        invariant forall k | 0 <= k < e :: s[k] == tot - k - 1
        invariant forall k | e <= k < cmb :: nn[k] == s[k]
      {
        AtMost(s, tot, e);
        nn[e] := nn[e] + 1;
        if nn[e] < tot - e {
          ghost var e0 := e;
          var ee: int := e - 1;
          while ee >= 0
            invariant -1 <= ee < e == e0
            invariant forall k | ee < k <= e :: nn[k] == s[e] + 1 + e - k
            invariant forall k | e < k < cmb :: nn[k] == s[k]
          {
            nn[ee] := nn[ee + 1] + 1;
            ee := ee - 1;
          }
          break;
        }
        e := e + 1;
      }
    }

    /** Whether some entry has a bit that the entry before it lacks. */
    method Invalid() returns (bad: bool)
      requires Valid() && Selection(Entries(), cmb, tot)
      ensures bad <==> !Simplex(Entries())
    {
      var ii := 1;
      while ii < cmb
        invariant 1 <= ii <= cmb && forall i, j {:trigger Nested(nn[i], nn[j])} | 0 <= i && j == i + 1 && j < ii ::
          Nested(nn[i], nn[j])
      {
        if XorAnd(nn[ii - 1], nn[ii]) != 0 {
          assert !Nested(Entries()[ii - 1], Entries()[ii]);
          return true;
        }
        ii := ii + 1;
      }
      forall i, j | 0 <= i && j == i + 1 && j < cmb
        ensures Nested(Entries()[i], Entries()[j])
      {
        assert Nested(nn[i], nn[j]);
      }
      bad := false;
    }

    /** Go to the next simplex selection, or be done when there is none. */
    method XInc()
      requires Valid() && Selection(Entries(), cmb, tot)
      modifies this`e, nn
      ensures e < cmb ==> NextGood(true, old(Entries()), Entries(), cmb, tot)
      ensures e >= cmb ==> LastGood(true, old(Entries()), cmb, tot)
    {
      ghost var s0 := Entries();
      var again := true;
      while again
        invariant again ==> Selection(Entries(), cmb, tot)
        invariant again ==> forall u: Sel | Good(true, u, cmb, tot) && Less(s0, u) :: Less(Entries(), u)
        invariant again ==> Entries() == s0 || Less(s0, Entries())
        invariant !again ==> if e < cmb then NextGood(true, s0, Entries(), cmb, tot) else LastGood(true, s0, cmb, tot)
        decreases if again then Power(tot, cmb) - Rank(Entries(), tot) else -1
      {
        ghost var s := Entries();
        RankBound(s, tot);
        Inc();
        if e >= cmb {
          AfterLast(s0, s, cmb, tot);
          break;
        }
        ghost var t := Entries();
        AfterGrown(s0, s, t, e, cmb, tot);
        RankUp(s, t, tot);
        RankBound(t, tot);
        again := Invalid();
      }
    }

    /** The same, as the next good selection. */
    method IncGood()
      requires Valid() && Selection(Entries(), cmb, tot)
      modifies this`e, nn
      ensures e < cmb ==> NextGood(false, old(Entries()), Entries(), cmb, tot)
      ensures e >= cmb ==> LastGood(false, old(Entries()), cmb, tot)
    {
      ghost var s := Entries();
      Inc();
      if e < cmb {
        GrownIsNext(s, Entries(), e, cmb, tot);
      } else {
        NoneAfter(s, cmb, tot);
      }
    }

    /** Set the counter to the first simplex selection; it does not find out when there is none. */
    method XInit()
      requires Valid() && cmb <= tot
      modifies this`e, nn
      ensures e == 0
      ensures tot >= Pow2(cmb - 1) ==> LeastGood(true, Entries(), cmb, tot)
    {
      Init();
      ghost var s := Entries();
      forall u: Sel | Selection(u, cmb, tot)
        ensures u == s || Less(s, u)
      {
        FirstLeast(s, cmb, tot, u);
      }
      FirstLeast(s, cmb, tot, s);
      SimplexExists(cmb, tot);
      var bad := Invalid();
      if bad {
        XInc();
      }
      e := 0;
    }
  }

  lemma AfterLast(s0: Sel, s: Sel, cmb: nat, tot: nat)
    requires Selection(s, cmb, tot) && forall k | 0 <= k < cmb :: s[k] == tot - k - 1
    requires forall u: Sel | Good(true, u, cmb, tot) && Less(s0, u) :: Less(s, u)
    ensures LastGood(true, s0, cmb, tot)
  {
    forall u: Sel | Good(true, u, cmb, tot)
      ensures !Less(s0, u)
    {
      NoneGreater(s, tot, u);
    }
  }

  lemma AfterGrown(s0: Sel, s: Sel, t: Sel, e: int, cmb: nat, tot: nat)
    requires Selection(s, cmb, tot) && Grown(s, t, e, tot) && (s == s0 || Less(s0, s))
    requires forall u: Sel | Good(true, u, cmb, tot) && Less(s0, u) :: Less(s, u)
    ensures Selection(t, cmb, tot) && Less(s, t) && Less(s0, t)
    ensures forall u: Sel | Good(true, u, cmb, tot) && Less(s0, u) :: u == t || Less(t, u)
  {
    GrownSelection(s, t, e, tot);
    if Less(s0, s) { LessTrans(s0, s, t); }
    forall u: Sel | Good(true, u, cmb, tot) && Less(s0, u)
      ensures u == t || Less(t, u)
    {
      GrownNext(s, t, e, tot, u);
    }
  }

  /** A list of selections in strictly increasing order. */
  ghost predicate Rising(v: seq<Sel>) {
    forall i, j | 0 <= i < j < |v| :: Less(v[i], v[j])
  }

  /** The list v holds exactly the good selections up to its last one. */
  ghost predicate UpTo(simplex: bool, v: seq<Sel>, cmb: nat, tot: nat) {
    && v != [] && Rising(v)
    && (forall u | u in v :: Good(simplex, u, cmb, tot))
    && forall u: Sel | Good(simplex, u, cmb, tot) :: u in v || Less(v[|v| - 1], u)
  }

  lemma OneMore(simplex: bool, v: seq<Sel>, t: Sel, cmb: nat, tot: nat)
    requires UpTo(simplex, v, cmb, tot) && NextGood(simplex, v[|v| - 1], t, cmb, tot)
    ensures UpTo(simplex, v + [t], cmb, tot)
  {
    forall i | 0 <= i < |v|
      ensures Less(v[i], t)
    {
      if i < |v| - 1 { LessTrans(v[i], v[|v| - 1], t); }
    }
  }

  lemma FirstIsLeast(s: Sel, cmb: nat, tot: nat)
    requires 1 <= cmb <= tot && First(s, cmb)
    ensures LeastGood(false, s, cmb, tot)
  {
    FirstLeast(s, cmb, tot, s);
    forall u: Sel | Good(false, u, cmb, tot)
      ensures u == s || Less(s, u)
    {
      FirstLeast(s, cmb, tot, u);
    }
  }

  /** Every selection is visited exactly once, in order. */
  method RunCombos(cmb: nat, tot: nat) returns (v: seq<Sel>)
    requires 1 <= cmb <= tot
    ensures Rising(v) && forall u: Sel :: u in v <==> Selection(u, cmb, tot)
  {
    var c := new Combo(cmb, cmb, tot);
    c.Init();
    v := [c.nn[..cmb]];
    FirstIsLeast(v[0], cmb, tot);
    while !c.Done()
      invariant c.Valid() && fresh(c) && fresh(c.nn) && c.cmb == cmb && c.tot == tot && UpTo(false, v, cmb, tot)
      invariant !c.Done() ==> c.Entries() == v[|v| - 1]
      invariant c.Done() ==> LastGood(false, v[|v| - 1], cmb, tot)
      decreases !c.Done(), Power(tot, cmb) - Rank(v[|v| - 1], tot)
    {
      ghost var s := v[|v| - 1];
      assert s in v && Good(false, s, cmb, tot);
      c.IncGood();
      if !c.Done() {
        var t := c.nn[..cmb];
        OneMore(false, v, t, cmb, tot);
        RankUp(s, t, tot);
        RankBound(t, tot);
        v := v + [t];
      }
    }
  }

  /** Every simplex selection is visited exactly once, in order, when there is one. */
  method RunSimplexes(cmb: nat, tot: nat) returns (v: seq<Sel>)
    requires 1 <= cmb <= tot && tot >= Pow2(cmb - 1)
    ensures Rising(v) && forall u: Sel :: u in v <==> Selection(u, cmb, tot) && Simplex(u)
  {
    var c := new Combo(cmb, cmb, tot);
    c.XInit();
    v := [c.nn[..cmb]];
    while !c.Done()
      invariant c.Valid() && fresh(c) && fresh(c.nn) && c.cmb == cmb && c.tot == tot && UpTo(true, v, cmb, tot)
      invariant !c.Done() ==> c.Entries() == v[|v| - 1]
      invariant c.Done() ==> LastGood(true, v[|v| - 1], cmb, tot)
      decreases !c.Done(), Power(tot, cmb) - Rank(v[|v| - 1], tot)
    {
      ghost var s := v[|v| - 1];
      assert s in v && Good(true, s, cmb, tot);
      c.XInc();
      if !c.Done() {
        var t := c.nn[..cmb];
        OneMore(true, v, t, cmb, tot);
        RankUp(s, t, tot);
        RankBound(t, tot);
        v := v + [t];
      }
    }
  }
}
