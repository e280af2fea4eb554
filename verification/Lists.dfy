/** Sequences that stand for the program's linked lists: membership, no repetition, removal. */
module Lists {

  ghost predicate NoDup<A>(s: seq<A>) {
    forall i, j | 0 <= i < j < |s| :: s[i] != s[j]
  }

  ghost function Elems<A>(s: seq<A>): set<A> {
    set a | a in s
  }

  function Without<A>(s: seq<A>, i: nat): (r: seq<A>)
    requires i < |s|
  {
    s[..i] + s[i + 1..]
  }

  lemma WithoutElems<A>(s: seq<A>, i: nat)
    requires i < |s| && NoDup(s)
    ensures NoDup(Without(s, i)) && Elems(Without(s, i)) == Elems(s) - {s[i]}
  {
    forall a
      ensures a in Elems(Without(s, i)) <==> a in Elems(s) - {s[i]}
    {
      if a in Elems(s) - {s[i]} {
        var k :| 0 <= k < |s| && s[k] == a;
        assert Without(s, i)[if k < i then k else k - 1] == a;
      }
    }
  }

  lemma AppendElems<A>(s: seq<A>, a: A)
    ensures NoDup(s) && a !in s ==> NoDup(s + [a])
    ensures Elems(s + [a]) == Elems(s) + {a}
  {
  }

  lemma Prefix<A>(s: seq<A>, k: nat)
    requires k < |s|
    ensures s[..k + 1] == s[..k] + [s[k]]
  {
  }

  lemma Shift<A>(T: set<A>, I: set<A>, N: set<A>, E: set<A>)
    ensures (T + N) + E == T + (N + E) && (I - N) - E == I - (N + E)
  {
  }

  lemma ElemsSize<A>(s: seq<A>)
    requires NoDup(s)
    ensures |Elems(s)| == |s|
  {
    if s != [] {
      var r := s[..|s| - 1];
      ElemsSize(r);
      PrefixLast(s);
    }
  }

  lemma PrefixLast<A>(s: seq<A>)
    requires s != [] && NoDup(s)
    ensures Elems(s) == Elems(s[..|s| - 1]) + {s[|s| - 1]} && s[|s| - 1] !in Elems(s[..|s| - 1]) && NoDup(s[..|s| - 1])
  {
    assert s == s[..|s| - 1] + [s[|s| - 1]];
  }

  lemma PrefixElems<A>(s: seq<A>, n: nat)
    requires n < |s| && NoDup(s)
    ensures Elems(s[..n + 1]) == Elems(s[..n]) + {s[n]} && s[n] !in Elems(s[..n])
  {
    assert s[..n + 1] == s[..n] + [s[n]];
  }

  lemma SubsetSize<A>(X: set<A>, Y: set<A>)
    requires X <= Y
    ensures |X| <= |Y| && (|X| == |Y| ==> X == Y)
  {
    assert Y == X + (Y - X);
    assert |Y| == |X| + |Y - X|;
  }

  lemma SumCancel<A>(X: multiset<A>, Y: multiset<A>, Z: multiset<A>)
    requires X + Z == Y + Z
    ensures X == Y
  {
    assert X == (X + Z) - Z && Y == (Y + Z) - Z;
  }

  lemma PermutedNoDup<A>(s: seq<A>, t: seq<A>)
    requires NoDup(s) && multiset(s) == multiset(t)
    ensures NoDup(t) && Elems(t) == Elems(s) && |t| == |s|
  {
    assert |multiset(s)| == |s| && |multiset(t)| == |t|;
    forall a
      ensures a in t <==> a in s
    {
      assert a in multiset(t) <==> a in multiset(s);
    }
    if i, j :| 0 <= i < j < |t| && t[i] == t[j] {
      CountTwice(t, i, j);
      CountOnce(s, t[i]);
    }
  }

  lemma CountTwice<A>(t: seq<A>, i: nat, j: nat)
    requires i < j < |t| && t[i] == t[j]
    ensures multiset(t)[t[i]] >= 2
  {
    assert t == t[..j] + t[j..];
    assert t[i] in t[..j] && t[j] in t[j..];
  }

  lemma CountOnce<A>(s: seq<A>, a: A)
    requires NoDup(s)
    ensures multiset(s)[a] <= 1
  {
    if s != [] {
      var r := s[..|s| - 1];
      assert s == r + [s[|s| - 1]];
      CountOnce(r, a);
      assert s[|s| - 1] !in r;
    }
  }

  method IndexOf<A(==)>(s: seq<A>, a: A) returns (i: nat)
    requires a in s
    ensures i < |s| && s[i] == a
  {
    i := 0;
    while s[i] != a
      invariant i < |s| && a in s[i..]
      decreases |s| - i
    {
      i := i + 1;
    }
  }
}
