/**
 The region that a new vertex removes from a surface, independently of the order in which its triangles are found.

 Some corners are visible; some directed edges are poor, which means that a triangle made from the edge
 and the new vertex would be a sliver or wrongly oriented. Whatever lies across a poor edge of the region
 must be removed too.
 */
module Horizon {
  import opened Surface

  /** The corner c lies across a poor edge of S. */
  ghost predicate Crossed<V>(S: set<(V, V, V)>, poor: set<(V, V)>, c: (V, V, V)) {
    (c.1, c.0) in Edges(S) && (c.1, c.0) in poor
  }

  ghost predicate Spread<V>(C: set<(V, V, V)>, S: set<(V, V, V)>, poor: set<(V, V)>) {
    forall c {:trigger Crossed(S, poor, c)} | c in C && Crossed(S, poor, c) :: c in S
  }

  /** Whole triangles that include the visible ones and whatever lies across a poor edge. */
  ghost predicate Covering<V>(C: set<(V, V, V)>, seen: set<(V, V, V)>, poor: set<(V, V)>, S: set<(V, V, V)>) {
    Whole(S) && seen <= S && Spread(C, S, poor)
  }

  ghost predicate Within<V>(C: set<(V, V, V)>, seen: set<(V, V, V)>, poor: set<(V, V)>, R: set<(V, V, V)>) {
    forall S: set<(V, V, V)> {:trigger Covering(C, seen, poor, S)} | S <= C && Covering(C, seen, poor, S) :: R <= S
  }

  /** R is the least such set. */
  ghost predicate HitRegion<V>(C: set<(V, V, V)>, seen: set<(V, V, V)>, poor: set<(V, V)>, R: set<(V, V, V)>) {
    R <= C && Covering(C, seen, poor, R) && Within(C, seen, poor, R)
  }

  /** Adding the triangle across a poor edge stays inside every covering set. */
  lemma CrossWithin<V>(C: set<(V, V, V)>, seen: set<(V, V, V)>, poor: set<(V, V)>, R: set<(V, V, V)>, c: (V, V, V))
    requires Within(C, seen, poor, R) && c in C && Crossed(R, poor, c)
    ensures Within(C, seen, poor, R + {c, Turn(c), Turn(Turn(c))})
  {
    forall S: set<(V, V, V)> | S <= C && Covering(C, seen, poor, S)
      ensures R + {c, Turn(c), Turn(Turn(c))} <= S
    {
      assert R <= S;
      assert Crossed(S, poor, c);
      assert Turn(c) in S;
    }
  }

  /** When no face of the boundary is poor, nothing lies across a poor edge any more. */
  lemma NoPoorFace<V>(C: set<(V, V, V)>, R: set<(V, V, V)>, poor: set<(V, V)>)
    requires Oriented(C) && R <= C && Boundary(Edges(R)) !! poor
    ensures Spread(C, R, poor)
  {
    forall c | c in C && Crossed(R, poor, c)
      ensures c in R
    {
      EdgeOwner(C, R, c);
      assert ((c.1, c.0).1, (c.1, c.0).0) == (c.0, c.1);
    }
  }

  /** Conversely no boundary face of the hit region is poor, on a closed surface. */
  lemma PoorInside<V>(C: set<(V, V, V)>, R: set<(V, V, V)>, poor: set<(V, V)>)
    requires Closed(C) && R <= C && Spread(C, R, poor)
    ensures Boundary(Edges(R)) !! poor
  {
    forall d | d in Boundary(Edges(R)) && d in poor
      ensures false
    {
      var r :| r in R && r.0 == d.0 && r.1 == d.1;
      assert Met(C, r);
      var c :| c in C && c.0 == d.1 && c.1 == d.0;
      assert Crossed(R, poor, c);
    }
  }

  /** The corners that every such set holds. */
  ghost function LeastCovering<V>(C: set<(V, V, V)>, seen: set<(V, V, V)>, poor: set<(V, V)>): set<(V, V, V)> {
    set c | c in C && forall S: set<(V, V, V)> {:trigger Covering(C, seen, poor, S)} | S <= C
      && Covering(C, seen, poor, S) :: c in S
  }

  /** There is only one hit region. */
  lemma HitRegionLeast<V>(C: set<(V, V, V)>, seen: set<(V, V, V)>, poor: set<(V, V)>, R: set<(V, V, V)>)
    requires HitRegion(C, seen, poor, R)
    ensures R == LeastCovering(C, seen, poor)
  {
  }
}
