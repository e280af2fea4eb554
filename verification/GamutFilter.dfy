/** The filter that keeps, in every small angular segment, the points that reach furthest in six directions. */
module GamutFilter {
  import opened PlaneEq
  import opened QuadTree

  class Filter {
    const cent: Vec
    /** Half a turn. */
    const pi: real
    /** The boxes of the quads and, for each quad, the six slots of its four quadrants. */
    var boxes: seq<Box>
    var slots: seq<Slot>
    var verts: seq<Vert>
    /** The unused vertices, last released first. */
    var ul: seq<nat>

    /** The state while the references in held are in no slot. */
    ghost predicate Core(held: multiset<nat>)
      reads this
    {
      Sound(pi, boxes, slots, verts, ul, held)
    }

    ghost predicate Valid()
      reads this
    {
      Core(multiset{}) && Uniform(slots, |boxes|)
    }

    constructor (cent: Vec, pi: real)
      requires pi > 0.0
      ensures Valid() && this.cent == cent && this.pi == pi
      ensures |boxes| == 2 && verts == [] && forall x | 0 <= x < |slots| :: slots[x] == Empty
    {
      this.cent, this.pi := cent, pi;
      boxes := [Box(pi, pi, -0.5 * pi, 0.0), Box(pi, pi, 0.5 * pi, 0.0)];
      slots := Blank(24) + Blank(24);
      verts, ul := [], [];
      new;
      NoQuads(slots);
    }

    /** A vertex with one reference: the last one released if there is one, else a new one. */
    method NewVert(q: nat, i: nat, p: Vec, r: Vec, ghost held: multiset<nat>) returns (n: nat)
      requires Core(held) && q < |boxes| && i < 4
      modifies `verts, `ul
      ensures Core(held + multiset{n})
      ensures n < |verts| && verts[n] == Vert(1, p, r, SubBox(boxes[q], i))
      ensures if old(ul) != [] then n == old(ul)[0] && |verts| == |old(verts)| else n == |old(verts)| == |verts| - 1
      ensures n < |old(verts)| ==> old(verts)[n].rc == 0
      ensures forall v: nat | v < |old(verts)| && v != n :: verts[v] == old(verts)[v]
    {
      ghost var verts0, ul0 := verts, ul;
      var b := SubBox(boxes[q], i);
      if ul != [] {
        n := ul[0];
        ul := ul[1..];
        assert n in ul0;
        verts := verts[n := Vert(1, p, r, b)];
        TookUnused(verts0, ul0, Vert(1, p, r, b));
      } else {
        n := |verts|;
        verts := verts + [Vert(1, p, r, b)];
        AppendUnused(verts0, ul, Vert(1, p, r, b));
      }
      NoVertYet(boxes, slots, verts0);
      NewCounted(slots, verts0, verts, held, n);
      NewShaped(boxes, slots, verts0, verts, held, n);
    }

    method Inc(n: nat, ghost held: multiset<nat>)
      requires Core(held) && n < |verts| && verts[n].rc > 0
      modifies `verts
      ensures Core(held + multiset{n}) && Fading(old(verts), verts)
      ensures verts[n].rc == old(verts)[n].rc + 1
    {
      ghost var verts0 := verts;
      verts := verts[n := verts[n].(rc := verts[n].rc + 1)];
      FadingShaped(boxes, slots, verts0, verts, held + multiset{n});
    }

    /** Gives one reference up. A vertex without references is cleared and goes on the unused list. */
    method Dec(n: nat, ghost held: multiset<nat>)
      requires Core(held + multiset{n}) && n < |verts| && verts[n].rc > 0
      modifies `verts, `ul
      ensures Core(held) && Fading(old(verts), verts)
      ensures if old(verts)[n].rc == 1 then ul == [n] + old(ul) && verts[n] == CLEARED
              else ul == old(ul) && verts[n].rc == old(verts)[n].rc - 1
    {
      ghost var verts0 := verts;
      DecSound(pi, boxes, slots, verts, ul, held, n);
      verts := verts[n := verts[n].(rc := verts[n].rc - 1)];
      if verts[n].rc == 0 {
        verts := verts[n := CLEARED];
        ul := [n] + ul;
      }
      assert verts == verts0[n := Release(verts0[n])];
    }

    /** Makes slot k of a quadrant hold vertex n in place of what it held. */
    method PutSlot(q: nat, i: nat, k: nat, n: nat, ghost held: multiset<nat>)
      requires Core(held) && n in held && q < |boxes| && i < 4 && k < 6
      requires Lies(boxes[q], i, verts[n].r) && !slots[At(q, i, k)].Q?
      modifies `slots, `verts, `ul
      ensures Core(held) && Fading(old(verts), verts)
      ensures slots == old(slots)[At(q, i, k) := V(n)]
    {
      var ov := slots[At(q, i, k)];
      Inc(n, held);
      PutSound(pi, boxes, slots, verts, ul, held, q, i, k, n);
      slots := slots[At(q, i, k) := V(n)];
      if ov.V? {
        Dec(ov.v, held);
      }
    }

    /** Offers vertex n to the six slots of quadrant i of quad q. */
    method Place(q: nat, i: nat, n: nat, ghost held: multiset<nat>)
      requires Core(held) && n in held && q < |boxes| && i < 4
      requires Lies(boxes[q], i, verts[n].r)
      requires AllEmpty(slots, q, i) || AllVerts(slots, q, i)
      modifies `slots, `verts, `ul
      ensures Core(held) && Fading(old(verts), verts) && n < |verts|
      ensures OfferedTo(6, old(slots), old(verts), slots, verts, q, i, n, cent)
    {
      var k: nat := 0;
      while k < 6
        invariant k <= 6 && Core(held) && Fading(old(verts), verts) && n < |verts|
        invariant OfferedTo(k, old(slots), old(verts), slots, verts, q, i, n, cent)
      {
        ghost var slots1, verts1 := slots, verts;
        var ov := slots[At(q, i, k)];
        assert SlotOk(boxes, slots, verts, q, i, k);
        if ov.Empty? || Displaces(k, verts[n].p, verts[ov.v].p, cent) {
          PutSlot(q, i, k, n, held);
        }
        OfferNext(k, old(slots), old(verts), slots1, verts1, slots, verts, held, q, i, n, cent);
        k := k + 1;
      }
    }

    /** Adds an empty quad and makes quadrant i of quad q hold it, and nothing else. */
    method Hook(q: nat, i: nat) returns (g: nat)
      requires |slots| == 24 * |boxes| && q < |boxes| && i < 4
      modifies `boxes, `slots
      ensures g == |old(boxes)| && boxes == old(boxes) + [SubBox(old(boxes)[q], i)]
      ensures slots == Added(old(slots), q, i, g)
    {
      ghost var slots0 := slots;
      g := |boxes|;
      boxes := boxes + [SubBox(boxes[q], i)];
      AddedStep(slots, q, i, g, 1);
      slots := slots + Blank(24);
      slots := slots[At(q, i, 0) := Q(g)];
      var k: nat := 1;
      while k < 6
        invariant 1 <= k <= 6
        invariant boxes == old(boxes) + [SubBox(old(boxes)[q], i)]
        invariant slots == AddedUpto(slots0, q, i, g, k)
      {
        AddedStep(slots0, q, i, g, k);
        slots := slots[At(q, i, k) := Empty];
        k := k + 1;
      }
    }

    /** Adds a quad for quadrant i of quad q. The vertices that were there are left without their slots. */
    method AddQuad(q: nat, i: nat) returns (g: nat)
      requires Valid() && q < |boxes| && i < 4
      requires AllEmpty(slots, q, i) || AllVerts(slots, q, i)
      modifies `boxes, `slots
      ensures g == |old(boxes)| && boxes == old(boxes) + [SubBox(old(boxes)[q], i)]
      ensures slots == Added(old(slots), q, i, g) && |slots| == 24 * |boxes| && Uniform(slots, |boxes|)
      ensures Core(if AllEmpty(old(slots), q, i) then multiset{} else multiset(SixVerts(old(slots), q, i)))
    {
      AddedSound(pi, boxes, slots, verts, ul, q, i);
      AddedUniform(slots, |boxes|, q, i);
      g := Hook(q, i);
    }

    /** Gives a vertex that a new quad will hold the box of its quadrant there. */
    method SetBox(n: nat, b: Box, ghost held: multiset<nat>)
      requires Core(held) && n < |verts|
      modifies `verts
      ensures Core(held) && Fading(old(verts), verts)
    {
      ghost var verts0 := verts;
      verts := verts[n := verts[n].(box := b)];
      FadingShaped(boxes, slots, verts0, verts, held);
    }

    /** Offers vertex j of the six to its quadrant of the new quad, and gives up the reference the old slot had. */
    method Share(g: nat, vv: seq<nat>, j: nat, ghost slots0: seq<Slot>, ghost verts0: seq<Vert>)
      requires |vv| == 6 && j < 6 && vv[j] < |verts0| && |boxes| == g + 1
      requires Core(multiset(vv[j..])) && Uniform(slots, |boxes|) && Fading(verts0, verts)
      requires Spread(slots0, slots, verts0, vv, boxes[g], g, j) && InBox(boxes[g], verts0[vv[j]].r)
      modifies `slots, `verts, `ul
      ensures Core(multiset(vv[j + 1..])) && |slots| == 24 * |boxes| && Uniform(slots, |boxes|) && Fading(verts0, verts)
      ensures Spread(slots0, slots, verts0, vv, boxes[g], g, j + 1)
    {
      var n := vv[j];
      assert vv[j..] == [n] + vv[j + 1..];
      assert n in multiset(vv[j..]);
      var i := Quadrant(boxes[g], verts[n].r);
      SetBox(n, SubBox(boxes[g], i), multiset(vv[j..]));
      ghost var slots1, verts1 := slots, verts;
      SpreadQuadrant(slots0, slots, verts0, vv, boxes[g], g, j, i);
      Place(g, i, n, multiset(vv[j..]));
      AllOffered(slots1, verts1, slots, verts, g, i, n, cent, |boxes|);
      SpreadNext(slots0, slots1, slots, verts0, verts1, verts, vv, boxes[g], g, j, cent);
      assert multiset(vv[j..]) == multiset(vv[j + 1..]) + multiset{n};
      Dec(n, multiset(vv[j + 1..]));
    }

    method ShareAll(g: nat, vv: seq<nat>)
      requires |vv| == 6 && |boxes| == g + 1 && Core(multiset(vv)) && Uniform(slots, |boxes|)
      requires forall m | 0 <= m < 6 :: vv[m] < |verts| && InBox(boxes[g], verts[vv[m]].r)
      requires Spread(slots, slots, verts, vv, boxes[g], g, 0)
      modifies `slots, `verts, `ul
      ensures Valid() && Fading(old(verts), verts) && Spread(old(slots), slots, old(verts), vv, boxes[g], g, 6)
    {
      var j: nat := 0;
      assert vv[0..] == vv;
      while j < 6
        invariant j <= 6 && Core(multiset(vv[j..])) && Uniform(slots, |boxes|) && Fading(old(verts), verts)
        invariant Spread(old(slots), slots, old(verts), vv, boxes[g], g, j)
      {
        Share(g, vv, j, old(slots), old(verts));
        j := j + 1;
      }
      assert vv[6..] == [];
    }

    /** Replaces the six vertices of a quadrant by a quad, and offers each of them to its quadrant of that quad. */
    method Deepen(q: nat, i: nat) returns (g: nat)
      requires Valid() && q < |boxes| && i < 4 && AllVerts(slots, q, i)
      modifies `boxes, `slots, `verts, `ul
      ensures Valid() && g == |old(boxes)| && boxes == old(boxes) + [SubBox(old(boxes)[q], i)]
      ensures Spread(Added(old(slots), q, i, g), slots, old(verts), SixVerts(old(slots), q, i), boxes[g], g, 6)
      ensures AllSteady(old(slots), old(verts), slots, verts, |old(boxes)|)
    {
      ghost var boxes0, slots0, verts0 := boxes, slots, verts;
      var vv := SixVerts(slots, q, i);
      SixLie(boxes, slots, verts, q, i);
      g := AddQuad(q, i);
      SpreadStart(slots0, |boxes0|, verts0, vv, boxes[g], q, i);
      ShareAll(g, vv);
      DeepenSteady(boxes0, slots0, verts0, slots, verts, multiset{}, q, i);
    }

    /** Makes a quadrant that holds no quad hold one. */
    method Grow(q: nat, i: nat) returns (g: nat)
      requires Valid() && q < |boxes| && i < 4 && !slots[At(q, i, 0)].Q?
      modifies `boxes, `slots, `verts, `ul
      ensures Valid() && g == |old(boxes)| && boxes == old(boxes) + [SubBox(old(boxes)[q], i)]
      ensures AllSteady(old(slots), old(verts), slots, verts, |old(boxes)|)
    {
      ghost var boxes0, slots0 := boxes, slots;
      assert QuadrantOk(slots, q, i);
      if slots[At(q, i, 0)].Empty? {
        g := AddQuad(q, i);
        DeepenSteady(boxes0, slots0, verts, slots, verts, multiset{}, q, i);
      } else {
        g := Deepen(q, i);
      }
    }

    /** Goes down to the quadrant of r that is small enough, adding quads on the way. */
    method Descend(r: Vec, hang: real, vang: real) returns (q: nat, i: nat)
      requires Valid() && hang > 0.0 && vang > 0.0 && -pi <= r.1 <= pi && -0.5 * pi <= r.2 <= 0.5 * pi
      modifies `boxes, `slots, `verts, `ul
      ensures Valid() && |old(boxes)| <= |boxes|
      ensures q < |boxes| && i < 4 && Lies(boxes[q], i, r) && boxes[q].w <= hang && boxes[q].h <= vang
      ensures AllEmpty(slots, q, i) || AllVerts(slots, q, i)
      ensures AllSteady(old(slots), old(verts), slots, verts, |old(boxes)|)
    {
      StartSteady(boxes, slots, verts);
      q := if r.1 >= 0.0 then 1 else 0;
      i := Quadrant(boxes[q], r);
      while slots[At(q, i, 0)].Q? || boxes[q].w > hang || boxes[q].h > vang
        invariant Valid() && |old(boxes)| <= |boxes| && q < |boxes| && i < 4 && Lies(boxes[q], i, r)
        invariant AllSteady(old(slots), old(verts), slots, verts, |old(boxes)|)
        decreases Fits(boxes[q].w, hang) + Fits(boxes[q].h, vang), |boxes| - q
      {
        ghost var c, slots1, verts1 := |boxes|, slots, verts;
        assert SlotOk(boxes, slots, verts, q, i, 0);
        InSubBox(boxes[q], r, i);
        HalfFits(boxes[q].w, hang);
        HalfFits(boxes[q].h, vang);
        if slots[At(q, i, 0)].Q? {
          q := slots[At(q, i, 0)].q;
        } else {
          q := Grow(q, i);
          SteadyThen(old(slots), old(verts), slots1, verts1, slots, verts, |old(boxes)|, c);
        }
        i := Quadrant(boxes[q], r);
      }
      assert QuadrantOk(slots, q, i);
    }

    /** Offers a point to a quadrant: the new vertex is released again if no slot takes it. */
    method AddPoint(q: nat, i: nat, p: Vec, r: Vec)
      requires Valid() && q < |boxes| && i < 4 && Lies(boxes[q], i, r)
      requires AllEmpty(slots, q, i) || AllVerts(slots, q, i)
      modifies `slots, `verts, `ul
      ensures Valid() && AllVerts(slots, q, i)
      ensures Expanded(old(slots), old(verts), slots, verts, |boxes|, q, i, p, cent)
    {
      ghost var slots0, verts0 := slots, verts;
      var n := NewVert(q, i, p, r, multiset{});
      ghost var verts1 := verts;
      NewKept(slots, verts0, verts1, n, boxes);
      Place(q, i, n, multiset{n});
      ghost var verts2 := verts;
      AllOffered(slots0, verts1, slots, verts2, q, i, n, cent, |boxes|);
      Dec(n, multiset{});
      TookSlots(slots0, verts0, verts1, slots, verts2, verts, q, i, n, p, cent);
      forall q': nat, i': nat | q' < |boxes| && i' < 4 && !(q' == q && i' == i)
        ensures Steady(slots0, verts0, slots, verts, q', i')
      {
        OthersSteady(boxes, slots0, verts0, verts1, slots, verts, q, i, q', i');
      }
    }

    /** Adds a point at p with radial coordinates r, whose segments may be hang wide and vang high. */
    method Expand(p: Vec, r: Vec, hang: real, vang: real) returns (ghost q: nat, ghost i: nat)
      requires Valid() && hang > 0.0 && vang > 0.0 && -pi <= r.1 <= pi && -0.5 * pi <= r.2 <= 0.5 * pi
      modifies `boxes, `slots, `verts, `ul
      ensures Valid()
      ensures if r.0 < 0.000001 then unchanged(this) else
        && |old(boxes)| <= |boxes| && q < |boxes| && i < 4
        && Lies(boxes[q], i, r) && boxes[q].w <= hang && boxes[q].h <= vang
        && Settled(slots, verts, q, i, p, cent)
        && Expanded(old(slots), old(verts), slots, verts, |old(boxes)|, q, i, p, cent)
      ensures r.0 >= 0.000001 ==> AllFarOut(slots, verts, q, i, p, cent)
      ensures r.0 >= 0.000001 && q < |old(boxes)| ==>
        AllOutwards(old(slots), old(verts), slots, verts, q, i, p, cent)
    {
      q, i := 0, 0;
      if r.0 < 0.000001 {
        return;
      }
      var q', i' := Descend(r, hang, vang);
      ghost var slots1, verts1 := slots, verts;
      AddPoint(q', i', p, r);
      TakenSettled(slots1, verts1, slots, verts, q', i', p, cent);
      DescentThenOffer(old(slots), old(verts), slots1, verts1, slots, verts, |old(boxes)|, |boxes|, q', i', p, cent);
      q, i := q', i';
      SettledFarOut(slots, verts, q, i, p, cent);
      if q < |old(boxes)| {
        TakenOutwards(old(slots), old(verts), slots, verts, q, i, p, cent);
      }
    }
  }
}
