/** The adaptive quadtree that filters points: quads, direction slots and reference counted vertices, on values. */
module QuadTree {
  import opened PlaneEq
  import opened Lists
  import opened PowersOfTen

  /** What a slot points at. Pointers are positions in the lists of quads and vertices. */
  datatype Slot = Empty | V(v: nat) | Q(q: nat)

  /** The box of a node: longitude width and latitude height, longitude and latitude of the centre. */
  datatype Box = Box(w: real, h: real, hc: real, vc: real)

  /** A vertex: its reference count, its place p, its radial coordinates r (radius, longitude, latitude), its box. */
  datatype Vert = Vert(rc: nat, p: Vec, r: Vec, box: Box)

  const CLEARED: Vert := Vert(0, (0.0, 0.0, 0.0), (0.0, 0.0, 0.0), Box(0.0, 0.0, 0.0, 0.0))

  /** Which quadrant of the box a location is in: 1 is the high longitude half, 2 the high latitude half. */
  function Quadrant(b: Box, r: Vec): (i: nat)
    ensures i < 4
  {
    (if r.1 >= b.hc then 1 else 0) + (if r.2 >= b.vc then 2 else 0)
  }

  /** The box of quadrant i. */
  function SubBox(b: Box, i: nat): Box
    requires i < 4
  {
    var w, h := 0.5 * b.w, 0.5 * b.h;
    Box(w, h,
        if i == 1 || i == 3 then b.hc + 0.5 * w else b.hc - 0.5 * w,
        if i >= 2 then b.vc + 0.5 * h else b.vc - 0.5 * h)
  }

  predicate InBox(b: Box, r: Vec) {
    b.hc - 0.5 * b.w <= r.1 <= b.hc + 0.5 * b.w && b.vc - 0.5 * b.h <= r.2 <= b.vc + 0.5 * b.h
  }

  /** A location in a box is in the box of its quadrant, and in no other quadrant's box except on a shared side. */
  lemma InSubBox(b: Box, r: Vec, i: nat)
    requires InBox(b, r) && i < 4
    ensures InBox(SubBox(b, Quadrant(b, r)), r)
    ensures i != Quadrant(b, r) && r.1 != b.hc && r.2 != b.vc ==> !InBox(SubBox(b, i), r)
  {
  }

  predicate Lies(b: Box, i: nat, r: Vec) {
    InBox(b, r) && Quadrant(b, r) == i
  }

  /** The squared weights of the three coordinates in the direction of slot d. */
  function SlotWeights(d: nat): Vec {
    if d == 1 then (0.25, 1.0, 1.0)
    else if d == 2 then (4.0, 1.0, 1.0)
    else if d == 3 then (16.0, 1.0, 1.0)
    else if d == 4 then (0.0, 1.0, 0.01)
    else if d == 5 then (0.0, 0.01, 1.0)
    else (1.0, 1.0, 1.0)
  }

  /** How far a point is from the centre in the direction of slot d. */
  function Reach(d: nat, p: Vec, cent: Vec): real {
    var w, x := SlotWeights(d), Minus(p, cent);
    w.0 * x.0 * x.0 + w.1 * x.1 * x.1 + w.2 * x.2 * x.2
  }

  /** Squared distance below which two points count as the same. */
  const SAME: real := 0.00000001

  /** Whether a point at p1 displaces a vertex at p2 from slot d. */
  predicate Displaces(d: nat, p1: Vec, p2: Vec, cent: Vec) {
    SqDist(p1, p2) >= SAME && Reach(d, p1, cent) > Reach(d, p2, cent)
  }

  lemma NoSelfDisplace(d: nat, p: Vec, cent: Vec)
    ensures !Displaces(d, p, p, cent)
  {
  }

  /** The position of slot k of quadrant i of quad q among the slots of all quads. */
  function At(q: nat, i: nat, k: nat): nat
  {
    24 * q + 6 * i + k
  }

  /** A quad slot points at a later quad with the box of its quadrant, a vertex slot at a vertex lying there. */
  ghost predicate SlotOk(boxes: seq<Box>, slots: seq<Slot>, verts: seq<Vert>, q: nat, i: nat, k: nat)
    requires |slots| == 24 * |boxes| && q < |boxes| && i < 4 && k < 6
  {
    match slots[At(q, i, k)]
    case Empty => true
    case Q(g) => k == 0 && q < g < |boxes| && boxes[g] == SubBox(boxes[q], i)
    case V(v) => v < |verts| && Lies(boxes[q], i, verts[v].r)
  }

  ghost predicate Shaped(boxes: seq<Box>, slots: seq<Slot>, verts: seq<Vert>) {
    && |slots| == 24 * |boxes|
    && forall q: nat, i: nat, k: nat | q < |boxes| && i < 4 && k < 6 :: SlotOk(boxes, slots, verts, q, i, k)
  }

  /** The slots of quadrant i of quad q are all empty, or all hold vertices, or slot 0 holds a quad and the rest
      nothing. */
  ghost predicate AllEmpty(slots: seq<Slot>, q: nat, i: nat)
    requires i < 4 && At(q, i, 5) < |slots|
  {
    forall k: nat | k < 6 :: slots[At(q, i, k)].Empty?
  }

  ghost predicate AllVerts(slots: seq<Slot>, q: nat, i: nat)
    requires i < 4 && At(q, i, 5) < |slots|
  {
    forall k: nat | k < 6 :: slots[At(q, i, k)].V?
  }

  ghost predicate OneQuad(slots: seq<Slot>, q: nat, i: nat)
    requires i < 4 && At(q, i, 5) < |slots|
  {
    slots[At(q, i, 0)].Q? && forall k: nat | 0 < k < 6 :: slots[At(q, i, k)].Empty?
  }

  ghost predicate QuadrantOk(slots: seq<Slot>, q: nat, i: nat)
    requires i < 4 && At(q, i, 5) < |slots|
  {
    AllEmpty(slots, q, i) || AllVerts(slots, q, i) || OneQuad(slots, q, i)
  }

  ghost predicate Uniform(slots: seq<Slot>, n: nat)
    requires |slots| == 24 * n
  {
    forall q: nat, i: nat | q < n && i < 4 :: QuadrantOk(slots, q, i)
  }

  /** Every quad after the first two is held by exactly one slot. */
  ghost predicate Linked(slots: seq<Slot>, n: nat) {
    forall g: nat | g < n :: multiset(slots)[Q(g)] == if g < 2 then 0 else 1
  }

  /** Every reference count is the number of slots that hold the vertex and of the references held elsewhere. */
  ghost predicate Counted(slots: seq<Slot>, verts: seq<Vert>, held: multiset<nat>) {
    && (forall v: nat | v < |verts| :: verts[v].rc == multiset(slots)[V(v)] + held[v])
    && (forall v | v in held :: v < |verts|)
  }

  /** The unused list holds exactly the vertices without references. */
  ghost predicate Unused(verts: seq<Vert>, ul: seq<nat>) {
    NoDup(ul) && forall v: nat :: v in ul <==> v < |verts| && verts[v].rc == 0
  }

  ghost predicate Positive(boxes: seq<Box>) {
    forall q | 0 <= q < |boxes| :: boxes[q].w >= 0.0 && boxes[q].h >= 0.0
  }

  /** No vertex comes into use, and those still in use keep their places. */
  ghost predicate Fading(verts: seq<Vert>, verts': seq<Vert>) {
    && |verts| == |verts'|
    && forall v: nat | v < |verts| && verts'[v].rc > 0 ::
         verts[v].rc > 0 && verts'[v].p == verts[v].p && verts'[v].r == verts[v].r
  }

  /** A quadrant keeps its quad, its emptiness or its vertices in their places, or swaps the last two for a quad. */
  ghost predicate Steady(slots: seq<Slot>, verts: seq<Vert>, slots': seq<Slot>, verts': seq<Vert>, q: nat, i: nat)
    requires i < 4 && At(q, i, 5) < |slots| <= |slots'|
  {
    || (AllEmpty(slots, q, i) && (AllEmpty(slots', q, i) || OneQuad(slots', q, i)))
    || (OneQuad(slots, q, i) && OneQuad(slots', q, i) && slots'[At(q, i, 0)] == slots[At(q, i, 0)])
    || (AllVerts(slots, q, i) && OneQuad(slots', q, i))
    || (AllVerts(slots, q, i) && forall k: nat | k < 6 ::
        SameSlot(slots[At(q, i, k)], verts, slots'[At(q, i, k)], verts'))
  }

  ghost predicate SameSlot(s: Slot, verts: seq<Vert>, s': Slot, verts': seq<Vert>) {
    s' == s && (s.V? ==>
      s.v < |verts| && s.v < |verts'| && verts'[s.v].p == verts[s.v].p && verts'[s.v].r == verts[s.v].r)
  }

  /** Vertex n was offered to slot k: it took the slot exactly if the slot was empty or it displaces the vertex
      there. */
  ghost predicate Offered(k: nat, s: Slot, verts: seq<Vert>, s': Slot, verts': seq<Vert>, n: nat, cent: Vec)
    requires n < |verts'|
  {
    match s
    case Empty => s' == V(n)
    case Q(_) => false
    case V(v) =>
      v < |verts| && if Displaces(k, verts'[n].p, verts[v].p, cent) then s' == V(n) else SameSlot(s, verts, s', verts')
  }

  /** The first m slots of a quadrant have been offered vertex n, and no other slot has changed. */
  ghost predicate OfferedTo(m: nat, slots: seq<Slot>, verts: seq<Vert>, slots': seq<Slot>, verts': seq<Vert>,
                            q: nat, i: nat, n: nat, cent: Vec)
    requires n < |verts'| && i < 4 && m <= 6 && At(q, i, 5) < |slots|
  {
    && |slots'| == |slots|
    && (forall x: nat | x < |slots| && !(At(q, i, 0) <= x < At(q, i, m)) :: slots'[x] == slots[x])
    && forall k: nat | k < m :: Offered(k, slots[At(q, i, k)], verts, slots'[At(q, i, k)], verts', n, cent)
  }

  /** The state while the references in held are in no slot. */
  ghost predicate Sound(pi: real, boxes: seq<Box>, slots: seq<Slot>, verts: seq<Vert>, ul: seq<nat>,
      held: multiset<nat>) {
    && |boxes| >= 2 && Positive(boxes)
    && boxes[0] == Box(pi, pi, -0.5 * pi, 0.0) && boxes[1] == Box(pi, pi, 0.5 * pi, 0.0)
    && Shaped(boxes, slots, verts)
    && Linked(slots, |boxes|)
    && Counted(slots, verts, held)
    && Unused(verts, ul)
  }

  // ----- what one update of a slot or of a vertex keeps -----

  lemma AtOnce(q: nat, i: nat, k: nat, q': nat, i': nat, k': nat)
    requires i < 4 && k < 6 && i' < 4 && k' < 6 && At(q, i, k) == At(q', i', k')
    ensures q == q' && i == i' && k == k'
  {
  }

  lemma PutShaped(boxes: seq<Box>, slots: seq<Slot>, verts: seq<Vert>, q: nat, i: nat, k: nat, n: nat)
    requires Shaped(boxes, slots, verts) && q < |boxes| && i < 4 && k < 6
    requires n < |verts| && Lies(boxes[q], i, verts[n].r)
    ensures Shaped(boxes, slots[At(q, i, k) := V(n)], verts)
  {
    var s' := slots[At(q, i, k) := V(n)];
    forall q': nat, i': nat, k': nat | q' < |boxes| && i' < 4 && k' < 6
      ensures SlotOk(boxes, s', verts, q', i', k')
    {
      assert SlotOk(boxes, slots, verts, q', i', k');
      if At(q, i, k) == At(q', i', k') {
        AtOnce(q, i, k, q', i', k');
      }
    }
  }

  lemma PutLinked(slots: seq<Slot>, n: nat, x: nat, v: nat)
    requires Linked(slots, n) && x < |slots| && !slots[x].Q?
    ensures Linked(slots[x := V(v)], n)
  {
  }

  /** Storing vertex n in slot x moves one reference of n into the slots and one of the slot's old vertex out. */
  lemma PutCounted(slots: seq<Slot>, verts: seq<Vert>, held: multiset<nat>, x: nat, n: nat)
    requires x < |slots| && n in held && Counted(slots, verts, held)
    requires slots[x].V? ==> slots[x].v < |verts|
    ensures Counted(slots[x := V(n)], verts,
                    (if slots[x].V? then held + multiset{slots[x].v} else held) - multiset{n})
  {
  }

  /** A vertex that a slot holds has references, so it is not cleared. */
  lemma HeldBySlot(slots: seq<Slot>, verts: seq<Vert>, held: multiset<nat>, x: nat)
    requires Counted(slots, verts, held) && x < |slots| && slots[x].V? && slots[x].v < |verts|
    ensures verts[slots[x].v].rc > 0
  {
    assert slots[x] in multiset(slots);
  }

  lemma FadingShaped(boxes: seq<Box>, slots: seq<Slot>, verts: seq<Vert>, verts': seq<Vert>, held: multiset<nat>)
    requires Shaped(boxes, slots, verts) && Counted(slots, verts', held) && Fading(verts, verts')
    ensures Shaped(boxes, slots, verts')
  {
    forall q: nat, i: nat, k: nat | q < |boxes| && i < 4 && k < 6
      ensures SlotOk(boxes, slots, verts', q, i, k)
    {
      assert SlotOk(boxes, slots, verts, q, i, k);
      if slots[At(q, i, k)].V? {
        HeldBySlot(slots, verts', held, At(q, i, k));
      }
    }
  }

  /** Vertex n, already counted once more, goes into a slot; the slot's old vertex is left without its slot. */
  lemma PutSound(pi: real, boxes: seq<Box>, slots: seq<Slot>, verts: seq<Vert>, ul: seq<nat>, held: multiset<nat>,
                 q: nat, i: nat, k: nat, n: nat)
    requires Sound(pi, boxes, slots, verts, ul, held + multiset{n})
    requires q < |boxes| && i < 4 && k < 6 && n < |verts| && Lies(boxes[q], i, verts[n].r) && !slots[At(q, i, k)].Q?
    ensures Sound(pi, boxes, slots[At(q, i, k) := V(n)], verts, ul,
                  if slots[At(q, i, k)].V? then held + multiset{slots[At(q, i, k)].v} else held)
  {
    var s := slots[At(q, i, k)];
    assert SlotOk(boxes, slots, verts, q, i, k);
    PutShaped(boxes, slots, verts, q, i, k, n);
    PutLinked(slots, |boxes|, At(q, i, k), n);
    PutCounted(slots, verts, held + multiset{n}, At(q, i, k), n);
    if s.V? {
      assert held + multiset{n} + multiset{s.v} - multiset{n} == held + multiset{s.v};
    } else {
      assert held + multiset{n} - multiset{n} == held;
    }
  }

  /** A vertex that a slot still holds is where it was. */
  lemma StillThere(slots: seq<Slot>, verts: seq<Vert>, verts': seq<Vert>, held: multiset<nat>, x: nat)
    requires Counted(slots, verts', held) && Fading(verts, verts') && x < |slots|
    requires slots[x].V? && slots[x].v < |verts|
    ensures SameSlot(slots[x], verts, slots[x], verts')
  {
    HeldBySlot(slots, verts', held, x);
  }

  /** Offering the next slot: verts0 and slots0 are the first state, verts1 and slots1 the one before this offer. */
  lemma OfferNext(m: nat, slots0: seq<Slot>, verts0: seq<Vert>, slots1: seq<Slot>, verts1: seq<Vert>,
                  slots2: seq<Slot>, verts2: seq<Vert>, held: multiset<nat>, q: nat, i: nat, n: nat, cent: Vec)
    requires i < 4 && m < 6 && At(q, i, 5) < |slots0| && n in held
    requires Fading(verts0, verts1) && Fading(verts1, verts2) && Counted(slots2, verts2, held)
      && Counted(slots1, verts1, held)
    requires n < |verts1| && OfferedTo(m, slots0, verts0, slots1, verts1, q, i, n, cent)
    requires !slots1[At(q, i, m)].Q? && (slots1[At(q, i, m)].V? ==> slots1[At(q, i, m)].v < |verts1|)
    requires slots2 == if slots1[At(q, i, m)].Empty? || Displaces(m, verts1[n].p, verts1[slots1[At(q, i, m)].v].p, cent)
                       then slots1[At(q, i, m) := V(n)] else slots1
    ensures OfferedTo(m + 1, slots0, verts0, slots2, verts2, q, i, n, cent)
  {
    assert verts2[n].p == verts1[n].p;
    if slots1[At(q, i, m)].V? {
      StillThere(slots1, verts0, verts1, held, At(q, i, m));
      if slots2 == slots1 {
        StillThere(slots2, verts0, verts2, held, At(q, i, m));
      }
    }
    forall k: nat | k < m
      ensures Offered(k, slots0[At(q, i, k)], verts0, slots2[At(q, i, k)], verts2, n, cent)
    {
      assert Offered(k, slots0[At(q, i, k)], verts0, slots1[At(q, i, k)], verts1, n, cent);
      var s := slots2[At(q, i, k)];
      if s.V? && s.v < |verts0| {
        StillThere(slots2, verts0, verts2, held, At(q, i, k));
      }
    }
  }

  /** After all six offers the quadrant holds six vertices, and every other quadrant is as it was. */
  lemma AllOffered(slots: seq<Slot>, verts: seq<Vert>, slots': seq<Slot>, verts': seq<Vert>,
                   q: nat, i: nat, n: nat, cent: Vec, c: nat)
    requires n < |verts'| && i < 4 && |slots| == 24 * c && q < c
    requires OfferedTo(6, slots, verts, slots', verts', q, i, n, cent) && Uniform(slots, c)
    ensures AllVerts(slots', q, i) && Uniform(slots', c)
  {
    forall q': nat, i': nat | q' < c && i' < 4
      ensures QuadrantOk(slots', q', i')
    {
      assert QuadrantOk(slots, q', i');
      if q' == q && i' == i {
        assert AllVerts(slots', q, i);
      }
    }
  }

  function Release(v: Vert): Vert
    requires v.rc > 0
  {
    if v.rc == 1 then CLEARED else v.(rc := v.rc - 1)
  }

  lemma DecSound(pi: real, boxes: seq<Box>, slots: seq<Slot>, verts: seq<Vert>, ul: seq<nat>, held: multiset<nat>,
      n: nat)
    requires n < |verts| && verts[n].rc > 0
    requires Sound(pi, boxes, slots, verts, ul, held + multiset{n})
    ensures Sound(pi, boxes, slots, verts[n := Release(verts[n])], if verts[n].rc == 1 then [n] + ul else ul, held)
    ensures Fading(verts, verts[n := Release(verts[n])])
  {
    forall v | v in held
      ensures v < |verts|
    {
      assert v in held + multiset{n};
    }
    FadingShaped(boxes, slots, verts, verts[n := Release(verts[n])], held);
  }

  // ----- new vertices -----

  lemma NoQuads(slots: seq<Slot>)
    requires forall x | 0 <= x < |slots| :: slots[x] == Empty
    ensures Linked(slots, 2) && Counted(slots, [], multiset{})
  {
    forall g: nat | g < 2
      ensures multiset(slots)[Q(g)] == 0
    {
      Absent(slots, Q(g));
    }
  }

  lemma TookUnused(verts: seq<Vert>, ul: seq<nat>, v: Vert)
    requires Unused(verts, ul) && ul != [] && v.rc > 0 && ul[0] in ul
    ensures Unused(verts[ul[0] := v], ul[1..])
  {
    forall w: nat
      ensures w in ul[1..] <==> w in ul && w != ul[0]
    {
      if w in ul && w != ul[0] {
        var j :| 0 <= j < |ul| && ul[j] == w;
        assert ul[1..][j - 1] == w;
      }
    }
  }

  lemma AppendUnused(verts: seq<Vert>, ul: seq<nat>, v: Vert)
    requires Unused(verts, ul) && v.rc > 0
    ensures Unused(verts + [v], ul)
  {
  }

  /** A vertex without references is in no slot, so it can be given to a new point. */
  lemma NewCounted(slots: seq<Slot>, verts: seq<Vert>, verts': seq<Vert>, held: multiset<nat>, n: nat)
    requires Counted(slots, verts, held)
    requires n < |verts'| && verts'[n].rc == 1 && n <= |verts| && (n < |verts| ==> verts[n].rc == 0)
    requires |verts'| == if n < |verts| then |verts| else |verts| + 1
    requires forall v: nat | v < |verts| && v != n :: verts'[v] == verts[v]
    requires n == |verts| ==> multiset(slots)[V(n)] == 0
    ensures Counted(slots, verts', held + multiset{n})
  {
    assert n == |verts| ==> n !in held;
  }

  lemma NewShaped(boxes: seq<Box>, slots: seq<Slot>, verts: seq<Vert>, verts': seq<Vert>, held: multiset<nat>, n: nat)
    requires Shaped(boxes, slots, verts) && Counted(slots, verts, held)
    requires n < |verts'| && |verts| <= |verts'| && (n < |verts| ==> verts[n].rc == 0)
    requires forall v: nat | v < |verts| && v != n :: verts'[v] == verts[v]
    ensures Shaped(boxes, slots, verts')
  {
    forall q: nat, i: nat, k: nat | q < |boxes| && i < 4 && k < 6
      ensures SlotOk(boxes, slots, verts', q, i, k)
    {
      assert SlotOk(boxes, slots, verts, q, i, k);
      if slots[At(q, i, k)].V? {
        HeldBySlot(slots, verts, held, At(q, i, k));
      }
    }
  }

  /** No slot holds a vertex that does not exist yet. */
  lemma NoVertYet(boxes: seq<Box>, slots: seq<Slot>, verts: seq<Vert>)
    requires Shaped(boxes, slots, verts)
    ensures multiset(slots)[V(|verts|)] == 0
  {
    forall x | 0 <= x < |slots|
      ensures slots[x] != V(|verts|)
    {
      assert SlotOk(boxes, slots, verts, x / 24, x % 24 / 6, x % 6) && At(x / 24, x % 24 / 6, x % 6) == x;
    }
    Absent(slots, V(|verts|));
  }

  // ----- what adding a quad keeps -----

  function Blank(n: nat): (s: seq<Slot>)
    ensures |s| == n && forall x | 0 <= x < n :: s[x] == Empty
  {
    seq(n, _ => Empty)
  }

  /** The slots with a new quad g at their end, held by quadrant i of quad q in place of what was there. */
  function Added(slots: seq<Slot>, q: nat, i: nat, g: nat): (s: seq<Slot>)
    requires i < 4 && At(q, i, 5) < |slots|
    ensures |s| == |slots| + 24
  {
    AddedUpto(slots, q, i, g, 6)
  }

  /** The same while only the slots before slot m of the quadrant have been cleared. */
  function AddedUpto(slots: seq<Slot>, q: nat, i: nat, g: nat, m: nat): (s: seq<Slot>)
    requires i < 4 && 1 <= m <= 6 && At(q, i, 5) < |slots|
    ensures |s| == |slots| + 24
  {
    slots[..At(q, i, 0)] + [Q(g)] + Blank(m - 1) + slots[At(q, i, m)..] + Blank(24)
  }

  lemma AddedAt(slots: seq<Slot>, q: nat, i: nat, n: nat, q': nat, i': nat, k': nat)
    requires |slots| == 24 * n && q < n && i < 4 && q' <= n && i' < 4 && k' < 6
    ensures |Added(slots, q, i, n)| == 24 * (n + 1)
    ensures Added(slots, q, i, n)[At(q', i', k')] ==
      if q' == n then Empty else if q' == q && i' == i then (if k' == 0 then Q(n) else Empty) else slots[At(q', i', k')]
  {
    var x := At(q', i', k');
    if q' < q || (q' == q && i' < i) {
      assert x < At(q, i, 0);
    } else if q' > q || i' > i {
      assert x >= At(q, i, 6);
    } else if k' > 0 {
      assert At(q, i, 0) < x < At(q, i, 6);
    }
    assert q' < n ==> x < |slots|;
  }

  lemma AddedStep(slots: seq<Slot>, q: nat, i: nat, g: nat, m: nat)
    requires i < 4 && 1 <= m < 6 && At(q, i, 5) < |slots|
    ensures (slots + Blank(24))[At(q, i, 0) := Q(g)] == AddedUpto(slots, q, i, g, 1)
    ensures AddedUpto(slots, q, i, g, m)[At(q, i, m) := Empty] == AddedUpto(slots, q, i, g, m + 1)
  {
  }

  lemma AddedNew(slots: seq<Slot>, q: nat, i: nat, g: nat, x: nat)
    requires i < 4 && At(q, i, 5) < |slots| <= x < |slots| + 24
    ensures Added(slots, q, i, g)[x] == Empty
  {
    var s := slots[..At(q, i, 0)] + [Q(g)] + Blank(5) + slots[At(q, i, 6)..];
    assert Added(slots, q, i, g) == s + Blank(24) && |s| == |slots|;
  }

  lemma AddedSlotOk(boxes: seq<Box>, slots: seq<Slot>, verts: seq<Vert>, q: nat, i: nat, q': nat, i': nat, k': nat)
    requires Shaped(boxes, slots, verts) && q < |boxes| && i < 4 && q' <= |boxes| && i' < 4 && k' < 6
    ensures |Added(slots, q, i, |boxes|)| == 24 * (|boxes| + 1)
    ensures SlotOk(boxes + [SubBox(boxes[q], i)], Added(slots, q, i, |boxes|), verts, q', i', k')
  {
    AddedAt(slots, q, i, |boxes|, q', i', k');
    if q' < |boxes| {
      assert SlotOk(boxes, slots, verts, q', i', k');
    }
  }

  lemma AddedShaped(boxes: seq<Box>, slots: seq<Slot>, verts: seq<Vert>, q: nat, i: nat)
    requires Shaped(boxes, slots, verts) && q < |boxes| && i < 4
    ensures Shaped(boxes + [SubBox(boxes[q], i)], Added(slots, q, i, |boxes|), verts)
  {
    var b', s' := boxes + [SubBox(boxes[q], i)], Added(slots, q, i, |boxes|);
    forall q': nat, i': nat, k': nat | q' < |b'| && i' < 4 && k' < 6
      ensures SlotOk(b', s', verts, q', i', k')
    {
      AddedSlotOk(boxes, slots, verts, q, i, q', i', k');
    }
  }

  /** A quadrant as a value: its six slots. */
  ghost predicate SixOk(s: seq<Slot>)
    requires |s| == 6
  {
    || (s[0].Empty? && s[1].Empty? && s[2].Empty? && s[3].Empty? && s[4].Empty? && s[5].Empty?)
    || (s[0].V? && s[1].V? && s[2].V? && s[3].V? && s[4].V? && s[5].V?)
    || (s[0].Q? && s[1].Empty? && s[2].Empty? && s[3].Empty? && s[4].Empty? && s[5].Empty?)
  }

  lemma SixQuadrant(slots: seq<Slot>, q: nat, i: nat, s: seq<Slot>)
    requires i < 4 && At(q, i, 5) < |slots| && |s| == 6
    requires forall k: nat | k < 6 :: s[k] == slots[At(q, i, k)]
    ensures QuadrantOk(slots, q, i) <==> SixOk(s)
  {
  }

  lemma AddedQuadrantOk(slots: seq<Slot>, n: nat, q: nat, i: nat, q': nat, i': nat)
    requires |slots| == 24 * n && Uniform(slots, n) && q < n && i < 4 && q' <= n && i' < 4
    ensures |Added(slots, q, i, n)| == 24 * (n + 1) && QuadrantOk(Added(slots, q, i, n), q', i')
  {
    var s' := Added(slots, q, i, n);
    var six := seq(6, k requires 0 <= k < 6 =>
      if q' == n then Empty else if q' == q && i' == i then (if k == 0 then Q(n) else Empty) else slots[At(q', i', k)]);
    forall k: nat | k < 6
      ensures six[k] == s'[At(q', i', k)]
    {
      AddedAt(slots, q, i, n, q', i', k);
    }
    if q' < n && !(q' == q && i' == i) {
      assert QuadrantOk(slots, q', i');
      SixQuadrant(slots, q', i', six);
    }
    SixQuadrant(s', q', i', six);
  }

  lemma AddedUniform(slots: seq<Slot>, n: nat, q: nat, i: nat)
    requires |slots| == 24 * n && Uniform(slots, n) && q < n && i < 4
    ensures |Added(slots, q, i, n)| == 24 * (n + 1) && Uniform(Added(slots, q, i, n), n + 1)
  {
    forall q': nat, i': nat | q' < n + 1 && i' < 4
      ensures QuadrantOk(Added(slots, q, i, n), q', i')
    {
      AddedQuadrantOk(slots, n, q, i, q', i');
    }
  }

  /** The vertices that the six slots of a quadrant hold. */
  function SixVerts(slots: seq<Slot>, q: nat, i: nat): (s: seq<nat>)
    requires i < 4 && At(q, i, 5) < |slots|
    requires forall k: nat | k < 6 :: slots[At(q, i, k)].V?
    ensures |s| == 6 && forall k: nat | k < 6 :: slots[At(q, i, k)] == V(s[k])
  {
    seq(6, k requires 0 <= k < 6 => slots[At(q, i, k)].v)
  }

  lemma Absent(slots: seq<Slot>, s: Slot)
    requires forall x | 0 <= x < |slots| :: slots[x] != s
    ensures multiset(slots)[s] == 0
  {
    assert s !in slots;
  }

  function SlotsOf(vv: seq<nat>): seq<Slot> {
    seq(|vv|, j requires 0 <= j < |vv| => V(vv[j]))
  }

  lemma {:induction false} SlotsOfCount(vv: seq<nat>, v: nat)
    ensures multiset(SlotsOf(vv))[V(v)] == multiset(vv)[v]
  {
    if vv == [] {
    } else {
      var m := |vv| - 1;
      SlotsOfCount(vv[..m], v);
      assert vv == vv[..m] + [vv[m]];
      assert SlotsOf(vv) == SlotsOf(vv[..m]) + [V(vv[m])];
    }
  }

  function SixSlots(slots: seq<Slot>, q: nat, i: nat): (s: seq<Slot>)
    requires i < 4 && At(q, i, 5) < |slots|
    ensures |s| == 6 && forall k: nat | k < 6 :: s[k] == slots[At(q, i, k)]
  {
    slots[At(q, i, 0)..At(q, i, 0) + 6]
  }

  /** Emptying a quadrant takes its six slots away and puts one quad in. */
  lemma AddedCount(slots: seq<Slot>, q: nat, i: nat, g: nat, s: Slot)
    requires i < 4 && At(q, i, 5) < |slots| && s != Empty
    ensures multiset(Added(slots, q, i, g))[s] + multiset(SixSlots(slots, q, i))[s]
         == multiset(slots)[s] + if s == Q(g) then 1 else 0
  {
    var a, x := slots[..At(q, i, 0)], SixSlots(slots, q, i);
    var z := slots[At(q, i, 0) + 6..];
    assert slots == a + x + z;
    assert multiset(Added(slots, q, i, g))
        == multiset(a) + multiset{Q(g)} + multiset(Blank(5)) + multiset(z) + multiset(Blank(24));
    BlankCount(5, s);
    BlankCount(24, s);
    assert multiset(slots) == multiset(a) + multiset(x) + multiset(z);
  }

  lemma BlankCount(n: nat, s: Slot)
    requires s != Empty
    ensures multiset(Blank(n))[s] == 0
  {
    Absent(Blank(n), s);
  }

  lemma AddedLinked(slots: seq<Slot>, n: nat, q: nat, i: nat)
    requires |slots| == 24 * n && Linked(slots, n) && q < n && i < 4 && n >= 2
    requires multiset(slots)[Q(n)] == 0
    requires forall k: nat | k < 6 :: !slots[At(q, i, k)].Q?
    ensures Linked(Added(slots, q, i, n), n + 1)
  {
    forall g: nat | g < n + 1
      ensures multiset(Added(slots, q, i, n))[Q(g)] == if g < 2 then 0 else 1
    {
      AddedCount(slots, q, i, n, Q(g));
      Absent(SixSlots(slots, q, i), Q(g));
    }
  }

  /** No slot holds a quad that does not exist yet. */
  lemma NotYet(boxes: seq<Box>, slots: seq<Slot>, verts: seq<Vert>)
    requires Shaped(boxes, slots, verts)
    ensures multiset(slots)[Q(|boxes|)] == 0
  {
    forall x | 0 <= x < |slots|
      ensures slots[x] != Q(|boxes|)
    {
      assert SlotOk(boxes, slots, verts, x / 24, x % 24 / 6, x % 6) && At(x / 24, x % 24 / 6, x % 6) == x;
    }
    Absent(slots, Q(|boxes|));
  }

  /** Adding a quad at an empty quadrant changes no reference. */
  lemma AddedEmptyCounted(slots: seq<Slot>, verts: seq<Vert>, held: multiset<nat>, q: nat, i: nat, g: nat)
    requires i < 4 && At(q, i, 5) < |slots| && AllEmpty(slots, q, i) && Counted(slots, verts, held)
    ensures Counted(Added(slots, q, i, g), verts, held)
  {
    forall v: nat | v < |verts|
      ensures verts[v].rc == multiset(Added(slots, q, i, g))[V(v)] + held[v]
    {
      AddedCount(slots, q, i, g, V(v));
      Absent(SixSlots(slots, q, i), V(v));
    }
  }

  lemma SixPending(slots: seq<Slot>, q: nat, i: nat, g: nat, v: nat)
    requires i < 4 && At(q, i, 5) < |slots| && AllVerts(slots, q, i)
    ensures multiset(Added(slots, q, i, g))[V(v)] + multiset(SixVerts(slots, q, i))[v] == multiset(slots)[V(v)]
  {
    AddedCount(slots, q, i, g, V(v));
    SlotsOfCount(SixVerts(slots, q, i), v);
    assert SlotsOf(SixVerts(slots, q, i)) == SixSlots(slots, q, i);
  }

  lemma SixInRange(slots: seq<Slot>, verts: seq<Vert>, q: nat, i: nat)
    requires i < 4 && At(q, i, 5) < |slots| && AllVerts(slots, q, i)
    requires forall k: nat | k < 6 :: slots[At(q, i, k)].v < |verts|
    ensures forall v | v in multiset(SixVerts(slots, q, i)) :: v < |verts|
  {
    forall v | v in multiset(SixVerts(slots, q, i))
      ensures v < |verts|
    {
      assert v in SixVerts(slots, q, i);
    }
  }

  /** Adding a quad at a quadrant of vertices leaves its six references to be placed. */
  lemma AddedVertsCounted(slots: seq<Slot>, verts: seq<Vert>, held: multiset<nat>, q: nat, i: nat, g: nat)
    requires i < 4 && At(q, i, 5) < |slots| && AllVerts(slots, q, i) && Counted(slots, verts, held)
    requires forall k: nat | k < 6 :: slots[At(q, i, k)].v < |verts|
    ensures Counted(Added(slots, q, i, g), verts, held + multiset(SixVerts(slots, q, i)))
  {
    var pending: multiset<nat> := multiset(SixVerts(slots, q, i));
    forall v: nat | v < |verts|
      ensures verts[v].rc == multiset(Added(slots, q, i, g))[V(v)] + (held + pending)[v]
    {
      SixPending(slots, q, i, g, v);
    }
    SixInRange(slots, verts, q, i);
  }

  lemma AddedSound(pi: real, boxes: seq<Box>, slots: seq<Slot>, verts: seq<Vert>, ul: seq<nat>, q: nat, i: nat)
    requires Sound(pi, boxes, slots, verts, ul, multiset{}) && q < |boxes| && i < 4
    requires AllEmpty(slots, q, i) || AllVerts(slots, q, i)
    ensures Sound(pi, boxes + [SubBox(boxes[q], i)], Added(slots, q, i, |boxes|), verts, ul,
                  if AllEmpty(slots, q, i) then multiset{} else multiset(SixVerts(slots, q, i)))
  {
    forall k: nat | k < 6 && slots[At(q, i, k)].V?
      ensures slots[At(q, i, k)].v < |verts|
    {
      assert SlotOk(boxes, slots, verts, q, i, k);
    }
    AddedShaped(boxes, slots, verts, q, i);
    NotYet(boxes, slots, verts);
    AddedLinked(slots, |boxes|, q, i);
    if AllEmpty(slots, q, i) {
      AddedEmptyCounted(slots, verts, multiset{}, q, i, |boxes|);
    } else {
      AddedVertsCounted(slots, verts, multiset{}, q, i, |boxes|);
      assert multiset{} + multiset(SixVerts(slots, q, i)) == multiset(SixVerts(slots, q, i));
    }
  }

  // ----- sharing the vertices of a quadrant out in its new quad -----

  /** Quad g holds only vertices of vv, the first j of them have filled their quadrants, and the older quads are
      unchanged. */
  ghost predicate Spread(slots0: seq<Slot>, slots: seq<Slot>, verts: seq<Vert>, vv: seq<nat>, b: Box, g: nat, j: nat) {
    && |slots| == |slots0| == 24 * (g + 1) && j <= |vv|
    && (forall x | 0 <= x < 24 * g :: slots[x] == slots0[x])
    && (forall x | 24 * g <= x < |slots| :: slots[x].Empty? || (slots[x].V? && slots[x].v in vv))
    && forall m | 0 <= m < j :: vv[m] < |verts| && AllVerts(slots, g, Quadrant(b, verts[vv[m]].r))
  }

  lemma SpreadStart(slots: seq<Slot>, n: nat, verts: seq<Vert>, vv: seq<nat>, b: Box, q: nat, i: nat)
    requires |slots| == 24 * n && q < n && i < 4
    ensures Spread(Added(slots, q, i, n), Added(slots, q, i, n), verts, vv, b, n, 0)
  {
    forall x | 24 * n <= x < |slots| + 24
      ensures Added(slots, q, i, n)[x].Empty?
    {
      AddedNew(slots, q, i, n, x);
    }
  }

  lemma SpreadNext(slots0: seq<Slot>, slots1: seq<Slot>, slots2: seq<Slot>, verts: seq<Vert>, verts1: seq<Vert>,
      verts2: seq<Vert>, vv: seq<nat>, b: Box, g: nat, j: nat, cent: Vec)
    requires j < |vv| && vv[j] < |verts| && vv[j] < |verts2| && Spread(slots0, slots1, verts, vv, b, g, j)
    requires OfferedTo(6, slots1, verts1, slots2, verts2, g, Quadrant(b, verts[vv[j]].r), vv[j], cent)
    ensures Spread(slots0, slots2, verts, vv, b, g, j + 1)
  {
    var i := Quadrant(b, verts[vv[j]].r);
    forall x | 24 * g <= x < |slots2|
      ensures slots2[x].Empty? || (slots2[x].V? && slots2[x].v in vv)
    {
      if At(g, i, 0) <= x < At(g, i, 6) {
        var k := x - At(g, i, 0);
        assert Offered(k, slots1[At(g, i, k)], verts1, slots2[At(g, i, k)], verts2, vv[j], cent);
      }
    }
    forall m | 0 <= m < j + 1
      ensures AllVerts(slots2, g, Quadrant(b, verts[vv[m]].r))
    {
      assert m < j ==> AllVerts(slots1, g, Quadrant(b, verts[vv[m]].r));
    }
  }

  /** A quadrant of a new quad that holds no quad is either empty or full. */
  lemma SpreadQuadrant(slots0: seq<Slot>, slots: seq<Slot>, verts: seq<Vert>, vv: seq<nat>, b: Box, g: nat, j: nat,
      i: nat)
    requires i < 4 && Spread(slots0, slots, verts, vv, b, g, j) && Uniform(slots, g + 1)
    ensures AllEmpty(slots, g, i) || AllVerts(slots, g, i)
  {
    assert QuadrantOk(slots, g, i);
  }

  lemma SixLie(boxes: seq<Box>, slots: seq<Slot>, verts: seq<Vert>, q: nat, i: nat)
    requires Shaped(boxes, slots, verts) && q < |boxes| && i < 4 && AllVerts(slots, q, i)
    ensures forall m | 0 <= m < 6 ::
              SixVerts(slots, q, i)[m] < |verts| && InBox(SubBox(boxes[q], i), verts[SixVerts(slots, q, i)[m]].r)
  {
    forall m | 0 <= m < 6
      ensures SixVerts(slots, q, i)[m] < |verts| && InBox(SubBox(boxes[q], i), verts[SixVerts(slots, q, i)[m]].r)
    {
      assert SlotOk(boxes, slots, verts, q, i, m);
      InSubBox(boxes[q], verts[SixVerts(slots, q, i)[m]].r, i);
    }
  }

  // ----- what happens to the older quadrants -----

  ghost predicate AllSteady(slots: seq<Slot>, verts: seq<Vert>, slots': seq<Slot>, verts': seq<Vert>, c: nat)
    requires |slots| == 24 * c
  {
    && |slots| <= |slots'|
    && forall q: nat, i: nat | q < c && i < 4 :: Steady(slots, verts, slots', verts', q, i)
  }

  ghost predicate Kept(slots: seq<Slot>, verts: seq<Vert>, verts': seq<Vert>) {
    forall x | 0 <= x < |slots| && slots[x].V? :: SameSlot(slots[x], verts, slots[x], verts')
  }

  /** A vertex taken for a new point was in no slot. */
  lemma NewKept(slots: seq<Slot>, verts: seq<Vert>, verts': seq<Vert>, n: nat, boxes: seq<Box>)
    requires Shaped(boxes, slots, verts) && Counted(slots, verts, multiset{})
    requires n < |verts'| && |verts| <= |verts'| && (n < |verts| ==> verts[n].rc == 0)
    requires forall v: nat | v < |verts| && v != n :: verts'[v] == verts[v]
    ensures Kept(slots, verts, verts')
  {
    forall x | 0 <= x < |slots| && slots[x].V?
      ensures SameSlot(slots[x], verts, slots[x], verts')
    {
      assert SlotOk(boxes, slots, verts, x / 24, x % 24 / 6, x % 6) && At(x / 24, x % 24 / 6, x % 6) == x;
      HeldBySlot(slots, verts, multiset{}, x);
    }
  }

  /** Deepening a quadrant leaves every other one as it was. */
  lemma DeepenSteady(boxes: seq<Box>, slots: seq<Slot>, verts: seq<Vert>, slots': seq<Slot>, verts': seq<Vert>,
                     held: multiset<nat>, q: nat, i: nat)
    requires Shaped(boxes, slots, verts) && Uniform(slots, |boxes|) && q < |boxes| && i < 4
    requires AllEmpty(slots, q, i) || AllVerts(slots, q, i)
    requires |slots'| == 24 * (|boxes| + 1) && Fading(verts, verts') && Counted(slots', verts', held)
    requires forall x | 0 <= x < |slots| :: slots'[x] == Added(slots, q, i, |boxes|)[x]
    ensures AllSteady(slots, verts, slots', verts', |boxes|)
  {
    forall q': nat, i': nat | q' < |boxes| && i' < 4
      ensures Steady(slots, verts, slots', verts', q', i')
    {
      assert QuadrantOk(slots, q', i');
      forall k: nat | k < 6
        ensures slots'[At(q', i', k)] == if q' == q && i' == i then (if k == 0 then Q(|boxes|) else Empty)
          else slots[At(q', i', k)]
        ensures !(q' == q && i' == i) ==>
            slots'[At(q', i', k)].V? ==> SameSlot(slots[At(q', i', k)], verts, slots'[At(q', i', k)], verts')
      {
        AddedAt(slots, q, i, |boxes|, q', i', k);
        assert SlotOk(boxes, slots, verts, q', i', k);
        if !(q' == q && i' == i) && slots'[At(q', i', k)].V? {
          StillThere(slots', verts, verts', held, At(q', i', k));
        }
      }
    }
  }

  lemma SteadyThen(slots0: seq<Slot>, verts0: seq<Vert>, slots1: seq<Slot>, verts1: seq<Vert>,
                   slots2: seq<Slot>, verts2: seq<Vert>, c0: nat, c1: nat)
    requires |slots0| == 24 * c0 && |slots1| == 24 * c1 && c0 <= c1
    requires AllSteady(slots0, verts0, slots1, verts1, c0) && AllSteady(slots1, verts1, slots2, verts2, c1)
    ensures AllSteady(slots0, verts0, slots2, verts2, c0)
  {
    forall q: nat, i: nat | q < c0 && i < 4
      ensures Steady(slots0, verts0, slots2, verts2, q, i)
    {
      assert Steady(slots0, verts0, slots1, verts1, q, i) && Steady(slots1, verts1, slots2, verts2, q, i);
    }
  }

  lemma StartSteady(boxes: seq<Box>, slots: seq<Slot>, verts: seq<Vert>)
    requires Shaped(boxes, slots, verts) && Uniform(slots, |boxes|)
    ensures AllSteady(slots, verts, slots, verts, |boxes|)
  {
    forall q: nat, i: nat | q < |boxes| && i < 4
      ensures Steady(slots, verts, slots, verts, q, i)
    {
      assert QuadrantOk(slots, q, i);
      forall k: nat | k < 6
        ensures slots[At(q, i, k)].V? ==> SameSlot(slots[At(q, i, k)], verts, slots[At(q, i, k)], verts)
      {
        assert SlotOk(boxes, slots, verts, q, i, k);
      }
    }
  }

  // ----- what adding a point does to a quadrant -----

  /** The point p took slot k exactly if the slot was empty or p displaces its vertex; otherwise the vertex stays. */
  ghost predicate Taken(k: nat, s: Slot, verts: seq<Vert>, s': Slot, verts': seq<Vert>, p: Vec, cent: Vec) {
    s'.V? && s'.v < |verts'| &&
    match s
    case Empty => verts'[s'.v].p == p
    case Q(_) => false
    case V(v) =>
      v < |verts| && if Displaces(k, p, verts[v].p, cent) then verts'[s'.v].p == p else SameSlot(s, verts, s', verts')
  }

  ghost predicate AllTaken(slots: seq<Slot>, verts: seq<Vert>, slots': seq<Slot>, verts': seq<Vert>,
                           q: nat, i: nat, p: Vec, cent: Vec)
    requires i < 4 && At(q, i, 5) < |slots| <= |slots'|
  {
    forall k: nat | k < 6 :: Taken(k, slots[At(q, i, k)], verts, slots'[At(q, i, k)], verts', p, cent)
  }

  /** A slot that held a vertex never loses reach, gains some if its vertex changes, and then ends level with p. */
  lemma TakenReach(k: nat, s: Slot, verts: seq<Vert>, s': Slot, verts': seq<Vert>, p: Vec, cent: Vec)
    requires Taken(k, s, verts, s', verts', p, cent) && s.V?
    ensures Reach(k, verts'[s'.v].p, cent) >= Reach(k, verts[s.v].p, cent)
    ensures s' != s ==> Reach(k, p, cent) == Reach(k, verts'[s'.v].p, cent) > Reach(k, verts[s.v].p, cent)
    ensures Reach(k, p, cent) > Reach(k, verts'[s'.v].p, cent) ==> SqDist(p, verts[s.v].p) < SAME
  {
  }

  /** A vertex is on the unused list exactly if no slot holds it. */
  lemma UnusedUnheld(slots: seq<Slot>, verts: seq<Vert>, ul: seq<nat>, v: nat)
    requires Counted(slots, verts, multiset{}) && Unused(verts, ul) && v < |verts|
    ensures v in ul <==> V(v) !in slots
  {
    assert V(v) in slots <==> V(v) in multiset(slots);
  }

  /** Every slot of the quadrant holds a vertex that p does not displace. */
  ghost predicate Settled(slots: seq<Slot>, verts: seq<Vert>, q: nat, i: nat, p: Vec, cent: Vec)
    requires i < 4 && At(q, i, 5) < |slots|
  {
    forall k: nat | k < 6 ::
      slots[At(q, i, k)].V? && slots[At(q, i, k)].v < |verts| && !Displaces(k, p, verts[slots[At(q, i, k)].v].p, cent)
  }

  lemma TakenSettled(slots: seq<Slot>, verts: seq<Vert>, slots': seq<Slot>, verts': seq<Vert>, q: nat, i: nat, p: Vec,
      cent: Vec)
    requires i < 4 && At(q, i, 5) < |slots| <= |slots'| && AllTaken(slots, verts, slots', verts', q, i, p, cent)
    ensures Settled(slots', verts', q, i, p, cent)
  {
    forall k: nat | k < 6
      ensures slots'[At(q, i, k)].V? && slots'[At(q, i, k)].v < |verts'|
      ensures !Displaces(k, p, verts'[slots'[At(q, i, k)].v].p, cent)
    {
      assert Taken(k, slots[At(q, i, k)], verts, slots'[At(q, i, k)], verts', p, cent);
      NoSelfDisplace(k, p, cent);
    }
  }

  // ----- what the slots keep, measured from the centre -----

  /** The squared distance of p from the centre after the three coordinates are scaled. */
  function Stretched(p: Vec, cent: Vec, l: real, a: real, b: real): real {
    Square(l * (p.0 - cent.0)) + Square(a * (p.1 - cent.1)) + Square(b * (p.2 - cent.2))
  }

  lemma SquareScaled(l: real, x: real)
    ensures Square(l * x) == (l * l) * x * x
  {
  }

  /** How slot k scales the coordinates: slot 0 leaves them, slots 1 to 3 take the first at a half, twice and four
      times its size, and slots 4 and 5 leave it out and take one of the others at a tenth. */
  function Scales(k: nat): Vec {
    if k == 1 then (0.5, 1.0, 1.0)
    else if k == 2 then (2.0, 1.0, 1.0)
    else if k == 3 then (4.0, 1.0, 1.0)
    else if k == 4 then (0.0, 1.0, 0.1)
    else if k == 5 then (0.0, 0.1, 1.0)
    else (1.0, 1.0, 1.0)
  }

  lemma ReachIs(k: nat, p: Vec, cent: Vec)
    requires k < 6
    ensures Reach(k, p, cent) == Stretched(p, cent, Scales(k).0, Scales(k).1, Scales(k).2)
  {
    SquareScaled(Scales(k).0, p.0 - cent.0);
    SquareScaled(Scales(k).1, p.1 - cent.1);
    SquareScaled(Scales(k).2, p.2 - cent.2);
  }

  /** The slot keeps a vertex at least as far out as p, or one that p is less than 1e-4 away from. */
  ghost predicate AsFarOut(slots: seq<Slot>, verts: seq<Vert>, x: nat, p: Vec, cent: Vec, l: real, a: real, b: real) {
    && x < |slots| && slots[x].V? && slots[x].v < |verts|
    && (Stretched(verts[slots[x].v].p, cent, l, a, b) >= Stretched(p, cent, l, a, b)
        || SqDist(verts[slots[x].v].p, p) < 0.00000001)
  }

  /** The slot's vertex stays, or p takes its place, being farther out. */
  ghost predicate OnlyOutwards(slots: seq<Slot>, verts: seq<Vert>, slots': seq<Slot>, verts': seq<Vert>, x: nat, p: Vec,
      cent: Vec, l: real, a: real, b: real) {
    x < |slots| && slots[x].V? ==>
      && x < |slots'| && slots'[x].V? && slots[x].v < |verts| && slots'[x].v < |verts'|
      && var v, v' := verts[slots[x].v].p, verts'[slots'[x].v].p;
         v' == v || (v' == p && Stretched(v', cent, l, a, b) > Stretched(v, cent, l, a, b))
  }

  /** What the six slots of a quadrant keep of p. */
  ghost predicate AllFarOut(slots: seq<Slot>, verts: seq<Vert>, q: nat, i: nat, p: Vec, cent: Vec) {
    && AsFarOut(slots, verts, At(q, i, 0), p, cent, 1.0, 1.0, 1.0)
    && AsFarOut(slots, verts, At(q, i, 1), p, cent, 0.5, 1.0, 1.0)
    && AsFarOut(slots, verts, At(q, i, 2), p, cent, 2.0, 1.0, 1.0)
    && AsFarOut(slots, verts, At(q, i, 3), p, cent, 4.0, 1.0, 1.0)
    && AsFarOut(slots, verts, At(q, i, 4), p, cent, 0.0, 1.0, 0.1)
    && AsFarOut(slots, verts, At(q, i, 5), p, cent, 0.0, 0.1, 1.0)
  }

  ghost predicate AllOutwards(slots: seq<Slot>, verts: seq<Vert>, slots': seq<Slot>, verts': seq<Vert>,
                              q: nat, i: nat, p: Vec, cent: Vec) {
    && OnlyOutwards(slots, verts, slots', verts', At(q, i, 0), p, cent, 1.0, 1.0, 1.0)
    && OnlyOutwards(slots, verts, slots', verts', At(q, i, 1), p, cent, 0.5, 1.0, 1.0)
    && OnlyOutwards(slots, verts, slots', verts', At(q, i, 2), p, cent, 2.0, 1.0, 1.0)
    && OnlyOutwards(slots, verts, slots', verts', At(q, i, 3), p, cent, 4.0, 1.0, 1.0)
    && OnlyOutwards(slots, verts, slots', verts', At(q, i, 4), p, cent, 0.0, 1.0, 0.1)
    && OnlyOutwards(slots, verts, slots', verts', At(q, i, 5), p, cent, 0.0, 0.1, 1.0)
  }

  lemma SqDistSame(x: Vec, y: Vec)
    ensures SqDist(x, y) == SqDist(y, x)
  {
    var d, e := Minus(x, y), Minus(y, x);
    assert d.0 == -e.0 && d.1 == -e.1 && d.2 == -e.2;
  }

  lemma SlotFarOut(slots: seq<Slot>, verts: seq<Vert>, q: nat, i: nat, k: nat, p: Vec, cent: Vec)
    requires i < 4 && k < 6 && At(q, i, 5) < |slots| && Settled(slots, verts, q, i, p, cent)
    ensures AsFarOut(slots, verts, At(q, i, k), p, cent, Scales(k).0, Scales(k).1, Scales(k).2)
  {
    assert slots[At(q, i, k)].V?;
    var v := verts[slots[At(q, i, k)].v].p;
    ReachIs(k, v, cent);
    ReachIs(k, p, cent);
    SqDistSame(p, v);
  }

  lemma SettledFarOut(slots: seq<Slot>, verts: seq<Vert>, q: nat, i: nat, p: Vec, cent: Vec)
    requires i < 4 && At(q, i, 5) < |slots| && Settled(slots, verts, q, i, p, cent)
    ensures AllFarOut(slots, verts, q, i, p, cent)
  {
    SlotFarOut(slots, verts, q, i, 0, p, cent);
    SlotFarOut(slots, verts, q, i, 1, p, cent);
    SlotFarOut(slots, verts, q, i, 2, p, cent);
    SlotFarOut(slots, verts, q, i, 3, p, cent);
    SlotFarOut(slots, verts, q, i, 4, p, cent);
    SlotFarOut(slots, verts, q, i, 5, p, cent);
  }

  lemma SlotOutwards(slots: seq<Slot>, verts: seq<Vert>, slots': seq<Slot>, verts': seq<Vert>, q: nat, i: nat, k: nat,
      p: Vec, cent: Vec)
    requires i < 4 && k < 6 && At(q, i, 5) < |slots| <= |slots'|
    requires AllTaken(slots, verts, slots', verts', q, i, p, cent)
    ensures OnlyOutwards(slots, verts, slots', verts', At(q, i, k), p, cent, Scales(k).0, Scales(k).1, Scales(k).2)
  {
    var s := slots[At(q, i, k)];
    assert Taken(k, s, verts, slots'[At(q, i, k)], verts', p, cent);
    if s.V? {
      ReachIs(k, verts[s.v].p, cent);
      ReachIs(k, p, cent);
    }
  }

  lemma TakenOutwards(slots: seq<Slot>, verts: seq<Vert>, slots': seq<Slot>, verts': seq<Vert>, q: nat, i: nat,
      p: Vec, cent: Vec)
    requires i < 4 && At(q, i, 5) < |slots| <= |slots'|
    requires AllTaken(slots, verts, slots', verts', q, i, p, cent)
    ensures AllOutwards(slots, verts, slots', verts', q, i, p, cent)
  {
    SlotOutwards(slots, verts, slots', verts', q, i, 0, p, cent);
    SlotOutwards(slots, verts, slots', verts', q, i, 1, p, cent);
    SlotOutwards(slots, verts, slots', verts', q, i, 2, p, cent);
    SlotOutwards(slots, verts, slots', verts', q, i, 3, p, cent);
    SlotOutwards(slots, verts, slots', verts', q, i, 4, p, cent);
    SlotOutwards(slots, verts, slots', verts', q, i, 5, p, cent);
  }

  /** A point farther out on the ray of the vertex, by 1e-4 at least, takes slots 0 to 3, and the other two if the ray
      does not run along the first axis. */
  lemma OutwardTakes(k: nat, v: nat, verts: seq<Vert>, s': Slot, verts': seq<Vert>, p: Vec, cent: Vec, t: real)
    requires k < 6 && v < |verts| && Taken(k, V(v), verts, s', verts', p, cent) && t > 1.0
    requires Minus(p, cent) == Ray(verts[v].p, cent, t) && SqDist(p, verts[v].p) >= 0.00000001
    requires k < 4 || verts[v].p.1 != cent.1 || verts[v].p.2 != cent.2
    ensures verts'[s'.v].p == p
  {
    var x := verts[v].p;
    ReachIs(k, x, cent);
    ReachIs(k, p, cent);
    if x == cent {
      AtCentre(p, cent, t);
    }
    RayFarther(Scales(k), x, p, cent, t);
  }

  /** The vector from the centre to x, t times as long. */
  function Ray(x: Vec, cent: Vec, t: real): Vec {
    (t * (x.0 - cent.0), t * (x.1 - cent.1), t * (x.2 - cent.2))
  }

  lemma AtCentre(p: Vec, cent: Vec, t: real)
    requires Minus(p, cent) == Ray(cent, cent, t)
    ensures SqDist(p, cent) == 0.0
  {
  }

  lemma SquareGrows(l: real, x: real, t: real)
    requires t > 1.0
    ensures Square(l * (t * x)) >= Square(l * x)
    ensures l > 0.0 && x != 0.0 ==> Square(l * (t * x)) > Square(l * x)
  {
    var z := l * x;
    assert l * (t * x) == t * z;
    TimesGrows(z, t);
    if l > 0.0 && x != 0.0 {
      NotZero(l, x);
    }
  }

  lemma NotZero(l: real, x: real)
    requires l > 0.0 && x != 0.0
    ensures l * x != 0.0
  {
    if x > 0.0 {
      assert l * x > 0.0;
    } else {
      assert l * -x > 0.0;
    }
  }

  lemma TimesGrows(z: real, t: real)
    requires t > 1.0
    ensures Square(t * z) >= Square(z) && (z != 0.0 ==> Square(t * z) > Square(z))
  {
    var u := (t - 1.0) * z;
    assert t * z == z + u;
    assert u * z == (t - 1.0) * (z * z);
    assert (t * z) * (t * z) == z * z + 2.0 * (u * z) + u * u;
    assert z != 0.0 ==> z * z > 0.0;
    assert z * z >= 0.0 && u * u >= 0.0 && (t - 1.0) * (z * z) >= 0.0;
    assert z * z > 0.0 ==> (t - 1.0) * (z * z) > 0.0;
  }

  lemma RayFarther(w: Vec, x: Vec, p: Vec, cent: Vec, t: real)
    requires t > 1.0 && Minus(p, cent) == Ray(x, cent, t) && x != cent && w.1 > 0.0 && w.2 > 0.0
    requires w.0 > 0.0 || x.1 != cent.1 || x.2 != cent.2
    ensures Stretched(p, cent, w.0, w.1, w.2) > Stretched(x, cent, w.0, w.1, w.2)
  {
    SquareGrows(w.0, x.0 - cent.0, t);
    SquareGrows(w.1, x.1 - cent.1, t);
    SquareGrows(w.2, x.2 - cent.2, t);
    var d := Minus(p, cent);
    assert d.0 == p.0 - cent.0 == t * (x.0 - cent.0);
    assert d.1 == p.1 - cent.1 == t * (x.1 - cent.1);
    assert d.2 == p.2 - cent.2 == t * (x.2 - cent.2);
    assert x.0 != cent.0 || x.1 != cent.1 || x.2 != cent.2;
  }

  /** Offering a new vertex n for p, then giving its first reference up: verts1 has the new vertex, verts2 follows the
      offers. */
  lemma TookSlots(slots: seq<Slot>, verts: seq<Vert>, verts1: seq<Vert>, slots': seq<Slot>, verts2: seq<Vert>,
      verts': seq<Vert>, q: nat, i: nat, n: nat, p: Vec, cent: Vec)
    requires i < 4 && At(q, i, 5) < |slots| && n < |verts1| == |verts2|
    requires verts1[n].p == p && verts1[n].rc > 0 && verts2[n].rc > 0
    requires Fading(verts1, verts2) && Fading(verts2, verts') && Counted(slots', verts', multiset{})
    requires OfferedTo(6, slots, verts1, slots', verts2, q, i, n, cent)
    requires forall k: nat | k < 6 && slots[At(q, i, k)].V? ::
      SameSlot(slots[At(q, i, k)], verts, slots[At(q, i, k)], verts1)
    ensures AllTaken(slots, verts, slots', verts', q, i, p, cent)
  {
    forall k: nat | k < 6
      ensures Taken(k, slots[At(q, i, k)], verts, slots'[At(q, i, k)], verts', p, cent)
    {
      assert Offered(k, slots[At(q, i, k)], verts1, slots'[At(q, i, k)], verts2, n, cent);
      HeldBySlot(slots', verts', multiset{}, At(q, i, k));
    }
  }

  lemma OthersSteady(boxes: seq<Box>, slots: seq<Slot>, verts: seq<Vert>, verts1: seq<Vert>, slots': seq<Slot>,
      verts': seq<Vert>, q: nat, i: nat, q': nat, i': nat)
    requires |slots| == |slots'| == 24 * |boxes| && Uniform(slots, |boxes|)
    requires q' < |boxes| && i' < 4 && i < 4 && !(q == q' && i == i')
    requires forall x: nat | x < |slots| && !(At(q, i, 0) <= x < At(q, i, 6)) :: slots'[x] == slots[x]
    requires Kept(slots, verts, verts1) && Fading(verts1, verts') && Counted(slots', verts', multiset{})
    ensures Steady(slots, verts, slots', verts', q', i')
  {
    assert QuadrantOk(slots, q', i');
    forall k: nat | k < 6
      ensures slots'[At(q', i', k)] == slots[At(q', i', k)]
      ensures slots[At(q', i', k)].V? ==> SameSlot(slots[At(q', i', k)], verts, slots'[At(q', i', k)], verts')
    {
      if slots[At(q', i', k)].V? {
        HeldBySlot(slots', verts', multiset{}, At(q', i', k));
      }
    }
  }

  /** What adding point p does to the quadrants there were: in p's own every slot keeps or takes the better, the rest is
      steady. */
  ghost predicate Expanded(slots: seq<Slot>, verts: seq<Vert>, slots': seq<Slot>, verts': seq<Vert>, c: nat,
                           q: nat, i: nat, p: Vec, cent: Vec)
    requires |slots| == 24 * c
  {
    && |slots| <= |slots'|
    && forall q': nat, i': nat | q' < c && i' < 4 ::
         if q' == q && i' == i then AllTaken(slots, verts, slots', verts', q', i', p, cent)
         else Steady(slots, verts, slots', verts', q', i')
  }

  lemma DescentThenOffer(slots0: seq<Slot>, verts0: seq<Vert>, slots: seq<Slot>, verts: seq<Vert>, slots': seq<Slot>,
      verts': seq<Vert>, c0: nat, c: nat, q: nat, i: nat, p: Vec, cent: Vec)
    requires |slots0| == 24 * c0 && |slots| == 24 * c && c0 <= c && q < c && i < 4
    requires AllEmpty(slots, q, i) || AllVerts(slots, q, i)
    requires AllSteady(slots0, verts0, slots, verts, c0) && Expanded(slots, verts, slots', verts', c, q, i, p, cent)
    ensures Expanded(slots0, verts0, slots', verts', c0, q, i, p, cent)
  {
    forall q': nat, i': nat | q' < c0 && i' < 4
      ensures if q' == q && i' == i then AllTaken(slots0, verts0, slots', verts', q', i', p, cent)
              else Steady(slots0, verts0, slots', verts', q', i')
    {
      assert Steady(slots0, verts0, slots, verts, q', i');
      if q' == q && i' == i {
        assert AllTaken(slots, verts, slots', verts', q, i, p, cent);
        forall k: nat | k < 6
          ensures Taken(k, slots0[At(q, i, k)], verts0, slots'[At(q, i, k)], verts', p, cent)
        {
          assert Taken(k, slots[At(q, i, k)], verts, slots'[At(q, i, k)], verts', p, cent);
        }
      } else {
        assert Steady(slots, verts, slots', verts', q', i');
      }
    }
  }

  // ----- why the descent ends -----

  /** How many whole angles fit in a size. */
  function Fits(size: real, angle: real): (n: nat)
    requires size >= 0.0 && angle > 0.0
  {
    (size / angle).Floor
  }

  lemma HalfFits(size: real, angle: real)
    requires size >= 0.0 && angle > 0.0
    ensures Fits(0.5 * size, angle) <= Fits(size, angle)
    ensures size > angle ==> Fits(0.5 * size, angle) < Fits(size, angle)
  {
    var y := size / angle;
    assert 0.5 * size / angle == 0.5 * y;
    if size > angle {
      assert y > 1.0;
    }
  }
}
