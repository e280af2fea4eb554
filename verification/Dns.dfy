/** Reading and writing compressed domain names, of sections 3.1 and 4.1.4 of RFC 1035. */
module Dns {
  import opened Wrappers

  newtype Byte = b: int | 0 <= b < 256

  const DOT: Byte := 46
  const MARKER := 192

  function At(buf: seq<Byte>, off: nat): nat
    requires off < |buf|
  {
    buf[off] as int
  }
  const MAX_NESTING: nat := 10

  // ---- the names that a buffer spells

  /** The target of the pointer at off. */
  function Target(buf: seq<Byte>, off: nat): (t: nat)
    requires off + 2 <= |buf| && At(buf, off) >= MARKER
  {
    256 * At(buf, off) + At(buf, off + 1) - 0xc000
  }

  /** The labels of the name at off, when every label and pointer of it is within the buffer and the pointers are not
      nested too deeply. */
  function Labels(buf: seq<Byte>, off: nat, rec: nat): Option<seq<seq<Byte>>>
    decreases if rec > MAX_NESTING then 0 else MAX_NESTING + 1 - rec, if off >= |buf| then 0 else |buf| - off
  {
    if rec > MAX_NESTING || off >= |buf| then None
    else if At(buf, off) >= MARKER then
      if |buf| - off < 2 || Target(buf, off) >= |buf| then None
      else Labels(buf, Target(buf, off), rec + 1)
    else if off + 1 + At(buf, off) >= |buf| then None
    else if At(buf, off) == 0 then Some([])
    else
      var r := Labels(buf, off + 1 + At(buf, off), rec);
      if r.None? then None else Some([buf[off + 1..off + 1 + At(buf, off)]] + r.value)
  }

  /** The labels of a name, each followed by a dot. */
  function Text(ls: seq<seq<Byte>>): seq<Byte> {
    if ls == [] then [] else ls[0] + [DOT] + Text(ls[1..])
  }

  /** The name at off has the labels ls: k times a pointer leads on, from a byte of 192 or more, to the place that
      its other fourteen bits name; each label is behind its length; a zero ends the name before the buffer ends. */
  ghost predicate Named(buf: seq<Byte>, off: nat, k: nat, ls: seq<seq<Byte>>)
    decreases k, if off >= |buf| then 0 else |buf| - off
  {
    off < |buf| &&
    var b := buf[off] as int;
    if b >= 192 then
      off + 1 < |buf| && k > 0 && 256 * (b - 192) + buf[off + 1] as int < |buf|
      && Named(buf, 256 * (b - 192) + buf[off + 1] as int, k - 1, ls)
    else if b == 0 then off + 1 < |buf| && k == 0 && ls == []
    else off + 1 + b < |buf| && ls != [] && ls[0] == buf[off + 1..off + 1 + b] && Named(buf, off + 1 + b, k, ls[1..])
  }

  lemma {:induction false} NamedLabels(buf: seq<Byte>, off: nat, rec: nat, k: nat, ls: seq<seq<Byte>>)
    requires Named(buf, off, k, ls)
    ensures Labels(buf, off, rec) == if k + rec <= 10 then Some(ls) else None
    decreases k, if off >= |buf| then 0 else |buf| - off
  {
    if rec <= 10 {
      if At(buf, off) >= 192 {
        NamedLabels(buf, Target(buf, off), rec + 1, k - 1, ls);
      } else if At(buf, off) > 0 {
        NamedLabels(buf, off + 1 + At(buf, off), rec, k, ls[1..]);
        assert ls == [ls[0]] + ls[1..];
      }
    }
  }

  lemma {:induction false} LabelsNamed(buf: seq<Byte>, off: nat, rec: nat) returns (k: nat)
    requires Labels(buf, off, rec).Some?
    ensures k + rec <= 10 && Named(buf, off, k, Labels(buf, off, rec).value)
    decreases MAX_NESTING + 1 - rec, |buf| - off
  {
    if At(buf, off) >= 192 {
      k := LabelsNamed(buf, Target(buf, off), rec + 1);
      k := k + 1;
    } else if At(buf, off) > 0 {
      var r := Labels(buf, off + 1 + At(buf, off), rec).value;
      k := LabelsNamed(buf, off + 1 + At(buf, off), rec);
      assert ([buf[off + 1..off + 1 + At(buf, off)]] + r)[1..] == r;
    } else {
      k := 0;
    }
  }

  /** The same with ten pointers at most. */
  ghost predicate NamedVia(buf: seq<Byte>, off: nat, k: nat, ls: seq<seq<Byte>>) {
    k <= 10 && Named(buf, off, k, ls)
  }

  /** The labels found are those of the name, provided that it takes ten pointers at most. */
  lemma LabelsExactly(buf: seq<Byte>, off: nat, ls: seq<seq<Byte>>)
    ensures Labels(buf, off, 0) == Some(ls) <==> exists k :: NamedVia(buf, off, k, ls)
  {
    if k :| NamedVia(buf, off, k, ls) {
      NamedLabels(buf, off, 0, k, ls);
    }
    if Labels(buf, off, 0) == Some(ls) {
      var k := LabelsNamed(buf, off, 0);
      assert NamedVia(buf, off, k, ls);
    }
  }

  // ---- what read_string_imp does

  datatype Read = Read(next: Option<nat>, text: seq<Byte>)

  /** The offset after the name at off, or an error, and the text put out in either case. What becomes of a name
      that a pointer leads to has no effect on the offset. */
  function Scan(buf: seq<Byte>, off: nat, rec: nat): (r: Read)
    decreases if rec > MAX_NESTING then 0 else MAX_NESTING + 1 - rec, if off >= |buf| then 0 else |buf| - off
  {
    if rec > MAX_NESTING || off >= |buf| then Read(None, [])
    else if At(buf, off) >= MARKER then
      if |buf| - off < 2 || Target(buf, off) >= |buf| then Read(None, [])
      else Read(Some(off + 2), Scan(buf, Target(buf, off), rec + 1).text)
    else if off + 1 + At(buf, off) >= |buf| then Read(None, [])
    else if At(buf, off) == 0 then Read(Some(off + 1), [])
    else
      var r := Scan(buf, off + 1 + At(buf, off), rec);
      Read(r.next, buf[off + 1..off + 1 + At(buf, off)] + [DOT] + r.text)
  }

  lemma Grouped<A>(a: seq<A>, b: seq<A>, c: seq<A>)
    ensures (a + b) + c == a + (b + c)
  {
  }

  /** A label at off that is read and followed by more. */
  predicate LabelAt(buf: seq<Byte>, off: nat) {
    off < |buf| && 0 < At(buf, off) < MARKER && off + 1 + At(buf, off) < |buf|
  }

  function LabelOf(buf: seq<Byte>, off: nat): seq<Byte>
    requires LabelAt(buf, off)
  {
    buf[off + 1..off + 1 + At(buf, off)]
  }

  /** The labels ls are read from off0 up to off. */
  ghost predicate Walk(buf: seq<Byte>, off0: nat, off: nat, ls: seq<seq<Byte>>)
    decreases ls
  {
    if ls == [] then off == off0
    else LabelAt(buf, off0) && ls[0] == LabelOf(buf, off0) && Walk(buf, off0 + 1 + At(buf, off0), off, ls[1..])
  }

  lemma {:induction false} WalkOn(buf: seq<Byte>, off0: nat, off: nat, ls: seq<seq<Byte>>)
    requires Walk(buf, off0, off, ls) && LabelAt(buf, off)
    ensures Walk(buf, off0, off + 1 + At(buf, off), ls + [LabelOf(buf, off)])
    decreases ls
  {
    if ls == [] {
      assert [LabelOf(buf, off)][1..] == [];
    } else {
      WalkOn(buf, off0 + 1 + At(buf, off0), off, ls[1..]);
      assert (ls + [LabelOf(buf, off)])[1..] == ls[1..] + [LabelOf(buf, off)];
    }
  }

  lemma {:induction false} TextOn(ls: seq<seq<Byte>>, l: seq<Byte>)
    ensures Text(ls + [l]) == Text(ls) + (l + [DOT])
    decreases ls
  {
    if ls == [] {
      assert [l][1..] == [] && Text([l]) == l + [DOT];
    } else {
      TextOn(ls[1..], l);
      assert (ls + [l])[1..] == ls[1..] + [l];
      Grouped(ls[0] + [DOT], Text(ls[1..]), l + [DOT]);
    }
  }

  /** Reading from off0 puts out the labels up to off, and goes on from there. */
  lemma {:induction false} WalkScan(buf: seq<Byte>, off0: nat, off: nat, ls: seq<seq<Byte>>, rec: nat)
    requires Walk(buf, off0, off, ls) && rec <= MAX_NESTING
    ensures Scan(buf, off0, rec).next == Scan(buf, off, rec).next
      && Scan(buf, off0, rec).text == Text(ls) + Scan(buf, off, rec).text
    decreases ls
  {
    if ls == [] {
    } else {
      WalkScan(buf, off0 + 1 + At(buf, off0), off, ls[1..], rec);
      Grouped(ls[0] + [DOT], Text(ls[1..]), Scan(buf, off, rec).text);
    }
  }

  lemma WalkFits(buf: seq<Byte>, off0: nat, off: nat, ls: seq<seq<Byte>>, rec: nat)
    requires Walk(buf, off0, off, ls) && rec <= MAX_NESTING && LabelAt(buf, off)
    ensures |Text(ls)| + At(buf, off) + 1 <= |Scan(buf, off0, rec).text|
  {
    WalkScan(buf, off0, off, ls, rec);
  }

  /** Where the walk ends with neither label nor pointer. */
  lemma WalkEnds(buf: seq<Byte>, off0: nat, off: nat, ls: seq<seq<Byte>>, rec: nat)
    requires Walk(buf, off0, off, ls) && rec <= MAX_NESTING && !LabelAt(buf, off)
    requires off < |buf| && At(buf, off) >= MARKER ==> |buf| - off < 2 || Target(buf, off) >= |buf|
    ensures Scan(buf, off0, rec) ==
      Read(if off < |buf| && At(buf, off) == 0 && off + 1 < |buf| then Some(off + 1) else None, Text(ls))
  {
    WalkScan(buf, off0, off, ls, rec);
  }

  /** Where it ends with a pointer. */
  lemma WalkPoints(buf: seq<Byte>, off0: nat, off: nat, ls: seq<seq<Byte>>, rec: nat)
    requires Walk(buf, off0, off, ls) && rec <= MAX_NESTING && off + 2 <= |buf| && At(buf, off) >= MARKER
      && Target(buf, off) < |buf|
    ensures Scan(buf, off0, rec) == Read(Some(off + 2), Text(ls) + Scan(buf, Target(buf, off), rec + 1).text)
  {
    WalkScan(buf, off0, off, ls, rec);
  }

  /** Copy the label at off to position at. */
  method CopyLabel(dst: array<Byte>, at: nat, buf: seq<Byte>, off: nat, len: nat)
    requires off + len <= |buf| && at + len < dst.Length
    modifies dst
    ensures dst[..at + len + 1] == old(dst[..at]) + (buf[off..off + len] + [DOT])
  {
    for i := 0 to len
      invariant dst[..at + i] == old(dst[..at]) + buf[off..off + i]
    {
      dst[at + i] := buf[off + i];
      assert dst[..at + i + 1] == dst[..at + i] + [dst[at + i]];
      assert buf[off..off + i + 1] == buf[off..off + i] + [buf[off + i]];
    }
    dst[at + len] := DOT;
    assert dst[..at + len + 1] == dst[..at + len] + [dst[at + len]];
  }

  /** What has been put out: the text ls after what was there before, if there is a destination. */
  ghost predicate PutOut(dst: array?<Byte>, at0: nat, at: nat, base: seq<Byte>, text: seq<Byte>)
    reads dst
  {
    dst != null ==> at == at0 + |text| && at <= dst.Length && dst[..at] == base + text
  }

  /** Count the label at off, and copy it if there is a destination. */
  method PutLabel(dst: array?<Byte>, at0: nat, at: nat, slen: nat, buf: seq<Byte>, off0: nat, off: nat, rec: nat,
                  ghost base: seq<Byte>, ghost ls: seq<seq<Byte>>)
    returns (at': nat, slen': nat)
    requires rec <= MAX_NESTING && Walk(buf, off0, off, ls) && LabelAt(buf, off) && PutOut(dst, at0, at, base, Text(ls))
    requires dst != null ==> at0 + |Scan(buf, off0, rec).text| <= dst.Length
    modifies dst
    ensures Walk(buf, off0, off + 1 + At(buf, off), ls + [LabelOf(buf, off)])
    ensures slen' - |Text(ls + [LabelOf(buf, off)])| == slen - |Text(ls)|
      && PutOut(dst, at0, at', base, Text(ls + [LabelOf(buf, off)]))
  {
    var len := At(buf, off);
    at', slen' := at, slen + len + 1;
    WalkFits(buf, off0, off, ls, rec);
    WalkOn(buf, off0, off, ls);
    TextOn(ls, LabelOf(buf, off));
    if dst != null {
      CopyLabel(dst, at, buf, off + 1, len);
      at' := at + len + 1;
      Grouped(base, Text(ls), LabelOf(buf, off) + [DOT]);
    }
  }

  /** Follow the pointer at off. Whether the name it leads to can be read makes no difference to the result. */
  method ReadPointer(dst: array?<Byte>, at0: nat, at1: nat, slen1: nat, buf: seq<Byte>, off0: nat, off: nat, rec: nat,
                     ghost base: seq<Byte>, ghost ls: seq<seq<Byte>>)
    returns (next: Option<nat>, at: nat, slen: nat)
    requires rec <= MAX_NESTING && Walk(buf, off0, off, ls) && off < |buf| && At(buf, off) >= MARKER
    requires PutOut(dst, at0, at1, base, Text(ls)) && (dst != null ==> at0 + |Scan(buf, off0, rec).text| <= dst.Length)
    modifies dst
    ensures var r := Scan(buf, off0, rec);
      next == r.next && slen - |r.text| == slen1 - |Text(ls)| && PutOut(dst, at0, at, base, r.text)
    decreases MAX_NESTING + 1 - rec, 0
  {
    next, at, slen := None, at1, slen1;
    if |buf| - off < 2 {
      WalkEnds(buf, off0, off, ls, rec);
      return;
    }
    var poff := Target(buf, off);
    if poff >= |buf| {
      WalkEnds(buf, off0, off, ls, rec);
      return;
    }
    WalkPoints(buf, off0, off, ls, rec);
    next, at, slen := ReadStringImp(dst, at1, slen1, buf, poff, rec + 1);
    Grouped(base, Text(ls), Scan(buf, poff, rec + 1).text);
    next := Some(off + 2);
  }

  /** Read a name: count its text in slen, and if there is a destination, copy it there. */
  method ReadStringImp(dst: array?<Byte>, at0: nat, slen0: nat, buf: seq<Byte>, off0: nat, rec: nat)
    returns (next: Option<nat>, at: nat, slen: nat)
    requires dst != null ==> at0 + |Scan(buf, off0, rec).text| <= dst.Length
    modifies dst
    ensures var r := Scan(buf, off0, rec); next == r.next && slen == slen0 + |r.text|
    ensures dst != null ==> PutOut(dst, at0, at, old(dst[..at0]), Scan(buf, off0, rec).text)
    decreases if rec > MAX_NESTING then 0 else MAX_NESTING + 1 - rec, 1
  {
    at, slen := at0, slen0;
    if rec > MAX_NESTING {
      return None, at, slen;
    }
    if off0 >= |buf| {
      return None, at, slen;
    }
    var off: nat := off0;
    ghost var ls: seq<seq<Byte>> := [];
    ghost var base := if dst == null then [] else dst[..at0];
    while true
      invariant off < |buf| && Walk(buf, off0, off, ls) && slen == slen0 + |Text(ls)|
        && PutOut(dst, at0, at, base, Text(ls))
      decreases |buf| - off
    {
      var len := At(buf, off);
      if len >= MARKER {
        next, at, slen := ReadPointer(dst, at0, at, slen, buf, off0, off, rec, base, ls);
        return;
      }
      if off + 1 + len >= |buf| {
        WalkEnds(buf, off0, off, ls, rec);
        return None, at, slen;
      }
      if len == 0 {
        WalkEnds(buf, off0, off, ls, rec);
        return Some(off + 1), at, slen;
      }
      at, slen := PutLabel(dst, at0, at, slen, buf, off0, off, rec, base, ls);
      ls := ls + [LabelOf(buf, off)];
      off := off + 1 + len;
    }
  }

  /** Read a name in two passes, one for its length and one for its text: the second puts out just what the first
      counted. The last dot is overwritten by the end of the string. */
  method ReadString(buf: seq<Byte>, off: nat) returns (rv: array?<Byte>, next: Option<nat>)
    ensures next == Scan(buf, off, 0).next && (rv == null <==> next == None)
    ensures rv != null ==> fresh(rv) && rv.Length >= 1 && rv[rv.Length - 1] == 0
    ensures rv != null ==>
      var text := Scan(buf, off, 0).text; rv[..rv.Length - 1] == if text == [] then [] else text[..|text| - 1]
  {
    var toff, at, len := ReadStringImp(null, 0, 0, buf, off, 0);
    if toff == None {
      return null, None;
    }
    if len == 0 {
      len := len + 1;
    }
    rv := new Byte[len](_ => 0);
    var slen;
    next, at, slen := ReadStringImp(rv, 0, 0, buf, off, 0);
    ghost var text := Scan(buf, off, 0).text;
    assert rv[..at] == text;
    rv[len - 1] := 0;
  }

  // ---- what is read

  /** A name that is sound all the way is read in full, and its text is its labels with dots. */
  lemma {:induction false} LabelsRead(buf: seq<Byte>, off: nat, rec: nat)
    requires Labels(buf, off, rec).Some?
    ensures Scan(buf, off, rec).next.Some? && Scan(buf, off, rec).text == Text(Labels(buf, off, rec).value)
    decreases MAX_NESTING + 1 - rec, |buf| - off
  {
    if At(buf, off) >= MARKER {
      LabelsRead(buf, Target(buf, off), rec + 1);
    } else if At(buf, off) > 0 {
      LabelsRead(buf, off + 1 + At(buf, off), rec);
      var ls := Labels(buf, off, rec).value;
      assert ls[1..] == Labels(buf, off + 1 + At(buf, off), rec).value;
    }
  }

  /** The labels at off itself reach a terminator, or a pointer to somewhere in the buffer. */
  predicate Grounded(buf: seq<Byte>, off: nat)
    decreases if off >= |buf| then 0 else |buf| - off
  {
    off < |buf| &&
    if At(buf, off) >= MARKER then |buf| - off >= 2 && Target(buf, off) < |buf|
    else off + 1 + At(buf, off) < |buf| && (At(buf, off) == 0 || Grounded(buf, off + 1 + At(buf, off)))
  }

  /** Reading succeeds exactly when the labels before the first pointer are sound, whatever that pointer leads to. */
  lemma {:induction false} SuccessExactly(buf: seq<Byte>, off: nat, rec: nat)
    requires rec <= MAX_NESTING
    ensures Scan(buf, off, rec).next.Some? <==> Grounded(buf, off)
    decreases if off >= |buf| then 0 else |buf| - off
  {
    if off < |buf| && 0 < At(buf, off) < MARKER && off + 1 + At(buf, off) < |buf| {
      SuccessExactly(buf, off + 1 + At(buf, off), rec);
    }
  }

  /** A pointer to itself spells no name, yet reading it succeeds with the empty string. */
  lemma {:induction false} SelfPointer(buf: seq<Byte>, off: nat, rec: nat)
    requires off + 2 <= |buf| && At(buf, off) >= MARKER && Target(buf, off) == off
    ensures Labels(buf, off, rec).None?
    ensures Scan(buf, off, rec) == if rec > MAX_NESTING then Read(None, []) else Read(Some(off + 2), [])
    decreases if rec > MAX_NESTING then 0 else MAX_NESTING + 1 - rec
  {
    if rec > MAX_NESTING {
    } else {
      SelfPointer(buf, off, rec + 1);
    }
  }

  /** Such as the first name of a message, behind the header of twelve bytes. */
  lemma FirstName(header: seq<Byte>)
    requires |header| == 12
    ensures var buf := header + [192, 12]; Labels(buf, 12, 0).None? && Scan(buf, 12, 0) == Read(Some(14), [])
  {
    SelfPointer(header + [192, 12], 12, 0);
  }

  // ---- what is written

  /** Write a label, cut to 63 bytes, and return the offset after it. */
  method WriteString(buf: array<Byte>, off: nat, s: seq<Byte>) returns (next: nat)
    requires off + 1 + |Cut(s)| <= buf.Length
    modifies buf
    ensures next == off + 1 + |Cut(s)|
    ensures buf[..next] == old(buf[..off]) + Chunk(s) && buf[next..] == old(buf[next..])
  {
    var len := |s|;
    if len > 63 {
      len := 63;
    }
    ghost var before := buf[..off];
    buf[off] := len as Byte;
    assert buf[..off + 1] == before + [len as Byte];
    for i := 0 to len
      invariant buf[..off + 1 + i] == before + ([len as Byte] + s[..i])
        && buf[off + 1 + len..] == old(buf[off + 1 + len..])
    {
      buf[off + 1 + i] := s[i];
      assert buf[..off + 1 + i + 1] == buf[..off + 1 + i] + [s[i]];
      assert s[..i + 1] == s[..i] + [s[i]];
    }
    next := off + 1 + len;
  }

  function Cut(s: seq<Byte>): (r: seq<Byte>)
    ensures |r| <= 63
  {
    if |s| > 63 then s[..63] else s
  }

  function Chunk(s: seq<Byte>): seq<Byte> {
    [|Cut(s)| as Byte] + Cut(s)
  }

  /** The labels of a name one after the other, and the terminator. */
  function Wire(ls: seq<seq<Byte>>): (w: seq<Byte>)
    ensures |w| >= 1
  {
    if ls == [] then [0] else Chunk(ls[0]) + Wire(ls[1..])
  }

  ghost predicate Writable(ls: seq<seq<Byte>>) {
    forall l | l in ls :: 1 <= |l| <= 63
  }

  /** The bytes at off are the labels of a name and the terminator. */
  ghost predicate Spelled(buf: seq<Byte>, off: nat, ls: seq<seq<Byte>>)
    decreases ls
  {
    off < |buf| &&
    if ls == [] then At(buf, off) == 0
    else
      && 1 <= |ls[0]| <= 63 && At(buf, off) == |ls[0]| && off + 1 + |ls[0]| <= |buf|
      && buf[off + 1..off + 1 + |ls[0]|] == ls[0]
      && Spelled(buf, off + 1 + |ls[0]|, ls[1..])
  }

  lemma {:induction false} SpelledReads(buf: seq<Byte>, off: nat, ls: seq<seq<Byte>>, rec: nat)
    requires Spelled(buf, off, ls) && rec <= MAX_NESTING
    ensures off + |Wire(ls)| <= |buf|
    ensures Labels(buf, off, rec) == if off + |Wire(ls)| == |buf| then None else Some(ls)
    decreases ls
  {
    if ls == [] {
    } else {
      assert Cut(ls[0]) == ls[0] && ls == [ls[0]] + ls[1..];
      SpelledReads(buf, off + 1 + |ls[0]|, ls[1..], rec);
    }
  }

  lemma SpelledMore(buf: seq<Byte>, off: nat, ls: seq<seq<Byte>>)
    requires ls != [] && 1 <= |ls[0]| <= 63 && off + 1 + |ls[0]| <= |buf|
    requires At(buf, off) == |ls[0]| && buf[off + 1..off + 1 + |ls[0]|] == ls[0]
      && Spelled(buf, off + 1 + |ls[0]|, ls[1..])
    ensures Spelled(buf, off, ls)
  {
  }

  lemma SliceParts<A>(buf: seq<A>, off: nat, a: seq<A>, b: seq<A>)
    requires off + |a| + |b| <= |buf| && buf[off..off + |a| + |b|] == a + b
    ensures buf[off..off + |a|] == a && buf[off + |a|..off + |a| + |b|] == b
  {
    var s := buf[off..off + |a| + |b|];
    assert s[..|a|] == a && s[|a|..] == b;
  }

  lemma ChunkAt(buf: seq<Byte>, off: nat, l: seq<Byte>)
    requires |l| <= 63 && off + |Chunk(l)| <= |buf| && buf[off..off + |Chunk(l)|] == Chunk(l)
    ensures |Chunk(l)| == 1 + |l| && At(buf, off) == |l| && buf[off + 1..off + 1 + |l|] == l
  {
    SliceParts(buf, off, [|l| as Byte], l);
    assert buf[off..off + 1][0] == buf[off];
  }

  lemma ZeroAt(buf: seq<Byte>, off: nat)
    requires off < |buf| && buf[off..off + 1] == [0]
    ensures At(buf, off) == 0
  {
    assert buf[off..off + 1][0] == buf[off];
  }

  lemma WireParts(buf: seq<Byte>, off: nat, ls: seq<seq<Byte>>)
    requires ls != [] && |ls[0]| <= 63 && off + |Wire(ls)| <= |buf| && buf[off..off + |Wire(ls)|] == Wire(ls)
    ensures At(buf, off) == |ls[0]| && off + 1 + |ls[0]| + |Wire(ls[1..])| <= |buf|
    ensures buf[off + 1..off + 1 + |ls[0]|] == ls[0]
      && buf[off + 1 + |ls[0]|..off + 1 + |ls[0]| + |Wire(ls[1..])|] == Wire(ls[1..])
  {
    SliceParts(buf, off, Chunk(ls[0]), Wire(ls[1..]));
    ChunkAt(buf, off, ls[0]);
  }

  /** Where the bytes are those of a written name, the name is spelled. */
  lemma {:induction false} WireSpells(buf: seq<Byte>, off: nat, ls: seq<seq<Byte>>)
    requires Writable(ls) && off + |Wire(ls)| <= |buf| && buf[off..off + |Wire(ls)|] == Wire(ls)
    ensures Spelled(buf, off, ls)
    decreases ls
  {
    if ls == [] {
      ZeroAt(buf, off);
    } else {
      WireParts(buf, off, ls);
      WireSpells(buf, off + 1 + |ls[0]|, ls[1..]);
      SpelledMore(buf, off, ls);
    }
  }

  /** A written name reads back label by label, exactly when something follows it in the buffer. */
  lemma WireReads(pre: seq<Byte>, ls: seq<seq<Byte>>, post: seq<Byte>, rec: nat)
    requires Writable(ls) && rec <= MAX_NESTING
    ensures Labels(pre + Wire(ls) + post, |pre|, rec) == if post == [] then None else Some(ls)
  {
    var buf := pre + Wire(ls) + post;
    assert buf[|pre|..|pre| + |Wire(ls)|] == Wire(ls);
    WireSpells(buf, |pre|, ls);
    SpelledReads(pre + Wire(ls) + post, |pre|, ls, rec);
  }

  /** The name that a compressed name stands for reads the same when it is written out without pointers. */
  lemma Expanded(buf: seq<Byte>, off: nat, pre: seq<Byte>, post: seq<Byte>)
    requires Labels(buf, off, 0).Some? && Writable(Labels(buf, off, 0).value) && post != []
    ensures Scan(pre + Wire(Labels(buf, off, 0).value) + post, |pre|, 0).text == Scan(buf, off, 0).text
  {
    LabelsRead(buf, off, 0);
    WireReads(pre, Labels(buf, off, 0).value, post, 0);
    LabelsRead(pre + Wire(Labels(buf, off, 0).value) + post, |pre|, 0);
  }
}
