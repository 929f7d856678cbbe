/** What the invariant says about whole segments: they are tiled without gaps, payloads keep apart, and what the
    program holds determines where all chunks lie. */
module Canon {
  import opened Sizes
  import opened Rings
  import opened Heads
  import opened Tries
  import opened Stores
  import opened Tags
  import opened Heaps
  import opened Retags
  import opened HeapOps
  import opened Coalescing
  import opened Regions
  import opened Growth
  import opened Releases
  import opened SystemSteps
  import opened Bulk
  import opened Outcomes

  /** The chunk at `p` lies in segment `i`. */
  ghost predicate In(v: View, i: int, p: int)
  {
    0 <= i < |v.segs| && p in v.ch && v.segs[i].base <= p < End(v.segs[i])
  }

  lemma InHolds(mem: Mem, v: View, i: int, p: int)
    requires FramedView(mem, v) && In(v, i, p)
    ensures Holds(v.segs[i], p, v.ch[p]) && v.ch[p].size > 0 && p > 0
  {
    hide Backed, VictimOk, SizeOf, Cinuse, Pinuse, SegOk;
    assert Tagged(mem, v.ch, p);
    assert Held(v.segs, p, v.ch[p]);
    var k :| 0 <= k < |v.segs| && Holds(v.segs[k], p, v.ch[p]);
    SegPair(v.segs, i, k);
  }

  /** From a chunk onward, walking reaches every address of the segment. */
  lemma {:induction false} Walk(mem: Mem, v: View, i: int, p: int, a: int) returns (q: int)
    requires FramedView(mem, v) && In(v, i, p) && p <= a < End(v.segs[i])
    ensures In(v, i, q) && p <= q <= a < q + v.ch[q].size
    decreases a - p
  {
    hide FramedView;
    InHolds(mem, v, i, p);
    var n := p + v.ch[p].size;
    if a < n {
      q := p;
    } else {
      Successor(mem, v, p);
      q := Walk(mem, v, i, n, a);
    }
  }

  lemma Successor(mem: Mem, v: View, p: int)
    requires FramedView(mem, v) && p in v.ch && !Tail(v.ch[p].kind)
    ensures var n := p + v.ch[p].size; n in v.ch && Follows(v.ch[p].kind, v.ch[n].kind)
  {
    hide SegsOk, Backed, VictimOk;
    assert Tagged(mem, v.ch, p);
  }

  /** Every segment is tiled exactly: each of its addresses lies in one chunk and no other. */
  lemma ExactTiling(mem: Mem, bins: map<int, int>, v: View, i: int, a: int)
    requires Sound(mem, bins, v) && 0 <= i < |v.segs| && v.segs[i].base <= a < End(v.segs[i])
    ensures exists q ::
      && In(v, i, q) && q <= a < q + v.ch[q].size
      && forall p :: p in v.ch && p <= a < p + v.ch[p].size ==> p == q
  {
    hide Tiled, SegsOk, Binned, VictimOk, Backed;
    SegOfView(mem, v, i);
    BaseKind(mem, v, i);
    var q := Walk(mem, v, i, v.segs[i].base, a);
    forall p | p in v.ch && p <= a < p + v.ch[p].size
      ensures p == q
    {
      Overlap(mem, v, p, q, a);
    }
  }

  lemma Overlap(mem: Mem, v: View, p: int, q: int, a: int)
    requires FramedView(mem, v) && p in v.ch && q in v.ch && p <= a < p + v.ch[p].size && q <= a < q + v.ch[q].size
    ensures p == q
  {
    if p != q { Apart(v.ch, p, q); }
  }

  /** Tags as the debug checks of the source demand them. */
  lemma BoundaryTags(mem: Mem, bins: map<int, int>, v: View, p: int)
    requires Sound(mem, bins, v) && p in v.ch && !Tail(v.ch[p].kind)
    ensures var c, n := v.ch[p], p + v.ch[p].size;
            && SizeOf(HeadOf(mem, p)) == c.size && Cinuse(HeadOf(mem, p)) == Used(c.kind) && n in v.ch
            && Pinuse(HeadOf(mem, n)) == Used(c.kind)
            && (Coalesced(c.kind) ==> Get(mem, n) == c.size && Cinuse(HeadOf(mem, n)))
            && (c.kind.Live? ==> !Mmapped(HeadOf(mem, p)))
  {
    hide SegsOk, Binned, VictimOk, Backed;
    assert Tagged(mem, v.ch, p);
    assert Tagged(mem, v.ch, p + v.ch[p].size);
  }

  /** Payloads are aligned, lie inside one segment, and keep apart. */
  lemma LivePayloads(mem: Mem, bins: map<int, int>, v: View, p: int, q: int)
    requires Sound(mem, bins, v) && p in Holdings(v.ch) && q in Holdings(v.ch) && p != q
    ensures (p + MEM_OFFSET) % 16 == 0
    ensures exists i :: 0 <= i < |v.segs| && v.segs[i].base <= p + MEM_OFFSET && p + v.ch[p].size + 8 <= End(v.segs[i])
    ensures p + v.ch[p].size + 8 <= q + MEM_OFFSET || q + v.ch[q].size + 8 <= p + MEM_OFFSET
  {
    hide FramedView, Binned;
    assert p in v.ch && q in v.ch;
    LiveSize(mem, v, p);
    LiveSize(mem, v, q);
    Mod16(p, MEM_OFFSET);
    if p < q { NoOverlap(mem, v, p, q); } else { NoOverlap(mem, v, q, p); }
    PayloadInside(mem, v, p);
  }

  lemma PayloadInside(mem: Mem, v: View, p: int)
    requires FramedView(mem, v) && p in v.ch && v.ch[p].kind.Live?
    ensures exists i :: 0 <= i < |v.segs| && v.segs[i].base <= p + MEM_OFFSET && p + v.ch[p].size + 8 <= End(v.segs[i])
  {
    hide Backed, VictimOk, SegOk, SizeOf, Cinuse, Pinuse;
    assert Tagged(mem, v.ch, p);
    var n := p + v.ch[p].size;
    assert Tagged(mem, v.ch, n);
    assert Held(v.segs, p, v.ch[p]);
    var i :| 0 <= i < |v.segs| && Holds(v.segs[i], p, v.ch[p]);
    InHolds(mem, v, i, n);
  }

  // ---------------------------------------------------------------- the shape is determined

  /** Chunks that differ at most in which free chunk is the victim. */
  ghost predicate SameShape(c: Ck, d: Ck)
  {
    c.size == d.size && (c.kind == d.kind || (Coalesced(c.kind) && Coalesced(d.kind)))
  }

  /** The chunk before `p` in its segment. */
  lemma Before(mem: Mem, v: View, i: int, p: int) returns (q: int)
    requires FramedView(mem, v) && In(v, i, p) && p > v.segs[i].base
    ensures In(v, i, q) && q < p && q + v.ch[q].size == p && !Tail(v.ch[q].kind)
  {
    hide FramedView;
    SegOfView(mem, v, i);
    BaseKind(mem, v, i);
    q := Walk(mem, v, i, v.segs[i].base, p - 1);
    InHolds(mem, v, i, q);
    InHolds(mem, v, i, p);
    NoOverlap(mem, v, q, p);
  }

  lemma NoOverlap(mem: Mem, v: View, p: int, q: int)
    requires FramedView(mem, v) && p in v.ch && q in v.ch && p < q
    ensures p + v.ch[p].size <= q
  {
  }

  /** Records and fences stand only at the end of older segments, the foot only at the end of the newest. */
  lemma FixedKinds(mem: Mem, v: View, i: int, p: int)
    requires FramedView(mem, v) && In(v, i, p)
    ensures v.ch[p].kind.Record? <==> i > 0 && p == v.segs[i].at - MEM_OFFSET
    ensures v.ch[p].kind.Fence? <==> i > 0 && p == v.segs[i].at + 32
    ensures v.ch[p].kind.Foot? <==> i == 0 && p == End(v.segs[0]) - TOP_FOOT
  {
    hide FramedView, SegOk;
    SegOfView(mem, v, i);
    InHolds(mem, v, i, p);
    LastChunk(mem, v, i);
    var last := if i == 0 then End(v.segs[0]) - TOP_FOOT else v.segs[i].at + 32;
    if Tail(v.ch[p].kind) { OneLast(mem, v, i, p, last); }
    if v.ch[p].kind.Record? {
      Successor(mem, v, p);
      var n := p + v.ch[p].size;
      InHolds(mem, v, i, n);
      OneLast(mem, v, i, n, last);
      RecordSize(mem, v, i, p, n);
    }
  }

  lemma LastChunk(mem: Mem, v: View, i: int)
    requires FramedView(mem, v) && 0 <= i < |v.segs|
    ensures var last := if i == 0 then End(v.segs[0]) - TOP_FOOT else v.segs[i].at + 32;
            && In(v, i, last) && last + v.ch[last].size == End(v.segs[i])
            && v.ch[last].kind == (if i == 0 then Foot else Fence)
    ensures i > 0 ==>
      && In(v, i, v.segs[i].at - MEM_OFFSET) && v.ch[v.segs[i].at - MEM_OFFSET] == Ck(SEGMENT_CHUNK, Record)
  {
    hide Backed, VictimOk, SizeOf, Cinuse, Pinuse, Held;
    SegOfView(mem, v, i);
    assert i == 0 ==> Tagged(mem, v.ch, v.top);
    assert i > 0 ==> Tagged(mem, v.ch, v.segs[i].at + 32);
  }

  lemma OneLast(mem: Mem, v: View, i: int, p: int, q: int)
    requires FramedView(mem, v) && In(v, i, p) && In(v, i, q) && p + v.ch[p].size == q + v.ch[q].size
    ensures p == q
  {
    hide SegsOk, Backed, VictimOk, SizeOf, Cinuse, Pinuse;
    assert Tagged(mem, v.ch, p) && Tagged(mem, v.ch, q);
    if p != q { Apart(v.ch, p, q); }
  }

  /** The record chunk ends where the fence starts, so there is one place for it. */
  lemma RecordSize(mem: Mem, v: View, i: int, p: int, n: int)
    requires FramedView(mem, v) && i > 0 && In(v, i, p) && n == p + v.ch[p].size && n == v.segs[i].at + 32
    ensures p == v.segs[i].at - MEM_OFFSET
  {
    hide FramedView;
    LastChunk(mem, v, i);
    OneLast(mem, v, i, p, v.segs[i].at - MEM_OFFSET);
  }

  /** Two sound heaps over the same segments in which the program holds the same chunks. */
  ghost predicate Alike(m1: Mem, v1: View, m2: Mem, v2: View)
  {
    FramedView(m1, v1) && FramedView(m2, v2) && v1.segs == v2.segs && Holdings(v1.ch) == Holdings(v2.ch)
  }

  lemma AlikeSwap(m1: Mem, v1: View, m2: Mem, v2: View)
    requires Alike(m1, v1, m2, v2)
    ensures Alike(m2, v2, m1, v1)
  {
  }

  /** Chunks in use, records, fences and the foot are where they are in the other heap. */
  lemma AlikeFixed(m1: Mem, v1: View, m2: Mem, v2: View, i: int, p: int)
    requires Alike(m1, v1, m2, v2) && In(v1, i, p) && (Used(v1.ch[p].kind) || v1.ch[p].kind.Foot?)
    ensures p in v2.ch && v2.ch[p] == v1.ch[p]
  {
    hide FramedView;
    if v1.ch[p].kind.Live? {
      assert p in Holdings(v1.ch) && p in Holdings(v2.ch);
    } else {
      FixedKinds(m1, v1, i, p);
      LastChunk(m1, v1, i);
      LastChunk(m2, v2, i);
      InHolds(m1, v1, i, p);
    }
  }

  /** What a free or top chunk runs up to: the next chunk in use, record or foot. */
  lemma Boundary(mem: Mem, v: View, i: int, p: int)
    requires FramedView(mem, v) && In(v, i, p) && (Coalesced(v.ch[p].kind) || v.ch[p].kind.Top?)
    ensures var n := p + v.ch[p].size; In(v, i, n) && (Used(v.ch[n].kind) || v.ch[n].kind.Foot?)
  {
    hide FramedView;
    InHolds(mem, v, i, p);
    Successor(mem, v, p);
  }

  /** A chunk that is free or top in one heap is free or top in the other, of the same size. */
  lemma AlikeIdle(m1: Mem, v1: View, m2: Mem, v2: View, i: int, p: int)
    requires Alike(m1, v1, m2, v2) && In(v1, i, p) && In(v2, i, p) && (Coalesced(v1.ch[p].kind) || v1.ch[p].kind.Top?)
    ensures SameShape(v1.ch[p], v2.ch[p])
  {
    hide FramedView;
    AlikeSwap(m1, v1, m2, v2);
    if Used(v2.ch[p].kind) || v2.ch[p].kind.Foot? { AlikeFixed(m2, v2, m1, v1, i, p); }
    Boundary(m1, v1, i, p);
    Boundary(m2, v2, i, p);
    var n1, n2 := p + v1.ch[p].size, p + v2.ch[p].size;
    AlikeFixed(m1, v1, m2, v2, i, n1);
    AlikeFixed(m2, v2, m1, v1, i, n2);
    InHolds(m1, v1, i, p);
    InHolds(m2, v2, i, p);
    NoOverlap(m1, v1, p, n2);
    NoOverlap(m2, v2, p, n1);
    Successor(m1, v1, p);
    Successor(m2, v2, p);
  }

  lemma {:induction false} AlikeAt(m1: Mem, v1: View, m2: Mem, v2: View, i: int, p: int)
    requires Alike(m1, v1, m2, v2) && In(v1, i, p)
    ensures In(v2, i, p) && SameShape(v1.ch[p], v2.ch[p])
    decreases p
  {
    hide FramedView;
    SegOfView(m1, v1, i);
    InHolds(m1, v1, i, p);
    if p == v1.segs[i].base {
      BaseKind(m2, v2, i);
    } else {
      var q := Before(m1, v1, i, p);
      InHolds(m1, v1, i, q);
      AlikeAt(m1, v1, m2, v2, i, q);
      Successor(m2, v2, q);
    }
    if Used(v1.ch[p].kind) || v1.ch[p].kind.Foot? {
      AlikeFixed(m1, v1, m2, v2, i, p);
    } else {
      AlikeIdle(m1, v1, m2, v2, i, p);
    }
  }

  /** What the program holds determines the whole tiling: between the same segments and holdings all chunks lie
      alike, up to which free chunk is the victim. In particular the order of releases leaves no trace. */
  lemma CanonicalShape(m1: Mem, b1: map<int, int>, v1: View, m2: Mem, b2: map<int, int>, v2: View)
    requires Sound(m1, b1, v1) && Sound(m2, b2, v2) && v1.segs == v2.segs && Holdings(v1.ch) == Holdings(v2.ch)
    ensures v1.ch.Keys == v2.ch.Keys && forall p :: p in v1.ch ==> SameShape(v1.ch[p], v2.ch[p])
    ensures v1.top == v2.top && v1.topsize == v2.topsize
  {
    hide FramedView, Binned;
    AlikeSwap(m1, v1, m2, v2);
    forall p | p in v1.ch
      ensures p in v2.ch && SameShape(v1.ch[p], v2.ch[p])
    {
      var i := HomeOf(m1, v1, p);
      AlikeAt(m1, v1, m2, v2, i, p);
    }
    forall p | p in v2.ch
      ensures p in v1.ch
    {
      var i := HomeOf(m2, v2, p);
      AlikeAt(m2, v2, m1, v1, i, p);
    }
    TopThere(m1, v1);
    Roles(m2, v2, v1.top);
  }

  lemma HomeOf(mem: Mem, v: View, p: int) returns (i: int)
    requires FramedView(mem, v) && p in v.ch
    ensures In(v, i, p)
  {
    hide Backed, VictimOk, SizeOf, Cinuse, Pinuse, SegOk;
    assert Tagged(mem, v.ch, p);
    assert Held(v.segs, p, v.ch[p]);
    i :| 0 <= i < |v.segs| && Holds(v.segs[i], p, v.ch[p]);
  }

  /** With the victim at the same place, the heaps are the same, bins and all. */
  lemma CanonicalHeap(m1: Mem, b1: map<int, int>, v1: View, m2: Mem, b2: map<int, int>, v2: View)
    requires Sound(m1, b1, v1) && Sound(m2, b2, v2) && v1.segs == v2.segs && Holdings(v1.ch) == Holdings(v2.ch)
    requires v1.dv == v2.dv
    ensures v1 == v2 && b1 == b2
  {
    CanonicalShape(m1, b1, v1, m2, b2, v2);
    hide FramedView, Binned, Holdings;
    forall p | p in v1.ch
      ensures v1.ch[p] == v2.ch[p]
    {
      Roles(m1, v1, p);
      Roles(m2, v2, p);
    }
    assert v1.ch == v2.ch;
    SameVictimSize(m1, v1, m2, v2);
    SameBins(v1.ch, b1, b2);
  }

  lemma SameVictimSize(m1: Mem, v1: View, m2: Mem, v2: View)
    requires FramedView(m1, v1) && FramedView(m2, v2) && v1.ch == v2.ch && v1.dv == v2.dv
    ensures v1.dvsize == v2.dvsize
  {
  }

  lemma SameBins(ch: Tiling, b1: map<int, int>, b2: map<int, int>)
    requires Binned(ch, b1) && Binned(ch, b2)
    ensures b1 == b2
  {
    assert forall p :: p in b1 ==> p in b2 && b2[p] == b1[p];
    assert forall p :: p in b2 ==> p in b1;
  }

  /** Nothing is left open by the victim's fate: two heaps that come from `v` by releases, over the same segments and
      holdings, are the same. */
  lemma OneOutcome(mem: Mem, v: View, m1: Mem, b1: map<int, int>, v1: View, m2: Mem, b2: map<int, int>, v2: View)
    requires FramedView(mem, v) && Sound(m1, b1, v1) && Sound(m2, b2, v2) && Holdings(v1.ch) == Holdings(v2.ch)
    requires SameVictim(v, v1) && SameVictim(v, v2)
    ensures v1 == v2 && b1 == b2
  {
    hide FramedView, Binned, Holdings;
    CanonicalShape(m1, b1, v1, m2, b2, v2);
    if v.dv != NULL {
      VictimSized(mem, v);
      GoneInto(mem, v, m1, v1);
      GoneInto(mem, v, m2, v2);
      var q1 := if v1.dv == NULL then v1.top else v1.dv;
      var q2 := if v2.dv == NULL then v2.top else v2.dv;
      Overlap(m2, v2, q1, q2, v.dv);
      Roles(m1, v1, q1);
      Roles(m2, v2, q1);
    }
    CanonicalHeap(m1, b1, v1, m2, b2, v2);
  }

  lemma VictimSized(mem: Mem, v: View)
    requires FramedView(mem, v) && v.dv != NULL
    ensures v.dvsize > 0
  {
    assert Tagged(mem, v.ch, v.dv);
  }

  /** The chunk that the victim has become or become part of. */
  lemma GoneInto(mem: Mem, v: View, mem': Mem, v': View)
    requires FramedView(mem', v') && SameVictim(v, v') && v.dv != NULL && v.dvsize > 0
    ensures var q := if v'.dv == NULL then v'.top else v'.dv; q in v'.ch && q <= v.dv < q + v'.ch[q].size
  {
    hide Tiled, SegsOk, Backed;
  }

  /** However the same chunks are released, merged first or one by one in any order, the tiling is the same. */
  lemma OrderLeavesNoTrace(m1: Mem, b1: map<int, int>, v1: View, m2: Mem, b2: map<int, int>, v2: View, held: Tiling,
      s1: seq<int>, s2: seq<int>)
    requires Sound(m1, b1, v1) && Sound(m2, b2, v2) && v1.segs == v2.segs && multiset(s1) == multiset(s2)
    requires Holdings(v1.ch) == held - Targets(s1) && Holdings(v2.ch) == held - Targets(s2)
    ensures v1.ch.Keys == v2.ch.Keys && forall p :: p in v1.ch ==> SameShape(v1.ch[p], v2.ch[p])
    ensures v1.dv == v2.dv ==> v1 == v2 && b1 == b2
  {
    hide Sound;
    SameTargets(s1, s2);
    CanonicalShape(m1, b1, v1, m2, b2, v2);
    if v1.dv == v2.dv { CanonicalHeap(m1, b1, v1, m2, b2, v2); }
  }

  lemma SameTargets(s1: seq<int>, s2: seq<int>)
    requires multiset(s1) == multiset(s2)
    ensures Targets(s1) == Targets(s2)
  {
    forall q
      ensures q in Targets(s1) <==> q in Targets(s2)
    {
      if q in Targets(s1) { SameTarget(s1, s2, q); }
      if q in Targets(s2) { SameTarget(s2, s1, q); }
    }
  }

  lemma SameTarget(s1: seq<int>, s2: seq<int>, q: int)
    requires multiset(s1) == multiset(s2) && q in Targets(s1)
    ensures q in Targets(s2)
  {
    var k :| 0 <= k < |s1| && s1[k] != NULL && s1[k] - MEM_OFFSET == q;
    assert s1[k] in multiset(s1);
    assert s1[k] in s2;
  }
}
