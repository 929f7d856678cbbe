/** A new segment away from all others: the old top chunk becomes a record with fenceposts behind it. */
module NewSegments {
  import opened Sizes
  import opened Rings
  import opened Heads
  import opened Tries
  import opened Stores
  import opened Tags
  import opened Heaps
  import opened Retags
  import opened HeapOps
  import opened Coalescing
  import opened Regions
  import opened Growth

  /** No segment touches `[lo, hi)`. */
  ghost predicate Fresh(segs: seq<Seg>, lo: int, hi: int)
  {
    forall i :: 0 <= i < |segs| ==> End(segs[i]) <= lo || hi <= segs[i].base
  }

  /** Memory after `init_top` on the new region. */
  ghost predicate Opened(mem: Mem, m1: Mem, v: View, lo: int, hi: int)
  {
    && lo > 0 && lo % 16 == 0 && hi % 16 == 0 && hi <= WORD && hi - TOP_FOOT - lo >= 16 && Fresh(v.segs, lo, hi)
    && LocalTo(mem, m1, lo, hi, SEG_HEAD) && TopHeads(m1, lo, hi)
    && (forall a :: lo <= a < hi && a % 8 == 0 ==> a in m1)
  }

  function OpenedChunks(ch: Tiling, lo: int, hi: int): Tiling
  {
    ch[lo := Ck(hi - TOP_FOOT - lo, Top)][hi - TOP_FOOT := Ck(TOP_FOOT, Foot)]
  }

  /** No chunk lies in a fresh region, and none reaches into it. */
  lemma FreshChunks(mem: Mem, v: View, lo: int, hi: int)
    requires FramedView(mem, v) && Fresh(v.segs, lo, hi) && lo < hi
    ensures forall p :: p in v.ch ==> p + v.ch[p].size <= lo || hi <= p
    ensures forall p :: p in v.ch ==> p > 0 && v.ch[p].size > 0
  {
    hide SegOk, Backed, VictimOk, Tiled;
    NextThere(mem, v.ch);
    forall p | p in v.ch
      ensures p + v.ch[p].size <= lo || hi <= p
    {
      assert Held(v.segs, p, v.ch[p]);
    }
  }

  lemma OpenedPair(ch: Tiling, lo: int, hi: int)
    requires hi - TOP_FOOT - lo >= 16
    requires forall p :: p in ch ==> p + ch[p].size <= lo || hi <= p
    requires forall p :: p in ch ==> p > 0 && ch[p].size > 0
    ensures TopPair(OpenedChunks(ch, lo, hi), lo, hi) && SameOutside(ch, OpenedChunks(ch, lo, hi), lo, hi)
  {
  }

  lemma OpenedTiled(mem: Mem, m1: Mem, v: View, lo: int, hi: int)
    requires FramedView(mem, v) && Opened(mem, m1, v, lo, hi)
    ensures Tiled(m1, OpenedChunks(v.ch, lo, hi))
  {
    hide SegsOk, Backed, VictimOk, TagsSame, LocalTo, SameOutside, Tagged, OpenedChunks, TopHeads, Inner, Tiled;
    hide TopOk, OneTop, TopPair, Graft;
    FreshChunks(mem, v, lo, hi);
    OpenedPair(v.ch, lo, hi);
    TopInner(m1, OpenedChunks(v.ch, lo, hi), lo, hi);
    LocalTags(mem, m1, v.ch, lo, hi, SEG_HEAD);
    NextThere(mem, v.ch);
    GraftEmpty(mem, m1, v.ch, OpenedChunks(v.ch, lo, hi), lo, hi);
    GraftTiled(mem, m1, v.ch, OpenedChunks(v.ch, lo, hi), lo, hi);
  }

  // ---------------------------------------------------------------- closing the old top

  /** The old top `[p, end)` as a record at `rec`, fenceposts behind it and a free chunk before it if there is room. */
  function ClosedChunks(ch: Tiling, p: int, rec: int, end: int): Tiling
  {
    var c := Outer(ch, p, end);
    (if rec == p then c else c[p := Ck(rec - p, Free)])
      [rec := Ck(SEGMENT_CHUNK, Record)][rec + SEGMENT_CHUNK := Ck(end - rec - SEGMENT_CHUNK, Fence)]
  }

  /** The words of a closed top. */
  ghost predicate ClosedWords(mem: Mem, p: int, rec: int, end: int)
  {
    && HeadOf(mem, rec) == SEGMENT_CHUNK + CINUSE + (if rec == p then PINUSE else 0)
    && HeadOf(mem, rec + SEGMENT_CHUNK) == FENCE
    && (rec != p ==> HeadOf(mem, p) == rec - p + PINUSE && Get(mem, rec) == rec - p)
  }

  ghost predicate ClosedShape(p: int, rec: int, end: int)
  {
    && p > 0 && p % 16 == 0 && rec % 16 == 0 && end % 16 == 0 && end <= WORD
    && (rec == p || rec - p >= MIN_CHUNK) && end - rec - SEGMENT_CHUNK >= MIN_CHUNK
  }

  lemma ClosedHeads(mem: Mem, p: int, rec: int, end: int)
    requires ClosedWords(mem, p, rec, end) && p % 16 == 0 && rec % 16 == 0
    ensures SizeOf(HeadOf(mem, rec)) == SEGMENT_CHUNK && Cinuse(HeadOf(mem, rec))
    ensures Pinuse(HeadOf(mem, rec)) == (rec == p)
    ensures SizeOf(HeadOf(mem, rec + SEGMENT_CHUNK)) == 8 && Cinuse(HeadOf(mem, rec + SEGMENT_CHUNK))
    ensures Pinuse(HeadOf(mem, rec + SEGMENT_CHUNK))
    ensures rec != p ==> SizeOf(HeadOf(mem, p)) == rec - p && !Cinuse(HeadOf(mem, p)) && Pinuse(HeadOf(mem, p))
    ensures Pinuse(HeadOf(mem, p))
  {
    hide SizeOf, Cinuse, Pinuse;
    Parts(SEGMENT_CHUNK, true, rec == p);
    Parts(8, true, true);
    Mod16(rec, p);
    Mod16(rec - p, 0);
    Parts(rec - p, false, true);
  }

  lemma ClosedOnly(ch: Tiling, p: int, rec: int, end: int)
    requires ClosedShape(p, rec, end)
    ensures var ch' := ClosedChunks(ch, p, rec, end);
            && SameOutside(ch, ch', p, end)
            && (forall q :: q in ch' && p <= q < end ==> q == p || q == rec || q == rec + SEGMENT_CHUNK)
            && p in ch' && rec in ch' && ch'[rec] == Ck(SEGMENT_CHUNK, Record)
            && rec + SEGMENT_CHUNK in ch' && ch'[rec + SEGMENT_CHUNK] == Ck(end - rec - SEGMENT_CHUNK, Fence)
            && (rec != p ==> ch'[p] == Ck(rec - p, Free))
  {
  }

  lemma ClosedInner(mem: Mem, ch: Tiling, p: int, rec: int, end: int)
    requires ClosedShape(p, rec, end) && ClosedWords(mem, p, rec, end)
    ensures Inner(mem, ClosedChunks(ch, p, rec, end), p, end)
  {
    hide SizeOf, Cinuse, Pinuse, ClosedChunks, ClosedWords, SameOutside;
    var ch' := ClosedChunks(ch, p, rec, end);
    ClosedOnly(ch, p, rec, end);
    ClosedHeads(mem, p, rec, end);
    ClosedTagged(mem, ch', p, rec, end);
  }

  lemma ClosedTagged(mem: Mem, ch': Tiling, p: int, rec: int, end: int)
    requires ClosedShape(p, rec, end) && ClosedWords(mem, p, rec, end)
    requires p in ch' && rec in ch' && ch'[rec] == Ck(SEGMENT_CHUNK, Record)
    requires rec + SEGMENT_CHUNK in ch' && ch'[rec + SEGMENT_CHUNK] == Ck(end - rec - SEGMENT_CHUNK, Fence)
    requires rec != p ==> ch'[p] == Ck(rec - p, Free)
    ensures Tagged(mem, ch', p) && Tagged(mem, ch', rec) && Tagged(mem, ch', rec + SEGMENT_CHUNK)
  {
    hide SizeOf, Cinuse, Pinuse;
    ClosedHeads(mem, p, rec, end);
    Mod16(rec, p);
    Mod16(end - SEGMENT_CHUNK, rec);
    assert rec - (rec - p) == p;
  }

  // ---------------------------------------------------------------- the two together

  /** The old top is turned into a record chunk, the new region is opened, and the records are pushed. */
  ghost predicate Added(mem: Mem, m1: Mem, m2: Mem, v: View, lo: int, hi: int, rec: int)
    requires |v.segs| > 0
  {
    var s, end := v.segs[0], End(v.segs[0]);
    && Opened(mem, m1, v, lo, hi) && LocalTo(m1, m2, v.top + HEAD, end, SEG_HEAD)
    && (forall a :: v.top <= a < end && a % 8 == 0 ==> a in m2)
    && ClosedShape(v.top, rec, end) && ClosedWords(m2, v.top, rec, end)
    && Get(m2, rec + MEM_OFFSET) == s.base && Get(m2, rec + MEM_OFFSET + SEG_SIZE) == s.size
    && Get(m2, rec + MEM_OFFSET + SEG_NEXT) == Get(mem, SEG_HEAD + SEG_NEXT)
    && Get(m2, rec + MEM_OFFSET + SEG_FLAGS) == 0
    && Get(m2, SEG_HEAD) == lo && Get(m2, SEG_HEAD + SEG_SIZE) == hi - lo
    && Get(m2, SEG_HEAD + SEG_NEXT) == rec + MEM_OFFSET && Get(m2, SEG_HEAD + SEG_FLAGS) == 0
  }

  function AddedView(v: View, lo: int, hi: int, rec: int): View
    requires |v.segs| > 0
  {
    View(ClosedChunks(OpenedChunks(v.ch, lo, hi), v.top, rec, End(v.segs[0])),
         [Seg(SEG_HEAD, lo, hi - lo), Seg(rec + MEM_OFFSET, v.segs[0].base, v.segs[0].size)] + v.segs[1..],
         v.dv, v.dvsize, lo, hi - TOP_FOOT - lo)
  }

  /** Where the chunks of the result come from. */
  ghost predicate AddedFrom(v: View, ch': Tiling, lo: int, hi: int, rec: int)
    requires |v.segs| > 0
  {
    var old', end := v.top, End(v.segs[0]);
    && TopPair(ch', lo, hi)
    && (forall p :: (p < old' || p >= end) && (p < lo || p >= hi) ==> (p in ch' <==> p in v.ch) && (p in v.ch ==>
        ch'[p] == v.ch[p]))
    && (forall q :: q in ch' && old' <= q < end ==> q == old' || q == rec || q == rec + SEGMENT_CHUNK)
    && old' in ch' && rec in ch' && ch'[rec] == Ck(SEGMENT_CHUNK, Record)
    && rec + SEGMENT_CHUNK in ch' && ch'[rec + SEGMENT_CHUNK] == Ck(end - rec - SEGMENT_CHUNK, Fence)
    && (rec != old' ==> ch'[old'] == Ck(rec - old', Free))
  }

  lemma AddedParts(v: View, lo: int, hi: int, rec: int)
    requires |v.segs| > 0 && ClosedShape(v.top, rec, End(v.segs[0])) && hi - TOP_FOOT - lo >= 16
    requires End(v.segs[0]) <= lo || hi <= v.top
    requires forall p :: p in v.ch ==> p + v.ch[p].size <= lo || hi <= p
    requires forall p :: p in v.ch ==> p > 0 && v.ch[p].size > 0
    ensures AddedFrom(v, AddedView(v, lo, hi, rec).ch, lo, hi, rec)
  {
    hide ClosedChunks, OpenedChunks;
    var ch1 := OpenedChunks(v.ch, lo, hi);
    OpenedPair(v.ch, lo, hi);
    ClosedOnly(ch1, v.top, rec, End(v.segs[0]));
  }

  lemma AddedShape(mem: Mem, m1: Mem, m2: Mem, v: View, lo: int, hi: int, rec: int)
    requires FramedView(mem, v) && Added(mem, m1, m2, v, lo, hi, rec)
    ensures AddedFrom(v, AddedView(v, lo, hi, rec).ch, lo, hi, rec)
    ensures End(v.segs[0]) <= lo || hi <= v.segs[0].base
    ensures forall p :: p in v.ch && v.top <= p < End(v.segs[0]) ==> p == v.top || p == v.top + v.topsize
  {
    hide ClosedChunks, OpenedChunks, LocalTo, AddedFrom, SegOk, SizeOf, Pinuse, Cinuse;
    FreshChunks(mem, v, lo, hi);
    AddedParts(v, lo, hi, rec);
    assert Tagged(mem, v.ch, v.top) && Tagged(mem, v.ch, v.top + v.topsize);
    StretchAlone(mem, v.ch, v.top);
    StretchAlone(mem, v.ch, v.top + v.topsize);
  }

  lemma AddedAbuts(mem: Mem, m1: Mem, m2: Mem, v: View, lo: int, hi: int, rec: int, p: int)
    requires FramedView(mem, v) && Added(mem, m1, m2, v, lo, hi, rec)
    requires var ch1 := OpenedChunks(v.ch, lo, hi);
             p in ch1 && (p < v.top || p >= End(v.segs[0])) && !Tail(ch1[p].kind)
                 && v.top <= p + ch1[p].size < End(v.segs[0])
    ensures Abuts(m2, OpenedChunks(v.ch, lo, hi), AddedView(v, lo, hi, rec).ch, p)
  {
    hide LocalTo, SegOk, SizeOf, Pinuse, Cinuse, ClosedWords, Opened, TopHeads, ClosedChunks, AddedFrom;
    AddedShape(mem, m1, m2, v, lo, hi, rec);
    AddedTopKind(v, AddedView(v, lo, hi, rec).ch, lo, hi, rec);
    ClosedHeads(m2, v.top, rec, End(v.segs[0]));
    AddedOldChunk(mem, m1, m2, v, lo, hi, rec, p);
    assert Tagged(mem, v.ch, p) && Tagged(mem, v.ch, v.top);
    if p < v.top { BelowTop(mem, v, p); }
    BeforeTop(mem, v, p);
  }

  lemma AddedTopKind(v: View, ch': Tiling, lo: int, hi: int, rec: int)
    requires |v.segs| > 0 && AddedFrom(v, ch', lo, hi, rec)
    ensures v.top in ch' && !Tail(ch'[v.top].kind)
  {
  }

  /** A chunk beside the old top that reaches it is an old one. */
  lemma AddedOldChunk(mem: Mem, m1: Mem, m2: Mem, v: View, lo: int, hi: int, rec: int, p: int)
    requires FramedView(mem, v) && Added(mem, m1, m2, v, lo, hi, rec) && (End(v.segs[0]) <= lo || hi <= v.segs[0].base)
    requires var ch1 := OpenedChunks(v.ch, lo, hi);
             p in ch1 && (p < v.top || p >= End(v.segs[0])) && !Tail(ch1[p].kind)
                 && v.top <= p + ch1[p].size < End(v.segs[0])
    ensures p in v.ch && OpenedChunks(v.ch, lo, hi)[p] == v.ch[p]
  {
    hide LocalTo, SegOk, Tiled, ClosedWords, TopHeads;
  }

  lemma AddedTiled(mem: Mem, m1: Mem, m2: Mem, v: View, lo: int, hi: int, rec: int)
    requires FramedView(mem, v) && Added(mem, m1, m2, v, lo, hi, rec)
    ensures Tiled(m2, AddedView(v, lo, hi, rec).ch)
  {
    hide LocalTo, SegsOk, Tiled, Backed, ClosedWords, TopHeads, ClosedChunks, AddedFrom, Inner, TagsSame, SameOutside;
    hide Abuts;
    var ch1, ch2, end := OpenedChunks(v.ch, lo, hi), AddedView(v, lo, hi, rec).ch, End(v.segs[0]);
    OpenedTiled(mem, m1, v, lo, hi);
    AddedShape(mem, m1, m2, v, lo, hi, rec);
    ClosedOnly(ch1, v.top, rec, end);
    ClosedInner(m2, ch1, v.top, rec, end);
    AddedBelow(mem, m1, m2, v, lo, hi, rec);
    LocalWider(m1, m2, v.top + HEAD, end, SEG_HEAD, v.top, end);
    LocalTags(m1, m2, ch1, v.top, end, SEG_HEAD);
    forall p | p in ch1 && (p < v.top || p >= end) && !Tail(ch1[p].kind) && v.top <= p + ch1[p].size < end
      ensures Abuts(m2, ch1, ch2, p)
    {
      AddedAbuts(mem, m1, m2, v, lo, hi, rec, p);
    }
    GraftTiled(m1, m2, ch1, ch2, v.top, end);
  }

  lemma AddedBelow(mem: Mem, m1: Mem, m2: Mem, v: View, lo: int, hi: int, rec: int)
    requires FramedView(mem, v) && Added(mem, m1, m2, v, lo, hi, rec) && (End(v.segs[0]) <= lo || hi <= v.segs[0].base)
    requires forall p :: p in v.ch && v.top <= p < End(v.segs[0]) ==> p == v.top || p == v.top + v.topsize
    ensures var ch1 := OpenedChunks(v.ch, lo, hi);
            && (forall p :: p in ch1 && p < v.top ==> p + ch1[p].size <= v.top)
            && (forall q :: q in ch1 && v.top <= q < End(v.segs[0]) && Coalesced(ch1[q].kind) ==>
                q + ch1[q].size < End(v.segs[0]))
  {
    hide LocalTo, SegsOk, Backed, ClosedWords, TopHeads;
    forall p | p in v.ch && p < v.top
      ensures p + v.ch[p].size <= v.top
    {
      BelowTop(mem, v, p);
    }
    assert Tagged(mem, v.ch, v.top);
  }

  lemma AddedBacked(mem: Mem, m1: Mem, m2: Mem, v: View, lo: int, hi: int, rec: int)
    requires FramedView(mem, v) && Added(mem, m1, m2, v, lo, hi, rec)
    ensures Backed(m2, AddedView(v, lo, hi, rec).ch)
  {
    hide SegsOk, Tiled, ClosedWords, TopHeads, AddedView;
    var ch', end := AddedView(v, lo, hi, rec).ch, End(v.segs[0]);
    AddedShape(mem, m1, m2, v, lo, hi, rec);
    forall p, a | p in ch' && p <= a < p + ch'[p].size && a % 8 == 0
      ensures a in m2
    {
      if (p < v.top || p >= end) && (p < lo || p >= hi) {
        assert a in mem;
        AddedAway(mem, m1, m2, v, lo, hi, rec, p);
      }
    }
  }

  lemma AddedAway(mem: Mem, m1: Mem, m2: Mem, v: View, lo: int, hi: int, rec: int, p: int)
    requires FramedView(mem, v) && Added(mem, m1, m2, v, lo, hi, rec) && p in v.ch
    requires (p < v.top || p >= End(v.segs[0])) && (p < lo || p >= hi)
    ensures (p + v.ch[p].size <= v.top || p >= End(v.segs[0])) && (p + v.ch[p].size <= lo || p >= hi)
  {
    hide SegsOk, Backed, ClosedWords, TopHeads, LocalTo;
    FreshChunks(mem, v, lo, hi);
    if p < v.top { BelowTop(mem, v, p); }
  }

  lemma AddedHeld(mem: Mem, m1: Mem, m2: Mem, v: View, lo: int, hi: int, rec: int, p: int)
    requires FramedView(mem, v) && Added(mem, m1, m2, v, lo, hi, rec) && p in AddedView(v, lo, hi, rec).ch
    ensures Held(AddedView(v, lo, hi, rec).segs, p, AddedView(v, lo, hi, rec).ch[p])
  {
    hide SegOk, ClosedWords, TopHeads, LocalTo, ClosedChunks, OpenedChunks, SizeOf, Pinuse, Cinuse, Disjoint, Backed;
    var v', end := AddedView(v, lo, hi, rec), End(v.segs[0]);
    AddedShape(mem, m1, m2, v, lo, hi, rec);
    if lo <= p < hi {
      assert Holds(v'.segs[0], p, v'.ch[p]);
    } else if v.top <= p < end {
      assert Holds(v'.segs[1], p, v'.ch[p]);
    } else {
      AddedAway(mem, m1, m2, v, lo, hi, rec, p);
      assert Tagged(mem, v.ch, p) && Tagged(mem, v.ch, v.top);
      assert Held(v.segs, p, v.ch[p]);
      var i :| 0 <= i < |v.segs| && Holds(v.segs[i], p, v.ch[p]);
      assert Holds(v'.segs[i + 1], p, v'.ch[p]);
    }
  }

  lemma AddedFirst(mem: Mem, m1: Mem, m2: Mem, v: View, lo: int, hi: int, rec: int)
    requires FramedView(mem, v) && Added(mem, m1, m2, v, lo, hi, rec)
    ensures SegOk(m2, AddedView(v, lo, hi, rec).ch, AddedView(v, lo, hi, rec).segs, 0)
  {
    hide SegOk, ClosedWords, TopHeads, ClosedChunks, OpenedChunks, SizeOf, Pinuse, Cinuse, Disjoint, Backed, Tiled;
    hide SegsApart;
    AddedShape(mem, m1, m2, v, lo, hi, rec);
    TopTags(m1, lo, hi);
    Mod16(hi, lo);
    AddedNewWords(mem, m1, m2, v, lo, hi, rec);
    AddedFirstSeg(m2, AddedView(v, lo, hi, rec), lo, hi, rec);
  }

  lemma AddedNewWords(mem: Mem, m1: Mem, m2: Mem, v: View, lo: int, hi: int, rec: int)
    requires |v.segs| > 0 && Added(mem, m1, m2, v, lo, hi, rec) && (End(v.segs[0]) <= lo || hi <= v.top)
    requires v.top < End(v.segs[0])
    ensures HeadOf(m2, lo) == HeadOf(m1, lo) && (forall a :: lo <= a < hi && a % 8 == 0 ==> a in m2)
  {
    hide ClosedWords, TopHeads;
  }

  lemma AddedFirstSeg(m2: Mem, v': View, lo: int, hi: int, rec: int)
    requires |v'.segs| > 1 && v'.segs[0] == Seg(SEG_HEAD, lo, hi - lo) && v'.segs[1].at == rec + MEM_OFFSET
    requires lo > 0 && lo % 16 == 0 && (hi - lo) % 16 == 0 && hi > lo && hi <= WORD && lo in v'.ch
    requires Pinuse(HeadOf(m2, lo))
    requires forall a :: lo <= a < hi && a % 8 == 0 ==> a in m2
    requires Get(m2, SEG_HEAD) == lo && Get(m2, SEG_HEAD + SEG_SIZE) == hi - lo
    requires Get(m2, SEG_HEAD + SEG_NEXT) == rec + MEM_OFFSET && Get(m2, SEG_HEAD + SEG_FLAGS) == 0
    ensures SegOk(m2, v'.ch, v'.segs, 0)
  {
  }

  lemma AddedSecond(mem: Mem, m1: Mem, m2: Mem, v: View, lo: int, hi: int, rec: int)
    requires FramedView(mem, v) && Added(mem, m1, m2, v, lo, hi, rec)
    ensures SegOk(m2, AddedView(v, lo, hi, rec).ch, AddedView(v, lo, hi, rec).segs, 1)
  {
    hide ClosedWords, TopHeads, ClosedChunks, OpenedChunks, SizeOf, Pinuse, Cinuse, Disjoint, Backed, Tiled;
    hide SegsApart, LocalTo;
    AddedShape(mem, m1, m2, v, lo, hi, rec);
    assert SegOk(mem, v.ch, v.segs, 0);
    AddedOldWords(mem, m1, m2, v, lo, hi, rec);
    AddedOldBase(mem, m1, m2, v, lo, hi, rec);
  }

  lemma AddedOldWords(mem: Mem, m1: Mem, m2: Mem, v: View, lo: int, hi: int, rec: int)
    requires FramedView(mem, v) && Added(mem, m1, m2, v, lo, hi, rec)
    ensures forall a :: v.segs[0].base <= a < End(v.segs[0]) && a % 8 == 0 ==> a in m2
  {
    hide ClosedWords, TopHeads, Backed, Tiled, SegsApart;
    assert SegOk(mem, v.ch, v.segs, 0);
    AddedShape(mem, m1, m2, v, lo, hi, rec);
    forall a | v.segs[0].base <= a < End(v.segs[0]) && a % 8 == 0
      ensures a in m2
    {
      assert a in mem;
    }
  }

  lemma AddedOldBase(mem: Mem, m1: Mem, m2: Mem, v: View, lo: int, hi: int, rec: int)
    requires FramedView(mem, v) && Added(mem, m1, m2, v, lo, hi, rec)
    ensures v.segs[0].base in AddedView(v, lo, hi, rec).ch && Pinuse(HeadOf(m2, v.segs[0].base))
    ensures v.segs[0].base <= rec
  {
    hide ClosedWords, TopHeads, Backed, SegsApart, SizeOf, Cinuse, Pinuse, ClosedChunks, OpenedChunks;
    var base := v.segs[0].base;
    assert SegOk(mem, v.ch, v.segs, 0);
    assert Tagged(mem, v.ch, base) && Tagged(mem, v.ch, v.top);
    AddedShape(mem, m1, m2, v, lo, hi, rec);
    ClosedHeads(m2, v.top, rec, End(v.segs[0]));
    if base != v.top { BelowTop(mem, v, base); }
  }

  lemma AddedOther(mem: Mem, m1: Mem, m2: Mem, v: View, lo: int, hi: int, rec: int, i: int)
    requires FramedView(mem, v) && Added(mem, m1, m2, v, lo, hi, rec) && 0 < i < |v.segs|
    ensures SegOk(m2, AddedView(v, lo, hi, rec).ch, AddedView(v, lo, hi, rec).segs, i + 1)
  {
    hide ClosedWords, TopHeads, Backed, SegOk, SizeOf, Cinuse, Pinuse, ClosedChunks, OpenedChunks, LocalTo;
    hide SameOutside, AddedFrom;
    var ch1, v' := OpenedChunks(v.ch, lo, hi), AddedView(v, lo, hi, rec);
    assert SegOk(mem, v.ch, v.segs, i);
    SegSize(mem, v.ch, v.segs, i);
    assert Tagged(mem, v.ch, v.top);
    AddedSeqs(v, lo, hi, rec, i);
    FreshChunks(mem, v, lo, hi);
    OpenedPair(v.ch, lo, hi);
    SegBase(mem, v, i);
    SegFar(mem, m1, v.ch, ch1, v.segs, v.segs, i, i, lo, hi, SEG_HEAD);
    OpenedTiled(mem, m1, v, lo, hi);
    ClosedOnly(ch1, v.top, rec, End(v.segs[0]));
    LocalWider(m1, m2, v.top + HEAD, End(v.segs[0]), SEG_HEAD, v.top, End(v.segs[0]));
    SegPair(v.segs, 0, i);
    SegFar(m1, m2, ch1, v'.ch, v.segs, v'.segs, i, i + 1, v.top, End(v.segs[0]), SEG_HEAD);
  }

  lemma SegBase(mem: Mem, v: View, i: int)
    requires FramedView(mem, v) && 0 <= i < |v.segs|
    ensures v.segs[i].base > 0 && v.segs[i].size > 0 && v.segs[0].base <= v.top
  {
    hide Tiled, Backed, Held;
    assert SegOk(mem, v.ch, v.segs, i);
  }

  lemma AddedSeqs(v: View, lo: int, hi: int, rec: int, i: int)
    requires 0 < i < |v.segs|
    ensures var segs' := AddedView(v, lo, hi, rec).segs;
            |segs'| == |v.segs| + 1 && segs'[i + 1] == v.segs[i] && NextAt(segs', i + 1) == NextAt(v.segs, i)
  {
  }

  lemma AddedSegs(mem: Mem, m1: Mem, m2: Mem, v: View, lo: int, hi: int, rec: int)
    requires FramedView(mem, v) && Added(mem, m1, m2, v, lo, hi, rec)
    ensures SegsOk(m2, AddedView(v, lo, hi, rec).ch, AddedView(v, lo, hi, rec).segs)
  {
    hide ClosedWords, TopHeads, Backed, Tiled, ClosedChunks, OpenedChunks, LocalTo, Held, SegOk, SegsApart, RecordWords;
    var v' := AddedView(v, lo, hi, rec);
    AddedFirst(mem, m1, m2, v, lo, hi, rec);
    AddedSecond(mem, m1, m2, v, lo, hi, rec);
    forall i | 0 <= i < |v'.segs|
      ensures SegOk(m2, v'.ch, v'.segs, i)
    {
      if i > 1 { AddedOther(mem, m1, m2, v, lo, hi, rec, i - 1); }
    }
    forall p | p in v'.ch
      ensures Held(v'.segs, p, v'.ch[p])
    {
      AddedHeld(mem, m1, m2, v, lo, hi, rec, p);
    }
    AddedApart(mem, m1, m2, v, lo, hi, rec);
  }

  lemma AddedApart(mem: Mem, m1: Mem, m2: Mem, v: View, lo: int, hi: int, rec: int)
    requires FramedView(mem, v) && Added(mem, m1, m2, v, lo, hi, rec)
    ensures SegsApart(AddedView(v, lo, hi, rec).segs) && RecordWords(m2)
  {
    hide ClosedWords, TopHeads, Backed, ClosedChunks, OpenedChunks, Held, SegOk, SizeOf, Cinuse, Pinuse;
    assert Tagged(mem, v.ch, v.top);
    var segs' := AddedView(v, lo, hi, rec).segs;
    forall i, j | 0 <= i < j < |segs'|
      ensures End(segs'[i]) <= segs'[j].base || End(segs'[j]) <= segs'[i].base
    {
      if i > 0 { SegPair(v.segs, i - 1, j - 1); }
    }
  }

  lemma AddedRoles(mem: Mem, m1: Mem, m2: Mem, bins: map<int, int>, v: View, lo: int, hi: int, rec: int)
    requires Sound(mem, bins, v) && Added(mem, m1, m2, v, lo, hi, rec)
    ensures var v' := AddedView(v, lo, hi, rec);
            && TopOk(v'.ch, v'.segs, v'.top, v'.topsize) && OneTop(v'.ch, v'.top) && VictimOk(v'.ch, v'.dv, v'.dvsize)
            && BinsIn(bins, v'.ch)
            && v.top !in bins && (forall p :: p in v'.ch && v'.ch[p].kind.Free? ==> p in bins || p == v.top)
            && (rec == v.top ==> !v'.ch[v.top].kind.Free?)
            && (rec != v.top ==> v.top in v'.ch && v'.ch[v.top] == Ck(rec - v.top, Free))
  {
    hide ClosedWords, TopHeads, Backed, ClosedChunks, OpenedChunks, LocalTo, Tiled, SegsOk;
    AddedShape(mem, m1, m2, v, lo, hi, rec);
    FreshChunks(mem, v, lo, hi);
  }

  lemma AddedHoldings(mem: Mem, m1: Mem, m2: Mem, v: View, lo: int, hi: int, rec: int)
    requires FramedView(mem, v) && Added(mem, m1, m2, v, lo, hi, rec)
    ensures Holdings(AddedView(v, lo, hi, rec).ch) == Holdings(v.ch)
  {
    hide ClosedWords, TopHeads, Backed, ClosedChunks, OpenedChunks, LocalTo, Tiled, SegsOk, VictimOk;
    AddedShape(mem, m1, m2, v, lo, hi, rec);
    FreshChunks(mem, v, lo, hi);
    var hs, hs' := Holdings(v.ch), Holdings(AddedView(v, lo, hi, rec).ch);
    forall p
      ensures p in hs <==> p in hs'
      ensures p in hs ==> hs[p] == hs'[p]
    {
    }
  }

  lemma AddedPayloads(mem: Mem, m1: Mem, m2: Mem, v: View, lo: int, hi: int, rec: int)
    requires FramedView(mem, v) && Added(mem, m1, m2, v, lo, hi, rec)
    ensures SamePayloads(mem, m2, Holdings(v.ch))
  {
    hide ClosedWords, TopHeads, Backed, LocalTo, SegsOk, VictimOk, SamePayloads, Holdings, Tiled, AddedView, AddedFrom;
    var end := End(v.segs[0]);
    FreshChunks(mem, v, lo, hi);
    AddedShape(mem, m1, m2, v, lo, hi, rec);
    forall p | p in v.ch && v.ch[p].kind.Live?
      ensures p + v.ch[p].size + 8 <= lo || p >= hi
      ensures p + v.ch[p].size + 8 <= v.top + HEAD || p >= end
    {
      UsedNext(mem, v.ch, p);
      if p < v.top { BelowTop(mem, v, p); }
    }
    LocalPayloads(mem, m1, v.ch, lo, hi, SEG_HEAD);
    LaterPayloads(mem, m1, m2, v.ch, v.top + HEAD, end);
  }

  lemma LaterPayloads(mem: Mem, m1: Mem, m2: Mem, ch: Tiling, lo: int, hi: int)
    requires Tiled(mem, ch) && SamePayloads(mem, m1, Holdings(ch)) && LocalTo(m1, m2, lo, hi, SEG_HEAD)
    requires forall p :: p in ch && ch[p].kind.Live? ==> p + ch[p].size + 8 <= lo || p >= hi
    ensures SamePayloads(mem, m2, Holdings(ch))
  {
    var hs := Holdings(ch);
    forall p, a | p in hs && p + MEM_OFFSET <= a < p + hs[p].size + 8
      ensures Get(m2, a) == Get(mem, a)
    {
      assert p in ch && Tagged(mem, ch, p);
      assert Get(m1, a) == Get(mem, a);
    }
  }

  /** The new segment keeps the heap sound, up to the rest of the old top, which has still to be binned. */
  lemma AddedSound(mem: Mem, m1: Mem, m2: Mem, bins: map<int, int>, v: View, lo: int, hi: int, rec: int)
    requires |v.segs| > 0 && Sound(mem, bins, v) && Added(mem, m1, m2, v, lo, hi, rec)
    ensures rec == v.top ==> Sound(m2, bins, AddedView(v, lo, hi, rec))
    ensures rec != v.top ==> Unsettled(m2, bins, AddedView(v, lo, hi, rec), v.top)
    ensures rec != v.top ==>
      && v.top in AddedView(v, lo, hi, rec).ch && AddedView(v, lo, hi, rec).ch[v.top] == Ck(rec - v.top, Free)
    ensures Holdings(AddedView(v, lo, hi, rec).ch) == Holdings(v.ch) && SamePayloads(mem, m2, Holdings(v.ch))
  {
    hide Tiled, Backed, SegsOk, VictimOk, TopOk, OneTop, BinsIn, Added, SamePayloads, Holdings, ClosedChunks;
    hide OpenedChunks;
    AddedTiled(mem, m1, m2, v, lo, hi, rec);
    AddedBacked(mem, m1, m2, v, lo, hi, rec);
    AddedSegs(mem, m1, m2, v, lo, hi, rec);
    AddedRoles(mem, m1, m2, bins, v, lo, hi, rec);
    AddedHoldings(mem, m1, m2, v, lo, hi, rec);
    AddedPayloads(mem, m1, m2, v, lo, hi, rec);
  }
}
