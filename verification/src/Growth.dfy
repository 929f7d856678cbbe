/** The first segment, and memory put before a segment. */
module Growth {
  import opened Sizes
  import opened Rings
  import opened Heads
  import opened Tries
  import opened Stores
  import opened Tags
  import opened Heaps
  import opened Retags
  import opened HeapOps
  import opened Coalescing
  import opened Regions

  // ---------------------------------------------------------------- the first segment

  function FirstView(lo: int, hi: int): View
  {
    View(map[lo := Ck(hi - TOP_FOOT - lo, Top)][hi - TOP_FOOT := Ck(TOP_FOOT, Foot)], [Seg(SEG_HEAD, lo, hi - lo)],
        NULL, 0, lo, hi - TOP_FOOT - lo)
  }

  /** Memory after `init_top` on the first region. */
  ghost predicate Begun(mem: Mem, lo: int, hi: int)
  {
    && lo > 0 && lo % 16 == 0 && hi % 16 == 0 && hi <= WORD && hi - TOP_FOOT - lo >= 16
    && RecordWords(mem) && TopHeads(mem, lo, hi) && (forall a :: lo <= a < hi && a % 8 == 0 ==> a in mem)
    && Get(mem, SEG_HEAD) == lo && Get(mem, SEG_HEAD + SEG_SIZE) == hi - lo
    && Get(mem, SEG_HEAD + SEG_NEXT) == NULL && Get(mem, SEG_HEAD + SEG_FLAGS) == 0
  }

  lemma FirstPair(lo: int, hi: int)
    requires hi - TOP_FOOT - lo >= 16
    ensures TopPair(FirstView(lo, hi).ch, lo, hi) && (forall p :: p in FirstView(lo, hi).ch ==> lo <= p < hi)
  {
  }

  lemma FirstTiled(mem: Mem, lo: int, hi: int)
    requires Begun(mem, lo, hi)
    ensures Tiled(mem, FirstView(lo, hi).ch)
  {
    hide SizeOf, Cinuse, Pinuse, FirstView, RecordWords;
    FirstPair(lo, hi);
    TopInner(mem, FirstView(lo, hi).ch, lo, hi);
  }

  lemma FirstSeg(mem: Mem, lo: int, hi: int)
    requires Begun(mem, lo, hi)
    ensures SegOk(mem, FirstView(lo, hi).ch, FirstView(lo, hi).segs, 0)
  {
    hide SizeOf, Cinuse, Pinuse, TopHeads;
    TopTags(mem, lo, hi);
    Mod16(hi, lo);
  }

  lemma FirstSegs(mem: Mem, lo: int, hi: int)
    requires Begun(mem, lo, hi)
    ensures SegsOk(mem, FirstView(lo, hi).ch, FirstView(lo, hi).segs)
  {
    hide TopHeads, SegOk;
    var v := FirstView(lo, hi);
    FirstSeg(mem, lo, hi);
    forall p | p in v.ch
      ensures Held(v.segs, p, v.ch[p])
    {
      assert Holds(v.segs[0], p, v.ch[p]);
    }
  }

  lemma FirstSound(mem: Mem, lo: int, hi: int)
    requires Begun(mem, lo, hi)
    ensures Sound(mem, map[], FirstView(lo, hi)) && Holdings(FirstView(lo, hi).ch) == map[]
  {
    hide Tiled, SegsOk;
    FirstTiled(mem, lo, hi);
    FirstSegs(mem, lo, hi);
  }

  // ---------------------------------------------------------------- memory before a segment

  /** The region `[lo, base)` in front of segment `j` as one chunk in use. */
  function FrontView(v: View, j: int, lo: int): View
    requires 0 <= j < |v.segs|
  {
    var s := v.segs[j];
    v.(ch := v.ch[lo := Ck(s.base - lo, Live)], segs := v.segs[j := Seg(s.at, lo, End(s) - lo)])
  }

  ghost predicate Fronted(mem: Mem, mem': Mem, v: View, j: int, lo: int)
    requires 0 <= j < |v.segs|
  {
    var s := v.segs[j];
    && lo > 0 && lo % 16 == 0 && s.base - lo >= MIN_CHUNK
    && (forall i :: 0 <= i < |v.segs| ==> End(v.segs[i]) <= lo || s.base <= v.segs[i].base)
    && LocalTo(mem, mem', lo, s.base, s.at) && HeadOf(mem', lo) == s.base - lo + PINUSE + CINUSE
    && (forall a :: lo <= a < s.base && a % 8 == 0 ==> a in mem')
    && Get(mem', s.at) == lo && Get(mem', s.at + SEG_SIZE) == End(s) - lo
    && Get(mem', s.at + SEG_NEXT) == Get(mem, s.at + SEG_NEXT)
    && Get(mem', s.at + SEG_FLAGS) == Get(mem, s.at + SEG_FLAGS)
  }

  /** No chunk lies in the region, and none reaches into it. */
  lemma FrontFree(mem: Mem, v: View, j: int, lo: int)
    requires FramedView(mem, v) && 0 <= j < |v.segs|
    requires forall i :: 0 <= i < |v.segs| ==> End(v.segs[i]) <= lo || v.segs[j].base <= v.segs[i].base
    ensures forall p :: p in v.ch ==> p + v.ch[p].size <= lo || v.segs[j].base <= p
  {
    hide SegOk, Backed, VictimOk;
    forall p | p in v.ch
      ensures p + v.ch[p].size <= lo || v.segs[j].base <= p
    {
      assert Held(v.segs, p, v.ch[p]);
    }
  }

  /** The first chunk of a segment is no foot and no fence. */
  lemma BaseKind(mem: Mem, v: View, j: int)
    requires FramedView(mem, v) && 0 <= j < |v.segs|
    ensures v.segs[j].base in v.ch && !Tail(v.ch[v.segs[j].base].kind) && RecAt(v.ch, v.segs[j].at)
    ensures Pinuse(HeadOf(mem, v.segs[j].base))
  {
    hide Backed, VictimOk, SizeOf, Cinuse, Pinuse;
    var s := v.segs[j];
    assert SegOk(mem, v.ch, v.segs, j);
    var q := if j == 0 then v.top else s.at - MEM_OFFSET;
    assert q in v.ch && !Tail(v.ch[q].kind) && s.base <= q && q + v.ch[q].size < End(s) && Tagged(mem, v.ch, q) by {
      assert j == 0 ==> Tagged(mem, v.ch, v.top);
      assert j != 0 ==> Tagged(mem, v.ch, s.at - MEM_OFFSET) && Tagged(mem, v.ch, s.at + 32);
    }
    assert Tagged(mem, v.ch, s.base) && Held(v.segs, s.base, v.ch[s.base]);
    var i :| 0 <= i < |v.segs| && Holds(v.segs[i], s.base, v.ch[s.base]);
    SegPair(v.segs, i, j);
    if q != s.base { Apart(v.ch, q, s.base); }
  }

  lemma FrontOnly(v: View, j: int, lo: int)
    requires 0 <= j < |v.segs| && lo < v.segs[j].base
    requires forall p :: p in v.ch ==> p + v.ch[p].size <= lo || v.segs[j].base <= p
    requires forall p :: p in v.ch ==> v.ch[p].size > 0
    ensures var ch' := FrontView(v, j, lo).ch;
            SameOutside(v.ch, ch', lo, v.segs[j].base) && (forall p :: p in ch' && lo <= p < v.segs[j].base ==> p == lo)
            && lo in ch' && ch'[lo] == Ck(v.segs[j].base - lo, Live)
  {
  }

  lemma FrontInner(mem: Mem, mem': Mem, v: View, j: int, lo: int)
    requires FramedView(mem, v) && 0 <= j < |v.segs| && Fronted(mem, mem', v, j, lo)
    ensures Inner(mem', FrontView(v, j, lo).ch, lo, v.segs[j].base) && TagsSame(mem, mem', v.ch, lo, v.segs[j].base)
    ensures SameOutside(v.ch, FrontView(v, j, lo).ch, lo, v.segs[j].base)
  {
    hide SegsOk, Backed, VictimOk, TagsSame, LocalTo, FrontView, SameOutside, Tagged, Tiled;
    var s := v.segs[j];
    FrontFree(mem, v, j, lo);
    NextThere(mem, v.ch);
    FrontOnly(v, j, lo);
    BaseKind(mem, v, j);
    LocalTags(mem, mem', v.ch, lo, s.base, s.at);
    FrontTagged(mem, mem', v, j, lo);
  }

  lemma FrontTagged(mem: Mem, mem': Mem, v: View, j: int, lo: int)
    requires FramedView(mem, v) && 0 <= j < |v.segs| && Fronted(mem, mem', v, j, lo)
    requires TagsSame(mem, mem', v.ch, lo, v.segs[j].base)
    requires forall p :: p in v.ch ==> p + v.ch[p].size <= lo || v.segs[j].base <= p
    ensures Tagged(mem', FrontView(v, j, lo).ch, lo)
  {
    hide Backed, VictimOk, SizeOf, Cinuse, Pinuse, LocalTo, Recorded, TopOk, OneTop, Held, SegsApart;
    var s := v.segs[j];
    assert SegOk(mem, v.ch, v.segs, j);
    BaseKind(mem, v, j);
    Mod16(s.base, lo);
    Parts(s.base - lo, true, true);
    FrontChunk(mem, mem', v.ch, FrontView(v, j, lo).ch, lo, s.base);
  }

  /** The chunk in front, given its head and what follows. */
  lemma FrontChunk(mem: Mem, mem': Mem, ch: Tiling, ch': Tiling, lo: int, base: int)
    requires lo > 0 && lo % 16 == 0 && (base - lo) % 16 == 0 && MIN_CHUNK <= base - lo < WORD
    requires lo in ch' && ch'[lo] == Ck(base - lo, Live) && base in ch && base in ch' && ch'[base] == ch[base]
    requires !Tail(ch[base].kind)
    requires SizeOf(HeadOf(mem', lo)) == base - lo && Cinuse(HeadOf(mem', lo)) && Pinuse(HeadOf(mem', lo))
    requires Pinuse(HeadOf(mem, base)) && HeadOf(mem', base) == HeadOf(mem, base)
    ensures Tagged(mem', ch', lo)
  {
    hide SizeOf, Cinuse, Pinuse;
  }

  lemma FrontGraft(mem: Mem, mem': Mem, v: View, j: int, lo: int)
    requires FramedView(mem, v) && 0 <= j < |v.segs| && Fronted(mem, mem', v, j, lo)
    ensures Graft(mem, mem', v.ch, FrontView(v, j, lo).ch, lo, v.segs[j].base)
  {
    hide SegOk, Backed, VictimOk, TagsSame, LocalTo, Inner, SameOutside, Tagged, Graft;
    FrontInner(mem, mem', v, j, lo);
    FrontFree(mem, v, j, lo);
    NextThere(mem, v.ch);
    GraftEmpty(mem, mem', v.ch, FrontView(v, j, lo).ch, lo, v.segs[j].base);
  }

  /** The successor of a chunk is a chunk. */
  lemma NextThere(mem: Mem, ch: Tiling)
    requires Tiled(mem, ch)
    ensures forall p :: p in ch && !Tail(ch[p].kind) ==> p + ch[p].size in ch
    ensures forall p :: p in ch ==> p > 0 && ch[p].size > 0
  {
    forall p | p in ch
      ensures p > 0 && ch[p].size > 0 && (!Tail(ch[p].kind) ==> p + ch[p].size in ch)
    {
      assert Tagged(mem, ch, p);
    }
  }

  lemma FrontBacked(mem: Mem, mem': Mem, v: View, j: int, lo: int)
    requires FramedView(mem, v) && 0 <= j < |v.segs| && Fronted(mem, mem', v, j, lo)
    ensures Backed(mem', FrontView(v, j, lo).ch)
  {
    hide SegOk, VictimOk, Held;
    var s, ch' := v.segs[j], FrontView(v, j, lo).ch;
    FrontFree(mem, v, j, lo);
    forall p, a | p in ch' && p <= a < p + ch'[p].size && a % 8 == 0
      ensures a in mem'
    {
      if p != lo { assert a in mem; }
    }
  }

  lemma FrontHeld(mem: Mem, mem': Mem, v: View, j: int, lo: int, p: int)
    requires FramedView(mem, v) && 0 <= j < |v.segs| && Fronted(mem, mem', v, j, lo) && p in FrontView(v, j, lo).ch
    ensures Held(FrontView(v, j, lo).segs, p, FrontView(v, j, lo).ch[p])
  {
    hide VictimOk, LocalTo, Tiled, Backed;
    var v' := FrontView(v, j, lo);
    assert SegOk(mem, v.ch, v.segs, j);
    if p == lo {
      assert Holds(v'.segs[j], p, v'.ch[p]);
    } else {
      assert Held(v.segs, p, v.ch[p]);
      var i :| 0 <= i < |v.segs| && Holds(v.segs[i], p, v.ch[p]);
      assert Holds(v'.segs[i], p, v'.ch[p]);
    }
  }

  /** The segment that grew. */
  lemma FrontSeg(mem: Mem, mem': Mem, v: View, j: int, lo: int)
    requires FramedView(mem, v) && 0 <= j < |v.segs| && Fronted(mem, mem', v, j, lo)
    ensures SegOk(mem', FrontView(v, j, lo).ch, FrontView(v, j, lo).segs, j)
  {
    hide FramedView, HeadOf, LocalTo, Recorded, Pinuse;
    assert SegOk(mem, v.ch, v.segs, j) by { FrontOld(mem, v, j); }
    FrontAligned(mem', v.segs[j].base, End(v.segs[j]), lo);
    FrontWords(mem, mem', v, j, lo);
    if j > 0 { FrontRecord(mem, v, j, lo); }
  }

  lemma FrontOld(mem: Mem, v: View, j: int)
    requires FramedView(mem, v) && 0 <= j < |v.segs|
    ensures SegOk(mem, v.ch, v.segs, j)
  {
  }

  lemma FrontRecord(mem: Mem, v: View, j: int, lo: int)
    requires 0 <= j < |v.segs| && SegOk(mem, v.ch, v.segs, j) && 0 < j && lo < v.segs[j].base
    ensures Recorded(FrontView(v, j, lo).ch, FrontView(v, j, lo).segs[j])
  {
  }

  lemma FrontAligned(mem': Mem, base: int, end: int, lo: int)
    requires base % 16 == 0 && lo % 16 == 0 && (end - base) % 16 == 0 && HeadOf(mem', lo) == base - lo + PINUSE + CINUSE
    ensures (end - lo) % 16 == 0 && Pinuse(HeadOf(mem', lo))
  {
    hide SizeOf, Pinuse, Cinuse;
    Mod16(base, lo);
    Mod16(end - base, base - lo);
    Parts(base - lo, true, true);
  }

  lemma FrontWords(mem: Mem, mem': Mem, v: View, j: int, lo: int)
    requires 0 <= j < |v.segs| && SegOk(mem, v.ch, v.segs, j) && Fronted(mem, mem', v, j, lo)
    ensures forall a :: lo <= a < End(v.segs[j]) && a % 8 == 0 ==> a in mem'
  {
    hide HeadOf;
    forall a | lo <= a < End(v.segs[j]) && a % 8 == 0
      ensures a in mem'
    {
      if a >= v.segs[j].base { assert a in mem; }
    }
  }

  lemma FrontOther(mem: Mem, mem': Mem, v: View, j: int, lo: int, i: int)
    requires FramedView(mem, v) && 0 <= j < |v.segs| && Fronted(mem, mem', v, j, lo) && 0 <= i < |v.segs| && i != j
    ensures SegOk(mem', FrontView(v, j, lo).ch, FrontView(v, j, lo).segs, i)
  {
    hide VictimOk, Held, Backed, SegOk, LocalTo, SameOutside, Tiled, TagsSame, Inner;
    assert SegOk(mem, v.ch, v.segs, i) && SegOk(mem, v.ch, v.segs, j);
    AtApart(mem, v.ch, v.segs, i, j);
    SegRec(mem, v.ch, v.segs, j);
    FrontInner(mem, mem', v, j, lo);
    SegFar(mem, mem', v.ch, FrontView(v, j, lo).ch, v.segs, FrontView(v, j, lo).segs, i, i, lo, v.segs[j].base,
        v.segs[j].at);
  }

  lemma FrontSegs(mem: Mem, mem': Mem, v: View, j: int, lo: int)
    requires FramedView(mem, v) && 0 <= j < |v.segs| && Fronted(mem, mem', v, j, lo)
    ensures SegsOk(mem', FrontView(v, j, lo).ch, FrontView(v, j, lo).segs)
  {
    hide VictimOk, Held, Backed, SegOk, LocalTo, Tiled, FrontView, RecordWords, SegsApart;
    var v' := FrontView(v, j, lo);
    assert |v'.segs| == |v.segs| by { FrontApart(mem, mem', v, j, lo); }
    forall i | 0 <= i < |v'.segs|
      ensures SegOk(mem', v'.ch, v'.segs, i)
    {
      if i == j { FrontSeg(mem, mem', v, j, lo); } else { FrontOther(mem, mem', v, j, lo, i); }
    }
    forall p | p in v'.ch
      ensures Held(v'.segs, p, v'.ch[p])
    {
      FrontHeld(mem, mem', v, j, lo, p);
    }
    FrontApart(mem, mem', v, j, lo);
  }

  lemma FrontApart(mem: Mem, mem': Mem, v: View, j: int, lo: int)
    requires FramedView(mem, v) && 0 <= j < |v.segs| && Fronted(mem, mem', v, j, lo)
    ensures SegsApart(FrontView(v, j, lo).segs) && RecordWords(mem') && |FrontView(v, j, lo).segs| == |v.segs|
  {
    hide VictimOk, Held, Backed, Tiled;
    forall i | 0 <= i < |v.segs|
      ensures v.segs[i].size > 0
    {
      assert SegOk(mem, v.ch, v.segs, i);
    }
  }

  lemma FrontRoles(mem: Mem, mem': Mem, bins: map<int, int>, v: View, j: int, lo: int)
    requires Sound(mem, bins, v) && 0 <= j < |v.segs| && Fronted(mem, mem', v, j, lo)
    ensures var v' := FrontView(v, j, lo);
            && TopOk(v'.ch, v'.segs, v'.top, v'.topsize) && OneTop(v'.ch, v'.top)
            && VictimOk(v'.ch, v'.dv, v'.dvsize) && Binned(v'.ch, bins)
    ensures lo !in v.ch && Holdings(FrontView(v, j, lo).ch) == Holdings(v.ch)[lo := Ck(v.segs[j].base - lo, Live)]
  {
    hide Tiled, SegsOk, Backed, LocalTo;
    FrontFree(mem, v, j, lo);
    NextThere(mem, v.ch);
    var hs, hs' := Holdings(v.ch)[lo := Ck(v.segs[j].base - lo, Live)], Holdings(FrontView(v, j, lo).ch);
    forall p
      ensures p in hs <==> p in hs'
      ensures p in hs ==> hs[p] == hs'[p]
    {
    }
  }

  /** Memory in front of a segment, taken as one chunk in use, keeps the heap sound. */
  lemma FrontSound(mem: Mem, mem': Mem, bins: map<int, int>, v: View, j: int, lo: int)
    requires Sound(mem, bins, v) && 0 <= j < |v.segs| && Fronted(mem, mem', v, j, lo)
    ensures Sound(mem', bins, FrontView(v, j, lo))
    ensures lo !in v.ch && Holdings(FrontView(v, j, lo).ch) == Holdings(v.ch)[lo := Ck(v.segs[j].base - lo, Live)]
    ensures SamePayloads(mem, mem', Holdings(v.ch))
  {
    hide Tiled, Backed, SegsOk, VictimOk, TopOk, OneTop, Binned, Fronted, FrontView, SamePayloads, Holdings, Graft;
    FrontGraft(mem, mem', v, j, lo);
    GraftTiled(mem, mem', v.ch, FrontView(v, j, lo).ch, lo, v.segs[j].base);
    FrontBacked(mem, mem', v, j, lo);
    FrontSegs(mem, mem', v, j, lo);
    FrontRoles(mem, mem', bins, v, j, lo);
    FrontPayloads(mem, mem', v, j, lo);
    FrontSameTop(v, j, lo);
  }

  lemma FrontSameTop(v: View, j: int, lo: int)
    requires 0 <= j < |v.segs|
    ensures var v' := FrontView(v, j, lo);
      v'.top == v.top && v'.topsize == v.topsize && v'.dv == v.dv && v'.dvsize == v.dvsize
  {
  }

  lemma FrontPayloads(mem: Mem, mem': Mem, v: View, j: int, lo: int)
    requires FramedView(mem, v) && 0 <= j < |v.segs| && Fronted(mem, mem', v, j, lo)
    ensures SamePayloads(mem, mem', Holdings(v.ch))
  {
    hide Backed, SegOk, VictimOk, SamePayloads, LocalTo;
    FrontFree(mem, v, j, lo);
    BaseKind(mem, v, j);
    forall p | p in v.ch && v.ch[p].kind.Live?
      ensures p + v.ch[p].size + 8 <= lo || p >= v.segs[j].base
    {
      FrontGap(mem, v, j, lo, p);
    }
    LocalPayloads(mem, mem', v.ch, lo, v.segs[j].base, v.segs[j].at);
  }

  /** A chunk in use is followed by a chunk of its own segment, so its payload ends before the region. */
  lemma FrontGap(mem: Mem, v: View, j: int, lo: int, p: int)
    requires FramedView(mem, v) && 0 <= j < |v.segs| && p in v.ch && v.ch[p].kind.Live?
    requires forall q :: q in v.ch ==> q + v.ch[q].size <= lo || v.segs[j].base <= q
    requires lo < v.segs[j].base
    ensures p + v.ch[p].size + 8 <= lo || p >= v.segs[j].base
  {
    hide Backed, VictimOk, SegsOk;
    assert Tagged(mem, v.ch, p) && Tagged(mem, v.ch, p + v.ch[p].size);
  }
}
