/** Steps between sound heaps: gathering a stretch out of the bins, settling it as new chunks. */
module HeapOps {
  import opened Sizes
  import opened Rings
  import opened Heads
  import opened Tries
  import opened Stores
  import opened Tags
  import opened Heaps
  import opened Retags

  /** The allocator's own view of the heap, tiling included. */
  datatype View = View(ch: Tiling, segs: seq<Seg>, dv: int, dvsize: int, top: int, topsize: int)

  ghost predicate FramedView(mem: Mem, v: View)
  {
    Framed(mem, v.ch, v.segs, v.top, v.topsize) && VictimOk(v.ch, v.dv, v.dvsize)
  }

  /** The invariant of a heap that has memory. */
  ghost predicate Sound(mem: Mem, bins: map<int, int>, v: View)
  {
    FramedView(mem, v) && Binned(v.ch, bins)
  }

  /** Before the first system request there is nothing. */
  ghost predicate Unborn(mem: Mem, bins: map<int, int>, v: View)
  {
    v == View(map[], [], NULL, 0, NULL, 0) && bins == map[] && RecordWords(mem) && Get(mem, SEG_HEAD + SEG_NEXT) == NULL
  }

  /** The invariant of the allocator in every state between operations. */
  ghost predicate HeapOk(mem: Mem, bins: map<int, int>, v: View)
  {
    Unborn(mem, bins, v) || (v.top != NULL && Sound(mem, bins, v))
  }

  /** Exactly the free chunks outside the stretch are binned. */
  ghost predicate BinnedOutside(ch: Tiling, bins: map<int, int>, lo: int, hi: int)
  {
    && BinsIn(bins, ch)
    && (forall p :: p in bins ==> p < lo || p >= hi)
    && (forall p :: p in ch && ch[p].kind.Free? && (p < lo || p >= hi) ==> p in bins)
  }

  /** A sound heap whose free chunks in `[lo, hi)` have left the bins. */
  ghost predicate Partial(mem: Mem, bins: map<int, int>, v: View, lo: int, hi: int)
  {
    FramedView(mem, v) && BinnedOutside(v.ch, bins, lo, hi) && Stretch(v.ch, v.segs, lo, hi)
  }

  /** Chunks with a payload of the program. */
  predicate Holding(k: Kind) { k.Live? }

  /** Every holding chunk of `ch` outside `[lo, hi)` is still there with its payload untouched. */
  ghost predicate Kept(mem: Mem, ch: Tiling, mem': Mem, ch': Tiling, lo: int, hi: int)
  {
    && (forall p :: p in ch && Holding(ch[p].kind) && (p < lo || p >= hi) ==> p in ch' && ch'[p] == ch[p])
    && (forall p, a {:trigger ch[p], Get(mem', a)} ::
          (p in ch && Holding(ch[p].kind) && (p < lo || p >= hi) && p + MEM_OFFSET <= a < p + ch[p].size + 8) ==>
              Get(mem', a) == Get(mem, a))
  }

  // ---------------------------------------------------------------- bins operations seen from the heap

  lemma LinksFramed(mem: Mem, mem': Mem, bins: map<int, int>, v: View)
    requires FramedView(mem, v) && BinsIn(bins, v.ch) && OnlyLinks(mem, mem', bins)
    ensures FramedView(mem', v)
  {
    hide SegOk, Tagged, Held, VictimOk;
    LinksKeepTiled(mem, mem', v.ch, bins);
    forall i | 0 <= i < |v.segs|
      ensures SegOk(mem', v.ch, v.segs, i)
    {
      assert SegOk(mem, v.ch, v.segs, i);
      LinksSeg(mem, mem', v.ch, bins, v.segs, i);
    }
  }

  lemma LinksSeg(mem: Mem, mem': Mem, ch: Tiling, bins: map<int, int>, segs: seq<Seg>, i: int)
    requires Tiled(mem, ch) && BinsIn(bins, ch) && OnlyLinks(mem, mem', bins) && 0 <= i < |segs|
    requires SegOk(mem, ch, segs, i)
    ensures SegOk(mem', ch, segs, i)
  {
    hide LinkWord, BinWord;
    var at := segs[i].at;
    TagNotLink(mem, ch, bins, segs[i].base);
    RecordNotLink(mem, ch, bins, segs, i);
  }

  lemma RecordNotLink(mem: Mem, ch: Tiling, bins: map<int, int>, segs: seq<Seg>, i: int)
    requires Tiled(mem, ch) && BinsIn(bins, ch) && 0 <= i < |segs| && SegOk(mem, ch, segs, i)
    ensures var at := segs[i].at;
            && !LinkWord(bins, at) && !LinkWord(bins, at + SEG_SIZE) && !LinkWord(bins, at + SEG_NEXT)
            && !LinkWord(bins, at + SEG_FLAGS)
            && !BinWord(at) && !BinWord(at + SEG_SIZE) && !BinWord(at + SEG_NEXT) && !BinWord(at + SEG_FLAGS)
  {
    var at := segs[i].at;
    if i == 0 {
      forall q | q in bins
        ensures q > 0
      {
        assert Tagged(mem, ch, q);
      }
    } else {
      PayloadNotLink(mem, ch, bins, at - MEM_OFFSET, at);
      PayloadNotLink(mem, ch, bins, at - MEM_OFFSET, at + SEG_SIZE);
      PayloadNotLink(mem, ch, bins, at - MEM_OFFSET, at + SEG_NEXT);
      PayloadNotLink(mem, ch, bins, at - MEM_OFFSET, at + SEG_FLAGS);
    }
  }

  lemma LinksKept(mem: Mem, mem': Mem, bins: map<int, int>, ch: Tiling, lo: int, hi: int)
    requires Tiled(mem, ch) && BinsIn(bins, ch) && OnlyLinks(mem, mem', bins)
    ensures Kept(mem, ch, mem', ch, lo, hi)
  {
    forall p, a | p in ch && Holding(ch[p].kind) && p + MEM_OFFSET <= a < p + ch[p].size + 8
      ensures Get(mem', a) == Get(mem, a)
    {
      PayloadNotLink(mem, ch, bins, p, a);
    }
  }

  lemma QuietKept(mem: Mem, mem': Mem, bins: map<int, int>, ch: Tiling, ch': Tiling, lo: int, hi: int)
    requires Tiled(mem, ch) && BinsIn(bins, ch) && Quiet(mem, mem', bins, lo, hi) && lo in ch && hi in ch && lo < hi
    requires SameOutside(ch, ch', lo, hi)
    ensures Kept(mem, ch, mem', ch', lo, hi)
  {
    forall p, a | p in ch && Holding(ch[p].kind) && (p < lo || p >= hi) && p + MEM_OFFSET <= a < p + ch[p].size + 8
      ensures Get(mem', a) == Get(mem, a)
    {
      QuietPayload(mem, mem', ch, bins, lo, hi, p, a);
    }
  }

  lemma KeptTrans(m0: Mem, c0: Tiling, m1: Mem, c1: Tiling, m2: Mem, c2: Tiling, lo: int, hi: int)
    requires Kept(m0, c0, m1, c1, lo, hi) && Kept(m1, c1, m2, c2, lo, hi)
    ensures Kept(m0, c0, m2, c2, lo, hi)
  {
    forall p, a | p in c0 && Holding(c0[p].kind) && (p < lo || p >= hi) && p + MEM_OFFSET <= a < p + c0[p].size + 8
      ensures Get(m2, a) == Get(m0, a)
    {
      assert c1[p] == c0[p];
      assert Get(m1, a) == Get(m0, a);
    }
  }

  // ---------------------------------------------------------------- gathering a stretch

  /** A chunk in use or the victim by itself. */
  lemma StartStretch(mem: Mem, bins: map<int, int>, v: View, p: int)
    requires Sound(mem, bins, v) && p in v.ch && Ordinary(v.ch[p].kind) && !v.ch[p].kind.Free?
    ensures Partial(mem, bins, v, p, p + v.ch[p].size)
  {
    hide SegOk, Held;
    assert Tagged(mem, v.ch, p);
    SpanOne(mem, v.ch, v.segs, p);
    StretchAlone(mem, v.ch, p);
  }

  /** No other chunk starts inside a chunk. */
  lemma StretchAlone(mem: Mem, ch: Tiling, p: int)
    requires Tiled(mem, ch) && p in ch
    ensures forall q :: q in ch && p <= q < p + ch[p].size ==> q == p
  {
    assert Tagged(mem, ch, p);
  }

  /** A binned chunk by itself, once it is unlinked. */
  lemma TakeStretch(mem: Mem, mem': Mem, bins: map<int, int>, v: View, p: int)
    requires Sound(mem, bins, v) && p in bins && OnlyLinks(mem, mem', bins)
    ensures p in v.ch && Partial(mem', bins - {p}, v, p, p + v.ch[p].size)
    ensures Kept(mem, v.ch, mem', v.ch, p, p + v.ch[p].size)
  {
    hide SegOk, Held, OnlyLinks;
    assert Tagged(mem, v.ch, p);
    SpanOne(mem, v.ch, v.segs, p);
    StretchAlone(mem, v.ch, p);
    LinksFramed(mem, mem', bins, v);
    LinksKept(mem, mem', bins, v.ch, p, p + v.ch[p].size);
  }

  /** Taking the chunk before the stretch into it. */
  lemma ExtendBack(mem: Mem, bins: map<int, int>, v: View, p: int, lo: int, hi: int)
    requires Partial(mem, bins, v, lo, hi) && p in v.ch && p + v.ch[p].size == lo && Ordinary(v.ch[p].kind)
    requires hi - p < WORD
    ensures Partial(mem, bins - {p}, v, p, hi)
  {
    hide SegOk, Held;
    assert Tagged(mem, v.ch, p);
    SpanOne(mem, v.ch, v.segs, p);
    SpanJoin(v.segs, p, lo, hi);
    StretchAlone(mem, v.ch, p);
  }

  /** Taking the chunk behind the stretch into it. */
  lemma ExtendForth(mem: Mem, bins: map<int, int>, v: View, lo: int, hi: int)
    requires Partial(mem, bins, v, lo, hi) && Ordinary(v.ch[hi].kind) && hi + v.ch[hi].size - lo < WORD
    ensures Partial(mem, bins - {hi}, v, lo, hi + v.ch[hi].size)
  {
    hide SegOk, Held;
    assert Tagged(mem, v.ch, hi);
    SpanOne(mem, v.ch, v.segs, hi);
    SpanJoin(v.segs, lo, hi, hi + v.ch[hi].size);
    StretchAlone(mem, v.ch, hi);
  }

  /** Unlinking a chunk from its bin changes nothing else. */
  lemma UnlinkPartial(mem: Mem, mem': Mem, bins: map<int, int>, v: View, lo: int, hi: int)
    requires Partial(mem, bins, v, lo, hi) && OnlyLinks(mem, mem', bins)
    ensures FramedView(mem', v) && Kept(mem, v.ch, mem', v.ch, lo, hi)
    ensures Partial(mem', bins, v, lo, hi)
  {
    hide OnlyLinks, SegOk, Held;
    LinksFramed(mem, mem', bins, v);
    LinksKept(mem, mem', bins, v.ch, lo, hi);
  }

  // ---------------------------------------------------------------- writing tags in a stretch

  lemma SpanWords(mem: Mem, ch: Tiling, segs: seq<Seg>, lo: int, hi: int, a: int)
    requires SegsOk(mem, ch, segs) && Spans(segs, lo, hi) && lo <= a <= hi && a % 8 == 0
    ensures a in mem
  {
    var i :| 0 <= i < |segs| && segs[i].base <= lo && hi < End(segs[i]);
    assert SegOk(mem, ch, segs, i);
  }

  /** A tag word of the stretch may be written: no bin uses it. */
  lemma TagWritable(mem: Mem, bins: map<int, int>, v: View, lo: int, hi: int, a: int)
    requires Partial(mem, bins, v, lo, hi) && lo <= a < hi + 16 && a % 8 == 0
    ensures a in mem && !BinWord(a) && !LinkWord(bins, a)
    ensures a - HEAD in bins ==> a == hi + HEAD
  {
    hide SegOk, Held;
    assert Tagged(mem, v.ch, lo) && Tagged(mem, v.ch, hi);
    if a <= hi {
      SpanWords(mem, v.ch, v.segs, lo, hi, a);
    } else {
      assert hi <= a < hi + v.ch[hi].size;
    }
    forall q | q in bins
      ensures !(q + PREV <= a < q + LinkEnd(bins[q])) && (q == a - HEAD ==> q == hi)
    {
      assert Tagged(mem, v.ch, q);
      if q < lo { Apart(v.ch, q, lo); }
    }
  }

  lemma QuietStart(mem: Mem, bins: map<int, int>, lo: int, hi: int)
    ensures Quiet(mem, mem, bins, lo, hi)
  {
  }

  lemma QuietWrite(mem: Mem, m: Mem, bins: map<int, int>, lo: int, hi: int, a: int, x: int)
    requires Quiet(mem, m, bins, lo, hi) && lo + HEAD <= a < hi + 16 && a in m
    ensures Quiet(mem, m[a := x], bins, lo, hi)
  {
  }

  // ---------------------------------------------------------------- settling a stretch

  /** In the new tiling the stretch ends with a chunk of kind `k` at `pos`, after at most one chunk in use. */
  ghost predicate Pieces(ch': Tiling, lo: int, hi: int, pos: int, k: Kind)
  {
    && lo <= pos < hi && pos in ch' && ch'[pos] == Ck(hi - pos, k) && Ordinary(k)
    && (forall p :: p in ch' && lo <= p < hi ==> p == pos || (p == lo && ch'[p].kind.Live?))
  }

  /** The victim and top fields after the change. */
  ghost predicate RolesAfter(v: View, v': View, lo: int, hi: int, pos: int, k: Kind)
  {
    && v'.segs == v.segs
    && (if k.Victim? then v'.dv == pos && v'.dvsize == hi - pos && (v.dv == NULL || lo <= v.dv < hi)
        else if lo <= v.dv < hi then v'.dv == NULL && v'.dvsize == 0
        else v'.dv == v.dv && v'.dvsize == v.dvsize)
    && (if k.Top? then v'.top == pos && v'.topsize == hi - pos && lo <= v.top < hi
        else v'.top == v.top && v'.topsize == v.topsize && !(lo <= v.top < hi))
  }

  lemma SettleVictim(mem: Mem, v: View, v': View, lo: int, hi: int, pos: int, k: Kind)
    requires FramedView(mem, v) && SameOutside(v.ch, v'.ch, lo, hi) && Pieces(v'.ch, lo, hi, pos, k)
    requires RolesAfter(v, v', lo, hi, pos, k) && lo > 0
    ensures VictimOk(v'.ch, v'.dv, v'.dvsize) && OneTop(v'.ch, v'.top)
  {
    forall p | p in v.ch
      ensures p > 0
    {
      assert Tagged(mem, v.ch, p);
    }
  }

  /** A stretch with the top chunk in it lies in the newest segment and reaches up to the foot. */
  lemma TopStretch(mem: Mem, v: View, lo: int, hi: int)
    requires FramedView(mem, v) && Stretch(v.ch, v.segs, lo, hi) && lo <= v.top < hi
    ensures hi == v.top + v.topsize && v.segs[0].base <= lo
  {
    assert Tagged(mem, v.ch, v.top);
    Apart(v.ch, v.top, hi);
    var i :| 0 <= i < |v.segs| && v.segs[i].base <= lo && hi < End(v.segs[i]);
    SegPair(v.segs, 0, i);
  }

  lemma SettleTop(mem: Mem, v: View, v': View, lo: int, hi: int, pos: int, k: Kind)
    requires FramedView(mem, v) && Stretch(v.ch, v.segs, lo, hi) && SameOutside(v.ch, v'.ch, lo, hi)
    requires Pieces(v'.ch, lo, hi, pos, k) && RolesAfter(v, v', lo, hi, pos, k)
    ensures TopOk(v'.ch, v'.segs, v'.top, v'.topsize)
  {
    if k.Top? { TopStretch(mem, v, lo, hi); }
  }

  lemma SettleBins(v: View, v': View, bins: map<int, int>, lo: int, hi: int, pos: int, k: Kind)
    requires BinnedOutside(v.ch, bins, lo, hi) && SameOutside(v.ch, v'.ch, lo, hi) && Pieces(v'.ch, lo, hi, pos, k)
    ensures BinsIn(bins, v'.ch) && (forall p :: p in v'.ch && v'.ch[p].kind.Free? ==> p in bins || p == pos)
    ensures !k.Free? ==> Binned(v'.ch, bins)
    ensures pos !in bins
  {
  }

  /** The stretch is settled: tags, segments and roles are in order; only a new free chunk still has to be binned. */
  lemma Settle(mem: Mem, mem': Mem, bins: map<int, int>, v: View, v': View, lo: int, hi: int, pos: int, k: Kind)
    requires Partial(mem, bins, v, lo, hi) && Change(mem, mem', v.ch, v'.ch, bins, v.segs, lo, hi)
    requires Pieces(v'.ch, lo, hi, pos, k) && RolesAfter(v, v', lo, hi, pos, k)
    ensures FramedView(mem', v') && Kept(mem, v.ch, mem', v'.ch, lo, hi)
    ensures !k.Free? ==> Sound(mem', bins, v')
    ensures k.Free? ==> Unsettled(mem', bins, v', pos)
  {
    hide Spans, Tagged, Entrance, Exit, Inner, SegOk, Held, Plain, RolesAfter, Pieces, VictimOk, TopOk, Kept, Backed;
    StretchStart(mem, v.ch, v.segs, lo, hi);
    ChangeFramed(mem, mem', v.ch, v'.ch, bins, v.segs, lo, hi);
    SettleVictim(mem, v, v', lo, hi, pos, k);
    SettleTop(mem, v, v', lo, hi, pos, k);
    SettleBins(v, v', bins, lo, hi, pos, k);
    QuietKept(mem, mem', bins, v.ch, v'.ch, lo, hi);
    SegsSame(v, v', lo, hi, pos, k);
    assert Framed(mem', v'.ch, v'.segs, v'.top, v'.topsize);
    if k.Free? { SettleUnsettled(mem', bins, v', lo, hi, pos); }
  }

  lemma SegsSame(v: View, v': View, lo: int, hi: int, pos: int, k: Kind)
    requires RolesAfter(v, v', lo, hi, pos, k)
    ensures v'.segs == v.segs
  {
  }

  /** A sound heap but for the free chunk at `p`, which is in no bin yet. */
  ghost predicate Unsettled(mem: Mem, bins: map<int, int>, v: View, p: int)
  {
    && FramedView(mem, v) && BinsIn(bins, v.ch) && p !in bins
    && p in v.ch && v.ch[p].kind.Free?
    && (forall q :: q in v.ch && v.ch[q].kind.Free? ==> q in bins || q == p)
  }

  lemma SettleUnsettled(mem: Mem, bins: map<int, int>, v: View, lo: int, hi: int, pos: int)
    requires FramedView(mem, v) && BinsIn(bins, v.ch) && pos !in bins && Pieces(v.ch, lo, hi, pos, Free)
    requires forall p :: p in v.ch && v.ch[p].kind.Free? ==> p in bins || p == pos
    ensures Unsettled(mem, bins, v, pos)
  {
  }

  /** The unsettled chunk can be binned. */
  lemma UnsettledBinnable(mem: Mem, bins: map<int, int>, v: View, p: int)
    requires Unsettled(mem, bins, v, p) && BinsOk(bins)
    ensures Binnable(mem, bins, p, v.ch[p].size)
  {
    hide SegsOk, VictimOk, NextOk, PrevFree, TopOk, OneTop, BinsOk;
    assert Tagged(mem, v.ch, p);
    UnsettledApart(mem, bins, v, p);
    UnsettledWords(mem, v.ch, p);
  }

  lemma UnsettledApart(mem: Mem, bins: map<int, int>, v: View, p: int)
    requires Unsettled(mem, bins, v, p) && BinsOk(bins)
    ensures BinsOk(bins[p := v.ch[p].size])
  {
    hide SegsOk, VictimOk, NextOk, PrevFree, TopOk, OneTop, SizeOf, Cinuse, Pinuse;
    assert Tagged(mem, v.ch, p);
    var bins' := bins[p := v.ch[p].size];
    forall q, r | q in bins' && r in bins' && q < r
      ensures q + bins'[q] <= r
    {
      Apart(v.ch, q, r);
      assert Tagged(mem, v.ch, r);
    }
  }

  lemma UnsettledWords(mem: Mem, ch: Tiling, p: int)
    requires Backed(mem, ch) && p in ch && p % 16 == 0 && ch[p].size >= MIN_CHUNK
    ensures p + HEAD in mem && p + PREV in mem && p + NEXT in mem
    ensures ch[p].size >= MIN_LARGE ==> p + CHILD0 in mem && p + CHILD1 in mem && p + PARENT in mem && p + INDEX in mem
  {
    Mod16(p, 0);
    Mod16(p, 16);
    Mod16(p + 16, 0);
    Mod16(p, 32);
    Mod16(p + 32, 0);
    Mod16(p, 48);
    Mod16(p + 48, 0);
  }

  /** Binning the unsettled chunk makes the heap sound. */
  lemma Rebinned(mem: Mem, mem': Mem, bins: map<int, int>, v: View, p: int)
    requires Unsettled(mem, bins, v, p) && OnlyLinks(mem, mem', bins[p := v.ch[p].size])
    ensures Sound(mem', bins[p := v.ch[p].size], v) && forall lo, hi :: Kept(mem, v.ch, mem', v.ch, lo, hi)
  {
    hide SegOk, Held, VictimOk, OnlyLinks, Kept, Tagged;
    var bins' := bins[p := v.ch[p].size];
    assert BinsIn(bins', v.ch);
    LinksFramed(mem, mem', bins', v);
    forall lo, hi
      ensures Kept(mem, v.ch, mem', v.ch, lo, hi)
    {
      LinksKept(mem, mem', bins', v.ch, lo, hi);
    }
  }

  // ---------------------------------------------------------------- what the program holds

  /** The chunks in the hands of the program. */
  function Holdings(ch: Tiling): Tiling
  {
    map p | p in ch && Holding(ch[p].kind) :: ch[p]
  }

  /** The payload words of the chunks `hs` are the same. A payload ends with the foot word of the next chunk. */
  ghost predicate SamePayloads(mem: Mem, mem': Mem, hs: Tiling)
  {
    forall p, a {:trigger hs[p], Get(mem', a)} ::
      (p in hs && p + MEM_OFFSET <= a < p + hs[p].size + 8) ==> Get(mem', a) == Get(mem, a)
  }

  /** Of the holding chunks only `p` started in the stretch, and nothing in the new stretch holds. */
  lemma ReleaseHoldings(mem: Mem, ch: Tiling, mem': Mem, ch': Tiling, lo: int, hi: int, p: int)
    requires Kept(mem, ch, mem', ch', lo, hi) && SameOutside(ch, ch', lo, hi) && lo <= p < hi
    requires forall q :: q in ch && lo <= q < hi && Holding(ch[q].kind) ==> q == p
    requires forall q :: q in ch' && lo <= q < hi ==> !Holding(ch'[q].kind)
    ensures Holdings(ch') == Holdings(ch) - {p} && SamePayloads(mem, mem', Holdings(ch) - {p})
  {
    var hs, hs' := Holdings(ch) - {p}, Holdings(ch');
    forall q
      ensures q in hs <==> q in hs'
      ensures q in hs ==> hs[q] == hs'[q] && q in ch && (q < lo || q >= hi)
    {
    }
  }

  // ---------------------------------------------------------------- a stretch becomes one free chunk

  /** The words of `set_size_and_pinuse_of_free_chunk`, preceded by `clear_pinuse` of the next chunk where that is
      needed. */
  function FreeTags(mem: Mem, lo: int, hi: int): Mem
  {
    mem[hi + HEAD := ClearP(HeadOf(mem, hi))][lo + HEAD := hi - lo + PINUSE][hi := hi - lo]
  }

  lemma FreeTagged(mem: Mem, ch: Tiling, bins: map<int, int>, lo: int, hi: int, k: Kind)
    requires lo in ch && hi in ch && lo % 16 == 0 && hi % 16 == 0 && MIN_CHUNK <= hi - lo < WORD
    requires Pinuse(HeadOf(mem, lo))
    requires Coalesced(k) && Follows(k, ch[hi].kind) && lo + HEAD in mem && hi in mem && hi + HEAD in mem
    ensures OneTagged(mem, FreeTags(mem, lo, hi), ch, lo, hi, k) && Quiet(mem, FreeTags(mem, lo, hi), bins, lo, hi)
  {
    Flags(HeadOf(mem, hi));
    Parts(hi - lo, false, true);
    QuietStart(mem, bins, lo, hi);
    var m1 := mem[hi + HEAD := ClearP(HeadOf(mem, hi))];
    QuietWrite(mem, mem, bins, lo, hi, hi + HEAD, ClearP(HeadOf(mem, hi)));
    QuietWrite(mem, m1, bins, lo, hi, lo + HEAD, hi - lo + PINUSE);
    QuietWrite(mem, m1[lo + HEAD := hi - lo + PINUSE], bins, lo, hi, hi, hi - lo);
  }

  lemma OnePieces(mem: Mem, ch: Tiling, segs: seq<Seg>, lo: int, hi: int, k: Kind)
    requires lo < hi && Ordinary(k)
    ensures Pieces(One(ch, lo, hi, k), lo, hi, lo, k) && SameOutside(ch, One(ch, lo, hi, k), lo, hi)
  {
  }

  lemma PartialFacts(mem: Mem, bins: map<int, int>, v: View, lo: int, hi: int)
    requires Partial(mem, bins, v, lo, hi)
    ensures Tiled(mem, v.ch) && BinsIn(bins, v.ch) && Stretch(v.ch, v.segs, lo, hi) && lo in v.ch && hi in v.ch
    ensures lo > 0 && lo % 16 == 0 && hi % 16 == 0 && 16 <= hi - lo < WORD && Ordinary(v.ch[lo].kind)
    ensures lo in mem && lo + HEAD in mem && hi in mem && hi + HEAD in mem
    ensures (lo + HEAD) % 8 == 0 && hi % 8 == 0 && (hi + HEAD) % 8 == 0
  {
    hide SegsOk, VictimOk, LinkWord, BinWord, Tagged, Disjoint, Backed, Spans, Plain, TopOk, OneTop;
    StretchStart(mem, v.ch, v.segs, lo, hi);
    Mod16(lo, 0);
    Mod16(hi, 0);
    TagWritable(mem, bins, v, lo, hi, lo);
    TagWritable(mem, bins, v, lo, hi, lo + HEAD);
    TagWritable(mem, bins, v, lo, hi, hi);
    TagWritable(mem, bins, v, lo, hi, hi + HEAD);
  }

  /** The gathered stretch as one free chunk, the new victim or to be binned. */
  lemma FreeSettles(mem: Mem, bins: map<int, int>, v: View, v': View, lo: int, hi: int, k: Kind)
    requires Partial(mem, bins, v, lo, hi) && Coalesced(k) && Follows(k, v.ch[hi].kind) && Pinuse(HeadOf(mem, lo))
    requires hi - lo >= MIN_CHUNK
    requires v'.ch == One(v.ch, lo, hi, k) && RolesAfter(v, v', lo, hi, lo, k)
    ensures FramedView(FreeTags(mem, lo, hi), v') && Kept(mem, v.ch, FreeTags(mem, lo, hi), v'.ch, lo, hi)
    ensures k.Victim? ==> Sound(FreeTags(mem, lo, hi), bins, v')
    ensures k.Free? ==> Unsettled(FreeTags(mem, lo, hi), bins, v', lo)
  {
    hide Partial, FramedView, Stretch, Binned, BinsIn, RolesAfter, Kept, OneTagged, Quiet, Pieces, FreeTags, Tiled;
    hide Change, One, Unsettled, Sound;
    PartialFacts(mem, bins, v, lo, hi);
    FreeTagged(mem, v.ch, bins, lo, hi, k);
    OneChange(mem, FreeTags(mem, lo, hi), v.ch, bins, v.segs, lo, hi, k);
    OnePieces(mem, v.ch, v.segs, lo, hi, k);
    Settle(mem, FreeTags(mem, lo, hi), bins, v, v', lo, hi, lo, k);
  }

  // ---------------------------------------------------------------- a stretch becomes the top chunk

  lemma TopTagged(mem: Mem, ch: Tiling, bins: map<int, int>, lo: int, hi: int)
    requires lo in ch && hi in ch && lo % 16 == 0 && hi % 16 == 0 && 16 <= hi - lo < WORD && Pinuse(HeadOf(mem, lo))
    requires ch[hi].kind.Foot? && !Pinuse(HeadOf(mem, hi)) && lo + HEAD in mem
    ensures OneTagged(mem, mem[lo + HEAD := hi - lo + PINUSE], ch, lo, hi, Top)
    ensures Quiet(mem, mem[lo + HEAD := hi - lo + PINUSE], bins, lo, hi)
  {
    hide SizeOf, Cinuse, Pinuse;
    Mod16(hi, lo);
    Parts(hi - lo, false, true);
    QuietStart(mem, bins, lo, hi);
    QuietWrite(mem, mem, bins, lo, hi, lo + HEAD, hi - lo + PINUSE);
  }

  lemma FootFacts(mem: Mem, bins: map<int, int>, v: View, lo: int, hi: int)
    requires Partial(mem, bins, v, lo, hi) && lo <= v.top < hi
    ensures hi == v.top + v.topsize && hi in v.ch && v.ch[hi].kind.Foot? && !Pinuse(HeadOf(mem, hi)) && hi - lo >= 16
  {
    hide SegOk, Held, Binned, VictimOk;
    TopStretch(mem, v, lo, hi);
    assert Tagged(mem, v.ch, v.top);
  }

  /** The gathered stretch, ending with the old top, as the new top. */
  lemma TopSettles(mem: Mem, bins: map<int, int>, v: View, v': View, lo: int, hi: int)
    requires Partial(mem, bins, v, lo, hi) && lo <= v.top < hi && Pinuse(HeadOf(mem, lo))
    requires v'.ch == One(v.ch, lo, hi, Top) && RolesAfter(v, v', lo, hi, lo, Top)
    ensures lo + HEAD in mem
    ensures Sound(mem[lo + HEAD := hi - lo + PINUSE], bins, v')
    ensures Kept(mem, v.ch, mem[lo + HEAD := hi - lo + PINUSE], v'.ch, lo, hi)
  {
    hide Partial, FramedView, Stretch, Binned, BinsIn, RolesAfter, Kept, OneTagged, Quiet, Pieces, Tiled, Change, One;
    hide Sound;
    PartialFacts(mem, bins, v, lo, hi);
    FootFacts(mem, bins, v, lo, hi);
    TopTagged(mem, v.ch, bins, lo, hi);
    OneChange(mem, mem[lo + HEAD := hi - lo + PINUSE], v.ch, bins, v.segs, lo, hi, Top);
    OnePieces(mem, v.ch, v.segs, lo, hi, Top);
    Settle(mem, mem[lo + HEAD := hi - lo + PINUSE], bins, v, v', lo, hi, lo, Top);
  }

  // ---------------------------------------------------------------- a stretch becomes one chunk in use

  /** The words of `set_inuse`. */
  function LiveTags(mem: Mem, lo: int, hi: int): Mem
  {
    mem[lo + HEAD := KeepP(HeadOf(mem, lo), hi - lo)][hi + HEAD := SetP(HeadOf(mem, hi))]
  }

  lemma KeepParts(h: int, size: int)
    requires size % 8 == 0
    ensures SizeOf(KeepP(h, size)) == size && Cinuse(KeepP(h, size)) && Pinuse(KeepP(h, size)) == Pinuse(h)
  {
    Parts(size, true, Pinuse(h));
  }

  lemma LiveTagged(mem: Mem, ch: Tiling, bins: map<int, int>, lo: int, hi: int)
    requires lo in ch && hi in ch && lo % 16 == 0 && hi % 16 == 0 && MIN_CHUNK <= hi - lo < WORD && !Tail(ch[hi].kind)
    requires lo + HEAD in mem && hi + HEAD in mem
    ensures OneTagged(mem, LiveTags(mem, lo, hi), ch, lo, hi, Live) && Quiet(mem, LiveTags(mem, lo, hi), bins, lo, hi)
  {
    Flags(HeadOf(mem, hi));
    KeepParts(HeadOf(mem, lo), hi - lo);
    QuietStart(mem, bins, lo, hi);
    QuietWrite(mem, mem, bins, lo, hi, lo + HEAD, KeepP(HeadOf(mem, lo), hi - lo));
    QuietWrite(mem, mem[lo + HEAD := KeepP(HeadOf(mem, lo), hi - lo)], bins, lo, hi, hi + HEAD, SetP(HeadOf(mem, hi)));
  }

  /** The gathered stretch as one chunk in use. */
  lemma LiveSettles(mem: Mem, bins: map<int, int>, v: View, v': View, lo: int, hi: int)
    requires Partial(mem, bins, v, lo, hi) && !Tail(v.ch[hi].kind) && hi - lo >= MIN_CHUNK
    requires v'.ch == One(v.ch, lo, hi, Live) && RolesAfter(v, v', lo, hi, lo, Live)
    ensures Sound(LiveTags(mem, lo, hi), bins, v') && Kept(mem, v.ch, LiveTags(mem, lo, hi), v'.ch, lo, hi)
  {
    hide Partial, FramedView, Stretch, Binned, BinsIn, RolesAfter, Kept, OneTagged, Quiet, Pieces, LiveTags, Tiled;
    hide Change, One, Sound;
    PartialFacts(mem, bins, v, lo, hi);
    LiveTagged(mem, v.ch, bins, lo, hi);
    OneChange(mem, LiveTags(mem, lo, hi), v.ch, bins, v.segs, lo, hi, Live);
    OnePieces(mem, v.ch, v.segs, lo, hi, Live);
    Settle(mem, LiveTags(mem, lo, hi), bins, v, v', lo, hi, lo, Live);
  }

  // ---------------------------------------------------------------- a stretch becomes a chunk in use and a rest

  /** The tag words after splitting: a chunk in use from `lo`, the rest of kind `k` from `mid`. */
  ghost predicate SplitWords(mem: Mem, mem': Mem, lo: int, mid: int, hi: int, k: Kind)
  {
    && HeadOf(mem', lo) == KeepP(HeadOf(mem, lo), mid - lo)
    && HeadOf(mem', mid) == hi - mid + PINUSE + (if k.Live? then CINUSE else 0)
    && HeadOf(mem', hi) == (if k.Live? then SetP(HeadOf(mem, hi)) else if k.Top? then HeadOf(mem, hi)
        else ClearP(HeadOf(mem, hi)))
    && (Coalesced(k) ==> Get(mem', hi) == hi - mid)
  }

  lemma SplitFirst(mem: Mem, mem': Mem, lo: int, mid: int, hi: int, k: Kind)
    requires SplitWords(mem, mem', lo, mid, hi, k) && (mid - lo) % 8 == 0 && (hi - mid) % 8 == 0 && Ordinary(k)
    ensures HeadIs(mem', lo, mid - lo, Live) && EndIs(mem', lo, mid, Live) && HeadIs(mem', mid, hi - mid, k)
    ensures Pinuse(HeadOf(mem', lo)) == Pinuse(HeadOf(mem, lo))
  {
    hide SizeOf, Pinuse, Cinuse, KeepP;
    KeepParts(HeadOf(mem, lo), mid - lo);
    Parts(hi - mid, k.Live?, true);
  }

  lemma SplitLast(mem: Mem, mem': Mem, lo: int, mid: int, hi: int, k: Kind)
    requires SplitWords(mem, mem', lo, mid, hi, k) && Ordinary(k) && (k.Top? ==> !Pinuse(HeadOf(mem, hi)))
    ensures EndIs(mem', mid, hi, k)
    ensures SizeOf(HeadOf(mem', hi)) == SizeOf(HeadOf(mem, hi)) && Cinuse(HeadOf(mem', hi)) == Cinuse(HeadOf(mem, hi))
  {
    hide SizeOf, Pinuse, Cinuse, KeepP, SetP, ClearP;
    Flags(HeadOf(mem, hi));
  }

  lemma SplitTagged(mem: Mem, mem': Mem, ch: Tiling, lo: int, mid: int, hi: int, k: Kind)
    requires lo in ch && hi in ch && lo % 16 == 0 && mid % 16 == 0 && hi % 16 == 0 && lo < mid < hi && hi - lo < WORD
    requires mid - lo >= MIN_CHUNK && hi - mid >= (if k.Top? then 16 else MIN_CHUNK) && Ordinary(k)
    requires Follows(k, ch[hi].kind)
    requires k.Top? ==> !Pinuse(HeadOf(mem, hi))
    requires SplitWords(mem, mem', lo, mid, hi, k)
    ensures TwoTagged(mem, mem', ch, lo, mid, hi, Live, k)
  {
    hide SizeOf, Pinuse, Cinuse, HeadIs, EndIs, SplitWords;
    Mod16(mid, lo);
    Mod16(hi, mid);
    SplitFirst(mem, mem', lo, mid, hi, k);
    SplitLast(mem, mem', lo, mid, hi, k);
  }

  lemma TwoPieces(ch: Tiling, lo: int, mid: int, hi: int, k: Kind)
    requires lo < mid < hi && Ordinary(k)
    ensures Pieces(Two(ch, lo, mid, hi, Live, k), lo, hi, mid, k)
    ensures SameOutside(ch, Two(ch, lo, mid, hi, Live, k), lo, hi)
  {
  }

  /** The gathered stretch as a chunk in use followed by a rest. */
  lemma SplitSettles(mem: Mem, mem': Mem, bins: map<int, int>, v: View, v': View, lo: int, mid: int, hi: int, k: Kind)
    requires Partial(mem, bins, v, lo, hi) && Quiet(mem, mem', bins, lo, hi) && SplitWords(mem, mem', lo, mid, hi, k)
    requires mid % 16 == 0 && lo < mid < hi && mid - lo >= MIN_CHUNK && hi - mid >= (if k.Top? then 16 else MIN_CHUNK)
    requires Ordinary(k) && Follows(k, v.ch[hi].kind) && (k.Top? ==> lo <= v.top < hi)
    requires v'.ch == Two(v.ch, lo, mid, hi, Live, k) && RolesAfter(v, v', lo, hi, mid, k)
    ensures FramedView(mem', v') && Kept(mem, v.ch, mem', v'.ch, lo, hi)
    ensures !k.Free? ==> Sound(mem', bins, v')
    ensures k.Free? ==> Unsettled(mem', bins, v', mid)
  {
    hide Partial, FramedView, Stretch, Binned, BinsIn, RolesAfter, Kept, TwoTagged, Quiet, Pieces, Tiled, Change, Two;
    hide Sound, SplitWords, Unsettled;
    PartialFacts(mem, bins, v, lo, hi);
    if k.Top? { FootFacts(mem, bins, v, lo, hi); }
    SplitTagged(mem, mem', v.ch, lo, mid, hi, k);
    TwoChange(mem, mem', v.ch, bins, v.segs, lo, mid, hi, Live, k);
    TwoPieces(v.ch, lo, mid, hi, k);
    Settle(mem, mem', bins, v, v', lo, hi, mid, k);
  }

  /** The words of handing out the front of a free chunk. */
  function CarveTags(mem: Mem, lo: int, mid: int, hi: int): Mem
  {
    mem[lo + HEAD := mid - lo + PINUSE + CINUSE][mid + HEAD := hi - mid + PINUSE][hi := hi - mid]
  }

  lemma CarveWords(mem: Mem, bins: map<int, int>, lo: int, mid: int, hi: int, k: Kind)
    requires Coalesced(k) && Pinuse(HeadOf(mem, lo)) && !Pinuse(HeadOf(mem, hi)) && lo + 16 <= mid && mid + 16 <= hi
    requires lo + HEAD in mem && mid + HEAD in mem && hi in mem
    ensures Quiet(mem, CarveTags(mem, lo, mid, hi), bins, lo, hi)
    ensures SplitWords(mem, CarveTags(mem, lo, mid, hi), lo, mid, hi, k)
  {
    hide Pinuse, LinkWord, BinWord;
    var m1 := mem[lo + HEAD := mid - lo + PINUSE + CINUSE];
    QuietStart(mem, bins, lo, hi);
    QuietWrite(mem, mem, bins, lo, hi, lo + HEAD, mid - lo + PINUSE + CINUSE);
    QuietWrite(mem, m1, bins, lo, hi, mid + HEAD, hi - mid + PINUSE);
    QuietWrite(mem, m1[mid + HEAD := hi - mid + PINUSE], bins, lo, hi, hi, hi - mid);
  }

  /** The words of handing out the front of the top chunk. */
  function CarveTopTags(mem: Mem, lo: int, mid: int, hi: int): Mem
  {
    mem[mid + HEAD := hi - mid + PINUSE][lo + HEAD := mid - lo + PINUSE + CINUSE]
  }

  lemma CarveTopWords(mem: Mem, bins: map<int, int>, lo: int, mid: int, hi: int)
    requires Pinuse(HeadOf(mem, lo)) && lo + 16 <= mid && mid + 16 <= hi && lo + HEAD in mem && mid + HEAD in mem
    ensures Quiet(mem, CarveTopTags(mem, lo, mid, hi), bins, lo, hi)
    ensures SplitWords(mem, CarveTopTags(mem, lo, mid, hi), lo, mid, hi, Top)
  {
    hide Pinuse, LinkWord, BinWord;
    QuietStart(mem, bins, lo, hi);
    QuietWrite(mem, mem, bins, lo, hi, mid + HEAD, hi - mid + PINUSE);
    QuietWrite(mem, mem[mid + HEAD := hi - mid + PINUSE], bins, lo, hi, lo + HEAD, mid - lo + PINUSE + CINUSE);
  }

  /** As `CarveTags`, with the PINUSE bit behind the stretch cleared first. */
  function CarveClearTags(mem: Mem, lo: int, mid: int, hi: int): Mem
  {
    mem[lo + HEAD := mid - lo + PINUSE + CINUSE][hi + HEAD := ClearP(HeadOf(mem, hi))]
       [mid + HEAD := hi - mid + PINUSE][hi := hi - mid]
  }

  lemma CarveClearWords(mem: Mem, bins: map<int, int>, lo: int, mid: int, hi: int, k: Kind)
    requires Coalesced(k) && Pinuse(HeadOf(mem, lo)) && lo + 16 <= mid && mid + 16 <= hi
    requires lo + HEAD in mem && mid + HEAD in mem && hi in mem && hi + HEAD in mem
    ensures Quiet(mem, CarveClearTags(mem, lo, mid, hi), bins, lo, hi)
    ensures SplitWords(mem, CarveClearTags(mem, lo, mid, hi), lo, mid, hi, k)
  {
    hide Pinuse, LinkWord, BinWord, ClearP;
    var m1 := mem[lo + HEAD := mid - lo + PINUSE + CINUSE];
    var m2 := m1[hi + HEAD := ClearP(HeadOf(mem, hi))];
    QuietStart(mem, bins, lo, hi);
    QuietWrite(mem, mem, bins, lo, hi, lo + HEAD, mid - lo + PINUSE + CINUSE);
    QuietWrite(mem, m1, bins, lo, hi, hi + HEAD, ClearP(HeadOf(mem, hi)));
    QuietWrite(mem, m2, bins, lo, hi, mid + HEAD, hi - mid + PINUSE);
    QuietWrite(mem, m2[mid + HEAD := hi - mid + PINUSE], bins, lo, hi, hi, hi - mid);
  }

  /** The words of two `set_inuse` in a row. */
  function CutTags(mem: Mem, lo: int, mid: int, hi: int): Mem
  {
    mem[lo + HEAD := KeepP(HeadOf(mem, lo), mid - lo)][mid + HEAD := hi - mid + PINUSE + CINUSE]
        [hi + HEAD := SetP(HeadOf(mem, hi))]
  }

  lemma CutWords(mem: Mem, bins: map<int, int>, lo: int, mid: int, hi: int)
    requires lo + 16 <= mid && mid + 16 <= hi && lo + HEAD in mem && mid + HEAD in mem && hi + HEAD in mem
    ensures Quiet(mem, CutTags(mem, lo, mid, hi), bins, lo, hi)
    ensures SplitWords(mem, CutTags(mem, lo, mid, hi), lo, mid, hi, Live)
  {
    hide Pinuse, LinkWord, BinWord, SetP, KeepP;
    var m1 := mem[lo + HEAD := KeepP(HeadOf(mem, lo), mid - lo)];
    QuietStart(mem, bins, lo, hi);
    QuietWrite(mem, mem, bins, lo, hi, lo + HEAD, KeepP(HeadOf(mem, lo), mid - lo));
    QuietWrite(mem, m1, bins, lo, hi, mid + HEAD, hi - mid + PINUSE + CINUSE);
    QuietWrite(mem, m1[mid + HEAD := hi - mid + PINUSE + CINUSE], bins, lo, hi, hi + HEAD, SetP(HeadOf(mem, hi)));
  }

  /** Growing a chunk in use into the free chunk behind it, the rest of which stays free. */
  function GrowTags(mem: Mem, lo: int, mid: int, hi: int): Mem
  {
    mem[lo + HEAD := KeepP(HeadOf(mem, lo), mid - lo)][mid + HEAD := hi - mid + PINUSE][hi := hi - mid]
        [hi + HEAD := ClearP(HeadOf(mem, hi))]
  }

  lemma GrowWords(mem: Mem, bins: map<int, int>, lo: int, mid: int, hi: int, k: Kind)
    requires Coalesced(k) && lo + 16 <= mid && mid + 16 <= hi && lo + HEAD in mem && mid + HEAD in mem && hi in mem
    requires hi + HEAD in mem
    ensures Quiet(mem, GrowTags(mem, lo, mid, hi), bins, lo, hi)
    ensures SplitWords(mem, GrowTags(mem, lo, mid, hi), lo, mid, hi, k)
  {
    hide Pinuse, LinkWord, BinWord, ClearP, KeepP;
    var m1 := mem[lo + HEAD := KeepP(HeadOf(mem, lo), mid - lo)];
    var m2 := m1[mid + HEAD := hi - mid + PINUSE];
    QuietStart(mem, bins, lo, hi);
    QuietWrite(mem, mem, bins, lo, hi, lo + HEAD, KeepP(HeadOf(mem, lo), mid - lo));
    QuietWrite(mem, m1, bins, lo, hi, mid + HEAD, hi - mid + PINUSE);
    QuietWrite(mem, m2, bins, lo, hi, hi, hi - mid);
    QuietWrite(mem, m2[hi := hi - mid], bins, lo, hi, hi + HEAD, ClearP(HeadOf(mem, hi)));
  }

  /** Growing a chunk in use into the top chunk. */
  function GrowTopTags(mem: Mem, lo: int, mid: int, hi: int): Mem
  {
    mem[lo + HEAD := KeepP(HeadOf(mem, lo), mid - lo)][mid + HEAD := hi - mid + PINUSE]
  }

  lemma GrowTopWords(mem: Mem, bins: map<int, int>, lo: int, mid: int, hi: int)
    requires lo + 16 <= mid && mid + 16 <= hi && lo + HEAD in mem && mid + HEAD in mem
    ensures Quiet(mem, GrowTopTags(mem, lo, mid, hi), bins, lo, hi)
    ensures SplitWords(mem, GrowTopTags(mem, lo, mid, hi), lo, mid, hi, Top)
  {
    hide Pinuse, LinkWord, BinWord, KeepP;
    QuietStart(mem, bins, lo, hi);
    QuietWrite(mem, mem, bins, lo, hi, lo + HEAD, KeepP(HeadOf(mem, lo), mid - lo));
    QuietWrite(mem, mem[lo + HEAD := KeepP(HeadOf(mem, lo), mid - lo)], bins, lo, hi, mid + HEAD, hi - mid + PINUSE);
  }

  /** Nothing held in the old stretch, one chunk is handed out at its start. */
  lemma GrantHoldings(mem: Mem, ch: Tiling, mem': Mem, ch': Tiling, lo: int, hi: int, size: int)
    requires Kept(mem, ch, mem', ch', lo, hi) && SameOutside(ch, ch', lo, hi) && lo < hi
    requires forall q :: q in ch && lo <= q < hi ==> !Holding(ch[q].kind)
    requires lo in ch' && ch'[lo] == Ck(size, Live)
    requires forall q :: q in ch' && lo < q < hi ==> !Holding(ch'[q].kind)
    ensures lo !in Holdings(ch) && Holdings(ch') == Holdings(ch)[lo := Ck(size, Live)]
    ensures SamePayloads(mem, mem', Holdings(ch))
  {
    var hs, hs' := Holdings(ch)[lo := Ck(size, Live)], Holdings(ch');
    forall q
      ensures q in hs <==> q in hs'
      ensures q in hs ==> hs[q] == hs'[q]
    {
    }
  }
}
