/** Boundary tags: the tiling of system memory into chunks and its image in head and foot words. */
module Tags {
  import opened Sizes
  import opened Rings
  import opened Heads
  import opened Tries
  import opened Stores

  /** What a stretch of a segment is: handed out, holding a segment record, in a bin, the designated victim, the top
      chunk, the foot kept behind the top chunk, or the fenceposts that close an older segment. */
  datatype Kind = Live | Record | Free | Victim | Top | Foot | Fence

  datatype Ck = Ck(size: int, kind: Kind)

  /** All chunks of all segments by address. */
  type Tiling = map<int, Ck>

  predicate Used(k: Kind) { k.Live? || k.Record? || k.Fence? }

  predicate Tail(k: Kind) { k.Foot? || k.Fence? }

  predicate Coalesced(k: Kind) { k.Free? || k.Victim? }

  /** What may directly follow what: no two free chunks are adjacent, top is last, records are fenced off. */
  predicate Follows(k: Kind, next: Kind)
  {
    match k
    case Live => !Tail(next)
    case Record => next.Fence?
    case Free => next.Live? || next.Record?
    case Victim => next.Live? || next.Record?
    case Top => next.Foot?
    case Foot => false
    case Fence => false
  }

  /** The size that the head word shows. */
  function ShownSize(c: Ck): int { if c.kind.Foot? then TOP_FOOT else if c.kind.Fence? then 8 else c.size }

  function HeadOf(mem: Mem, p: int): int { Get(mem, p + HEAD) }

  predicate SizedOk(c: Ck) { c.size % 16 == 0 && c.size < WORD && c.size >= (if c.kind.Top? then 16 else MIN_CHUNK) }

  /** The foot of the chunk before `p` leads back to that chunk, which is free. */
  ghost predicate PrevFree(mem: Mem, ch: Tiling, p: int)
  {
    var q := p - Get(mem, p);
    q in ch && q + ch[q].size == p && Coalesced(ch[q].kind)
  }

  /** The next chunk records whether this one is in use, and its size in the foot if it is not. */
  ghost predicate NextOk(mem: Mem, ch: Tiling, p: int)
    requires p in ch
  {
    var n := p + ch[p].size;
    && n in ch && Follows(ch[p].kind, ch[n].kind)
    && Pinuse(HeadOf(mem, n)) == Used(ch[p].kind)
    && (Coalesced(ch[p].kind) ==> Get(mem, n) == ch[p].size)
  }

  /** The boundary tags of one chunk. */
  ghost predicate Tagged(mem: Mem, ch: Tiling, p: int)
    requires p in ch
  {
    var c := ch[p];
    && p > 0 && p % 16 == 0 && SizedOk(c)
    && SizeOf(HeadOf(mem, p)) == ShownSize(c) && Cinuse(HeadOf(mem, p)) == Used(c.kind)
    && (!Tail(c.kind) ==> NextOk(mem, ch, p))
    && (!Pinuse(HeadOf(mem, p)) && !c.kind.Foot? ==> PrevFree(mem, ch, p))
  }

  ghost predicate Disjoint(ch: Tiling)
  {
    forall p, q :: p in ch && q in ch && p < q ==> p + ch[p].size <= q
  }

  ghost predicate Tiled(mem: Mem, ch: Tiling)
  {
    && Disjoint(ch)
    && forall p {:trigger Tagged(mem, ch, p)} :: p in ch ==> Tagged(mem, ch, p)
  }

  /** Every word of every chunk is addressable. */
  ghost predicate Backed(mem: Mem, ch: Tiling)
  {
    forall p, a :: p in ch && p <= a < p + ch[p].size && a % 8 == 0 ==> a in mem
  }

  /** The bins hold chunks that the tiling knows as free. */
  ghost predicate BinsIn(bins: map<int, int>, ch: Tiling)
  {
    forall p :: p in bins ==> p in ch && ch[p].size == bins[p] && ch[p].kind.Free?
  }

  lemma Apart(ch: Tiling, p: int, q: int)
    requires Disjoint(ch) && p in ch && q in ch && p != q
    ensures p + ch[p].size <= q || q + ch[q].size <= p
  {
  }

  /** Tag words are never links of a binned chunk. */
  lemma TagNotLink(mem: Mem, ch: Tiling, bins: map<int, int>, p: int)
    requires Tiled(mem, ch) && BinsIn(bins, ch) && p in ch
    ensures !LinkWord(bins, p) && !LinkWord(bins, p + HEAD) && !BinWord(p) && !BinWord(p + HEAD)
  {
    assert Tagged(mem, ch, p);
    forall q | q in bins
      ensures !(q + PREV <= p < q + LinkEnd(bins[q])) && !(q + PREV <= p + HEAD < q + LinkEnd(bins[q]))
    {
      assert Tagged(mem, ch, q);
      if p != q { Apart(ch, p, q); }
    }
  }

  // ---------------------------------------------------------------- changing a stretch

  /** The two tilings agree outside `[lo, hi)`. */
  ghost predicate SameOutside(ch: Tiling, ch': Tiling, lo: int, hi: int)
  {
    forall p :: p < lo || p >= hi ==> (p in ch <==> p in ch') && (p in ch ==> ch'[p] == ch[p])
  }

  /** Memory outside `[lo + 8, hi + 16)` changes only in links of binned chunks. */
  ghost predicate Quiet(mem: Mem, mem': Mem, bins: map<int, int>, lo: int, hi: int)
  {
    && mem'.Keys == mem.Keys
    && forall a :: (a < lo + HEAD || a >= hi + 16) && !BinWord(a) && !LinkWord(bins, a) ==> Get(mem', a) == Get(mem, a)
  }

  /** The new chunks of the stretch. */
  ghost predicate Inner(mem': Mem, ch': Tiling, lo: int, hi: int)
  {
    && (forall p {:trigger Tagged(mem', ch', p)} :: p in ch' && lo <= p < hi ==>
        p + ch'[p].size <= hi && Tagged(mem', ch', p))
    && (forall p, q :: p in ch' && q in ch' && lo <= p < q < hi ==> p + ch'[p].size <= q)
  }

  /** The chunk before the stretch still sees what it saw at `lo`. */
  ghost predicate Entrance(mem: Mem, mem': Mem, ch: Tiling, ch': Tiling, lo: int)
  {
    && lo in ch && lo in ch' && !Tail(ch[lo].kind) && !Tail(ch'[lo].kind) && !ch[lo].kind.Record?
    && !ch'[lo].kind.Record?
    && Pinuse(HeadOf(mem', lo)) == Pinuse(HeadOf(mem, lo))
    && (!Pinuse(HeadOf(mem, lo)) ==> ch'[lo].kind.Live?)
  }

  /** The chunk at the end of the stretch changed at most its PINUSE bit. */
  ghost predicate Exit(mem: Mem, mem': Mem, ch: Tiling, ch': Tiling, hi: int)
  {
    && hi in ch && SizeOf(HeadOf(mem', hi)) == SizeOf(HeadOf(mem, hi))
    && Cinuse(HeadOf(mem', hi)) == Cinuse(HeadOf(mem, hi))
    && (!Pinuse(HeadOf(mem', hi)) && !ch[hi].kind.Foot? ==> PrevFree(mem', ch', hi))
  }

  lemma QuietTags(mem: Mem, mem': Mem, ch: Tiling, bins: map<int, int>, lo: int, hi: int, p: int)
    requires Tiled(mem, ch) && BinsIn(bins, ch) && Quiet(mem, mem', bins, lo, hi) && p in ch && lo in ch && hi in ch
    requires lo < hi
    ensures p < lo || p > hi ==> Get(mem', p) == Get(mem, p) && HeadOf(mem', p) == HeadOf(mem, p)
    ensures Get(mem', lo) == Get(mem, lo)
  {
    TagNotLink(mem, ch, bins, p);
    TagNotLink(mem, ch, bins, lo);
    assert Tagged(mem, ch, hi) && Tagged(mem, ch, p);
    if p > hi { Apart(ch, p, hi); }
  }

  /** A chunk before the stretch. */
  lemma SpliceBefore(mem: Mem, mem': Mem, ch: Tiling, ch': Tiling, bins: map<int, int>, lo: int, hi: int, p: int)
    requires Tiled(mem, ch) && BinsIn(bins, ch) && Quiet(mem, mem', bins, lo, hi) && SameOutside(ch, ch', lo, hi)
    requires Entrance(mem, mem', ch, ch', lo) && hi in ch && p in ch && p < lo < hi
    ensures p in ch' && Tagged(mem', ch', p)
  {
    hide LinkWord, BinWord, SizeOf, Cinuse, Pinuse;
    assert Tagged(mem, ch, p) && Tagged(mem, ch, lo);
    Apart(ch, p, lo);
    QuietTags(mem, mem', ch, bins, lo, hi, p);
    if !Tail(ch[p].kind) {
      var n := p + ch[p].size;
      assert Tagged(mem, ch, n);
      QuietTags(mem, mem', ch, bins, lo, hi, n);
    }
    if !Pinuse(HeadOf(mem, p)) && !ch[p].kind.Foot? {
      assert Tagged(mem, ch, p - Get(mem, p));
    }
  }

  /** A chunk at or behind the end of the stretch. */
  lemma SpliceAfter(mem: Mem, mem': Mem, ch: Tiling, ch': Tiling, bins: map<int, int>, lo: int, hi: int, p: int)
    requires Tiled(mem, ch) && BinsIn(bins, ch) && Quiet(mem, mem', bins, lo, hi) && SameOutside(ch, ch', lo, hi)
    requires Exit(mem, mem', ch, ch', hi) && lo in ch && p in ch && lo < hi <= p
    ensures p in ch' && Tagged(mem', ch', p)
  {
    hide LinkWord, BinWord, SizeOf, Cinuse, Pinuse;
    assert Tagged(mem, ch, p);
    QuietTags(mem, mem', ch, bins, lo, hi, p);
    if !Tail(ch[p].kind) {
      var n := p + ch[p].size;
      QuietTags(mem, mem', ch, bins, lo, hi, n);
    }
    if p > hi && !Pinuse(HeadOf(mem, p)) && !ch[p].kind.Foot? {
      var q := p - Get(mem, p);
      assert Tagged(mem, ch, q);
      if q < hi { Apart(ch, q, hi); }
    }
  }

  lemma SpliceDisjoint(mem: Mem, mem': Mem, ch: Tiling, ch': Tiling, lo: int, hi: int)
    requires Tiled(mem, ch) && SameOutside(ch, ch', lo, hi) && Inner(mem', ch', lo, hi) && lo in ch && hi in ch
    requires lo < hi
    ensures Disjoint(ch')
  {
    forall p, q | p in ch' && q in ch' && p < q
      ensures p + ch'[p].size <= q
    {
      if p < lo { Apart(ch, p, lo); assert Tagged(mem, ch, lo); }
      if lo <= p < hi { assert Tagged(mem', ch', p); }
      if p >= hi || q < lo || (p < lo && q >= hi) { Apart(ch, p, q); assert Tagged(mem, ch, q); }
    }
  }

  /** Retagging a stretch of whole chunks keeps the tiling if the new chunks are tagged among themselves and the
      two ends fit their neighbours. */
  lemma Splice(mem: Mem, mem': Mem, ch: Tiling, ch': Tiling, bins: map<int, int>, lo: int, hi: int)
    requires Tiled(mem, ch) && BinsIn(bins, ch) && Quiet(mem, mem', bins, lo, hi) && SameOutside(ch, ch', lo, hi)
    requires lo < hi
    requires Entrance(mem, mem', ch, ch', lo) && Exit(mem, mem', ch, ch', hi) && Inner(mem', ch', lo, hi)
    ensures Tiled(mem', ch')
  {
    SpliceDisjoint(mem, mem', ch, ch', lo, hi);
    forall p | p in ch'
      ensures Tagged(mem', ch', p)
    {
      if p < lo {
        SpliceBefore(mem, mem', ch, ch', bins, lo, hi, p);
      } else if p >= hi {
        SpliceAfter(mem, mem', ch, ch', bins, lo, hi, p);
      } else {
        assert Tagged(mem', ch', p);
      }
    }
  }

  /** Bin operations do not touch tags. */
  lemma LinksKeepTiled(mem: Mem, mem': Mem, ch: Tiling, bins: map<int, int>)
    requires Tiled(mem, ch) && BinsIn(bins, ch) && OnlyLinks(mem, mem', bins)
    ensures Tiled(mem', ch)
  {
    forall p | p in ch
      ensures Get(mem', p) == Get(mem, p) && HeadOf(mem', p) == HeadOf(mem, p)
    {
      TagNotLink(mem, ch, bins, p);
    }
    forall p | p in ch
      ensures Tagged(mem', ch, p)
    {
      LinksKeepTagged(mem, mem', ch, p);
    }
  }

  lemma LinksKeepTagged(mem: Mem, mem': Mem, ch: Tiling, p: int)
    requires p in ch && Tagged(mem, ch, p)
    requires forall q :: q in ch ==> Get(mem', q) == Get(mem, q) && HeadOf(mem', q) == HeadOf(mem, q)
    ensures Tagged(mem', ch, p)
  {
  }
}
