/** Turning a stretch of chunks into one chunk or two: the tag writes behind every allocation and release. */
module Retags {
  import opened Sizes
  import opened Rings
  import opened Heads
  import opened Tries
  import opened Stores
  import opened Tags
  import opened Heaps

  /** The tiling with the stretch `[lo, hi)` taken out. */
  function Outer(ch: Tiling, lo: int, hi: int): Tiling
  {
    map p | p in ch && !(lo <= p < hi) :: ch[p]
  }

  function One(ch: Tiling, lo: int, hi: int, k: Kind): Tiling
  {
    Outer(ch, lo, hi)[lo := Ck(hi - lo, k)]
  }

  function Two(ch: Tiling, lo: int, mid: int, hi: int, k1: Kind, k2: Kind): Tiling
  {
    Outer(ch, lo, hi)[lo := Ck(mid - lo, k1)][mid := Ck(hi - mid, k2)]
  }

  predicate Ordinary(k: Kind) { !k.Record? && !Tail(k) }

  /** A stretch of ordinary chunks inside one segment. */
  ghost predicate Stretch(ch: Tiling, segs: seq<Seg>, lo: int, hi: int)
  {
    && lo in ch && hi in ch && lo < hi && hi - lo < WORD && Plain(ch, lo, hi) && Spans(segs, lo, hi)
  }

  /** Head of a new chunk of kind `k` and size `size` at `p`. */
  ghost predicate HeadIs(mem: Mem, p: int, size: int, k: Kind)
  {
    SizeOf(HeadOf(mem, p)) == size && Cinuse(HeadOf(mem, p)) == Used(k)
  }

  /** What the chunk of kind `k` from `p` to `n` leaves at its end. */
  ghost predicate EndIs(mem: Mem, p: int, n: int, k: Kind)
  {
    Pinuse(HeadOf(mem, n)) == Used(k) && (Coalesced(k) ==> Get(mem, n) == n - p)
  }

  /** The chunk at `hi` shows the size and use it showed before; the chunk at `lo` the same neighbour before it. */
  ghost predicate EdgesKept(mem: Mem, mem': Mem, lo: int, hi: int)
  {
    && SizeOf(HeadOf(mem', hi)) == SizeOf(HeadOf(mem, hi)) && Cinuse(HeadOf(mem', hi)) == Cinuse(HeadOf(mem, hi))
    && Pinuse(HeadOf(mem', lo)) == Pinuse(HeadOf(mem, lo))
  }

  /** The tags of one new chunk over the whole stretch. */
  ghost predicate OneTagged(mem: Mem, mem': Mem, ch: Tiling, lo: int, hi: int, k: Kind)
    requires hi in ch
  {
    && Ordinary(k) && SizedOk(Ck(hi - lo, k)) && Follows(k, ch[hi].kind)
    && HeadIs(mem', lo, hi - lo, k) && EndIs(mem', lo, hi, k) && EdgesKept(mem, mem', lo, hi)
    && (!Pinuse(HeadOf(mem, lo)) ==> k.Live?)
  }

  lemma StretchStart(mem: Mem, ch: Tiling, segs: seq<Seg>, lo: int, hi: int)
    requires Tiled(mem, ch) && Stretch(ch, segs, lo, hi)
    ensures lo > 0 && lo % 16 == 0 && hi % 16 == 0 && Ordinary(ch[lo].kind) && lo + ch[lo].size <= hi && hi - lo >= 16
  {
    assert Tagged(mem, ch, lo) && Tagged(mem, ch, hi);
    Apart(ch, lo, hi);
  }

  /** The foot at `lo` leads back to a chunk outside the stretch, as before. */
  lemma PrevKept(mem: Mem, mem': Mem, ch: Tiling, ch': Tiling, bins: map<int, int>, lo: int, hi: int)
    requires Tiled(mem, ch) && BinsIn(bins, ch) && Quiet(mem, mem', bins, lo, hi) && lo in ch && hi in ch && lo < hi
    requires SameOutside(ch, ch', lo, hi) && !Tail(ch[lo].kind)
    requires Pinuse(HeadOf(mem', lo)) == Pinuse(HeadOf(mem, lo))
    ensures !Pinuse(HeadOf(mem', lo)) ==> PrevFree(mem', ch', lo)
  {
    assert Tagged(mem, ch, lo);
    QuietTags(mem, mem', ch, bins, lo, hi, lo);
    if !Pinuse(HeadOf(mem, lo)) { assert Tagged(mem, ch, lo - Get(mem, lo)); }
  }

  lemma OneInner(mem: Mem, mem': Mem, ch: Tiling, bins: map<int, int>, lo: int, hi: int, k: Kind)
    requires Tiled(mem, ch) && BinsIn(bins, ch) && Quiet(mem, mem', bins, lo, hi) && lo in ch && hi in ch && lo < hi
    requires lo > 0 && lo % 16 == 0 && !Tail(ch[lo].kind)
    requires OneTagged(mem, mem', ch, lo, hi, k)
    ensures Inner(mem', One(ch, lo, hi, k), lo, hi)
    ensures SameOutside(ch, One(ch, lo, hi, k), lo, hi)
  {
    var ch' := One(ch, lo, hi, k);
    PrevKept(mem, mem', ch, ch', bins, lo, hi);
    assert Tagged(mem', ch', lo);
  }

  /** One new chunk is a proper change of the stretch. */
  lemma OneChange(mem: Mem, mem': Mem, ch: Tiling, bins: map<int, int>, segs: seq<Seg>, lo: int, hi: int, k: Kind)
    requires Tiled(mem, ch) && BinsIn(bins, ch) && Quiet(mem, mem', bins, lo, hi) && Stretch(ch, segs, lo, hi)
    requires OneTagged(mem, mem', ch, lo, hi, k)
    ensures Change(mem, mem', ch, One(ch, lo, hi, k), bins, segs, lo, hi)
  {
    var ch' := One(ch, lo, hi, k);
    StretchStart(mem, ch, segs, lo, hi);
    OneInner(mem, mem', ch, bins, lo, hi, k);
    assert hi - (hi - lo) == lo && lo in ch';
  }

  /** The tags of two new chunks over the stretch. */
  ghost predicate TwoTagged(mem: Mem, mem': Mem, ch: Tiling, lo: int, mid: int, hi: int, k1: Kind, k2: Kind)
    requires hi in ch
  {
    && lo < mid < hi && Ordinary(k1) && Ordinary(k2) && Follows(k1, k2) && Follows(k2, ch[hi].kind)
    && SizedOk(Ck(mid - lo, k1)) && SizedOk(Ck(hi - mid, k2))
    && HeadIs(mem', lo, mid - lo, k1) && EndIs(mem', lo, mid, k1)
    && HeadIs(mem', mid, hi - mid, k2) && EndIs(mem', mid, hi, k2) && EdgesKept(mem, mem', lo, hi)
    && (!Pinuse(HeadOf(mem, lo)) ==> k1.Live?)
  }

  lemma TwoInner(mem: Mem, mem': Mem, ch: Tiling, bins: map<int, int>, lo: int, mid: int, hi: int, k1: Kind, k2: Kind)
    requires Tiled(mem, ch) && BinsIn(bins, ch) && Quiet(mem, mem', bins, lo, hi) && lo in ch && hi in ch && lo < hi
    requires lo > 0 && lo % 16 == 0 && !Tail(ch[lo].kind)
    requires TwoTagged(mem, mem', ch, lo, mid, hi, k1, k2)
    ensures Inner(mem', Two(ch, lo, mid, hi, k1, k2), lo, hi)
    ensures SameOutside(ch, Two(ch, lo, mid, hi, k1, k2), lo, hi)
  {
    hide SizeOf, Cinuse, Pinuse, BinsIn, Quiet;
    var ch' := Two(ch, lo, mid, hi, k1, k2);
    PrevKept(mem, mem', ch, ch', bins, lo, hi);
    assert Tagged(mem', ch', lo);
    assert mid - (mid - lo) == lo;
    assert Tagged(mem', ch', mid);
  }

  /** Two new chunks are a proper change of the stretch. */
  lemma TwoChange(mem: Mem, mem': Mem, ch: Tiling, bins: map<int, int>, segs: seq<Seg>, lo: int, mid: int, hi: int,
      k1: Kind, k2: Kind)
    requires Tiled(mem, ch) && BinsIn(bins, ch) && Quiet(mem, mem', bins, lo, hi) && Stretch(ch, segs, lo, hi)
    requires TwoTagged(mem, mem', ch, lo, mid, hi, k1, k2)
    ensures Change(mem, mem', ch, Two(ch, lo, mid, hi, k1, k2), bins, segs, lo, hi)
  {
    var ch' := Two(ch, lo, mid, hi, k1, k2);
    StretchStart(mem, ch, segs, lo, hi);
    TwoInner(mem, mem', ch, bins, lo, mid, hi, k1, k2);
    assert hi - (hi - mid) == mid && mid in ch';
  }
}
