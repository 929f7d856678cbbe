/** What a chunk in use sees of its neighbours: the readings behind coalescing. */
module Coalescing {
  import opened Sizes
  import opened Rings
  import opened Heads
  import opened Tries
  import opened Stores
  import opened Tags
  import opened Heaps
  import opened Retags
  import opened HeapOps

  lemma KeptSelf(mem: Mem, ch: Tiling, lo: int, hi: int)
    ensures Kept(mem, ch, mem, ch, lo, hi)
  {
  }

  /** Growing the stretch only forgets. */
  lemma KeptWider(mem: Mem, ch: Tiling, mem': Mem, ch': Tiling, lo: int, hi: int, lo': int, hi': int)
    requires Kept(mem, ch, mem', ch', lo, hi) && lo' <= lo && hi <= hi'
    ensures Kept(mem, ch, mem', ch', lo', hi')
  {
  }

  /** A chunk in use is never marked as directly mapped. */
  lemma NotMmapped(mem: Mem, ch: Tiling, p: int)
    requires Tiled(mem, ch) && p in ch && ch[p].kind.Live?
    ensures !Mmapped(HeadOf(mem, p)) && SizeOf(HeadOf(mem, p)) == ch[p].size
  {
    assert Tagged(mem, ch, p);
  }

  /** Two chunks inside one segment are less than the address space apart. */
  lemma SpanSize(mem: Mem, ch: Tiling, segs: seq<Seg>, lo: int, hi: int)
    requires SegsOk(mem, ch, segs) && Spans(segs, lo, hi)
    ensures hi - lo < WORD
  {
    var i :| 0 <= i < |segs| && segs[i].base <= lo && hi < End(segs[i]);
    assert SegOk(mem, ch, segs, i);
  }

  /** Where PINUSE is clear, the foot leads to the free chunk before, and nothing free lies before that one. */
  lemma BackFacts(mem: Mem, ch: Tiling, p: int)
    requires Tiled(mem, ch) && p in ch && ch[p].kind.Live? && !Pinuse(HeadOf(mem, p))
    ensures var q := p - Get(mem, p);
            && q in ch && q + ch[q].size == p && ch[q].size == Get(mem, p) && Coalesced(ch[q].kind)
            && Pinuse(HeadOf(mem, q)) && Get(mem, p) >= MIN_CHUNK
  {
    assert Tagged(mem, ch, p);
    var q := p - Get(mem, p);
    assert Tagged(mem, ch, q);
    FreeAfterUsed(mem, ch, q);
  }

  lemma FreeAfterUsed(mem: Mem, ch: Tiling, q: int)
    requires Tiled(mem, ch) && q in ch && (Coalesced(ch[q].kind) || ch[q].kind.Top?)
    ensures Pinuse(HeadOf(mem, q))
  {
    assert Tagged(mem, ch, q);
    var r := q - Get(mem, q);
    assert r in ch ==> Tagged(mem, ch, r);
  }

  /** Which free chunk is which. */
  lemma Roles(mem: Mem, v: View, q: int)
    requires FramedView(mem, v) && q in v.ch
    ensures v.ch[q].kind.Victim? <==> q == v.dv
    ensures v.ch[q].kind.Top? <==> q == v.top
    ensures q == v.dv ==> v.ch[q].size == v.dvsize
    ensures q == v.top ==> v.ch[q].size == v.topsize
    ensures q > 0
  {
    assert Tagged(mem, v.ch, q);
  }

  /** The stretch `[lo, hi)` is a chunk in use at `p`, possibly with one free chunk before it. */
  ghost predicate Joined(ch: Tiling, lo: int, p: int, hi: int)
  {
    && lo in ch && p in ch && ch[p].kind.Live? && p + ch[p].size == hi
    && (lo == p || (lo + ch[lo].size == p && Coalesced(ch[lo].kind)))
  }

  lemma JoinedAll(mem: Mem, ch: Tiling, lo: int, p: int, hi: int)
    requires Tiled(mem, ch) && Joined(ch, lo, p, hi)
    ensures forall q :: q in ch && lo <= q < hi ==> q == lo || q == p
  {
    StretchAlone(mem, ch, lo);
    StretchAlone(mem, ch, p);
  }

  /** In such a stretch the victim can only be the free chunk at its start, and top is not in it. */
  lemma JoinedRoles(mem: Mem, v: View, lo: int, p: int, hi: int)
    requires FramedView(mem, v) && Joined(v.ch, lo, p, hi)
    ensures lo <= v.dv < hi ==> v.dv == lo && lo != p
    ensures !(lo <= v.top < hi)
    ensures lo == v.dv <==> v.ch[lo].kind.Victim?
    ensures hi - lo >= MIN_CHUNK && lo <= p
  {
    hide Held, SegOk, SegsOk, Backed;
    assert Tagged(mem, v.ch, p) && Tagged(mem, v.ch, lo);
    JoinedAll(mem, v.ch, lo, p, hi);
    Roles(mem, v, lo);
    Roles(mem, v, p);
  }

  /** The roles in a joined stretch with one more chunk behind it. */
  lemma ForthRoles(mem: Mem, v: View, lo: int, p: int, next: int)
    requires FramedView(mem, v) && Joined(v.ch, lo, p, next) && next in v.ch
    ensures v.ch[next].size >= 16
    ensures var hi := next + v.ch[next].size;
            (lo <= v.dv < hi ==> v.dv == lo || v.dv == next) && (lo <= v.top < hi ==> v.top == next)
  {
    hide Held, SegOk, SegsOk, Backed;
    assert Tagged(mem, v.ch, next);
    JoinedRoles(mem, v, lo, p, next);
    StretchAlone(mem, v.ch, next);
    assert Tagged(mem, v.ch, lo);
  }

  /** Bin operations leave heads alone. */
  lemma LinksHead(mem: Mem, mem': Mem, ch: Tiling, bins: map<int, int>, p: int)
    requires Tiled(mem, ch) && BinsIn(bins, ch) && OnlyLinks(mem, mem', bins) && p in ch
    ensures HeadOf(mem', p) == HeadOf(mem, p)
  {
    TagNotLink(mem, ch, bins, p);
  }

  /** What follows a chunk in use. */
  lemma NextFacts(mem: Mem, bins: map<int, int>, v: View, lo: int, p: int, hi: int)
    requires Partial(mem, bins, v, lo, hi) && p in v.ch && v.ch[p].kind.Live? && p + v.ch[p].size == hi
    ensures hi in v.ch && !Tail(v.ch[hi].kind) && Pinuse(HeadOf(mem, hi)) && SizeOf(HeadOf(mem, hi)) == v.ch[hi].size
    ensures Cinuse(HeadOf(mem, hi)) ==> v.ch[hi].kind.Live? || v.ch[hi].kind.Record?
    ensures !Cinuse(HeadOf(mem, hi)) ==> Coalesced(v.ch[hi].kind) || v.ch[hi].kind.Top?
    ensures v.ch[hi].kind.Free? ==> hi in bins && bins[hi] == v.ch[hi].size
  {
    hide SegOk, Held, Spans;
    assert Tagged(mem, v.ch, p) && Tagged(mem, v.ch, hi);
  }

  /** What follows a chunk in use is a chunk of at least 16 bytes. */
  lemma UsedNext(mem: Mem, ch: Tiling, p: int)
    requires Tiled(mem, ch) && p in ch && ch[p].kind.Live?
    ensures var n := p + ch[p].size; n in ch && ch[n].size >= 16 && ch[p].size >= MIN_CHUNK
  {
    hide SizeOf, Cinuse, Pinuse;
    assert Tagged(mem, ch, p) && Tagged(mem, ch, p + ch[p].size);
  }

  /** What follows a free chunk. */
  lemma PastFree(mem: Mem, ch: Tiling, q: int)
    requires Tiled(mem, ch) && q in ch && Coalesced(ch[q].kind)
    ensures var n := q + ch[q].size; n in ch && (ch[n].kind.Live? || ch[n].kind.Record?) && !Pinuse(HeadOf(mem, n))
  {
    assert Tagged(mem, ch, q);
  }

  /** Taking the free or top chunk behind the stretch into it. */
  lemma TakeForth(mem: Mem, bins: map<int, int>, v: View, lo: int, hi: int)
    requires Partial(mem, bins, v, lo, hi) && Ordinary(v.ch[hi].kind)
    ensures Partial(mem, bins - {hi}, v, lo, hi + v.ch[hi].size)
  {
    hide Held, SegOk, BinsIn, Disjoint;
    SpanOne(mem, v.ch, v.segs, hi);
    assert Tagged(mem, v.ch, hi);
    SpanJoin(v.segs, lo, hi, hi + v.ch[hi].size);
    SpanSize(mem, v.ch, v.segs, lo, hi + v.ch[hi].size);
    ExtendForth(mem, bins, v, lo, hi);
  }

  lemma TakeBack(mem: Mem, bins: map<int, int>, v: View, p: int, lo: int, hi: int)
    requires Partial(mem, bins, v, lo, hi) && p in v.ch && p + v.ch[p].size == lo && Ordinary(v.ch[p].kind)
    ensures Partial(mem, bins - {p}, v, p, hi)
  {
    hide Held, SegOk, BinsIn, Disjoint;
    SpanOne(mem, v.ch, v.segs, p);
    assert Tagged(mem, v.ch, p);
    SpanJoin(v.segs, p, lo, hi);
    SpanSize(mem, v.ch, v.segs, p, hi);
    ExtendBack(mem, bins, v, p, lo, hi);
  }

  /** Releasing the chunk `p`: everything else the program holds is where and what it was. */
  ghost predicate Released(mem: Mem, ch: Tiling, mem': Mem, ch': Tiling, p: int)
  {
    Holdings(ch') == Holdings(ch) - {p} && SamePayloads(mem, mem', Holdings(ch'))
  }

  /** The stretch from a joined start to `hi`, nothing but `p` in use, became one free chunk. */
  lemma JoinedReleased(mem: Mem, ch: Tiling, mem': Mem, ch': Tiling, lo: int, p: int, next: int, hi: int, k: Kind)
    requires Tiled(mem, ch) && Joined(ch, lo, p, next) && Kept(mem, ch, mem', ch', lo, hi)
    requires ch' == One(ch, lo, hi, k) && !k.Live?
    requires hi == next || (next in ch && !ch[next].kind.Live? && hi == next + ch[next].size)
    ensures Released(mem, ch, mem', ch', p)
  {
    hide Kept, SamePayloads;
    assert Tagged(mem, ch, lo) && Tagged(mem, ch, p);
    JoinedAll(mem, ch, lo, p, next);
    if hi != next { StretchAlone(mem, ch, next); assert Tagged(mem, ch, next); }
    ReleaseHoldings(mem, ch, mem', ch', lo, hi, p);
  }

  // ---------------------------------------------------------------- handing out

  /** One more chunk in the hands of the program; all others are where and what they were. */
  ghost predicate Granted(mem: Mem, ch: Tiling, mem': Mem, ch': Tiling, p: int, size: int)
  {
    p !in Holdings(ch) && Holdings(ch') == Holdings(ch)[p := Ck(size, Live)] && SamePayloads(mem, mem', Holdings(ch))
  }

  /** The roles in a stretch of one chunk. */
  lemma LoneRoles(mem: Mem, v: View, p: int)
    requires FramedView(mem, v) && p in v.ch
    ensures var hi := p + v.ch[p].size;
            (p <= v.dv < hi ==> v.dv == p) && (p <= v.top < hi ==> v.top == p)
  {
    hide Held, SegOk, SegsOk, Backed;
    StretchAlone(mem, v.ch, p);
    assert Tagged(mem, v.ch, p);
  }

  /** A free chunk handed out whole. */
  lemma WholeGranted(mem: Mem, ch: Tiling, mem': Mem, ch': Tiling, p: int)
    requires Tiled(mem, ch) && p in ch && !ch[p].kind.Live? && Kept(mem, ch, mem', ch', p, p + ch[p].size)
    requires ch' == One(ch, p, p + ch[p].size, Live)
    ensures Granted(mem, ch, mem', ch', p, ch[p].size)
  {
    hide Kept, SamePayloads;
    assert Tagged(mem, ch, p);
    StretchAlone(mem, ch, p);
    GrantHoldings(mem, ch, mem', ch', p, p + ch[p].size, ch[p].size);
  }

  /** The front of a free chunk handed out. */
  lemma FrontGranted(mem: Mem, ch: Tiling, mem': Mem, ch': Tiling, p: int, mid: int, k: Kind)
    requires Tiled(mem, ch) && p in ch && !ch[p].kind.Live? && Kept(mem, ch, mem', ch', p, p + ch[p].size)
    requires p < mid < p + ch[p].size && ch' == Two(ch, p, mid, p + ch[p].size, Live, k) && !k.Live?
    ensures Granted(mem, ch, mem', ch', p, mid - p)
  {
    hide Kept, SamePayloads;
    assert Tagged(mem, ch, p);
    StretchAlone(mem, ch, p);
    GrantHoldings(mem, ch, mem', ch', p, p + ch[p].size, mid - p);
  }

  /** Reusing a grant across a step that keeps all holdings. */
  lemma GrantedThen(m0: Mem, c0: Tiling, m1: Mem, c1: Tiling, m2: Mem, c2: Tiling, p: int, size: int)
    requires Granted(m0, c0, m1, c1, p, size) && Holdings(c2) == Holdings(c1) && SamePayloads(m1, m2, Holdings(c1))
    ensures Granted(m0, c0, m2, c2, p, size)
  {
    var hs := Holdings(c0);
    forall q, a | q in hs && q + MEM_OFFSET <= a < q + hs[q].size + 8
      ensures Get(m2, a) == Get(m0, a)
    {
      assert Holdings(c1)[q] == hs[q];
      assert Get(m1, a) == Get(m0, a);
    }
  }

  // ---------------------------------------------------------------- a new designated victim

  /** The tiling in which `q`, the old victim if any, is free and `r` is the victim. */
  function Swapped(ch: Tiling, q: int, r: int): Tiling
    requires r in ch && (q != NULL ==> q in ch)
  {
    (if q == NULL then ch else ch[q := Ck(ch[q].size, Free)])[r := Ck(ch[r].size, Victim)]
  }

  /** Two tilings that differ only in which free chunks are the victim have the same tags. */
  lemma SwapTagged(mem: Mem, ch: Tiling, ch': Tiling, p: int)
    requires Tiled(mem, ch) && p in ch && ch'.Keys == ch.Keys
    requires forall q :: q in ch ==>
      ch'[q] == ch[q] || (ch'[q].size == ch[q].size && Coalesced(ch[q].kind) && Coalesced(ch'[q].kind))
    ensures Tagged(mem, ch', p)
  {
    hide SizeOf, Pinuse, Cinuse;
    assert Tagged(mem, ch, p);
  }

  ghost predicate SameButVictim(ch: Tiling, ch': Tiling)
  {
    && ch'.Keys == ch.Keys
    && forall q :: q in ch ==>
         ch'[q] == ch[q] || (ch'[q].size == ch[q].size && Coalesced(ch[q].kind) && Coalesced(ch'[q].kind))
  }

  lemma SwapTiled(mem: Mem, ch: Tiling, ch': Tiling)
    requires Tiled(mem, ch) && SameButVictim(ch, ch')
    ensures Tiled(mem, ch') && (Backed(mem, ch) ==> Backed(mem, ch'))
  {
    forall p | p in ch'
      ensures Tagged(mem, ch', p)
    {
      SwapTagged(mem, ch, ch', p);
    }
  }

  lemma SwapSegs(mem: Mem, ch: Tiling, ch': Tiling, segs: seq<Seg>)
    requires SegsOk(mem, ch, segs) && SameButVictim(ch, ch')
    ensures SegsOk(mem, ch', segs)
  {
    forall i | 0 <= i < |segs|
      ensures SegOk(mem, ch', segs, i)
    {
      assert SegOk(mem, ch, segs, i);
    }
    forall p | p in ch'
      ensures Held(segs, p, ch'[p])
    {
      assert Held(segs, p, ch[p]);
      var i :| 0 <= i < |segs| && Holds(segs[i], p, ch[p]);
      assert Holds(segs[i], p, ch'[p]);
    }
  }

  lemma SwapHoldings(mem: Mem, ch: Tiling, ch': Tiling)
    requires SameButVictim(ch, ch')
    ensures Holdings(ch') == Holdings(ch)
  {
    var hs, hs' := Holdings(ch), Holdings(ch');
    forall p
      ensures p in hs <==> p in hs'
      ensures p in hs ==> hs[p] == hs'[p]
    {
      assert p in ch' <==> p in ch;
    }
  }

  /** `r`, free but not binned, takes the place of the victim, which is then itself free but not binned. */
  lemma SwapVictim(mem: Mem, bins: map<int, int>, v: View, v': View, r: int)
    requires Unsettled(mem, bins, v, r)
    requires v.dv != NULL ==> v.dv in v.ch
    requires v' == v.(ch := Swapped(v.ch, v.dv, r), dv := r, dvsize := v.ch[r].size)
    ensures v.dv == NULL ==> Sound(mem, bins, v')
    ensures v.dv != NULL ==> Unsettled(mem, bins, v', v.dv) && v'.ch[v.dv].size == v.dvsize
    ensures Holdings(v'.ch) == Holdings(v.ch)
  {
    hide Tiled, Backed, SegsOk, Held, VictimOk, TopOk, OneTop, BinsIn;
    SwapSame(mem, bins, v, r);
    SwapTiled(mem, v.ch, v'.ch);
    SwapSegs(mem, v.ch, v'.ch, v.segs);
    SwapHoldings(mem, v.ch, v'.ch);
    SwapRoles(mem, bins, v, v', r);
    SwapBins(mem, bins, v, v', r);
  }

  lemma SwapRoles(mem: Mem, bins: map<int, int>, v: View, v': View, r: int)
    requires Unsettled(mem, bins, v, r)
    requires v.dv != NULL ==> v.dv in v.ch
    requires v' == v.(ch := Swapped(v.ch, v.dv, r), dv := r, dvsize := v.ch[r].size)
    ensures VictimOk(v'.ch, v'.dv, v'.dvsize) && TopOk(v'.ch, v'.segs, v'.top, v'.topsize) && OneTop(v'.ch, v'.top)
    ensures v.dv != NULL ==> v'.ch[v.dv] == Ck(v.dvsize, Free)
  {
    hide SegsOk, BinsIn;
    forall q | q in v.ch
      ensures q > 0
    {
      assert Tagged(mem, v.ch, q);
    }
  }

  lemma SwapBins(mem: Mem, bins: map<int, int>, v: View, v': View, r: int)
    requires Unsettled(mem, bins, v, r)
    requires v.dv != NULL ==> v.dv in v.ch
    requires v' == v.(ch := Swapped(v.ch, v.dv, r), dv := r, dvsize := v.ch[r].size)
    ensures BinsIn(bins, v'.ch) && (forall q :: q in v'.ch && v'.ch[q].kind.Free? ==> q in bins || q == v.dv)
    ensures v.dv == NULL ==> Binned(v'.ch, bins)
    ensures v.dv != NULL ==> v.dv !in bins
  {
    hide SegsOk, Tiled;
    assert v.dv != NULL ==> v.ch[v.dv].kind.Victim?;
  }

  lemma SwapSame(mem: Mem, bins: map<int, int>, v: View, r: int)
    requires Unsettled(mem, bins, v, r)
    requires v.dv != NULL ==> v.dv in v.ch
    ensures SameButVictim(v.ch, Swapped(v.ch, v.dv, r))
  {
    hide Tiled, SegsOk;
  }

  // ---------------------------------------------------------------- facts for the allocator's steps

  lemma OneAt(ch: Tiling, lo: int, hi: int, k: Kind)
    ensures lo in One(ch, lo, hi, k) && One(ch, lo, hi, k)[lo] == Ck(hi - lo, k)
  {
  }

  lemma TopRoles(v: View, v': View, lo: int, hi: int)
    requires v'.segs == v.segs && v'.top == lo && v'.topsize == hi - lo && lo <= v.top < hi
    requires (lo <= v.dv < hi ==> v.dv == lo)
    requires v'.dv == (if lo == v.dv then NULL else v.dv) && v'.dvsize == (if lo == v.dv then 0 else v.dvsize)
    ensures RolesAfter(v, v', lo, hi, lo, Top)
  {
  }

  lemma SoundParts(mem: Mem, bins: map<int, int>, v: View)
    requires Sound(mem, bins, v)
    ensures FramedView(mem, v) && Tiled(mem, v.ch) && Binned(v.ch, bins) && BinsIn(bins, v.ch)
  {
  }

  lemma PartialParts(mem: Mem, bins: map<int, int>, v: View, lo: int, hi: int)
    requires Partial(mem, bins, v, lo, hi)
    ensures FramedView(mem, v)
  {
  }

  /** A stretch whose front can be handed out and whose rest can be a free chunk. */
  ghost predicate Carvable(mem: Mem, ch: Tiling, lo: int, mid: int, hi: int)
  {
    && mid % 16 == 0 && mid - lo >= MIN_CHUNK && hi - mid >= MIN_CHUNK && hi in ch && Follows(Free, ch[hi].kind)
    && Pinuse(HeadOf(mem, lo)) && !Pinuse(HeadOf(mem, hi))
  }

  lemma MidWord(mem: Mem, bins: map<int, int>, v: View, lo: int, mid: int, hi: int)
    requires Partial(mem, bins, v, lo, hi) && lo + 16 <= mid && mid + 16 <= hi && mid % 16 == 0
    ensures (mid + HEAD) % 8 == 0 && mid + HEAD in mem
  {
    hide Partial;
    Mod16(mid, 0);
    TagWritable(mem, bins, v, lo, hi, mid + HEAD);
  }

  lemma VictimFacts(mem: Mem, bins: map<int, int>, v: View)
    requires Sound(mem, bins, v) && v.dv != NULL
    ensures v.dv in v.ch && v.ch[v.dv] == Ck(v.dvsize, Victim) && Partial(mem, bins, v, v.dv, v.dv + v.dvsize)
    ensures var hi := v.dv + v.dvsize;
            && v.dvsize >= MIN_CHUNK && hi in v.ch && !Tail(v.ch[hi].kind) && Follows(Victim, v.ch[hi].kind)
            && Pinuse(HeadOf(mem, v.dv)) && !Pinuse(HeadOf(mem, hi)) && !(v.dv <= v.top < hi)
  {
    hide SegsOk, Backed;
    StartStretch(mem, bins, v, v.dv);
    FreeAfterUsed(mem, v.ch, v.dv);
    PastFree(mem, v.ch, v.dv);
    LoneRoles(mem, v, v.dv);
    assert Tagged(mem, v.ch, v.dv);
  }

  lemma TopFacts(mem: Mem, bins: map<int, int>, v: View, nb: int)
    requires Sound(mem, bins, v) && nb % 16 == 0
    ensures v.top in v.ch && v.ch[v.top] == Ck(v.topsize, Top) && Partial(mem, bins, v, v.top, v.top + v.topsize)
    ensures var hi := v.top + v.topsize;
            && v.topsize % 16 == 0 && hi in v.ch && v.ch[hi].kind.Foot? && (nb < v.topsize ==> v.topsize - nb >= 16)
            && Pinuse(HeadOf(mem, v.top)) && !(v.top <= v.dv < hi)
  {
    hide SegsOk, Backed;
    StartStretch(mem, bins, v, v.top);
    FreeAfterUsed(mem, v.ch, v.top);
    LoneRoles(mem, v, v.top);
    Roles(mem, v, v.top);
    assert Tagged(mem, v.ch, v.top);
  }

  lemma TwoAt(ch: Tiling, lo: int, mid: int, hi: int, k1: Kind, k2: Kind)
    ensures mid in Two(ch, lo, mid, hi, k1, k2) && Two(ch, lo, mid, hi, k1, k2)[mid] == Ck(hi - mid, k2)
  {
  }

  lemma UnsettledParts(mem: Mem, bins: map<int, int>, v: View, r: int)
    requires Unsettled(mem, bins, v, r)
    ensures v.dv != NULL ==> v.dv in v.ch && v.ch[v.dv] == Ck(v.dvsize, Victim)
    ensures v.dvsize != 0 <==> v.dv != NULL
    ensures v.dvsize >= 0 && r in v.ch && v.ch[r].size >= MIN_CHUNK
  {
    hide SegsOk;
    assert Tagged(mem, v.ch, r);
    assert v.dv != NULL ==> v.dv in v.ch && Tagged(mem, v.ch, v.dv);
  }

  lemma PayloadsSelf(mem: Mem, hs: Tiling)
    ensures SamePayloads(mem, mem, hs)
  {
  }

  lemma KeptPayloads(mem: Mem, ch: Tiling, mem': Mem, ch': Tiling)
    requires forall lo, hi :: Kept(mem, ch, mem', ch', lo, hi)
    ensures SamePayloads(mem, mem', Holdings(ch))
  {
    assert Kept(mem, ch, mem', ch', 0, 0);
    var hs := Holdings(ch);
    forall p, a | p in hs && p + MEM_OFFSET <= a < p + hs[p].size + 8
      ensures Get(mem', a) == Get(mem, a)
    {
      assert ch[p] == hs[p];
    }
  }

  /** What is around a binned chunk that has just left its bin. */
  lemma FreeStretch(mem: Mem, bins: map<int, int>, v: View, p: int, nb: int)
    requires p in v.ch && v.ch[p].kind.Free? && Partial(mem, bins, v, p, p + v.ch[p].size) && nb % 16 == 0
    ensures var hi := p + v.ch[p].size;
            && hi in v.ch && Follows(Free, v.ch[hi].kind) && !Tail(v.ch[hi].kind) && Pinuse(HeadOf(mem, p))
            && !Pinuse(HeadOf(mem, hi))
            && !(p <= v.dv < hi) && !(p <= v.top < hi) && (p + nb) % 16 == 0 && Tiled(mem, v.ch)
            && v.ch[p].size >= MIN_CHUNK
  {
    hide SegsOk, Backed, BinsIn, Stretch;
    assert Tagged(mem, v.ch, p);
    FreeAfterUsed(mem, v.ch, p);
    PastFree(mem, v.ch, p);
    LoneRoles(mem, v, p);
    Roles(mem, v, p);
  }

  /** A chunk just unlinked from its bin. */
  lemma TakenFree(mem: Mem, mem': Mem, bins: map<int, int>, v: View, p: int)
    requires Sound(mem, bins, v) && p in bins && OnlyLinks(mem, mem', bins)
    ensures p in v.ch && v.ch[p] == Ck(bins[p], Free) && Partial(mem', bins - {p}, v, p, p + bins[p])
    ensures Kept(mem, v.ch, mem', v.ch, p, p + bins[p]) && SamePayloads(mem, mem', Holdings(v.ch))
  {
    hide FramedView, Partial, Kept, OnlyLinks, SamePayloads, Holdings;
    assert p in v.ch && v.ch[p] == Ck(bins[p], Free);
    TakeStretch(mem, mem', bins, v, p);
    SoundParts(mem, bins, v);
    forall lo, hi
      ensures Kept(mem, v.ch, mem', v.ch, lo, hi)
    {
      LinksKept(mem, mem', bins, v.ch, lo, hi);
    }
    KeptPayloads(mem, v.ch, mem', v.ch);
  }

  /** A grant after a step that kept all payloads. */
  lemma GrantedAfter(m0: Mem, m1: Mem, m2: Mem, ch: Tiling, ch': Tiling, p: int, s: int)
    requires SamePayloads(m0, m1, Holdings(ch)) && Granted(m1, ch, m2, ch', p, s)
    ensures Granted(m0, ch, m2, ch', p, s)
  {
    var hs := Holdings(ch);
    forall q, a | q in hs && q + MEM_OFFSET <= a < q + hs[q].size + 8
      ensures Get(m2, a) == Get(m0, a)
    {
      assert Get(m1, a) == Get(m0, a);
    }
  }

  lemma VictimThere(mem: Mem, v: View)
    requires FramedView(mem, v) && v.dvsize > 0
    ensures v.dv != NULL && v.dv in v.ch && v.ch[v.dv] == Ck(v.dvsize, Victim)
  {
  }

  lemma BinnedAt(bins: map<int, int>, ch: Tiling, p: int)
    requires Binned(ch, bins) && p in ch && ch[p].kind.Free?
    ensures p in bins && bins[p] == ch[p].size
  {
  }

  lemma NotBinned(bins: map<int, int>, ch: Tiling, p: int)
    requires BinsIn(bins, ch) && p in ch && !ch[p].kind.Free?
    ensures p !in bins && bins - {p} == bins
  {
  }

  // ---------------------------------------------------------------- changing the size of a chunk in use

  /** The chunk at `p` now has `size` bytes; all other holdings and their payloads are as before. */
  ghost predicate Resized(mem: Mem, ch: Tiling, mem': Mem, ch': Tiling, p: int, size: int)
  {
    && p in Holdings(ch) && Holdings(ch') == Holdings(ch)[p := Ck(size, Live)]
    && SamePayloads(mem, mem', Holdings(ch) - {p})
  }

  /** A stretch that starts with a chunk in use and holds no other. */
  ghost predicate Leads(ch: Tiling, p: int, hi: int)
  {
    && p in ch && ch[p].kind.Live? && p < hi
    && (forall q :: q in ch && p < q < hi ==> !ch[q].kind.Live?)
  }

  lemma ResizeHoldings(mem: Mem, ch: Tiling, mem': Mem, ch': Tiling, p: int, hi: int, size: int)
    requires Kept(mem, ch, mem', ch', p, hi) && SameOutside(ch, ch', p, hi) && Leads(ch, p, hi)
    requires p in ch' && ch'[p] == Ck(size, Live) && (forall q :: q in ch' && p < q < hi ==> !ch'[q].kind.Live?)
    ensures Resized(mem, ch, mem', ch', p, size)
  {
    var hs, hs' := Holdings(ch)[p := Ck(size, Live)], Holdings(ch');
    forall q
      ensures q in hs <==> q in hs'
      ensures q in hs ==> hs[q] == hs'[q]
    {
    }
    var rest := Holdings(ch) - {p};
    forall q, a | q in rest && q + MEM_OFFSET <= a < q + rest[q].size + 8
      ensures Get(mem', a) == Get(mem, a)
    {
      assert ch[q] == rest[q];
    }
  }

  /** A chunk in use alone, or with one chunk behind it that is not in use. */
  lemma LeadsWith(mem: Mem, ch: Tiling, p: int, hi: int)
    requires Tiled(mem, ch) && p in ch && ch[p].kind.Live?
    requires var n := p + ch[p].size; hi == n || (n in ch && !ch[n].kind.Live? && hi == n + ch[n].size)
    ensures Leads(ch, p, hi)
  {
    assert Tagged(mem, ch, p);
    StretchAlone(mem, ch, p);
    var n := p + ch[p].size;
    if hi != n { StretchAlone(mem, ch, n); assert Tagged(mem, ch, n); }
  }

  lemma ResizedTwo(mem: Mem, ch: Tiling, mem': Mem, p: int, mid: int, hi: int, k: Kind)
    requires Leads(ch, p, hi) && Kept(mem, ch, mem', Two(ch, p, mid, hi, Live, k), p, hi) && p < mid < hi && !k.Live?
    ensures Resized(mem, ch, mem', Two(ch, p, mid, hi, Live, k), p, mid - p)
  {
    hide Kept, SamePayloads, Resized;
    ResizeHoldings(mem, ch, mem', Two(ch, p, mid, hi, Live, k), p, hi, mid - p);
  }

  lemma ResizedOne(mem: Mem, ch: Tiling, mem': Mem, p: int, hi: int)
    requires Leads(ch, p, hi) && Kept(mem, ch, mem', One(ch, p, hi, Live), p, hi)
    ensures Resized(mem, ch, mem', One(ch, p, hi, Live), p, hi - p)
  {
    hide Kept, SamePayloads, Resized;
    ResizeHoldings(mem, ch, mem', One(ch, p, hi, Live), p, hi, hi - p);
  }

  /** The first words of a payload are the same. */
  ghost predicate PrefixKept(mem: Mem, mem': Mem, p: int, size: int)
  {
    forall a :: p + MEM_OFFSET <= a < p + size + 8 ==> Get(mem', a) == Get(mem, a)
  }

  lemma PrefixTrans(m0: Mem, m1: Mem, m2: Mem, p: int, size: int, size': int)
    requires PrefixKept(m0, m1, p, size) && PrefixKept(m1, m2, p, size') && size <= size'
    ensures PrefixKept(m0, m2, p, size)
  {
    forall a | p + MEM_OFFSET <= a < p + size + 8
      ensures Get(m2, a) == Get(m0, a)
    {
      assert Get(m1, a) == Get(m0, a);
    }
  }

  lemma LinksPrefix(mem: Mem, mem': Mem, ch: Tiling, bins: map<int, int>, p: int)
    requires Tiled(mem, ch) && BinsIn(bins, ch) && OnlyLinks(mem, mem', bins) && p in ch && ch[p].kind.Live?
    ensures PrefixKept(mem, mem', p, ch[p].size)
  {
    forall a | p + MEM_OFFSET <= a < p + ch[p].size + 8
      ensures Get(mem', a) == Get(mem, a)
    {
      PayloadNotLink(mem, ch, bins, p, a);
    }
  }

  /** Tag writes of a stretch from `p` spare what was there before the new boundary. */
  lemma TagsPrefix(mem: Mem, p: int, mid: int, hi: int, size: int)
    requires size <= mid - p && mid + 16 <= hi
    ensures PrefixKept(mem, CutTags(mem, p, mid, hi), p, size) && PrefixKept(mem, GrowTopTags(mem, p, mid, hi), p, size)
    ensures PrefixKept(mem, GrowTags(mem, p, mid, hi), p, size) && PrefixKept(mem, LiveTags(mem, p, hi), p, size)
  {
  }

  /** What `try_realloc_chunk` promises for the chunk it keeps in place. */
  ghost predicate Regrown(mem: Mem, ch: Tiling, mem': Mem, ch': Tiling, p: int, s: int)
  {
    && Resized(mem, ch, mem', ch', p, s)
    && p in ch && PrefixKept(mem, mem', p, if s < ch[p].size then s else ch[p].size)
  }

  lemma RegrownTwo(mem: Mem, m1: Mem, ch: Tiling, mem': Mem, p: int, mid: int, hi: int, k: Kind)
    requires Leads(ch, p, hi) && Kept(mem, ch, m1, ch, p, hi)
    requires Kept(m1, ch, mem', Two(ch, p, mid, hi, Live, k), p, hi) && p < mid < hi && !k.Live?
    requires PrefixKept(mem, m1, p, ch[p].size) && PrefixKept(m1, mem', p, ch[p].size) && ch[p].size <= mid - p
    ensures Regrown(mem, ch, mem', Two(ch, p, mid, hi, Live, k), p, mid - p)
  {
    hide Kept, Resized, PrefixKept, Two;
    KeptTrans(mem, ch, m1, ch, mem', Two(ch, p, mid, hi, Live, k), p, hi);
    ResizedTwo(mem, ch, mem', p, mid, hi, k);
    PrefixTrans(mem, m1, mem', p, ch[p].size, ch[p].size);
  }

  lemma RegrownOne(mem: Mem, m1: Mem, ch: Tiling, mem': Mem, p: int, hi: int)
    requires Leads(ch, p, hi) && Kept(mem, ch, m1, ch, p, hi) && Kept(m1, ch, mem', One(ch, p, hi, Live), p, hi)
    requires PrefixKept(mem, m1, p, ch[p].size) && PrefixKept(m1, mem', p, ch[p].size) && ch[p].size <= hi - p
    ensures Regrown(mem, ch, mem', One(ch, p, hi, Live), p, hi - p)
  {
    hide Kept, Resized, PrefixKept, One;
    KeptTrans(mem, ch, m1, ch, mem', One(ch, p, hi, Live), p, hi);
    ResizedOne(mem, ch, mem', p, hi);
    PrefixTrans(mem, m1, mem', p, ch[p].size, ch[p].size);
  }

  /** A stretch led by the chunk `p` was cut into two chunks in use, and the second was given back. */
  lemma RegrownCut(mem: Mem, ch: Tiling, m2: Mem, c2: Tiling, m3: Mem, c3: Tiling, p: int, mid: int, hi: int)
    requires Leads(ch, p, hi) && Kept(mem, ch, m2, c2, p, hi) && c2 == Two(ch, p, mid, hi, Live, Live) && p < mid < hi
    requires Released(m2, c2, m3, c3, mid)
    requires PrefixKept(mem, m2, p, if mid - p < ch[p].size then mid - p else ch[p].size)
    ensures Regrown(mem, ch, m3, c3, p, mid - p)
  {
    var hs, hs2, hs3 := Holdings(ch)[p := Ck(mid - p, Live)], Holdings(c2), Holdings(c3);
    forall q
      ensures q in hs <==> q in hs3
      ensures q in hs ==> hs[q] == hs3[q]
    {
      assert q in hs2 <==> q in c2 && c2[q].kind.Live?;
    }
    CutPayloads(mem, ch, m2, c2, m3, c3, p, mid, hi);
  }

  lemma CutPayloads(mem: Mem, ch: Tiling, m2: Mem, c2: Tiling, m3: Mem, c3: Tiling, p: int, mid: int, hi: int)
    requires Leads(ch, p, hi) && Kept(mem, ch, m2, c2, p, hi) && c2 == Two(ch, p, mid, hi, Live, Live) && p < mid < hi
    requires Released(m2, c2, m3, c3, mid) && Holdings(c3) == Holdings(ch)[p := Ck(mid - p, Live)]
    requires PrefixKept(mem, m2, p, if mid - p < ch[p].size then mid - p else ch[p].size)
    ensures SamePayloads(mem, m3, Holdings(ch) - {p})
    ensures PrefixKept(mem, m3, p, if mid - p < ch[p].size then mid - p else ch[p].size)
  {
    var rest := Holdings(ch) - {p};
    forall q, a | q in rest && q + MEM_OFFSET <= a < q + rest[q].size + 8
      ensures Get(m3, a) == Get(mem, a)
    {
      assert ch[q] == rest[q];
      assert Holdings(c3)[q] == rest[q];
      assert Get(m2, a) == Get(mem, a);
    }
    var size := if mid - p < ch[p].size then mid - p else ch[p].size;
    forall a | p + MEM_OFFSET <= a < p + size + 8
      ensures Get(m3, a) == Get(mem, a)
    {
      assert Holdings(c3)[p] == Ck(mid - p, Live);
      assert Get(m2, a) == Get(mem, a);
    }
  }
}
