/** The allocator itself: malloc, free, realloc and memalign over boundary tags, bins and segments. */
module Allocators {
  import opened Bits
  import opened Sizes
  import opened Rings
  import opened Heads
  import opened Tries
  import opened TrieSearch
  import opened Stores
  import opened StoreSteps
  import opened BinStores
  import opened Tags
  import opened Heaps
  import opened Retags
  import opened HeapOps
  import opened Coalescing
  import opened Regions
  import opened Growth
  import opened NewSegments
  import opened Releases
  import opened SystemSteps
  import opened Payloads
  import opened Bulk
  import opened Canon
  import opened Choices
  import opened Outcomes

  lemma StoreBins(store: Store)
    requires store.Valid()
    ensures BinsOk(store.bins)
  {
  }

  lemma StoreMaps(store: Store)
    requires store.Valid()
    ensures store.smallmap < MAP_LIMIT && store.treemap < MAP_LIMIT
  {
  }

  /** An empty upper part of the map: no small chunk serves. */
  lemma NoSmallFit(store: Store, nb: int, idx: nat)
    requires store.Valid() && nb == 8 * idx && idx < 31 && Shr(store.smallmap, idx) == 0
    ensures forall a :: a in store.bins && store.bins[a] < MIN_LARGE ==> store.bins[a] < nb
  {
    hide StoreOk, BitAt, Shr;
    forall a | a in store.bins && store.bins[a] < MIN_LARGE
      ensures store.bins[a] < nb
    {
      MarkedSmall(store.mem, store.smallmap, store.treemap, store.bins, store.sb, store.trie, store.home, a);
      StoreBins(store);
      var k := store.bins[a] / 8;
      if k >= idx {
        ShrBit(store.smallmap, idx, k - idx);
        ZeroBit(k - idx);
      }
    }
  }

  lemma NearIndex(nb: int, idx: nat, size: int)
    requires nb == 8 * idx
    ensures nb <= size <= nb + 8 ==> size / 8 == idx || size / 8 == idx + 1
  {
  }

  /** Neither bin marked: with a victim that serves, the bins are passed over. */
  lemma NotNear(store: Store, nb: int, idx: nat)
    requires store.Valid() && nb == 8 * idx && nb <= 240 && And(Shr(store.smallmap, idx), 3) == 0
    ensures !Near(store.bins, nb)
  {
    hide StoreOk, BitAt, Shr, And;
    AndThree(Shr(store.smallmap, idx));
    ShrBit(store.smallmap, idx, 0);
    ShrBit(store.smallmap, idx, 1);
    forall a | a in store.bins
      ensures !(nb <= store.bins[a] <= nb + 8)
    {
      if store.bins[a] < MIN_LARGE {
        NearIndex(nb, idx, store.bins[a]);
        MarkedSmall(store.mem, store.smallmap, store.treemap, store.bins, store.sb, store.trie, store.home, a);
      }
    }
  }

  lemma NoFitAtAll(store: Store, nb: int)
    requires store.Valid() && store.treemap == 0
    requires (forall a :: a in store.bins && store.bins[a] < MIN_LARGE ==> store.bins[a] < nb)
    ensures AllBelow(store.bins, nb)
  {
    hide BitAt;
    forall a | a in store.bins
      ensures store.bins[a] < MIN_LARGE
    {
      MarkedLarge(store.mem, store.smallmap, store.treemap, store.bins, store.sb, store.trie, store.home, a);
    }
  }

  lemma LargeBelow(store: Store, nb: int)
    requires store.Valid() && nb >= MIN_LARGE && store.treemap == 0
    ensures AllBelow(store.bins, nb)
  {
    hide BitAt, StoreOk;
    forall a | a in store.bins
      ensures store.bins[a] < nb
    {
      MarkedLarge(store.mem, store.smallmap, store.treemap, store.bins, store.sb, store.trie, store.home, a);
    }
  }

  lemma BothMapsEmpty(store: Store, nb: int)
    requires store.Valid() && store.smallmap == 0 && store.treemap == 0
    ensures AllBelow(store.bins, nb)
  {
    StoreBins(store);
    hide BitAt, StoreOk;
    forall a
      ensures a !in store.bins
    {
      if a in store.bins {
        MarkedLarge(store.mem, store.smallmap, store.treemap, store.bins, store.sb, store.trie, store.home, a);
        MarkedSmall(store.mem, store.smallmap, store.treemap, store.bins, store.sb, store.trie, store.home, a);
        ZeroBit(store.bins[a] / 8);
      }
    }
  }

  /** The chunk at `p` and the free memory right behind it make up `nb` bytes; the top chunk must not be used up. */
  ghost predicate RoomBehind(ch: Tiling, p: int, nb: int)
  {
    p in ch && (ch[p].size >= nb
      || (var n := p + ch[p].size;
          n in ch && (if ch[n].kind.Top? then ch[p].size + ch[n].size > nb
                      else Coalesced(ch[n].kind) && ch[p].size + ch[n].size >= nb)))
  }

  /** What `memalign` asks `malloc` for: room for the aligned chunk wherever the block starts. */
  function AlignedRequest(alignment: nat, bytes: nat): nat
  {
    Request2Size(bytes) + Max(alignment, MIN_CHUNK) + MIN_CHUNK - OVERHEAD
  }

  /** The size check of `memalign` lets through a few sizes that its own padding then takes past `max_request`. */
  lemma AlignedGuardIsShort()
    ensures var bytes := MAX_REQUEST - 33; bytes < MAX_REQUEST - 32 && AlignedRequest(32, bytes) >= MAX_REQUEST
  {
  }

  /** What `memalign` cuts off before the aligned spot: nothing, or enough for a chunk. */
  function Lead(p: int, alignment: nat): int
    requires alignment > 0 && p > 0
  {
    if (p + MEM_OFFSET) % alignment == 0 then 0
    else
      var br := AlignUp(p + MEM_OFFSET, alignment) - MEM_OFFSET;
      if br - p > MIN_CHUNK then br - p else br + alignment - p
  }

  /** What it keeps of the `size` bytes from there. */
  function Trimmed(size: int, nb: int): int { if size > nb + MIN_CHUNK then nb else size }

  /** A block of the size asked for always has room: leader, result and remainder make it up, leader and remainder are
      absent or large enough for a chunk, and with a leader as long as can be nothing remains beyond `nb`. */
  lemma AlignedParts(p: int, size: int, alignment: nat, bytes: nat)
    requires p > 0 && p % 16 == 0 && alignment % 16 == 0 && alignment >= MIN_CHUNK
    requires size >= Request2Size(AlignedRequest(alignment, bytes))
    ensures var nb, lead := Request2Size(bytes), Lead(p, alignment);
      var kept := Trimmed(size - lead, nb);
      var rest := size - lead - kept;
      && lead + kept + rest == size && (p + lead + MEM_OFFSET) % alignment == 0
      && (lead == 0 || MIN_CHUNK < lead <= alignment + MIN_CHUNK) && nb <= kept <= nb + MIN_CHUNK
      && (rest == 0 || (rest > MIN_CHUNK && kept == nb))
      && (AlignUp(p + MEM_OFFSET, alignment) - MEM_OFFSET - p == MIN_CHUNK ==> lead == alignment + MIN_CHUNK)
      && (lead == alignment + MIN_CHUNK && size == Request2Size(AlignedRequest(alignment, bytes)) ==>
          kept == nb && rest == 0)
  {
    PaddedSize(alignment, bytes);
    if (p + MEM_OFFSET) % alignment != 0 {
      var br := AlignUp(p + MEM_OFFSET, alignment) - MEM_OFFSET;
      SpotFacts(p, alignment, br, p + Lead(p, alignment));
    }
  }

  /** The padded request is exactly room for the chunk, the alignment and a smallest leader. */
  lemma PaddedSize(alignment: nat, bytes: nat)
    requires alignment % 16 == 0 && alignment >= MIN_CHUNK
    ensures Request2Size(AlignedRequest(alignment, bytes)) == Request2Size(bytes) + alignment + MIN_CHUNK
  {
    var nb := Request2Size(bytes);
    Mod16(nb, alignment);
    Mod16(nb + alignment, MIN_CHUNK);
    Rounded(nb + alignment + MIN_CHUNK);
  }

  lemma Rounded(a: nat)
    requires a % 16 == 0 && a >= MIN_CHUNK
    ensures Request2Size(a - OVERHEAD) == a
  {
  }

  /** `memalign` from `h` to `h'`: a larger chunk is had from `malloc`, and what is before and behind the aligned spot
      given back. */
  ghost predicate AlignedTo(g: Grant, bins: map<int, int>, h: Heap, alignment: nat, bytes: nat, p: int, s: int,
      h': Heap)
    requires alignment > 0
  {
    exists p0: int, s0: int, h1: Heap ::
      && ServedTo(g, bins, h, Request2Size(AlignedRequest(alignment, bytes)), p0, s0, h1)
      && p0 > 0 && p == p0 + Lead(p0, alignment) && s == Trimmed(s0 - Lead(p0, alignment), Request2Size(bytes))
      && h' == h1.(view := h'.view) && SameVictim(h1.view, h'.view)
  }

  lemma ReadyThere(m0: Mem, c0: Tiling, mem: Mem, bins: map<int, int>, v: View, p: int, s: int)
    requires Sound(mem, bins, v) && Granted(m0, c0, mem, v.ch, p, s)
    ensures p in v.ch && v.ch[p] == Ck(s, Live) && p > 0 && p % 16 == 0 && s % 16 == 0 && SizeOf(HeadOf(mem, p)) == s
  {
    hide FramedView, Binned, Tiled, BinsIn, Sound;
    GrantedTop(mem, bins, v, v.top);
    GrantedThere(m0, c0, mem, bins, v, p, s);
    ChunkRounded(mem, bins, v, p);
  }

  lemma ChunkRounded(mem: Mem, bins: map<int, int>, v: View, p: int)
    requires Sound(mem, bins, v) && p in v.ch && v.ch[p].kind.Live?
    ensures v.ch[p].size % 16 == 0
  {
    hide SegsOk, VictimOk, Binned, TopOk, OneTop;
    assert Tagged(mem, v.ch, p);
  }

  lemma GrantElsewhere(m0: Mem, c0: Tiling, mem: Mem, ch: Tiling, p: int, q: int, s: int)
    requires Granted(m0, c0, mem, ch, q, s) && p in Holdings(c0)
    ensures p != q
  {
  }

  lemma LastSegment(mem: Mem, v: View, i: int)
    requires FramedView(mem, v) && 0 < i <= |v.segs| && NextAt(v.segs, i - 1) == NULL
    ensures i == |v.segs|
  {
    if i < |v.segs| {
      SegHere(mem, v, i);
      SegOfView(mem, v, i);
    }
  }

  /** `align_as_chunk`: an aligned address is where it is. */
  function AlignAsChunk(a: int): (r: int)
    requires a > 0
    ensures a % 16 == 0 ==> r == a
  {
    assert a % 16 == 0 ==> (a + MEM_OFFSET) % 16 == 0 by { if a % 16 == 0 { Mod16(a, MEM_OFFSET); } }
    AlignUp(a + MEM_OFFSET, ALIGN) - MEM_OFFSET
  }

  function SplitPoint(p: int, nb: int): (r: int)
    requires p % 16 == 0 && nb % 16 == 0
    ensures r == p + nb && r % 16 == 0
  {
    Mod16(p, nb);
    p + nb
  }

  lemma NoneYet(ch: Tiling, segs: seq<Seg>)
    ensures NoneReleasable(ch, segs, 1)
  {
  }

  lemma NoMore(sys: Answers, ch: Tiling, k: nat, dv: int)
    ensures Survivors(sys, ch, [], k) == [] && AllQuestions(sys, ch, [], k) == 0 && VictimLeft(sys, ch, [], k, dv) == dv
  {
  }

  /** After an offer to a system that takes everything, no segment up to it is releasable. */
  lemma Offered(sys: Answers, ch: Tiling, ch': Tiling, segs: seq<Seg>, i: int, k: nat)
    requires 0 < i < |segs|
    requires forall j :: 0 <= j < |segs| && j != i ==> Releasable(ch', segs[j]) == Releasable(ch, segs[j])
    ensures Obliging(sys) && NoneReleasable(ch, segs, i) ==>
      && NoneReleasable(ch', segs[..i] + segs[i + 1..], i)
      && (!Goes(sys, ch, segs[i], k) && Releasable(ch', segs[i]) == Releasable(ch, segs[i]) ==>
            NoneReleasable(ch', segs, i + 1))
  {
    hide Releasable;
    assert forall j :: 0 <= j < i ==> (segs[..i] + segs[i + 1..])[j] == segs[j];
  }

  lemma GoneParts(segs: seq<Seg>, segs': seq<Seg>, i: int)
    requires 0 < i < |segs| && segs' == segs[..i] + segs[i + 1..]
    ensures segs'[..i] == segs[..i] && segs'[i..] == segs[i + 1..] && segs[..i] + [] == segs[..i]
  {
  }

  lemma StayParts(segs: seq<Seg>, i: int)
    requires 0 < i < |segs|
    ensures segs[..i] + [segs[i]] == segs[..i + 1]
  {
  }

  /** One offer on the way through the older segments: what is still to come adds up to the same. */
  lemma SweepStep(sys: Answers, ch: Tiling, ch': Tiling, segs: seq<Seg>, segs': seq<Seg>, i: int, k: nat, dv: int)
    requires 0 < i < |segs|
    requires forall j :: 0 <= j < |segs| && j != i ==> Releasable(ch', segs[j]) == Releasable(ch, segs[j])
    requires segs' == if Goes(sys, ch, segs[i], k) then segs[..i] + segs[i + 1..] else segs
    requires !Goes(sys, ch, segs[i], k) ==> Releasable(ch', segs[i]) == Releasable(ch, segs[i])
    ensures var i', k' := if Goes(sys, ch, segs[i], k) then i else i + 1, k + Questions(sys, ch, segs[i], k);
      var dv' := if Offers(sys, ch, segs[i], k) && segs[i].base == dv then NULL else dv;
      && segs'[..i'] + Survivors(sys, ch', segs'[i'..], k') == segs[..i] + Survivors(sys, ch, segs[i..], k)
      && k' + AllQuestions(sys, ch', segs'[i'..], k') == k + AllQuestions(sys, ch, segs[i..], k)
      && VictimLeft(sys, ch', segs'[i'..], k', dv') == VictimLeft(sys, ch, segs[i..], k, dv)
      && (Obliging(sys) && NoneReleasable(ch, segs, i) ==> NoneReleasable(ch', segs', i'))
  {
    hide Survivors, AllQuestions, VictimLeft, Goes, Questions, Offers, Releasable, NoneReleasable, Obliging;
    SurvivorsNext(sys, ch, ch', segs, i, k);
    OffersNext(sys, ch, ch', segs, i, k, dv);
    Offered(sys, ch, ch', segs, i, k);
    if Goes(sys, ch, segs[i], k) { GoneParts(segs, segs', i); } else { StayParts(segs, i); }
  }

  lemma SegSized(mem: Mem, v: View, i: int)
    requires FramedView(mem, v) && 0 <= i < |v.segs|
    ensures v.segs[i].size >= 0
  {
    SegOfView(mem, v, i);
  }

  lemma SoundTop(mem: Mem, bins: map<int, int>, v: View)
    requires Sound(mem, bins, v)
    ensures |v.segs| > 0
  {
  }

  lemma SameOuter(ch: Tiling, base: int, size: int, end: int)
    requires base < end
    ensures Outer(ch[base := Ck(size, Kind.Free)], base, end) == Outer(ch, base, end)
  {
  }

  /** The top chunk lies in the newest segment. */
  lemma TopInside(mem: Mem, v: View)
    requires FramedView(mem, v)
    ensures |v.segs| > 0 && v.segs[0].size >= v.topsize + TOP_FOOT
  {
  }

  lemma TightServes(bins: map<int, int>, nb: int, p: int)
    requires TightestFit(bins, nb, p)
    ensures !AllBelow(bins, nb)
  {
  }

  lemma LargeServes(bins: map<int, int>, nb: int, p: int)
    requires BestFit(bins, nb, p) && (forall a :: a in bins && bins[a] < MIN_LARGE ==> bins[a] < nb)
    ensures TightestFit(bins, nb, p)
  {
  }

  lemma SmallServes(bins: map<int, int>, nb: int, p: int)
    requires p in bins && nb <= bins[p] < MIN_LARGE && SmallestFit(bins, nb, bins[p])
    ensures TightestFit(bins, nb, p)
  {
  }

  class Dlmalloc {
    const store: Store
    var dv: int
    var dvsize: int
    var top: int
    var topsize: int
    var footprint: int
    var maxFootprint: int
    var trimCheck: int
    var releaseChecks: int
    /** The system, and how many questions it has been asked. */
    const sys: System
    var asked: nat
    /** How many of its answers were refusals of memory. */
    ghost var refusals: nat
    ghost var ch: Tiling
    ghost var segs: seq<Seg>

    /** `Dlmalloc::new`: no memory yet. */
    constructor (sys: System)
      ensures Valid() && fresh(store) && this.sys == sys && refusals == 0
      ensures State() == Heap(View(map[], [], NULL, 0, NULL, 0), Gauges(0, 0, 0, 0), 0) && store.bins == map[]
    {
      this.sys, asked, refusals := sys, 0, 0;
      store := new Store();
      dv, dvsize, top, topsize := NULL, 0, NULL, 0;
      footprint, maxFootprint, trimCheck, releaseChecks := 0, 0, 0, 0;
      ch, segs := map[], [];
    }

    /** The invariant but for the countdown to the next release. */
    ghost predicate Consistent()
      reads this, store
    {
      && store.Valid() && Paged(segs) && footprint == Total(segs) <= maxFootprint
      && (if top == NULL then Unborn(store.mem, store.bins, Now()) && store.smallmap == 0 && store.treemap == 0
          else Sound(store.mem, store.bins, Now()))
    }

    /** The invariant between operations. */
    ghost predicate Valid()
      reads this, store
    {
      Consistent() && (top != NULL ==> releaseChecks > 0)
    }

    ghost function Now(): View
      reads this
    {
      View(ch, segs, dv, dvsize, top, topsize)
    }

    ghost function Gauge(): Gauges
      reads this
    {
      Gauges(footprint, maxFootprint, trimCheck, releaseChecks)
    }

    ghost function State(): Heap
      reads this
    {
      Heap(Now(), Gauge(), asked)
    }

    /** The invariant once the heap has memory. */
    ghost predicate Ready()
      reads this, store
    {
      store.Valid() && Sound(store.mem, store.bins, Now())
    }

    /** Bins in order, the stretch taken out of them. */
    ghost predicate Gathered(lo: int, hi: int)
      reads this, store
    {
      store.Valid() && Partial(store.mem, store.bins, Now(), lo, hi)
    }

    function Word(a: int): int
      requires a in store.mem
      reads this, store
    {
      store.mem[a]
    }

    // -------------------------------------------------------------- writing tags

    /** Writing a tag word of a stretch gathered in memory `m0` under the view `v`, short of the head behind it. */
    method TagAs(a: int, x: int, ghost m0: Mem, ghost v: View, ghost lo: int, ghost hi: int)
      requires store.Valid() && Partial(m0, store.bins, v, lo, hi) && m0.Keys == store.mem.Keys
      requires lo <= a <= hi && a % 8 == 0
      modifies store`mem
      ensures store.Valid() && a in old(store.mem) && store.mem == old(store.mem)[a := x]
    {
      hide Partial, StoreOk;
      TagWritable(m0, store.bins, v, lo, hi, a);
      store.Poke(a, x);
    }

    method Tag(a: int, x: int, ghost m0: Mem, ghost lo: int, ghost hi: int)
      requires store.Valid() && Partial(m0, store.bins, Now(), lo, hi) && m0.Keys == store.mem.Keys
      requires lo <= a <= hi && a % 8 == 0
      modifies store`mem
      ensures store.Valid() && a in old(store.mem) && store.mem == old(store.mem)[a := x]
    {
      hide Partial, StoreOk;
      TagAs(a, x, m0, Now(), lo, hi);
    }

    /** Writing the head behind a gathered stretch; only its flags may change. */
    method TagNextAs(x: int, ghost m0: Mem, ghost v: View, ghost lo: int, hi: int)
      requires store.Valid() && Partial(m0, store.bins, v, lo, hi) && m0.Keys == store.mem.Keys
      requires hi % 8 == 0 && SizeOf(x) == SizeOf(HeadOf(store.mem, hi))
      modifies store`mem
      ensures store.Valid() && hi + HEAD in old(store.mem) && store.mem == old(store.mem)[hi + HEAD := x]
    {
      hide Partial, SizeOf;
      PartialFacts(m0, store.bins, v, lo, hi);
      TagWritable(m0, store.bins, v, lo, hi, hi + HEAD);
      store.Poke(hi + HEAD, x);
    }

    method TagNext(x: int, ghost m0: Mem, ghost lo: int, hi: int)
      requires store.Valid() && Partial(m0, store.bins, Now(), lo, hi) && m0.Keys == store.mem.Keys
      requires hi % 8 == 0 && SizeOf(x) == SizeOf(HeadOf(store.mem, hi))
      modifies store`mem
      ensures store.Valid() && hi + HEAD in old(store.mem) && store.mem == old(store.mem)[hi + HEAD := x]
    {
      hide Partial, SizeOf, StoreOk;
      TagNextAs(x, m0, Now(), lo, hi);
    }

    /** Writing the head of the chunk that will start the stretch. */
    method SetHead(p: int, x: int, ghost lo: int, ghost hi: int)
      requires Gathered(lo, hi) && p == lo
      modifies store`mem
      ensures store.Valid() && lo + HEAD in old(store.mem) && store.mem == old(store.mem)[lo + HEAD := x]
    {
      hide StoreOk, Partial, Tiled, Stretch, BinsIn;
      PartialFacts(store.mem, store.bins, Now(), lo, hi);
      Tag(p + HEAD, x, store.mem, lo, hi);
    }

    /** `set_size_and_pinuse_of_free_chunk`, with `clear_pinuse` of the next chunk first where it may still be set. */
    method SetFree(lo: int, hi: int, clear: bool)
      requires Gathered(lo, hi) && (clear || !Pinuse(HeadOf(store.mem, hi)))
      modifies store`mem
      ensures store.Valid() && store.mem == FreeTags(old(store.mem), lo, hi)
    {
      hide StoreOk, Partial, SizeOf, Pinuse, Cinuse, Tiled, Stretch, BinsIn;
      ghost var m0 := store.mem;
      PartialFacts(m0, store.bins, Now(), lo, hi);
      Flags(HeadOf(m0, hi));
      if clear {
        TagNext(ClearP(Word(hi + HEAD)), m0, lo, hi);
      }
      assert store.mem == m0[hi + HEAD := ClearP(HeadOf(m0, hi))];
      Tag(lo + HEAD, hi - lo + PINUSE, m0, lo, hi);
      Tag(hi, hi - lo, m0, lo, hi);
    }

    // -------------------------------------------------------------- settling a stretch

    /** The stretch becomes a binned free chunk. */
    method BecomeFree(lo: int, hi: int, clear: bool)
      requires Gathered(lo, hi) && Pinuse(HeadOf(store.mem, lo)) && hi - lo >= MIN_CHUNK && hi in ch
      requires Follows(Kind.Free, ch[hi].kind)
      requires (clear || !Pinuse(HeadOf(store.mem, hi))) && !(lo <= dv < hi) && !(lo <= top < hi)
      modifies store, this`ch
      ensures Ready() && ch == One(old(ch), lo, hi, Kind.Free)
      ensures Kept(old(store.mem), old(ch), store.mem, ch, lo, hi)
    {
      hide StoreOk, Partial, Sound, Unsettled, OnlyLinks, Kept, One, FreeTags, FramedView, Pinuse, Binnable;
      ghost var m0, c0, v0 := store.mem, ch, Now();
      SetFree(lo, hi, clear);
      ghost var m1 := store.mem;
      ch := One(ch, lo, hi, Kind.Free);
      assert RolesAfter(v0, Now(), lo, hi, lo, Kind.Free);
      FreeSettles(m0, store.bins, v0, Now(), lo, hi, Kind.Free);
      OneAt(c0, lo, hi, Kind.Free);
      StoreBins(store);
      ghost var b1 := store.bins;
      UnsettledBinnable(m1, b1, Now(), lo);
      store.Insert(lo, hi - lo);
      Rebinned(m1, store.mem, b1, Now(), lo);
      KeptTrans(m0, c0, m1, ch, store.mem, ch, lo, hi);
    }

    /** The stretch becomes the designated victim. */
    method BecomeVictim(lo: int, hi: int, clear: bool)
      requires Gathered(lo, hi) && Pinuse(HeadOf(store.mem, lo)) && hi - lo >= MIN_CHUNK && hi in ch
      requires Follows(Victim, ch[hi].kind)
      requires (clear || !Pinuse(HeadOf(store.mem, hi))) && (dv == NULL || lo <= dv < hi) && !(lo <= top < hi)
      modifies store`mem, this`ch, this`dv, this`dvsize
      ensures Ready() && ch == One(old(ch), lo, hi, Victim) && dv == lo && dvsize == hi - lo
      ensures Kept(old(store.mem), old(ch), store.mem, ch, lo, hi)
    {
      hide StoreOk, Partial, Sound, Unsettled, Kept, One, FreeTags, FramedView, Pinuse;
      ghost var m0, v0 := store.mem, Now();
      SetFree(lo, hi, clear);
      dv, dvsize := lo, hi - lo;
      ch := One(ch, lo, hi, Victim);
      assert RolesAfter(v0, Now(), lo, hi, lo, Victim);
      FreeSettles(m0, store.bins, v0, Now(), lo, hi, Victim);
    }

    /** The stretch, which ends with the top chunk, becomes the top chunk. */
    method BecomeTop(lo: int, hi: int)
      requires Gathered(lo, hi) && Pinuse(HeadOf(store.mem, lo)) && lo <= top < hi && (lo <= dv < hi ==> dv == lo)
      modifies store`mem, this`ch, this`dv, this`dvsize, this`top, this`topsize
      ensures Ready() && ch == One(old(ch), lo, hi, Top) && top == lo && topsize == hi - lo
      ensures (dv, dvsize) == (if lo == old(dv) then (NULL, 0) else (old(dv), old(dvsize)))
      ensures Kept(old(store.mem), old(ch), store.mem, ch, lo, hi)
    {
      hide StoreOk, Partial, Sound, Kept, One, FramedView, Pinuse, Tiled, Stretch, BinsIn, RolesAfter;
      ghost var m0, v0 := store.mem, Now();
      SetHead(lo, hi - lo + PINUSE, lo, hi);
      top, topsize := lo, hi - lo;
      if lo == dv {
        dv, dvsize := NULL, 0;
      }
      ch := One(ch, lo, hi, Top);
      TopRoles(v0, Now(), lo, hi);
      TopSettles(m0, store.bins, v0, Now(), lo, hi);
    }

    // -------------------------------------------------------------- releasing

    /** Coalescing backward: a chunk in use and the free chunk before it, if there is one. */
    method JoinBack(p: int, size: int) returns (lo: int)
      requires Ready() && p in ch && ch[p] == Ck(size, Live)
      modifies store
      ensures Gathered(lo, p + size) && Joined(ch, lo, p, p + size) && Pinuse(HeadOf(store.mem, lo))
      ensures BackJoined(ch, p, lo)
      ensures Kept(old(store.mem), ch, store.mem, ch, lo, p + size)
    {
      hide StoreOk, Partial, Sound, Kept, FramedView, Pinuse, OnlyLinks, Tiled, BinsIn, Stretch, Binned;
      SoundParts(store.mem, store.bins, Now());
      StartStretch(store.mem, store.bins, Now(), p);
      PartialFacts(store.mem, store.bins, Now(), p, p + size);
      KeptSelf(store.mem, ch, p, p + size);
      lo := p;
      if !Pinuse(Word(p + HEAD)) {
        NotMmapped(store.mem, ch, p);
        if Mmapped(Word(p + HEAD)) { assert false; }
        BackFacts(store.mem, ch, p);
        var prevsize := Word(p);
        lo := p - prevsize;
        Roles(store.mem, Now(), lo);
        ghost var m0, b0 := store.mem, store.bins;
        if lo != dv {
          BinnedAt(b0, ch, lo);
          store.Unlink(lo, prevsize);
          UnlinkPartial(m0, store.mem, b0, Now(), p, p + size);
        } else {
          NotBinned(b0, ch, lo);
        }
        TakeBack(store.mem, b0, Now(), lo, p, p + size);
        KeptWider(m0, ch, store.mem, ch, p, p + size, lo, p + size);
        PartialFacts(store.mem, store.bins, Now(), lo, p + size);
        FreeAfterUsed(store.mem, ch, lo);
      } else {
        NoneBefore(store.mem, ch, p);
      }
    }

    /** Coalescing forward with a binned chunk. */
    method JoinForth(lo: int, ghost p: int, next: int, nsize: int) returns (k: Kind)
      requires Gathered(lo, next) && Joined(ch, lo, p, next) && Pinuse(HeadOf(store.mem, lo))
      requires next in ch && ch[next] == Ck(nsize, Kind.Free) && next in store.bins && store.bins[next] == nsize
      modifies store, this`ch, this`dv, this`dvsize
      ensures Ready() && ch == One(old(ch), lo, next + nsize, k) && k == (if lo == old(dv) then Victim else Kind.Free)
      ensures (dv, dvsize) == (if k.Victim? then (lo, next + nsize - lo) else (old(dv), old(dvsize)))
      ensures Kept(old(store.mem), old(ch), store.mem, ch, lo, next + nsize)
    {
      hide StoreOk, Partial, Sound, Kept, FramedView, Pinuse, OnlyLinks, Tiled, BinsIn, Stretch, Binned, Joined, One;
      ghost var m0, c0, b0 := store.mem, ch, store.bins;
      PartialParts(m0, b0, Now(), lo, next);
      PartialFacts(m0, b0, Now(), lo, next);
      Roles(m0, Now(), next);
      JoinedRoles(m0, Now(), lo, p, next);
      ForthRoles(m0, Now(), lo, p, next);
      store.Unlink(next, nsize);
      ghost var m1 := store.mem;
      LinksHead(m0, m1, ch, b0, lo);
      UnlinkPartial(m0, m1, b0, Now(), lo, next);
      TakeForth(m1, b0, Now(), lo, next);
      var hi := next + nsize;
      KeptWider(m0, ch, m1, ch, lo, next, lo, hi);
      PartialFacts(m1, store.bins, Now(), lo, hi);
      PastFree(m1, ch, next);
      if lo == dv {
        k := Victim;
        BecomeVictim(lo, hi, false);
      } else {
        k := Kind.Free;
        BecomeFree(lo, hi, false);
      }
      KeptTrans(m0, c0, m1, c0, store.mem, ch, lo, hi);
    }

    /** `dispose_chunk`: a chunk in use is given back and coalesced with its free neighbours into the one chunk `[lo,
        hi)`. */
    method DisposeChunk(p: int, size: int) returns (lo: int, hi: int, k: Kind)
      requires Ready() && p in ch && ch[p] == Ck(size, Live)
      modifies store, this`ch, this`dv, this`dvsize, this`top, this`topsize
      ensures Ready() && lo <= p && p + size <= hi && Disposal(old(Now()), p, lo, hi, k, Now())
      ensures Released(old(store.mem), old(ch), store.mem, ch, p) && SameVictim(old(Now()), Now())
    {
      hide StoreOk, Partial, Sound, Kept, FramedView, Pinuse, OnlyLinks, Tiled, BinsIn, Stretch, Binned, Cinuse;
      hide SizeOf, Joined, Released, One, BackJoined, SameVictim;
      ghost var m0, c0, v0 := store.mem, ch, Now();
      SoundParts(store.mem, store.bins, Now());
      lo := JoinBack(p, size);
      var next := p + size;
      ghost var m1 := store.mem;
      PartialParts(m1, store.bins, Now(), lo, next);
      PartialFacts(m1, store.bins, Now(), lo, next);
      JoinedRoles(m1, Now(), lo, p, next);
      NextFacts(m1, store.bins, Now(), lo, p, next);
      Roles(m1, Now(), next);
      ForthRoles(m1, Now(), lo, p, next);
      var head := Word(next + HEAD);
      hi, k := next, Kind.Free;
      if lo != p && lo == dv && Cinuse(head) && Pinuse(head) {
        BecomeVictim(lo, next, true);
        k := Victim;
      } else if !Cinuse(head) {
        if next == top {
          NotBinned(store.bins, ch, next);
          TakeForth(m1, store.bins, Now(), lo, next);
          hi, k := next + topsize, Top;
          BecomeTop(lo, hi);
        } else if next == dv {
          NotBinned(store.bins, ch, next);
          TakeForth(m1, store.bins, Now(), lo, next);
          PastFree(m1, ch, next);
          hi, k := next + dvsize, Victim;
          BecomeVictim(lo, hi, false);
        } else {
          hi := next + SizeOf(head);
          k := JoinForth(lo, p, next, SizeOf(head));
        }
        KeptWider(m0, c0, m1, c0, lo, next, lo, hi);
      } else {
        BecomeFree(lo, next, true);
      }
      KeptTrans(m0, c0, m1, c0, store.mem, ch, lo, hi);
      JoinedReleased(m0, c0, store.mem, ch, lo, p, next, hi, k);
      DisposalVictim(m0, v0, p, lo, hi, k, Now());
    }

    // -------------------------------------------------------------- handing out

    /** `set_inuse_and_pinuse` on a chunk that has left its bin. */
    method Use(lo: int, hi: int)
      requires Gathered(lo, hi) && Pinuse(HeadOf(store.mem, lo)) && hi - lo >= MIN_CHUNK && hi in ch
      requires !Tail(ch[hi].kind)
      requires !(lo <= dv < hi) && !(lo <= top < hi)
      modifies store`mem, this`ch
      ensures Ready() && ch == One(old(ch), lo, hi, Live) && Kept(old(store.mem), old(ch), store.mem, ch, lo, hi)
    {
      hide StoreOk, Partial, Sound, Kept, One, FramedView, Pinuse, Cinuse, SizeOf, SetP;
      ghost var m0, v0 := store.mem, Now();
      SetInUse(lo, hi);
      ch := One(ch, lo, hi, Live);
      assert RolesAfter(v0, Now(), lo, hi, lo, Live);
      LiveSettles(m0, store.bins, v0, Now(), lo, hi);
    }

    /** The whole victim handed out. */
    method UseVictim()
      requires Ready() && dv != NULL
      modifies store`mem, this`ch, this`dv, this`dvsize
      ensures Ready() && old(dv in ch) && ch == One(old(ch), old(dv), old(dv) + old(dvsize), Live) && dv == NULL
      ensures dvsize == 0
      ensures Kept(old(store.mem), old(ch), store.mem, ch, old(dv), old(dv) + old(dvsize))
    {
      hide StoreOk, Partial, Sound, Kept, One, FramedView, Pinuse, Cinuse, SizeOf, SetP, Tiled, Binned, BinsIn;
      ghost var m0, v0 := store.mem, Now();
      var p, dvs := dv, dvsize;
      VictimFacts(m0, store.bins, v0);
      SetInUse(p, p + dvs);
      dvsize, dv := 0, NULL;
      ch := One(ch, p, p + dvs, Live);
      assert RolesAfter(v0, Now(), p, p + dvs, p, Live);
      LiveSettles(m0, store.bins, v0, Now(), p, p + dvs);
    }

    method SetInUse(lo: int, hi: int)
      requires Gathered(lo, hi) && Pinuse(HeadOf(store.mem, lo))
      modifies store`mem
      ensures store.Valid() && store.mem == LiveTags(old(store.mem), lo, hi)
    {
      hide StoreOk, Partial, Tiled, Stretch, BinsIn, Pinuse, SizeOf, Cinuse, SetP;
      ghost var m0 := store.mem;
      PartialFacts(m0, store.bins, Now(), lo, hi);
      Flags(HeadOf(m0, hi));
      Tag(lo + HEAD, hi - lo + PINUSE + CINUSE, m0, lo, hi);
      TagNext(SetP(Word(hi + HEAD)), m0, lo, hi);
    }

    /** `set_size_and_pinuse_of_inuse_chunk` and `set_size_and_pinuse_of_free_chunk`: the front is in use, the rest
        free. */
    method Carve(lo: int, mid: int, hi: int)
      requires Gathered(lo, hi) && Carvable(store.mem, ch, lo, mid, hi)
      requires !(lo <= dv < hi) && !(lo <= top < hi)
      modifies store`mem, this`ch
      ensures store.Valid() && Unsettled(store.mem, store.bins, Now(), mid)
      ensures ch == Two(old(ch), lo, mid, hi, Live, Kind.Free)
      ensures Kept(old(store.mem), old(ch), store.mem, ch, lo, hi)
    {
      hide StoreOk, Partial, Sound, Kept, Two, FramedView, Pinuse, Cinuse, SizeOf, Tiled, Stretch, BinsIn, Unsettled;
      hide SplitWords, Quiet;
      ghost var m0, v0 := store.mem, Now();
      PartialFacts(m0, store.bins, v0, lo, hi);
      MidWord(m0, store.bins, v0, lo, mid, hi);
      Tag(lo + HEAD, mid - lo + PINUSE + CINUSE, m0, lo, hi);
      Tag(mid + HEAD, hi - mid + PINUSE, m0, lo, hi);
      Tag(hi, hi - mid, m0, lo, hi);
      ch := Two(ch, lo, mid, hi, Live, Kind.Free);
      CarveWords(m0, store.bins, lo, mid, hi, Kind.Free);
      assert RolesAfter(v0, Now(), lo, hi, mid, Kind.Free);
      SplitSettles(m0, store.mem, store.bins, v0, Now(), lo, mid, hi, Kind.Free);
    }

    /** The front of the victim handed out; the rest is the victim. */
    method CarveVictim(nb: int)
      requires Ready() && dv != NULL && nb % 16 == 0 && MIN_CHUNK <= nb && dvsize - nb >= MIN_CHUNK
      modifies store`mem, this`ch, this`dv, this`dvsize
      ensures Ready() && old(dv in ch) && ch == Two(old(ch), old(dv), old(dv) + nb, old(dv) + old(dvsize), Live, Victim)
      ensures dv == old(dv) + nb && dvsize == old(dvsize) - nb
      ensures Kept(old(store.mem), old(ch), store.mem, ch, old(dv), old(dv) + old(dvsize))
    {
      hide StoreOk, Partial, Sound, Kept, Two, FramedView, Pinuse, Cinuse, SizeOf, Tiled, Stretch, BinsIn, Binned;
      hide SplitWords, Quiet;
      ghost var m0, v0 := store.mem, Now();
      var p, hi := dv, dv + dvsize;
      var rsize := dvsize - nb;
      VictimFacts(m0, store.bins, v0);
      PartialFacts(m0, store.bins, v0, p, hi);
      MidWord(m0, store.bins, v0, p, p + nb, hi);
      var r := p + nb;
      dv, dvsize := r, rsize;
      TagAs(r + HEAD, rsize + PINUSE, m0, v0, p, hi);
      TagAs(hi, rsize, m0, v0, p, hi);
      TagAs(p + HEAD, nb + PINUSE + CINUSE, m0, v0, p, hi);
      assert store.mem == CarveTags(m0, p, r, hi);
      ch := Two(ch, p, r, hi, Live, Victim);
      CarveWords(m0, store.bins, p, r, hi, Victim);
      assert RolesAfter(v0, Now(), p, hi, r, Victim);
      SplitSettles(m0, store.mem, store.bins, v0, Now(), p, r, hi, Victim);
    }

    /** The front of the top chunk handed out. */
    method CarveTop(nb: int)
      requires Ready() && nb % 16 == 0 && MIN_CHUNK <= nb < topsize
      modifies store`mem, this`ch, this`top, this`topsize
      ensures Ready() && old(top in ch)
      ensures ch == Two(old(ch), old(top), old(top) + nb, old(top) + old(topsize), Live, Top)
      ensures top == old(top) + nb && topsize == old(topsize) - nb
      ensures Kept(old(store.mem), old(ch), store.mem, ch, old(top), old(top) + old(topsize))
    {
      hide StoreOk, Partial, Sound, Kept, Two, FramedView, Pinuse, Cinuse, SizeOf, Tiled, Stretch, BinsIn, Binned;
      hide SplitWords, Quiet;
      ghost var m0, v0 := store.mem, Now();
      var p, hi := top, top + topsize;
      var rsize := topsize - nb;
      TopFacts(m0, store.bins, v0, nb);
      PartialFacts(m0, store.bins, v0, p, hi);
      MidWord(m0, store.bins, v0, p, p + nb, hi);
      var r := p + nb;
      top, topsize := r, rsize;
      TagAs(r + HEAD, rsize + PINUSE, m0, v0, p, hi);
      TagAs(p + HEAD, nb + PINUSE + CINUSE, m0, v0, p, hi);
      ch := Two(ch, p, r, hi, Live, Top);
      CarveTopWords(m0, store.bins, p, r, hi);
      assert RolesAfter(v0, Now(), p, hi, r, Top);
      SplitSettles(m0, store.mem, store.bins, v0, Now(), p, r, hi, Top);
    }

    /** `replace_dv`: the old victim, always small or absent, goes to its bin. */
    method ReplaceDv(r: int, rsize: int)
      requires store.Valid() && Unsettled(store.mem, store.bins, Now(), r) && r in ch && ch[r].size == rsize
      requires dvsize < MIN_LARGE
      modifies store, this`ch, this`dv, this`dvsize
      ensures Ready() && dv == r && dvsize == rsize
      ensures Holdings(ch) == old(Holdings(ch)) && SamePayloads(old(store.mem), store.mem, Holdings(ch))
    {
      hide StoreOk, Sound, Unsettled, OnlyLinks, Kept, FramedView, Binnable, SamePayloads, Holdings, Swapped, VictimOk;
      ghost var m0, v0, b0, old' := store.mem, Now(), store.bins, dv;
      UnsettledParts(m0, b0, v0, r);
      ghost var v1 := v0.(ch := Swapped(ch, dv, r), dv := r, dvsize := rsize);
      SwapVictim(m0, b0, v0, v1, r);
      PayloadsSelf(m0, Holdings(ch));
      if dvsize != 0 {
        StoreBins(store);
        UnsettledBinnable(m0, b0, v1, dv);
        UnsettledParts(m0, b0, v1, dv);
        store.InsertSmall(dv, dvsize);
        Rebinned(m0, store.mem, b0, v1, dv);
        KeptPayloads(m0, v1.ch, store.mem, v1.ch);
      }
      dvsize, dv := rsize, r;
      ch := v1.ch;
    }

    /** `insert_chunk` on a chunk already tagged as free. */
    method BinRest(r: int, rsize: int)
      requires store.Valid() && Unsettled(store.mem, store.bins, Now(), r) && r in ch && ch[r].size == rsize
      modifies store
      ensures Ready() && SamePayloads(old(store.mem), store.mem, Holdings(ch))
    {
      hide StoreOk, Sound, Unsettled, OnlyLinks, Kept, FramedView, Binnable, SamePayloads, Holdings;
      ghost var m0, b0 := store.mem, store.bins;
      StoreBins(store);
      UnsettledBinnable(m0, b0, Now(), r);
      store.Insert(r, rsize);
      Rebinned(m0, store.mem, b0, Now(), r);
      KeptPayloads(m0, ch, store.mem, ch);
    }

    /** A chunk that left its bin serves a request of `nb`: whole, or its front with the rest as victim or in a bin. */
    method Serve(p: int, size: int, nb: int, retire: bool) returns (ghost s: int)
      requires Gathered(p, p + size) && p in ch && ch[p] == Ck(size, Kind.Free)
      requires nb % 16 == 0 && MIN_CHUNK <= nb <= size && (retire ==> dvsize < MIN_LARGE)
      modifies store, this`ch, this`dv, this`dvsize
      ensures Ready() && s == Cut(size, nb)
      ensures nb <= s < nb + MIN_CHUNK && Granted(old(store.mem), old(ch), store.mem, ch, p, s)
      ensures (dv, dvsize) == (if retire && s < size then (p + nb, size - nb) else (old(dv), old(dvsize)))
    {
      hide StoreOk, Partial, Sound, Unsettled, Kept, FramedView, Pinuse, Tiled, Stretch, BinsIn, One, Two, Granted;
      hide SamePayloads, Holdings;
      ghost var m0, c0 := store.mem, ch;
      var rsize := size - nb;
      FreeStretch(m0, store.bins, Now(), p, nb);
      if rsize < MIN_CHUNK {
        Use(p, p + size);
        s := size;
        WholeGranted(m0, c0, store.mem, ch, p);
      } else {
        Carve(p, p + nb, p + size);
        ghost var m1, c1 := store.mem, ch;
        TwoAt(c0, p, p + nb, p + size, Live, Kind.Free);
        FrontGranted(m0, c0, m1, c1, p, p + nb, Kind.Free);
        if retire {
          ReplaceDv(p + nb, rsize);
        } else {
          BinRest(p + nb, rsize);
        }
        s := nb;
        GrantedThen(m0, c0, m1, c1, store.mem, ch, p, nb);
      }
    }

    /** `set_inuse_and_pinuse` on a chunk from the small bin `i`. */
    method MallocSmallExact(i: nat, nb: int) returns (p: int, ghost s: int)
      requires Ready() && i < 32 && BitAt(store.smallmap, i) && nb <= 8 * i < nb + MIN_CHUNK
      modifies store, this`ch
      ensures Ready() && nb <= s < nb + MIN_CHUNK && Granted(old(store.mem), old(ch), store.mem, ch, p, s)
      ensures p in old(store.bins) && s == old(store.bins)[p] == 8 * i && old(store.Chooses(p))
    {
      hide StoreOk, Partial, Sound, Kept, FramedView, Pinuse, Tiled, Stretch, BinsIn, Binned, One, Granted;
      hide SamePayloads, Holdings, OnlyLinks, BitAt;
      ghost var m0, c0, b0 := store.mem, ch, store.bins;
      p := store.TakeSmall(i);
      s := 8 * i;
      ghost var m1 := store.mem;
      TakenFree(m0, m1, b0, Now(), p);
      FreeStretch(m1, store.bins, Now(), p, 32);
      Use(p, p + 8 * i);
      KeptTrans(m0, c0, m1, c0, store.mem, ch, p, p + 8 * i);
      SoundParts(m0, b0, old(Now()));
      WholeGranted(m0, c0, store.mem, ch, p);
    }

    /** A chunk from the small bin `i` serves a smaller request; the rest becomes the victim. */
    method MallocSmallSplit(i: nat, nb: int) returns (p: int, ghost s: int)
      requires Ready() && i < 32 && BitAt(store.smallmap, i) && nb % 16 == 0 && MIN_CHUNK <= nb <= 8 * i
      requires dvsize < MIN_LARGE
      modifies store, this`ch, this`dv, this`dvsize
      ensures Ready() && nb <= s < nb + MIN_CHUNK && Granted(old(store.mem), old(ch), store.mem, ch, p, s)
      ensures p in old(store.bins) && old(store.bins)[p] == 8 * i && s == Cut(8 * i, nb) && old(store.Chooses(p))
      ensures (dv, dvsize) == (if s < 8 * i then (p + nb, 8 * i - nb) else (old(dv), old(dvsize)))
    {
      hide StoreOk, Partial, Sound, Kept, FramedView, Tiled, BinsIn, Binned, Granted, OnlyLinks, BitAt;
      ghost var m0, b0 := store.mem, store.bins;
      p := store.TakeSmall(i);
      ghost var m1 := store.mem;
      TakenFree(m0, m1, b0, Now(), p);
      s := Serve(p, 8 * i, nb, true);
      GrantedAfter(m0, m1, store.mem, old(ch), ch, p, s);
    }

    /** `tmalloc_small`: the smallest tree-binned chunk serves a small request; the rest becomes the victim. */
    method TmallocSmall(nb: int) returns (p: int, ghost s: int)
      requires Ready() && store.treemap != 0 && nb % 16 == 0 && MIN_CHUNK <= nb < MIN_LARGE && dvsize < nb
      modifies store, this`ch, this`dv, this`dvsize
      ensures Ready() && nb <= s < nb + MIN_CHUNK && Granted(old(store.mem), old(ch), store.mem, ch, p, s)
      ensures BestFit(old(store.bins), nb, p) && s == Cut(old(store.bins)[p], nb) && old(store.Chooses(p))
      ensures (dv, dvsize) ==
        (if s < old(store.bins)[p] then (p + nb, old(store.bins)[p] - nb) else (old(dv), old(dvsize)))
    {
      hide StoreOk, Partial, Sound, Kept, FramedView, Granted, OnlyLinks;
      ghost var m0, b0 := store.mem, store.bins;
      var rsize;
      p, rsize := store.SearchSmallest(nb);
      store.UnlinkLarge(p);
      ghost var m1 := store.mem;
      TakenFree(m0, m1, b0, Now(), p);
      s := Serve(p, rsize + nb, nb, true);
      GrantedAfter(m0, m1, store.mem, old(ch), ch, p, s);
    }

    /** `tmalloc_large`: a best fit among the tree-binned chunks, unless the victim fits at least as tightly. */
    method TmallocLarge(nb: int) returns (p: int, ghost s: int)
      requires Ready() && nb % 16 == 0 && MIN_LARGE <= nb < WORD
      modifies store, this`ch, this`dv, this`dvsize
      ensures Ready()
      ensures p != NULL <==> old(BinsServe(store.bins, Now(), nb))
      ensures p == NULL ==> ch == old(ch) && store.mem == old(store.mem) && store.bins == old(store.bins)
      ensures p != NULL ==> nb <= s < nb + MIN_CHUNK && Granted(old(store.mem), old(ch), store.mem, ch, p, s)
      ensures p != NULL ==> FromBins(old(store.bins), old(Now()), nb, p, s, Now()) && old(store.Chooses(p))
      ensures dv == old(dv) && dvsize == old(dvsize)
    {
      hide StoreOk, Partial, Sound, Kept, FramedView, Granted, OnlyLinks, BinsServe, NoFit;
      ghost var m0, b0 := store.mem, store.bins;
      var rsize;
      p, rsize := store.SearchLarge(nb);
      LargeChoice(b0, Now(), nb, p);
      if p == NULL || (dvsize >= nb && !(rsize < dvsize - nb)) {
        p, s := NULL, 0;
        return;
      }
      store.UnlinkLarge(p);
      ghost var m1 := store.mem;
      TakenFree(m0, m1, b0, Now(), p);
      s := Serve(p, rsize + nb, nb, false);
      GrantedAfter(m0, m1, store.mem, old(ch), ch, p, s);
    }

    /** Serving from the victim. */
    method MallocVictim(nb: int) returns (p: int, ghost s: int)
      requires Ready() && nb % 16 == 0 && MIN_CHUNK <= nb <= dvsize
      modifies store, this`ch, this`dv, this`dvsize
      ensures Ready() && nb <= s < nb + MIN_CHUNK && Granted(old(store.mem), old(ch), store.mem, ch, p, s)
      ensures FromVictim(old(Now()), nb, p, s, Now())
    {
      hide StoreOk, Partial, Sound, Kept, FramedView, Granted, One, Two, Tiled, Binned, BinsIn, Pinuse;
      ghost var m0, c0 := store.mem, ch;
      SoundParts(m0, store.bins, Now());
      VictimThere(m0, Now());
      var rsize := dvsize - nb;
      p := dv;
      if rsize >= MIN_CHUNK {
        CarveVictim(nb);
        s := nb;
        FrontGranted(m0, c0, store.mem, ch, p, p + nb, Victim);
      } else {
        s := dvsize;
        UseVictim();
        WholeGranted(m0, c0, store.mem, ch, p);
      }
    }

    /** Serving from the top chunk. */
    method MallocTop(nb: int) returns (p: int)
      requires Ready() && nb % 16 == 0 && MIN_CHUNK <= nb < topsize
      modifies store, this`ch, this`top, this`topsize
      ensures Ready() && Granted(old(store.mem), old(ch), store.mem, ch, p, nb)
      ensures FromTop(old(Now()), nb, p, nb, Now())
    {
      hide StoreOk, Partial, Sound, Kept, FramedView, Granted, Two, Tiled, Binned, BinsIn, Pinuse;
      ghost var m0, c0 := store.mem, ch;
      SoundParts(m0, store.bins, Now());
      TopFacts(m0, store.bins, Now(), nb);
      p := top;
      CarveTop(nb);
      FrontGranted(m0, c0, store.mem, ch, p, p + nb, Top);
    }

    // -------------------------------------------------------------- segments

    /** Writing a word that is in no binned chunk. */
    method Put(a: int, x: int)
      requires store.Valid() && a in store.mem && !BinWord(a) && !BinnedWord(store.bins, a)
      modifies store`mem
      ensures store.Valid() && store.mem == old(store.mem)[a := x]
    {
      hide StoreOk, BinWord;
      StoreBins(store);
      NotBinnedWord(store.bins, a);
      store.Poke(a, x);
    }

    /** `init_top` */
    method InitTop(p: int, size: int)
      requires store.Valid() && p > 0 && p % 16 == 0 && p + HEAD in store.mem && p + size + HEAD in store.mem
      requires p + size > 0
      requires !BinnedWord(store.bins, p + HEAD) && !BinnedWord(store.bins, p + size + HEAD)
      modifies store`mem, this`top, this`topsize, this`trimCheck
      ensures store.Valid() && store.mem == old(store.mem)[p + HEAD := size + PINUSE][p + size + HEAD := TOP_FOOT]
      ensures top == p && topsize == size && trimCheck == TRIM_THRESHOLD
    {
      hide StoreOk, BinnedWord;
      var offset := AlignUp(p + MEM_OFFSET, ALIGN) - (p + MEM_OFFSET);
      assert offset == 0;
      top, topsize := p + offset, size - offset;
      Put(top + HEAD, topsize + PINUSE);
      Put(top + topsize + HEAD, TOP_FOOT);
      trimCheck := TRIM_THRESHOLD;
    }

    /** The first region from the system. */
    method Begin(lo: int, hi: int)
      requires store.Valid() && store.bins == map[] && store.smallmap == 0 && store.treemap == 0 && ch == map[]
      requires dv == NULL && dvsize == 0
      requires lo > 0 && lo % 16 == 0 && hi % 16 == 0 && hi <= WORD && hi - lo >= 96
      requires RecordWords(store.mem) && Get(store.mem, SEG_HEAD + SEG_NEXT) == NULL
      requires forall a :: lo <= a < hi && a % 8 == 0 ==> a in store.mem
      modifies store`mem, this`ch, this`segs, this`top, this`topsize, this`trimCheck, this`releaseChecks
      ensures Ready() && releaseChecks == RELEASE_RATE && topsize == hi - lo - TOP_FOOT && top == lo
      ensures segs == [Seg(SEG_HEAD, lo, hi - lo)] && Holdings(ch) == map[] && trimCheck == TRIM_THRESHOLD
    {
      hide StoreOk, OnlyLinks, Sound, Begun, Holdings, FirstView, BinsIn, Binnable;
      ghost var m0 := store.mem;
      BeginWords(m0, lo, hi);
      Put(SEG_HEAD, lo);
      Put(SEG_HEAD + SEG_SIZE, hi - lo);
      Put(SEG_HEAD + SEG_FLAGS, 0);
      releaseChecks := RELEASE_RATE;
      ghost var m1 := store.mem;
      store.InitBins();
      ghost var m2 := store.mem;
      InitKept(m1, m2);
      InitTop(lo, hi - lo - TOP_FOOT);
      BegunFrom(m1, m2, store.mem, lo, hi);
      FirstSound(store.mem, lo, hi);
      FirstIs(lo, hi);
      ch, segs := FirstView(lo, hi).ch, FirstView(lo, hi).segs;
    }

    /** A region that continues the newest segment goes to the top chunk. */
    method ExtendTop(sp: int, ts: int)
      requires Ready() && |segs| > 0 && sp == segs[0].at && ts > 0 && ts % 16 == 0 && End(segs[0]) + ts <= WORD
      requires Fresh(segs, End(segs[0]), End(segs[0]) + ts)
      requires forall a :: End(segs[0]) <= a < End(segs[0]) + ts && a % 8 == 0 ==> a in store.mem
      modifies store`mem, this`ch, this`segs, this`top, this`topsize, this`trimCheck
      ensures Ready() && topsize == old(topsize) + ts && top == old(top) && trimCheck == TRIM_THRESHOLD
      ensures segs == old(segs)[0 := Seg(SEG_HEAD, old(segs)[0].base, old(segs)[0].size + ts)]
      ensures Holdings(ch) == old(Holdings(ch)) && SamePayloads(old(store.mem), store.mem, Holdings(ch))
    {
      hide StoreOk, Sound, Holdings, SamePayloads, FramedView, BinsIn, BinnedWord, RetopView, Binned, Tiled, Fresh;
      hide Retop, BinWord;
      ghost var m0, v0, hi := store.mem, Now(), End(segs[0]) + ts;
      SoundParts(m0, store.bins, v0);
      SegRead(m0, v0, 0);
      SegHere(m0, v0, 0);
      TopOnly(m0, v0);
      OwnWord(m0, store.bins, v0, SEG_HEAD + SEG_SIZE);
      EndHead(m0, store.bins, v0, hi, top);
      EndHead(m0, store.bins, v0, hi, top + topsize + ts);
      Put(sp + SEG_SIZE, Word(sp + SEG_SIZE) + ts);
      InitTop(top, topsize + ts);
      ExtendRetop(m0, store.mem, v0, ts);
      RetopSound(m0, store.mem, store.bins, v0, hi);
      RetopIs(v0, hi);
      ch, segs := RetopView(v0, hi).ch, RetopView(v0, hi).segs;
    }

    /** `segment_holding` */
    method SegmentHolding(ptr: int) returns (sp: int, ghost i: int)
      requires FramedView(store.mem, Now()) && |segs| > 0
      ensures sp != NULL ==> 0 <= i < |segs| && sp == segs[i].at && segs[i].base <= ptr < End(segs[i])
      ensures sp == NULL ==> forall k :: 0 <= k < |segs| ==> !(segs[k].base <= ptr < End(segs[k]))
    {
      hide FramedView;
      SegHere(store.mem, Now(), 0);
      sp, i := SEG_HEAD, 0;
      while sp != NULL
        invariant 0 <= i <= |segs| && sp == (if i < |segs| then segs[i].at else NULL)
        invariant forall k :: 0 <= k < i ==> !(segs[k].base <= ptr < End(segs[k]))
        decreases |segs| - i
      {
        SegRead(store.mem, Now(), i);
        if Word(sp) <= ptr && ptr < Word(sp) + Word(sp + SEG_SIZE) {
          return;
        }
        sp := Word(sp + SEG_NEXT);
        i := i + 1;
      }
      if i < |segs| { SegRead(store.mem, Now(), i); }
    }

    /** The fenceposts of `add_segment`, one per word up to the end. */
    method Fences(first: int, end: int)
      requires store.Valid() && first % 8 == 0 && first + 32 <= end && Spare(store.mem, store.bins, first, end)
      modifies store`mem
      ensures store.Valid() && store.mem.Keys == old(store.mem).Keys
      ensures forall k: nat :: FenceAt(first, k) < end ==> Get(store.mem, FenceAt(first, k)) == FENCE
      ensures forall a :: a < first + HEAD || a >= end ==> Get(store.mem, a) == Get(old(store.mem), a)
    {
      hide StoreOk, BinWord, BinnedWord;
      ghost var m0 := store.mem;
      var p := first;
      var nfences := 0;
      while true
        invariant first <= p && p % 8 == 0 && p + HEAD < end && p == first + 8 * nfences && nfences >= 0
        invariant store.Valid() && store.mem.Keys == m0.Keys
        invariant forall k: nat :: k < nfences ==> Get(store.mem, FenceAt(first, k)) == FENCE
        invariant forall a :: a < first + HEAD || a >= end ==> Get(store.mem, a) == Get(m0, a)
        decreases end - p
      {
        var nextp := p + 8;
        Put(p + HEAD, FENCE);
        nfences := nfences + 1;
        if nextp + HEAD < end {
          p := nextp;
        } else {
          break;
        }
      }
      assert nfences >= 2;
    }

    /** The current segment record is copied into the chunk at `csp` and replaced by the new one. */
    method PushRecord(csp: int, lo: int, hi: int)
      requires store.Valid() && csp > 0 && RecordSpare(store.mem, store.bins, csp)
      modifies store`mem
      ensures store.Valid() && store.mem == Pushed(old(store.mem), csp, lo, hi)
    {
      hide StoreOk, BinWord, BinnedWord;
      var ss := csp + MEM_OFFSET;
      var base, size, next, flags := Word(SEG_HEAD), Word(SEG_HEAD + SEG_SIZE), Word(SEG_HEAD + SEG_NEXT),
          Word(SEG_HEAD + SEG_FLAGS);
      Put(csp + HEAD, SEGMENT_CHUNK + PINUSE + CINUSE);
      Put(ss, base);
      Put(ss + SEG_SIZE, size);
      Put(ss + SEG_NEXT, next);
      Put(ss + SEG_FLAGS, flags);
      Put(SEG_HEAD, lo);
      Put(SEG_HEAD + SEG_SIZE, hi - lo);
      Put(SEG_HEAD + SEG_FLAGS, 0);
      Put(SEG_HEAD + SEG_NEXT, ss);
    }

    /** Where `add_segment` puts the record of the segment that ends with the old top. */
    method RecordPlace() returns (csp: int, oldEnd: int)
      requires Ready() && |segs| > 0
      ensures oldEnd == End(segs[0]) && csp == RecordAt(top, oldEnd) && ClosedShape(top, csp, oldEnd)
    {
      hide StoreOk, Sound, FramedView, Tiled, Binned, BinsIn;
      SoundParts(store.mem, store.bins, Now());
      TopOnly(store.mem, Now());
      var oldsp;
      ghost var i;
      oldsp, i := SegmentHolding(top);
      TopSegment(store.mem, Now(), 0);
      if 0 < i < |segs| { TopSegment(store.mem, Now(), i); }
      SegRead(store.mem, Now(), 0);
      oldEnd := Word(oldsp) + Word(oldsp + SEG_SIZE);
      SegEnds(store.mem, Now(), 0);
      var rawsp := oldEnd - (PadRequest(32) + 8 * 4 + ALIGN - 1);
      var asp := rawsp + (AlignUp(rawsp + MEM_OFFSET, ALIGN) - (rawsp + MEM_OFFSET));
      RecordSpot(oldEnd, rawsp);
      csp := if asp < top + MIN_CHUNK then top else asp;
      CloseShape(top, topsize, csp, oldEnd);
    }

    /** The writes of `add_segment`. */
    method WriteSegment(lo: int, hi: int, csp: int, oldEnd: int) returns (ghost m1: Mem)
      requires Ready() && |segs| > 0 && NewRegion(store.mem, segs, lo, hi) && oldEnd == End(segs[0])
      requires ClosedShape(top, csp, oldEnd)
      modifies store`mem, this`top, this`topsize, this`trimCheck
      ensures store.Valid() && Added(old(store.mem), m1, store.mem, old(Now()), lo, hi, csp)
      ensures top == lo && topsize == hi - lo - TOP_FOOT && trimCheck == TRIM_THRESHOLD
    {
      hide StoreOk, Sound, FramedView, BinsIn, BinnedWord, Binned, Tiled, Fresh, BinWord, NewRegion, Pushed, Added;
      hide Spare, RecordSpare, ClosedShape, FenceAt, FreeTags;
      ghost var m0, v0, b0 := store.mem, Now(), store.bins;
      var oldTop := top;
      SoundParts(m0, b0, v0);
      OpenWords(m0, b0, v0, lo, hi);
      ClosedFacts(oldTop, csp, oldEnd);
      CloseSpare(m0, b0, v0, csp, oldEnd);
      InitTop(lo, hi - lo - TOP_FOOT);
      m1 := store.mem;
      RecordSpareKept(m0, m1, b0, csp);
      PushRecord(csp, lo, hi);
      PushedKeys(m1, b0, csp, lo, hi);
      SpareKept(m0, store.mem, b0, csp + SEGMENT_CHUNK, oldEnd);
      Fences(csp + SEGMENT_CHUNK, oldEnd);
      ghost var m3 := store.mem;
      FirstFence(m3, csp + SEGMENT_CHUNK, oldEnd);
      if csp != oldTop {
        SpareKept(m0, m3, b0, oldTop, csp + 48);
        SpareFree(m3, b0, oldTop, csp);
        CloseFree(oldTop, csp);
      }
      AddedWrites(m0, m1, m3, store.mem, v0, lo, hi, csp);
    }

    /** `add_segment` */
    method AddSegment(lo: int, hi: int)
      requires Ready() && |segs| > 0 && NewRegion(store.mem, segs, lo, hi)
      modifies store, this`ch, this`segs, this`top, this`topsize, this`trimCheck
      ensures Ready() && top == lo && topsize == hi - lo - TOP_FOOT && trimCheck == TRIM_THRESHOLD
      ensures var at := RecordAt(old(top), End(old(segs)[0])) + MEM_OFFSET;
        segs == [Seg(SEG_HEAD, lo, hi - lo), Seg(at, old(segs)[0].base, old(segs)[0].size)] + old(segs)[1..]
      ensures Holdings(ch) == old(Holdings(ch)) && SamePayloads(old(store.mem), store.mem, Holdings(ch))
    {
      hide StoreOk, Sound, Holdings, SamePayloads, NewRegion, AddedView, Unsettled, Added;
      ghost var m0, v0, hs := store.mem, Now(), Holdings(ch);
      var oldTop := top;
      var csp, oldEnd := RecordPlace();
      ghost var m1 := WriteSegment(lo, hi, csp, oldEnd);
      ghost var m4 := store.mem;
      AddedSound(m0, m1, m4, store.bins, v0, lo, hi, csp);
      AddedIs(v0, lo, hi, csp);
      ch, segs := AddedView(v0, lo, hi, csp).ch, AddedView(v0, lo, hi, csp).segs;
      if csp != oldTop {
        BinRest(oldTop, csp - oldTop);
        PayloadsTrans(m0, m4, store.mem, hs);
      }
    }

    /** `set_free_with_pinuse` on the rest of the old top, up to the record chunk at `csp`. */
    method CloseFree(p: int, csp: int)
      requires store.Valid() && p + HEAD in store.mem && csp in store.mem && csp + HEAD in store.mem
      requires !BinWord(p + HEAD) && !BinWord(csp) && !BinWord(csp + HEAD)
      requires !BinnedWord(store.bins, p + HEAD) && !BinnedWord(store.bins, csp) && !BinnedWord(store.bins, csp + HEAD)
      modifies store`mem
      ensures store.Valid() && store.mem == FreeTags(old(store.mem), p, csp)
    {
      hide StoreOk, BinWord, BinnedWord;
      Put(csp + HEAD, ClearP(Word(csp + HEAD)));
      Put(p + HEAD, csp - p + PINUSE);
      Put(csp, csp - p);
    }

    // -------------------------------------------------------------- memory in front of a segment

    /** Only the head of the chunk at `lo` is written so far: `mg` is the memory in which it fills the new region. */
    ghost predicate Fronting(mg: Mem, v: View, lo: int, mid: int, hi: int)
      reads this, store
    {
      && store.Valid() && Partial(mg, store.bins, v, lo, hi) && lo + HEAD in mg && Pinuse(HeadOf(mg, lo))
      && store.mem == mg[lo + HEAD := mid - lo + PINUSE + CINUSE]
      && mid % 16 == 0 && mid - lo >= MIN_CHUNK && hi - mid >= MIN_CHUNK
      && dv == v.dv && dvsize == v.dvsize && top == v.top && topsize == v.topsize && segs == v.segs
    }

    /** The rest of the new region joins the top chunk. */
    method PrependTop(lo: int, q: int, ghost mg: Mem, ghost v: View)
      requires Fronting(mg, v, lo, q, top + topsize) && lo < q < top && topsize > 0 && !(lo <= dv < top + topsize)
      modifies store`mem, this`ch, this`top, this`topsize
      ensures Ready() && ch == Two(v.ch, lo, q, v.top + v.topsize, Live, Top)
      ensures Kept(mg, v.ch, store.mem, ch, lo, v.top + v.topsize)
      ensures top == q && topsize == v.topsize + v.top - q
    {
      hide StoreOk, Partial, Sound, Kept, Two, FramedView, Pinuse, Tiled, Stretch, BinsIn, SplitWords, Quiet;
      ghost var hi := top + topsize;
      PartialFacts(mg, store.bins, v, lo, hi);
      MidWord(mg, store.bins, v, lo, q, hi);
      FootFacts(mg, store.bins, v, lo, hi);
      var qsize := top - q;
      topsize := topsize + qsize;
      var tsize := topsize;
      top := q;
      TagAs(q + HEAD, tsize + PINUSE, mg, v, lo, hi);
      assert store.mem == CarveTopTags(mg, lo, q, hi);
      ch := Two(v.ch, lo, q, hi, Live, Top);
      CarveTopWords(mg, store.bins, lo, q, hi);
      PrependRoles(v, Now(), lo, q, hi, Top);
      SplitSettles(mg, store.mem, store.bins, v, Now(), lo, q, hi, Top);
    }

    /** The rest of the new region joins the victim. */
    method PrependVictim(lo: int, q: int, ghost mg: Mem, ghost v: View)
      requires Fronting(mg, v, lo, q, dv + dvsize) && lo < q < dv && dvsize > 0 && !(lo <= top < dv + dvsize)
      requires dv + dvsize in v.ch && Follows(Victim, v.ch[dv + dvsize].kind) && !Pinuse(HeadOf(mg, dv + dvsize))
      modifies store`mem, this`ch, this`dv, this`dvsize
      ensures Ready() && ch == Two(v.ch, lo, q, v.dv + v.dvsize, Live, Victim)
      ensures Kept(mg, v.ch, store.mem, ch, lo, v.dv + v.dvsize)
      ensures dv == q && dvsize == v.dvsize + v.dv - q
    {
      hide StoreOk, Partial, Sound, Kept, Two, FramedView, Pinuse, Tiled, Stretch, BinsIn, SplitWords, Quiet;
      ghost var m1 := store.mem;
      var hi := dv + dvsize;
      PartialFacts(mg, store.bins, v, lo, hi);
      MidWord(mg, store.bins, v, lo, q, hi);
      var qsize := dv - q;
      dvsize := dvsize + qsize;
      var dsize := dvsize;
      dv := q;
      TagAs(q + HEAD, dsize + PINUSE, mg, v, lo, hi);
      TagAs(hi, dsize, mg, v, lo, hi);
      ch := Two(v.ch, lo, q, hi, Live, Victim);
      CarveWords(mg, store.bins, lo, q, hi, Victim);
      PrependRoles(v, Now(), lo, q, hi, Victim);
      SplitSettles(mg, store.mem, store.bins, v, Now(), lo, q, hi, Victim);
    }

    /** The rest of the new region, up to a chunk in use, becomes a free chunk. */
    method PrependFree(lo: int, q: int, hi: int, ghost mg: Mem, ghost v: View)
      requires Fronting(mg, v, lo, q, hi) && !(lo <= dv < hi) && !(lo <= top < hi) && hi in v.ch
      requires Follows(Kind.Free, v.ch[hi].kind)
      modifies store, this`ch
      ensures Ready() && ch == Two(v.ch, lo, q, hi, Live, Kind.Free) && Kept(mg, v.ch, store.mem, ch, lo, hi)
    {
      hide StoreOk, Partial, Sound, Kept, Two, FramedView, Pinuse, Cinuse, SizeOf, Tiled, Stretch, BinsIn, SplitWords;
      hide Quiet, ClearP, Unsettled, OnlyLinks, Binnable;
      PartialFacts(mg, store.bins, v, lo, hi);
      MidWord(mg, store.bins, v, lo, q, hi);
      Flags(HeadOf(mg, hi));
      TagNextAs(ClearP(Word(hi + HEAD)), mg, v, lo, hi);
      TagAs(q + HEAD, hi - q + PINUSE, mg, v, lo, hi);
      TagAs(hi, hi - q, mg, v, lo, hi);
      ghost var m1, b1 := store.mem, store.bins;
      ch := Two(v.ch, lo, q, hi, Live, Kind.Free);
      CarveClearWords(mg, b1, lo, q, hi, Kind.Free);
      PrependRoles(v, Now(), lo, q, hi, Kind.Free);
      SplitSettles(mg, m1, b1, v, Now(), lo, q, hi, Kind.Free);
      TwoAt(v.ch, lo, q, hi, Live, Kind.Free);
      StoreBins(store);
      UnsettledBinnable(m1, b1, Now(), q);
      store.Insert(q, hi - q);
      Rebinned(m1, store.mem, b1, Now(), q);
      KeptTrans(mg, v.ch, m1, ch, store.mem, ch, lo, hi);
    }

    /** `prepend_alloc`: the front of the new region serves the request, the rest joins the old first chunk. */
    method PrependAlloc(lo: int, oldbase: int, nb: int, ghost mg: Mem, ghost v: View) returns (p: int)
      requires store.Valid() && Sound(mg, store.bins, v) && lo + HEAD in store.mem
      requires mg == store.mem[lo + HEAD := oldbase - lo + PINUSE + CINUSE]
      requires lo in v.ch && v.ch[lo] == Ck(oldbase - lo, Live) && lo > 0 && lo % 16 == 0 && oldbase % 16 == 0
      requires nb % 16 == 0 && MIN_CHUNK <= nb && oldbase - lo - nb >= MIN_CHUNK
      requires dv == v.dv && dvsize == v.dvsize && top == v.top && topsize == v.topsize && segs == v.segs
      modifies store, this`ch, this`dv, this`dvsize, this`top, this`topsize
      ensures Ready() && p == lo && Resized(mg, v.ch, store.mem, ch, lo, nb) && FrontJoined(v, lo + nb, oldbase, Now())
    {
      hide StoreOk, Partial, Sound, Kept, Two, FramedView, Pinuse, Cinuse, SizeOf, Tiled, Stretch, BinsIn, OnlyLinks;
      hide Resized, Leads, Binned, AlignAsChunk;
      p := AlignAsChunk(lo);
      var oldfirst := AlignAsChunk(oldbase);
      var q := p + nb;
      SoundParts(mg, store.bins, v);
      StartStretch(mg, store.bins, v, lo);
      PartialFacts(mg, store.bins, v, lo, oldbase);
      FrontHead(mg, v, lo, oldbase, nb);
      TagAs(p + HEAD, nb + PINUSE + CINUSE, mg, v, lo, oldbase);
      assert store.mem == mg[lo + HEAD := nb + PINUSE + CINUSE];
      PrependRest(lo, q, oldfirst, mg, v);
    }

    /** The rest of the new region joins the top chunk or the victim if that comes first, else it becomes a free
        chunk. */
    method PrependRest(lo: int, q: int, oldfirst: int, ghost mg: Mem, ghost v: View)
      requires Fronting(mg, v, lo, q, oldfirst) && lo in v.ch && v.ch[lo] == Ck(oldfirst - lo, Live)
      modifies store, this`ch, this`dv, this`dvsize, this`top, this`topsize
      ensures Ready() && Resized(mg, v.ch, store.mem, ch, lo, q - lo) && FrontJoined(v, q, oldfirst, Now())
    {
      hide StoreOk, Partial, Sound, Kept, Two, FramedView, Pinuse, Cinuse, SizeOf, Tiled, Stretch, BinsIn, OnlyLinks;
      hide Resized, Leads, Binned;
      PartialParts(mg, store.bins, v, lo, oldfirst);
      PartialFacts(mg, store.bins, v, lo, oldfirst);
      NextFacts(mg, store.bins, v, lo, lo, oldfirst);
      Roles(mg, v, oldfirst);
      LeadRoles(mg, v, lo);
      if oldfirst == top {
        NotBinned(store.bins, v.ch, oldfirst);
        TakeForth(mg, store.bins, v, lo, oldfirst);
        LeadsWith(mg, v.ch, lo, top + topsize);
        PrependTop(lo, q, mg, v);
        ResizedTwo(mg, v.ch, store.mem, lo, q, v.top + v.topsize, Top);
      } else if oldfirst == dv {
        NotBinned(store.bins, v.ch, oldfirst);
        TakeForth(mg, store.bins, v, lo, oldfirst);
        PastFree(mg, v.ch, oldfirst);
        LeadsWith(mg, v.ch, lo, dv + dvsize);
        PrependVictim(lo, q, mg, v);
        ResizedTwo(mg, v.ch, store.mem, lo, q, v.dv + v.dvsize, Victim);
      } else {
        PrependOther(lo, q, oldfirst, mg, v);
      }
    }

    /** The rest of the new region, with the old first chunk if that is free, becomes a free chunk. */
    method PrependOther(lo: int, q: int, oldfirst: int, ghost mg: Mem, ghost v: View)
      requires Fronting(mg, v, lo, q, oldfirst) && lo in v.ch && v.ch[lo] == Ck(oldfirst - lo, Live) && oldfirst != dv
      requires oldfirst != top
      modifies store, this`ch
      ensures Ready() && Resized(mg, v.ch, store.mem, ch, lo, q - lo)
    {
      hide StoreOk, Partial, Sound, Kept, Two, FramedView, Pinuse, Cinuse, SizeOf, Tiled, Stretch, BinsIn, OnlyLinks;
      hide Resized, Leads;
      var hi := oldfirst;
      ghost var mg', h := mg, HeadOf(mg, lo);
      PartialParts(mg, store.bins, v, lo, hi);
      PartialFacts(mg, store.bins, v, lo, hi);
      NextFacts(mg, store.bins, v, lo, lo, oldfirst);
      Roles(mg, v, oldfirst);
      LeadRoles(mg, v, lo);
      KeptSelf(mg, v.ch, lo, hi);
      if !InUse(Word(oldfirst + HEAD)) {
        var nsize := SizeOf(Word(oldfirst + HEAD));
        ghost var m1, b0 := store.mem, store.bins;
        store.Unlink(oldfirst, nsize);
        mg' := store.mem[lo + HEAD := h];
        TagWritable(mg, b0, v, lo, oldfirst, lo + HEAD);
        LinksUnder(mg, m1, store.mem, b0, lo, h);
        UnlinkPartial(mg, mg', b0, v, lo, oldfirst);
        TakeForth(mg', b0, v, lo, oldfirst);
        hi := oldfirst + nsize;
        PartialFacts(mg', store.bins, v, lo, hi);
        PastFree(mg', v.ch, oldfirst);
        KeptWider(mg, v.ch, mg', v.ch, lo, oldfirst, lo, hi);
      }
      LeadsWith(mg, v.ch, lo, hi);
      PrependFree(lo, q, hi, mg', v);
      KeptTrans(mg, v.ch, mg', v.ch, store.mem, ch, lo, hi);
      ResizedTwo(mg, v.ch, store.mem, lo, q, hi, Kind.Free);
    }

    // -------------------------------------------------------------- requests to the system

    /** The segment that ends at `a`, if any. */
    method SegmentEndingAt(a: int) returns (sp: int, ghost i: int)
      requires FramedView(store.mem, Now()) && |segs| > 0
      ensures sp != NULL ==> 0 <= i < |segs| && sp == segs[i].at && End(segs[i]) == a
      ensures sp == NULL ==> forall k :: 0 <= k < |segs| ==> End(segs[k]) != a
      ensures |segs| > 0 && End(segs[0]) == a ==> i == 0
    {
      hide FramedView;
      SegHere(store.mem, Now(), 0);
      sp, i := SEG_HEAD, 0;
      SegRead(store.mem, Now(), 0);
      while sp != NULL && a != Word(sp) + Word(sp + SEG_SIZE)
        invariant 0 <= i <= |segs| && sp == (if i < |segs| then segs[i].at else NULL)
        invariant sp != NULL ==>
          && i < |segs| && sp in store.mem && sp + SEG_SIZE in store.mem && store.mem[sp] == segs[i].base
          && store.mem[sp + SEG_SIZE] == segs[i].size
        invariant forall k :: 0 <= k < i ==> End(segs[k]) != a
        decreases |segs| - i
      {
        SegRead(store.mem, Now(), i);
        sp := Word(sp + SEG_NEXT);
        i := i + 1;
        if i < |segs| { SegRead(store.mem, Now(), i); }
      }
      if i < |segs| { SegRead(store.mem, Now(), i); }
    }

    /** The segment that starts at `a`, if any. */
    method SegmentStartingAt(a: int) returns (sp: int, ghost i: int)
      requires FramedView(store.mem, Now()) && |segs| > 0
      ensures sp != NULL ==> 0 <= i < |segs| && sp == segs[i].at && segs[i].base == a
      ensures sp == NULL ==> forall k :: 0 <= k < |segs| ==> segs[k].base != a
    {
      hide FramedView;
      SegHere(store.mem, Now(), 0);
      sp, i := SEG_HEAD, 0;
      SegRead(store.mem, Now(), 0);
      while sp != NULL && Word(sp) != a
        invariant 0 <= i <= |segs| && sp == (if i < |segs| then segs[i].at else NULL)
        invariant sp != NULL ==> i < |segs| && sp in store.mem && store.mem[sp] == segs[i].base
        invariant forall k :: 0 <= k < i ==> segs[k].base != a
        decreases |segs| - i
      {
        SegRead(store.mem, Now(), i);
        sp := Word(sp + SEG_NEXT);
        i := i + 1;
        if i < |segs| { SegRead(store.mem, Now(), i); }
      }
      if i < |segs| { SegRead(store.mem, Now(), i); }
    }

    /** What the system would answer to `sys_alloc`. */
    ghost function Answer(nb: nat): Grant
      reads this, store
    {
      sys.alloc(asked, store.mem, AskSize(nb))
    }

    /** The system would refuse what `sys_alloc` asks for. */
    ghost predicate Refusing(nb: nat)
      reads this, store
    {
      Answer(nb).Refused?
    }

    /** Nothing on hand serves `nb`, and the system would refuse. */
    ghost predicate Denied(nb: nat)
      reads this, store
    {
      Exhausted(store.bins, Now(), nb) && Refusing(nb)
    }

    /** The chunk at `p` cannot grow to `nb` bytes in place, nor can a new chunk be had. */
    ghost predicate Stuck(p: int, nb: nat)
      reads this, store
    {
      !RoomBehind(ch, p, nb) && Denied(nb)
    }

    /** The region goes in front of the segment whose record is `sp`. */
    method Prepend(sp: int, lo: int, ts: int, nb: int, ghost j: int) returns (p: int)
      requires Ready() && 0 <= j < |segs| && sp == segs[j].at && lo + ts == segs[j].base
      requires NewRegion(store.mem, segs, lo, lo + ts)
      requires nb % 16 == 0 && MIN_CHUNK <= nb && ts - nb >= 96
      modifies store, this`ch, this`segs, this`dv, this`dvsize, this`top, this`topsize
      ensures Ready() && segs == old(segs)[j := Seg(sp, lo, old(segs)[j].size + ts)]
      ensures p == lo && Granted(old(store.mem), old(ch), store.mem, ch, p, nb)
      ensures FrontJoined(old(Now()).(segs := segs), lo + nb, lo + ts, Now())
    {
      hide StoreOk, Sound, FramedView, BinsIn, BinnedWord, Binned, Tiled, Fresh, BinWord, NewRegion, Fronted;
      hide FrontView, Holdings, SamePayloads, Resized, Granted;
      ghost var m0, v0, b0 := store.mem, Now(), store.bins;
      SoundParts(m0, b0, v0);
      SegRead(m0, v0, j);
      RecordWord(m0, b0, v0, j, sp);
      RecordWord(m0, b0, v0, j, sp + SEG_SIZE);
      RegionFacts(m0, segs, lo, lo + ts);
      var oldbase := Word(sp);
      Put(sp, lo);
      Put(sp + SEG_SIZE, Word(sp + SEG_SIZE) + ts);
      ghost var mg := store.mem[lo + HEAD := oldbase - lo + PINUSE + CINUSE];
      FrontedWrites(m0, mg, v0, j, lo, ts);
      FrontSound(m0, mg, b0, v0, j, lo);
      ghost var v1 := FrontView(v0, j, lo);
      FrontIs(v0, j, lo);
      segs := v1.segs;
      p := PrependAlloc(lo, oldbase, nb, mg, v1);
      RegionGranted(m0, v0.ch, mg, v1.ch, store.mem, ch, lo, nb, ts);
    }

    /** The three ways a further region is used: at the end of the newest segment, in front of some segment, or by
        itself. */
    method Grow(lo: int, ts: int, nb: int) returns (p: int)
      requires Ready() && |segs| > 0 && NewRegion(store.mem, segs, lo, lo + ts) && nb % 16 == 0 && MIN_CHUNK <= nb
      requires ts - nb >= 96
      modifies store, this`ch, this`segs, this`dv, this`dvsize, this`top, this`topsize, this`trimCheck
      ensures Ready() && Total(segs) == Total(old(segs)) + ts && (Paged(old(segs)) && ts % PAGE == 0 ==> Paged(segs))
      ensures p == NULL ==>
        && nb < topsize && Holdings(ch) == old(Holdings(ch)) && SamePayloads(old(store.mem), store.mem, Holdings(ch))
      ensures p != NULL ==> p == lo && Granted(old(store.mem), old(ch), store.mem, ch, p, nb)
      ensures p != NULL <==> InFront(old(Now()), lo, ts)
      ensures Grown(old(Now()), lo, ts, if p == NULL then 0 else nb, Now())
      ensures trimCheck == if p == NULL then TRIM_THRESHOLD else old(trimCheck)
    {
      hide StoreOk, Sound, FramedView, BinsIn, Binned, Tiled, Fresh, NewRegion, Holdings, SamePayloads, Granted;
      hide Total, Paged;
      ghost var v0 := Now();
      SoundParts(store.mem, store.bins, v0);
      TopOnly(store.mem, v0);
      p := NULL;
      var sp;
      ghost var i;
      sp, i := SegmentEndingAt(lo);
      var holds := false;
      if sp != NULL {
        SegRead(store.mem, v0, i);
        TopSegment(store.mem, v0, i);
        holds := Word(sp + SEG_FLAGS) == 0 && Word(sp) <= top && top < Word(sp) + Word(sp + SEG_SIZE);
      }
      if holds {
        RegionWords(store.mem, segs, lo, lo + ts);
        TotalUpdate(segs, 0, Seg(SEG_HEAD, segs[0].base, segs[0].size + ts));
        PagedUpdate(segs, 0, Seg(SEG_HEAD, segs[0].base, segs[0].size + ts), ts);
        ExtendTop(sp, ts);
      } else {
        sp, i := SegmentStartingAt(lo + ts);
        var merge := false;
        if sp != NULL {
          SegRead(store.mem, v0, i);
          merge := Word(sp + SEG_FLAGS) == 0;
        }
        if merge {
          TotalUpdate(segs, i, Seg(sp, lo, segs[i].size + ts));
          PagedUpdate(segs, i, Seg(sp, lo, segs[i].size + ts), ts);
          p := Prepend(sp, lo, ts, nb, i);
          GrantedPositive(store.mem, store.bins, Now(), p, nb, old(store.mem), old(ch));
        } else {
          AddSegment(lo, lo + ts);
          TotalAdd(old(segs), segs, lo, ts);
        }
      }
    }

    /** The top chunk serves the request that led to its growth. */
    method ServeGrown(nb: int, ghost m0: Mem, ghost c0: Tiling) returns (p: int)
      requires Ready() && nb % 16 == 0 && MIN_CHUNK <= nb < topsize
      requires Holdings(ch) == Holdings(c0) && SamePayloads(m0, store.mem, Holdings(c0))
      modifies store, this`ch, this`top, this`topsize
      ensures Ready() && Granted(m0, c0, store.mem, ch, p, nb) && FromTop(old(Now()), nb, p, nb, Now())
    {
      hide StoreOk, Sound, Holdings, SamePayloads, Granted;
      ghost var m2, c2 := store.mem, ch;
      p := MallocTop(nb);
      GrantedVia(m0, c0, m2, c2, store.mem, ch, p, nb);
    }

    /** A first region, then the request served from it. */
    method Start(lo: int, ts: int, nb: int, ghost m0: Mem) returns (p: int)
      requires Unborn(m0, store.bins, Now()) && store.Valid() && store.smallmap == 0 && store.treemap == 0
      requires Widened(m0, store.mem, lo, lo + ts) && lo > 0 && lo % 16 == 0 && (lo + ts) % 16 == 0 && lo + ts <= WORD
      requires nb % 16 == 0 && MIN_CHUNK <= nb && ts - nb >= 96
      modifies store, this`ch, this`segs, this`top, this`topsize, this`trimCheck, this`releaseChecks
      ensures Ready() && Total(segs) == ts && (ts % PAGE == 0 ==> Paged(segs))
      ensures Granted(m0, old(ch), store.mem, ch, p, nb)
      ensures p == lo && Grown(old(Now()), lo, ts, nb, Now())
      ensures trimCheck == TRIM_THRESHOLD && releaseChecks == RELEASE_RATE
    {
      hide StoreOk, Sound, Holdings, SamePayloads, Granted, Total, Paged, Widened;
      UnbornWiden(m0, store.mem, store.bins, Now(), lo, lo + ts);
      PayloadsNone(m0, store.mem);
      Begin(lo, lo + ts);
      TotalOne(segs, lo, ts);
      PayloadsNone(m0, store.mem);
      if nb < topsize {
        p := ServeGrown(nb, m0, old(ch));
      } else {
        assert false;
      }
    }

    /** A further region, then the request served. */
    method Continue(lo: int, ts: int, nb: int, ghost m0: Mem) returns (p: int)
      requires store.Valid() && Sound(m0, store.bins, Now()) && Widened(m0, store.mem, lo, lo + ts)
      requires Fresh(segs, lo, lo + ts)
      requires lo > 0 && lo % 16 == 0 && (lo + ts) % 16 == 0 && lo + ts <= WORD
      requires nb % 16 == 0 && MIN_CHUNK <= nb && ts - nb >= 96
      modifies store, this`ch, this`segs, this`dv, this`dvsize, this`top, this`topsize, this`trimCheck
      ensures Ready() && Total(segs) == Total(old(segs)) + ts && (Paged(old(segs)) && ts % PAGE == 0 ==> Paged(segs))
      ensures Granted(m0, old(ch), store.mem, ch, p, nb)
      ensures p == ServedAt(old(Now()), lo) && Grown(old(Now()), lo, ts, nb, Now())
      ensures trimCheck == if InFront(old(Now()), lo, ts) then old(trimCheck) else TRIM_THRESHOLD
    {
      hide StoreOk, Sound, FramedView, BinsIn, Binned, Tiled, Fresh, NewRegion, Holdings, SamePayloads, Granted;
      hide Total, Paged, Widened;
      ghost var m1, v0 := store.mem, Now();
      SoundParts(m0, store.bins, v0);
      TopOnly(m0, v0);
      WidenSound(m0, m1, store.bins, v0, lo, lo + ts);
      WidenPayloads(m0, m1, v0, lo, lo + ts);
      RegionIs(m0, m1, segs, lo, ts);
      p := Grow(lo, ts, nb);
      if p != NULL {
        GrantedAfter(m0, m1, store.mem, v0.ch, ch, p, nb);
      } else if nb < topsize {
        PayloadsTrans(m0, m1, store.mem, Holdings(v0.ch));
        p := ServeGrown(nb, m0, v0.ch);
      } else {
        assert false;
      }
    }

    /** `sys_alloc`: one question to the system, and success exactly if it grants a region. */
    method SysAlloc(nb: int) returns (p: int)
      requires Valid() && nb % 16 == 0 && MIN_CHUNK <= nb && nb + TOP_FOOT + ALIGN + GRANULARITY <= WORD
      modifies store, this`ch, this`segs, this`dv, this`dvsize, this`top, this`topsize, this`trimCheck
      modifies this`releaseChecks, this`footprint, this`maxFootprint, this`asked, this`refusals
      ensures Valid() && asked == old(asked) + 1 && (p == NULL <==> old(Refusing(nb)))
      ensures refusals == old(refusals) + (if p == NULL then 1 else 0)
      ensures p == NULL ==> Same(old(store.mem), old(Now())) && Gauge() == old(Gauge())
      ensures p != NULL ==> top != NULL && p > 0 && Granted(old(store.mem), old(ch), store.mem, ch, p, nb)
      ensures p != NULL ==>
        FromSystem(old(Answer(nb)), old(Now()), old(Gauge()), nb, p, Now(), Gauge())
    {
      hide StoreOk, Sound, FramedView, Granted, Total, Paged, GrantOk, BinsIn, Binned, Tiled, Unborn;
      var asize := AlignUp(nb + TOP_FOOT + ALIGN, GRANULARITY);
      var g := sys.alloc(asked, store.mem, asize);
      asked := asked + 1;
      if g.Refused? {
        refusals := refusals + 1;
        return NULL;
      }
      assert GrantOk(g, store.mem, asize);
      p := UseGrant(g, asize, nb);
    }

    /** A granted region becomes part of the heap, and the request is served. */
    method UseGrant(g: Grant, ghost asize: int, nb: int) returns (p: int)
      requires Valid() && g.Region? && GrantOk(g, store.mem, asize) && asize >= nb + TOP_FOOT + ALIGN
      requires nb % 16 == 0 && MIN_CHUNK <= nb
      modifies store, this`ch, this`segs, this`dv, this`dvsize, this`top, this`topsize, this`trimCheck
      modifies this`releaseChecks, this`footprint, this`maxFootprint
      ensures Valid() && top != NULL && p > 0 && Granted(old(store.mem), old(ch), store.mem, ch, p, nb)
      ensures FromSystem(g, old(Now()), old(Gauge()), nb, p, Now(), Gauge())
    {
      hide StoreOk, Sound, FramedView, Fresh, Granted, Total, Paged, GrantOk, Widened, Carried, BinsIn, Binned, Tiled;
      hide AskSize, AlignUp, Grown, InFront, ServedAt;
      ghost var m0 := store.mem;
      footprint := footprint + g.size;
      maxFootprint := if maxFootprint < footprint then footprint else maxFootprint;
      GrantWidens(m0, g, asize, store.bins);
      GrantFacts(m0, g, asize);
      if top == NULL {
        TotalNone(segs);
        FirstPlace(Now(), g.base, g.size);
        store.Remap(store.mem + g.fill);
        p := Start(g.base, g.size, nb, m0);
      } else {
        SoundParts(m0, store.bins, Now());
        SoundTop(m0, store.bins, Now());
        GrantFresh(m0, Now(), g, asize);
        store.Remap(store.mem + g.fill);
        p := Continue(g.base, g.size, nb, m0);
      }
      SoundParts(store.mem, store.bins, Now());
      TopOnly(store.mem, Now());
      GrantedPositive(store.mem, store.bins, Now(), p, nb, m0, old(ch));
    }

    // -------------------------------------------------------------- malloc

    /** A small request that neither bin of its size nor the victim serves: from a higher small bin or a tree. */
    method MallocSmallFar(nb: int, idx: nat) returns (p: int, ghost s: int)
      requires Ready() && nb % 16 == 0 && MIN_CHUNK <= nb <= 240 && nb == 8 * idx && nb > dvsize
      requires And(Shr(store.smallmap, idx), 3) == 0
      modifies store, this`ch, this`dv, this`dvsize
      ensures Ready()
      ensures p == NULL ==> store.mem == old(store.mem) && ch == old(ch) && dv == old(dv) && dvsize == old(dvsize)
      ensures p == NULL ==> store.bins == old(store.bins)
      ensures p != NULL ==> nb <= s < nb + MIN_CHUNK && Granted(old(store.mem), old(ch), store.mem, ch, p, s)
      ensures p != NULL <==> old(BinsServe(store.bins, Now(), nb))
      ensures p != NULL ==> FromBins(old(store.bins), old(Now()), nb, p, s, Now()) && old(store.Chooses(p))
    {
      hide StoreOk, Sound, Granted, And, Shr, Shl, LeftBits, LeastBit, TrailingZeros, FarBits, BitAt, SmallestFit;
      hide BestFit, BinsServe, AllBelow, Near, TightestFit, BinsOk;
      ghost var v0, b0 := Now(), store.bins;
      StoreMaps(store);
      StoreBins(store);
      p, s := NULL, 0;
      var smallbits := Shr(store.smallmap, idx);
      if smallbits != 0 {
        FarBin(store.smallmap, idx);
        var i := TrailingZeros(LeastBit(32, FarBits(store.smallmap, idx)));
        LowestServes(store.mem, store.smallmap, store.treemap, store.bins, store.sb, store.trie, store.home, nb, i);
        p, s := MallocSmallSplit(i, nb);
        SmallServes(b0, nb, p);
        SmallChoice(b0, v0, nb, p);
      } else if store.treemap != 0 {
        NoSmallFit(store, nb, idx);
        p, s := TmallocSmall(nb);
        LargeServes(b0, nb, p);
        SmallChoice(b0, v0, nb, p);
      } else {
        NoSmallFit(store, nb, idx);
        NoFitAtAll(store, nb);
        NoneServes(b0, v0, nb);
      }
    }

    /** A small request served from a small bin or the smallest tree chunk; null if the victim, the top chunk or the
        system is next. */
    method MallocSmall(nb: int, idx: nat) returns (p: int, ghost s: int)
      requires Ready() && nb % 16 == 0 && MIN_CHUNK <= nb <= 240 && nb == 8 * idx
      modifies store, this`ch, this`dv, this`dvsize
      ensures Ready()
      ensures p == NULL ==> store.mem == old(store.mem) && ch == old(ch) && dv == old(dv) && dvsize == old(dvsize)
      ensures p == NULL ==> store.bins == old(store.bins)
      ensures p != NULL ==> nb <= s < nb + MIN_CHUNK && Granted(old(store.mem), old(ch), store.mem, ch, p, s)
      ensures p != NULL <==> old(BinsServe(store.bins, Now(), nb))
      ensures p != NULL ==> FromBins(old(store.bins), old(Now()), nb, p, s, Now()) && old(store.Chooses(p))
    {
      hide StoreOk, Sound, Granted, And, Shr, Shl, LeftBits, LeastBit, TrailingZeros, FarBits, BitAt, SmallestFit;
      hide BestFit, BinsServe, AllBelow, Near, TightestFit, BinsOk;
      ghost var v0, b0 := Now(), store.bins;
      StoreMaps(store);
      StoreBins(store);
      p, s := NULL, 0;
      var smallbits := Shr(store.smallmap, idx);
      if And(smallbits, 3) != 0 {
        var i := idx + (if smallbits % 2 == 0 then 1 else 0);
        NearBin(store.smallmap, idx);
        LowestServes(store.mem, store.smallmap, store.treemap, store.bins, store.sb, store.trie, store.home, nb, i);
        p, s := MallocSmallExact(i, nb);
        SmallServes(b0, nb, p);
        SmallChoice(b0, v0, nb, p);
      } else if nb > dvsize {
        p, s := MallocSmallFar(nb, idx);
      } else {
        NotNear(store, nb, idx);
        VictimFirst(b0, v0, nb);
      }
    }

    /** The last resorts in order: the victim, the top chunk, the system. */
    method MallocRest(nb: int) returns (p: int, ghost s: int)
      requires Valid() && nb % 16 == 0 && MIN_CHUNK <= nb && nb + TOP_FOOT + ALIGN + GRANULARITY <= WORD
      modifies this, store
      ensures Valid() && (p == NULL <==> old(dvsize < nb && topsize <= nb && Refusing(nb)))
      ensures asked == old(asked) + (if old(dvsize < nb && topsize <= nb) then 1 else 0)
      ensures refusals == old(refusals) + (if p == NULL then 1 else 0)
      ensures p == NULL ==> Same(old(store.mem), old(Now()))
      ensures p != NULL ==> p > 0 && nb <= s < nb + MIN_CHUNK && Granted(old(store.mem), old(ch), store.mem, ch, p, s)
      ensures old(nb <= dvsize) ==> FromVictim(old(Now()), nb, p, s, Now())
      ensures old(dvsize < nb < topsize) ==> FromTop(old(Now()), nb, p, s, Now())
      ensures old(nb <= dvsize || nb < topsize) || p == NULL ==> Gauge() == old(Gauge())
      ensures old(dvsize < nb && topsize <= nb) && p != NULL ==>
        s == nb && FromSystem(old(Answer(nb)), old(Now()), old(Gauge()), nb, p, Now(), Gauge())
    {
      hide StoreOk, Sound, Granted, FramedView, Tiled, Binned, BinsIn, Refusing;
      if nb <= dvsize {
        p, s := MallocVictim(nb);
        GrantedPositive(store.mem, store.bins, Now(), p, s, old(store.mem), old(ch));
      } else if nb < topsize {
        p := MallocTop(nb);
        s := nb;
        GrantedTop(store.mem, store.bins, Now(), top);
        GrantedPositive(store.mem, store.bins, Now(), p, s, old(store.mem), old(ch));
      } else {
        p := SysAlloc(nb);
        s := nb;
      }
    }

    /** Nothing the program or the allocator can see has changed. */
    ghost predicate Same(m0: Mem, v0: View)
      reads this, store
    {
      store.mem == m0 && Now() == v0
    }

    /** The first part of `malloc`: the padded size, and a binned chunk if the bins serve. */
    method MallocBins(size: nat) returns (nb: int, p: int, ghost s: int)
      requires Valid() && size < MAX_REQUEST
      modifies store, this`ch, this`dv, this`dvsize
      ensures Valid() && nb == Request2Size(size)
      ensures nb % 16 == 0 && MIN_CHUNK <= nb && nb + TOP_FOOT + ALIGN + GRANULARITY <= WORD
      ensures p == NULL ==> Same(old(store.mem), old(Now())) && store.bins == old(store.bins)
      ensures p != NULL ==> nb <= s < nb + MIN_CHUNK && Granted(old(store.mem), old(ch), store.mem, ch, p, s)
      ensures p != NULL <==> old(BinsServe(store.bins, Now(), nb))
      ensures p != NULL ==> top != NULL && FromBins(old(store.bins), old(Now()), nb, p, s, Now())
      ensures p != NULL ==> old(store.Chooses(p))
    {
      hide StoreOk, Sound, Granted, FramedView, Tiled, Binned, BinsIn, Unborn, TightestFit, BestFit, NoFit, AllBelow;
      hide AlignUp, PadRequest, BinsServe;
      p, s := NULL, 0;
      if size <= MAX_SMALL_REQUEST {
        nb := Request2Size(size);
        SmallClass(size);
        // with both maps empty, as before the first region, the bins have nothing to offer
        if store.smallmap != 0 || store.treemap != 0 {
          p, s := MallocSmall(nb, SmallIndex(nb));
        } else {
          BothMapsEmpty(store, nb);
          NoneServes(store.bins, Now(), nb);
        }
      } else {
        nb := PadRequest(size);
        MaxRequestIsExact(size);
        if store.treemap != 0 {
          p, s := TmallocLarge(nb);
        } else {
          LargeBelow(store, nb);
          NoneServes(store.bins, Now(), nb);
        }
      }
    }

    /** `malloc`: null exactly for a request of `max_request` or more, or when nothing on hand serves and the system
        refuses; the system is asked exactly when nothing on hand serves. */
    method Malloc(size: nat) returns (ret: int, ghost s: int)
      requires Valid()
      modifies this, store
      ensures Valid() && (ret == NULL <==> size >= MAX_REQUEST || old(Denied(Request2Size(size))))
      ensures asked == old(asked)
        + (if size < MAX_REQUEST && Exhausted(old(store.bins), old(Now()), Request2Size(size)) then 1 else 0)
      ensures refusals == old(refusals) + (if size < MAX_REQUEST && ret == NULL then 1 else 0)
      ensures ret == NULL ==> Same(old(store.mem), old(Now()))
      ensures ret != NULL ==> Request2Size(size) <= s < Request2Size(size) + MIN_CHUNK
      ensures ret != NULL ==> Granted(old(store.mem), old(ch), store.mem, ch, ret - MEM_OFFSET, s)
      ensures ret != NULL ==> ServedTo(old(Answer(Request2Size(size))), old(store.bins), old(State()),
          Request2Size(size), ret - MEM_OFFSET, s, State())
      ensures size < MAX_REQUEST && old(BinsServe(store.bins, Now(), Request2Size(size))) ==>
        old(store.Chooses(ret - MEM_OFFSET))
      ensures ret == NULL ==> State() == old(State()).(asked := asked)
    {
      hide StoreOk, Sound, Granted, FramedView, Tiled, Binned, BinsIn, Unborn, TightestFit, BestFit, NoFit, AllBelow;
      hide AlignUp, PadRequest, AskSize, BinsServe, FromSystem, FromVictim, FromTop;
      ret, s := NULL, 0;
      if size >= MAX_REQUEST {
        return;
      }
      var nb, p;
      nb, p, s := MallocBins(size);
      if p == NULL {
        if nb > dvsize { NoneLeft(store.bins, Now(), nb); }
        p, s := MallocRest(nb);
      } else {
        TightServes(old(store.bins), nb, p);
        GrantedPositive(store.mem, store.bins, Now(), p, s, old(store.mem), old(ch));
      }
      if p != NULL {
        ret := p + MEM_OFFSET;
      }
    }

    // -------------------------------------------------------------- giving memory back to the system

    /** `has_segment_link`: no record lies in the newest segment. */
    method HasSegmentLink(ptr: int) returns (linked: bool)
      requires FramedView(store.mem, Now()) && |segs| > 0 && ptr == segs[0].at
      ensures !linked
    {
      hide FramedView;
      SegRead(store.mem, Now(), 0);
      SegHere(store.mem, Now(), 0);
      var sp := SEG_HEAD;
      ghost var i := 0;
      while sp != NULL
        invariant 0 <= i <= |segs| && sp == (if i < |segs| then segs[i].at else NULL)
        decreases |segs| - i
      {
        SegRead(store.mem, Now(), i);
        RecordElsewhere(store.mem, Now(), i);
        if Word(ptr) <= sp && sp < Word(ptr) + Word(ptr + SEG_SIZE) {
          return true;
        }
        sp := Word(sp + SEG_NEXT);
        i := i + 1;
      }
      return false;
    }

    /** `insert_large_chunk` on a chunk that was taken out for a release that the system refused. */
    method PutBack(r: int, rsize: int)
      requires store.Valid() && Unsettled(store.mem, store.bins, Now(), r) && r in ch
      requires ch[r].size == rsize >= MIN_LARGE
      modifies store
      ensures Ready() && SamePayloads(old(store.mem), store.mem, Holdings(ch))
    {
      hide StoreOk, Sound, Unsettled, OnlyLinks, Kept, FramedView, Binnable, SamePayloads, Holdings;
      ghost var m0, b0 := store.mem, store.bins;
      StoreBins(store);
      UnsettledBinnable(m0, b0, Now(), r);
      store.InsertLarge(r, rsize);
      Rebinned(m0, store.mem, b0, Now(), r);
      KeptPayloads(m0, ch, store.mem, ch);
    }

    /** The free chunk that fills an older segment loses its place as victim or in its bin. */
    method TakeOut(p: int, psize: int)
      requires Ready() && p in ch && ch[p].size == psize >= MIN_LARGE && Coalesced(ch[p].kind)
      modifies store, this`ch, this`dv, this`dvsize
      ensures store.Valid() && Unsettled(store.mem, store.bins, Now(), p) && ch == old(ch)[p := Ck(psize, Kind.Free)]
      ensures dv == (if p == old(dv) then NULL else old(dv))
      ensures Holdings(ch) == old(Holdings(ch)) && SamePayloads(old(store.mem), store.mem, Holdings(ch))
    {
      hide StoreOk, Sound, Unsettled, OnlyLinks, FramedView, SamePayloads, Holdings, Binned, BinsIn, Tiled, Kept;
      SoundParts(store.mem, store.bins, Now());
      Roles(store.mem, Now(), p);
      if p == dv {
        RetireVictim(store.mem, store.bins, Now());
        PayloadsSelf(store.mem, Holdings(ch));
        ch := ch[p := Ck(psize, Kind.Free)];
        dv, dvsize := NULL, 0;
      } else {
        ghost var m0, b0 := store.mem, store.bins;
        BinnedAt(b0, ch, p);
        assert ch[p := Ck(psize, Kind.Free)] == ch;
        store.UnlinkLarge(p);
        UnlinkUnsettled(m0, store.mem, b0, Now(), p);
        TakenFree(m0, store.mem, b0, Now(), p);
      }
    }

    /** A filled older segment goes back to the system, and the record before it now leads past it. */
    method DropSegment(pred: int, base: int, size: int, next: int, ghost i: int)
      requires store.Valid() && 0 < i < |segs| && Unsettled(store.mem, store.bins, Now(), segs[i].base)
      requires Filled(ch, segs[i])
      requires pred == segs[i - 1].at && base == segs[i].base && size == segs[i].size && next == NextAt(segs, i)
      modifies store`mem, this`ch, this`segs
      ensures Ready() && segs == old(segs)[..i] + old(segs)[i + 1..] && ch == Outer(old(ch), base, base + size)
      ensures Holdings(ch) == old(Holdings(ch)) && SamePayloads(old(store.mem), store.mem, Holdings(ch))
    {
      hide StoreOk, Sound, Unsettled, FramedView, SamePayloads, Holdings, Filled, Dropped, Carried, BinnedWord;
      hide DroppedView, BinWord, BinsIn, Outside;
      ghost var m0, v0 := store.mem, Now();
      UnsettledView(m0, store.bins, v0, base);
      DropWords(m0, store.bins, v0, i);
      store.Remap(Outside(store.mem, base, base + size));
      OutsideAt(m0, base, base + size, pred + SEG_NEXT);
      RecordWord(m0, store.bins, v0, i - 1, pred + SEG_NEXT);
      Put(pred + SEG_NEXT, next);
      DroppedWrites(m0, store.mem, v0, i);
      DroppedSound(m0, store.mem, store.bins, v0, i);
      DroppedIs(v0, i);
      ch, segs := DroppedView(v0, i).ch, DroppedView(v0, i).segs;
    }

    /** One step of `release_unused_segments`: the older segment at `sp` is given back exactly if one free chunk fills
        it and the system takes it. */
    method TryRelease(sp: int, pred: int, ghost i: int) returns (gone: bool)
      requires Consistent() && top != NULL && 0 < i < |segs| && sp == segs[i].at && pred == segs[i - 1].at
      modifies store, this`ch, this`segs, this`dv, this`dvsize, this`footprint, this`asked
      ensures Consistent()
      ensures gone == Goes(sys, old(ch), old(segs)[i], old(asked))
      ensures asked == old(asked) + Questions(sys, old(ch), old(segs)[i], old(asked))
      ensures dv == (if Offers(sys, old(ch), old(segs)[i], old(asked)) && old(segs)[i].base == old(dv)
                     then NULL else old(dv))
      ensures segs == (if gone then old(segs)[..i] + old(segs)[i + 1..] else old(segs))
      ensures footprint == old(footprint) - (if gone then old(segs)[i].size else 0)
      ensures SameElsewhere(old(ch), ch, old(segs)[i])
      ensures !gone ==> Releasable(ch, segs[i]) == Releasable(old(ch), segs[i])
      ensures Holdings(ch) == old(Holdings(ch)) && SamePayloads(old(store.mem), store.mem, Holdings(ch))
    {
      hide StoreOk, Sound, Unsettled, FramedView, SamePayloads, Holdings, Filled, Total, Paged, Tiled, Binned, BinsIn;
      hide Pinuse, Cinuse, SizeOf, AlignAsChunk, Outer;
      ghost var m0, v0 := store.mem, Now();
      SoundParts(m0, store.bins, v0);
      SegRead(m0, v0, i);
      PayloadsSelf(m0, Holdings(ch));
      var base, size, next := Word(sp), Word(sp + SEG_SIZE), Word(sp + SEG_NEXT);
      var canRelease := sys.canRelease(asked);
      asked, gone := asked + 1, false;
      if canRelease && Word(sp + SEG_FLAGS) == 0 {
        BaseRead(m0, v0, i);
        var p := AlignAsChunk(base);
        var psize := SizeOf(Word(p + HEAD));
        if !InUse(Word(p + HEAD)) && p + psize >= base + size - TOP_FOOT {
          FillsSegment(m0, v0, i);
          SegLarge(m0, v0, i);
          TakeOut(p, psize);
          ghost var m1 := store.mem;
          FilledFree(v0.ch, segs[i]);
          var ok := sys.takes(asked, base, size);
          asked := asked + 1;
          if ok {
            DropSegment(pred, base, size, next, i);
            SameOuter(v0.ch, base, psize, base + size);
            OuterElsewhere(v0.ch, v0.segs[i]);
            TotalDrop(old(segs), i);
            PagedDrop(old(segs), i);
            footprint := footprint - size;
            gone := true;
          } else {
            PutBack(p, psize);
          }
          PayloadsTrans(m0, m1, store.mem, Holdings(v0.ch));
        }
      }
    }

    /** A sweep that began in state `h` with memory `m0` has come to segment `i`, past `nsegs` others. */
    ghost predicate Sweeping(h: Heap, m0: Mem, i: int, nsegs: int, released: int)
      reads this, store
    {
      var v := h.view;
      && Consistent() && |v.segs| > 0 && 1 <= i <= |segs| && nsegs >= 0 && nsegs + |segs| - i == |v.segs| - 1
      && Now() == v.(ch := ch, segs := segs, dv := dv, dvsize := dvsize)
      && segs[..i] + Survivors(sys, ch, segs[i..], asked) == v.segs[..1] + Survivors(sys, v.ch, v.segs[1..], h.asked)
      && asked + AllQuestions(sys, ch, segs[i..], asked) == h.asked + AllQuestions(sys, v.ch, v.segs[1..], h.asked)
      && VictimLeft(sys, ch, segs[i..], asked, dv) == VictimLeft(sys, v.ch, v.segs[1..], h.asked, v.dv)
      && released >= 0 && Gauge() == h.gauge.(footprint := h.gauge.footprint - released)
      && (Obliging(sys) ==> NoneReleasable(ch, segs, i))
      && Holdings(ch) == Holdings(v.ch) && SamePayloads(m0, store.mem, Holdings(v.ch))
    }

    /** The next segment is offered. */
    method SweepOne(sp: int, pred: int, ghost h: Heap, ghost m0: Mem, ghost i: int, ghost nsegs: int,
        ghost released: int)
      returns (gone: bool)
      requires Sweeping(h, m0, i, nsegs, released) && top != NULL && i < |segs|
      requires sp == segs[i].at && pred == segs[i - 1].at
      modifies store, this`ch, this`segs, this`dv, this`dvsize, this`footprint, this`asked
      ensures gone ==> Sweeping(h, m0, i, nsegs + 1, released + old(segs)[i].size)
      ensures !gone ==> Sweeping(h, m0, i + 1, nsegs + 1, released)
      ensures segs == (if gone then old(segs)[..i] + old(segs)[i + 1..] else old(segs))
    {
      hide StoreOk, Sound, FramedView, SamePayloads, Holdings, Total, Paged, Unborn, NoneReleasable;
      hide Releasable, Goes, Questions, Survivors, SameElsewhere, Offers, AllQuestions, VictimLeft, Obliging;
      ghost var m1, v1, k := store.mem, Now(), asked;
      SoundParts(m1, store.bins, v1);
      gone := TryRelease(sp, pred, i);
      PayloadsTrans(m0, m1, store.mem, Holdings(v1.ch));
      OthersSame(m1, v1, ch, i);
      SweepStep(sys, v1.ch, ch, v1.segs, segs, i, k, v1.dv);
      SegSized(m1, v1, i);
    }

    /** `release_unused_segments`: the older segments that stay are exactly those that one free chunk does not fill or
        that the system does not take. */
    method ReleaseUnusedSegments() returns (released: int)
      requires Consistent() && top != NULL
      modifies store, this`ch, this`segs, this`dv, this`dvsize, this`footprint, this`releaseChecks, this`asked
      ensures Valid() && released >= 0 && footprint == old(footprint) - released && SweptTo(sys, old(State()), State())
      ensures Obliging(sys) ==> NoneReleasable(ch, segs, |segs|)
      ensures Holdings(ch) == old(Holdings(ch)) && SamePayloads(old(store.mem), store.mem, Holdings(ch))
    {
      hide StoreOk, Sound, FramedView, SamePayloads, Holdings, Total, Paged, Tiled, Binned, BinsIn, NoneReleasable;
      hide Releasable, Survivors, AllQuestions, VictimLeft, Obliging, Unborn;
      ghost var m0, h := store.mem, State();
      SoundParts(store.mem, store.bins, Now());
      TopOnly(store.mem, Now());
      SegRead(store.mem, Now(), 0);
      SegHere(store.mem, Now(), 0);
      PayloadsSelf(m0, Holdings(ch));
      released := 0;
      var nsegs := 0;
      var pred := SEG_HEAD;
      var sp := Word(pred + SEG_NEXT);
      ghost var i := 1;
      NoneYet(ch, segs);
      while sp != NULL
        invariant Sweeping(h, m0, i, nsegs, released)
        invariant pred == segs[i - 1].at && sp == NextAt(segs, i - 1)
        decreases |segs| - i
      {
        SoundParts(store.mem, store.bins, Now());
        SegRead(store.mem, Now(), i);
        var size, next := Word(sp + SEG_SIZE), Word(sp + SEG_NEXT);
        var gone := SweepOne(sp, pred, h, m0, i, nsegs, released);
        nsegs := nsegs + 1;
        if gone {
          released := released + size;
        } else {
          pred := sp;
          i := i + 1;
        }
        sp := next;
      }
      SoundParts(store.mem, store.bins, Now());
      LastSegment(store.mem, Now(), i);
      NoMore(sys, ch, asked, dv);
      assert segs[i..] == [];
      releaseChecks := if nsegs > RELEASE_RATE then nsegs else RELEASE_RATE;
    }

    /** The newest segment loses `extra` bytes at its end. */
    method CutTop(sp: int, extra: int)
      requires Ready() && |segs| > 0 && sp == segs[0].at && extra > 0 && extra % 16 == 0 && topsize - extra >= 16
      modifies store`mem, this`ch, this`segs, this`top, this`topsize, this`trimCheck
      ensures Ready() && topsize == old(topsize) - extra && top == old(top) && |segs| > 0
      ensures segs == old(segs)[0 := Seg(SEG_HEAD, old(segs)[0].base, old(segs)[0].size - extra)]
      ensures Now() == RetopView(old(Now()), End(old(segs)[0]) - extra) && trimCheck == TRIM_THRESHOLD
      ensures Holdings(ch) == old(Holdings(ch)) && SamePayloads(old(store.mem), store.mem, Holdings(ch))
    {
      hide StoreOk, Sound, Holdings, SamePayloads, FramedView, BinsIn, BinnedWord, RetopView, Binned, Tiled, Retop;
      hide BinWord, Carried, Outside;
      ghost var m0, v0, hi := store.mem, Now(), End(segs[0]) - extra;
      SoundParts(m0, store.bins, v0);
      SegRead(m0, v0, 0);
      SegHere(m0, v0, 0);
      TopOnly(m0, v0);
      OwnWord(m0, store.bins, v0, SEG_HEAD + SEG_SIZE);
      TrimWords(m0, store.bins, v0, hi);
      TrimHead(m0, store.bins, v0, hi, top);
      Mod16(top + topsize, extra);
      TrimHead(m0, store.bins, v0, hi, top + topsize - extra);
      OutsideAt(m0, hi, End(segs[0]), SEG_HEAD + SEG_SIZE);
      var base, size := Word(sp), Word(sp + SEG_SIZE);
      store.Remap(Outside(store.mem, base + size - extra, base + size));
      Put(sp + SEG_SIZE, size - extra);
      InitTop(top, topsize - extra);
      TrimRetop(m0, store.mem, v0, extra);
      RetopSound(m0, store.mem, store.bins, v0, hi);
      RetopIs(v0, hi);
      ch, segs := RetopView(v0, hi).ch, RetopView(v0, hi).segs;
    }

    /** `sys_trim`: the top chunk loses whole units beyond the pad if the system takes them, then older segments are
        released. If the system takes everything, at most a unit beyond the pad stays and no releasable segment. */
    method SysTrim(pad0: nat) returns (trimmed: bool)
      requires Valid()
      modifies this, store
      ensures Valid() && top == old(top) && (old(topsize) > pad0 + TOP_FOOT ==> topsize > pad0 + TOP_FOOT)
      ensures TrimmedTo(sys, old(State()), pad0, State()) && refusals == old(refusals)
      ensures Obliging(sys) && pad0 < MAX_REQUEST && top != NULL ==>
        topsize <= pad0 + TOP_FOOT + GRANULARITY && NoneReleasable(ch, segs, |segs|)
      ensures footprint <= old(footprint) && (trimmed <==> footprint < old(footprint))
      ensures Holdings(ch) == old(Holdings(ch)) && SamePayloads(old(store.mem), store.mem, Holdings(ch))
    {
      hide StoreOk, Sound, FramedView, SamePayloads, Holdings, Total, Paged, Tiled, Binned, BinsIn, Unborn;
      hide NoneReleasable, TrimExtra, Trims, Obliging, Survivors, Goes;
      ghost var m0, hs := store.mem, Holdings(ch);
      PayloadsSelf(m0, hs);
      var released := 0;
      if top != NULL { SoundTop(m0, store.bins, Now()); }
      if pad0 < MAX_REQUEST && top != NULL {
        var pad := pad0 + TOP_FOOT;
        if topsize > pad {
          released := TrimTop(pad);
        }
        ghost var m1 := store.mem;
        var more := ReleaseUnusedSegments();
        PayloadsTrans(m0, m1, store.mem, hs);
        released := released + more;
        if released == 0 && topsize > trimCheck {
          trimCheck := WORD - 1;
        }
      }
      trimmed := released != 0;
    }

    /** The system is asked to take the last `extra` bytes of the newest segment. */
    method OfferTop(sp: int, extra: int) returns (freed: bool)
      requires FramedView(store.mem, Now()) && |segs| > 0 && sp == segs[0].at && segs[0].size >= extra
      modifies this`asked
      ensures freed == Trims(sys, segs[0], extra, old(asked))
      ensures asked == old(asked) + (if sys.canRelease(old(asked)) then 2 else 1)
    {
      hide FramedView;
      SegRead(store.mem, Now(), 0);
      freed := false;
      var canRelease := sys.canRelease(asked);
      asked := asked + 1;
      if canRelease && Word(sp + SEG_SIZE) >= extra {
        var linked := HasSegmentLink(sp);
        if !linked {
          freed := sys.takesPart(asked, Word(sp), Word(sp + SEG_SIZE), Word(sp + SEG_SIZE) - extra);
          asked := asked + 1;
        }
      }
    }

    /** Whole units beyond the pad leave the top chunk if the system takes them. */
    method TrimTop(pad: int) returns (released: int)
      requires Consistent() && top != NULL && topsize > pad >= TOP_FOOT
      modifies store`mem, this`ch, this`segs, this`top, this`topsize, this`trimCheck, this`footprint, this`asked
      ensures Consistent() && top == old(top) && topsize > pad && footprint == old(footprint) - released
      ensures |old(segs)| > 0 && topsize == old(topsize) - released && released >= 0
      ensures released ==
        (if Trims(sys, old(segs)[0], TrimExtra(old(topsize), pad), old(asked)) then TrimExtra(old(topsize), pad) else 0)
      ensures pad - TOP_FOOT < MAX_REQUEST ==> State() == TopTrimmed(sys, old(State()), pad - TOP_FOOT)
      ensures Obliging(sys) ==> topsize <= pad + GRANULARITY
      ensures Holdings(ch) == old(Holdings(ch)) && SamePayloads(old(store.mem), store.mem, Holdings(ch))
    {
      hide StoreOk, Sound, FramedView, SamePayloads, Holdings, Total, Paged, Tiled, Binned, BinsIn, Unborn, TrimExtra;
      SoundParts(store.mem, store.bins, Now());
      TopOnly(store.mem, Now());
      PayloadsSelf(store.mem, Holdings(ch));
      released := 0;
      var extra := TrimExtra(topsize, pad);
      TrimAmount(topsize, pad);
      var sp;
      ghost var i;
      sp, i := SegmentHolding(top);
      TopSegment(store.mem, Now(), 0);
      if 0 < i < |segs| { TopSegment(store.mem, Now(), i); }
      SegRead(store.mem, Now(), 0);
      TopInside(store.mem, Now());
      if Word(sp + SEG_FLAGS) == 0 {
        var freed := OfferTop(sp, extra);
        if freed { released := extra; }
      }
      if released != 0 {
        TotalUpdate(segs, 0, Seg(SEG_HEAD, segs[0].base, segs[0].size - extra));
        PagedUpdate(segs, 0, Seg(SEG_HEAD, segs[0].base, segs[0].size - extra), -extra);
        CutTop(sp, extra);
        footprint := footprint - released;
        GrantedTop(store.mem, store.bins, Now(), top);
      }
    }

    // -------------------------------------------------------------- free

    /** `free`: the chunk is disposed of; a large top chunk is trimmed, and now and then unused segments go. */
    method Free(mem: int)
      requires Valid() && mem - MEM_OFFSET in Holdings(ch)
      modifies this, store
      ensures Valid() && Released(old(store.mem), old(ch), store.mem, ch, mem - MEM_OFFSET) && refusals == old(refusals)
      ensures FreedTo(sys, old(State()), mem - MEM_OFFSET, State())
      ensures Obliging(sys) ==> topsize <= Max(Max(old(trimCheck), TOP_FOOT + GRANULARITY), old(topsize))
    {
      hide StoreOk, Sound, FramedView, SamePayloads, Total, Paged, Tiled, Binned, BinsIn, Unborn, Released, One, SizeOf;
      var p := mem - MEM_OFFSET;
      ghost var m0, c0 := store.mem, ch;
      HeldThere(store.mem, store.bins, Now(), p);
      SoundParts(store.mem, store.bins, Now());
      NotMmapped(store.mem, ch, p);
      var psize := SizeOf(Word(p + HEAD));
      var lo, hi, k := DisposeChunk(p, psize);
      ghost var m1, c1 := store.mem, ch;
      GrantedTop(store.mem, store.bins, Now(), top);
      if k.Top? && topsize > trimCheck {
        var trimmed := SysTrim(0);
        ReleasedThen(m0, c0, m1, c1, store.mem, ch, p);
      } else if k.Free? && hi - lo >= MIN_LARGE {
        releaseChecks := releaseChecks - 1;
        if releaseChecks == 0 {
          var released := ReleaseUnusedSegments();
          ReleasedThen(m0, c0, m1, c1, store.mem, ch, p);
        }
      }
    }

    // -------------------------------------------------------------- realloc

    /** `set_inuse` of both parts of a chunk in use that is cut in two. */
    method CutLive(lo: int, mid: int, hi: int)
      requires Gathered(lo, hi) && mid % 16 == 0 && mid - lo >= MIN_CHUNK && hi - mid >= MIN_CHUNK && hi in ch
      requires !Tail(ch[hi].kind)
      requires !(lo <= dv < hi) && !(lo <= top < hi)
      modifies store`mem, this`ch
      ensures Ready() && ch == Two(old(ch), lo, mid, hi, Live, Live)
      ensures Kept(old(store.mem), old(ch), store.mem, ch, lo, hi)
      ensures store.mem == CutTags(old(store.mem), lo, mid, hi)
    {
      hide StoreOk, Partial, Sound, Kept, Two, FramedView, Pinuse, Cinuse, SizeOf, Tiled, Stretch, BinsIn, SplitWords;
      hide Quiet, KeepP, SetP, CutTags;
      ghost var m0, v0 := store.mem, Now();
      SetCut(lo, mid, hi);
      ch := Two(ch, lo, mid, hi, Live, Live);
      PartialFacts(m0, store.bins, v0, lo, hi);
      MidWord(m0, store.bins, v0, lo, mid, hi);
      CutWords(m0, store.bins, lo, mid, hi);
      assert RolesAfter(v0, Now(), lo, hi, mid, Live);
      SplitSettles(m0, store.mem, store.bins, v0, Now(), lo, mid, hi, Live);
    }

    method SetCut(lo: int, mid: int, hi: int)
      requires Gathered(lo, hi) && mid % 16 == 0 && mid - lo >= MIN_CHUNK && hi - mid >= MIN_CHUNK
      modifies store`mem
      ensures store.Valid() && store.mem == CutTags(old(store.mem), lo, mid, hi)
    {
      hide StoreOk, Partial, Pinuse, Cinuse, SizeOf, Tiled, Stretch, BinsIn;
      ghost var m0 := store.mem;
      PartialFacts(m0, store.bins, Now(), lo, hi);
      MidWord(m0, store.bins, Now(), lo, mid, hi);
      Flags(HeadOf(m0, hi));
      Tag(lo + HEAD, KeepP(Word(lo + HEAD), mid - lo), m0, lo, hi);
      Flags(Word(mid + HEAD));
      Tag(mid + HEAD, SetP(Word(mid + HEAD)), m0, lo, hi);
      Tag(mid + HEAD, KeepP(Word(mid + HEAD), hi - mid), m0, lo, hi);
      TagNext(SetP(Word(hi + HEAD)), m0, lo, hi);
      assert store.mem == CutTags(m0, lo, mid, hi);
    }

    /** `set_inuse` over the whole stretch. */
    method GrowWhole(lo: int, hi: int)
      requires Gathered(lo, hi) && hi - lo >= MIN_CHUNK && hi in ch && !Tail(ch[hi].kind)
      requires !(lo <= dv < hi) && !(lo <= top < hi)
      modifies store`mem, this`ch
      ensures Ready() && ch == One(old(ch), lo, hi, Live) && Kept(old(store.mem), old(ch), store.mem, ch, lo, hi)
      ensures store.mem == LiveTags(old(store.mem), lo, hi)
    {
      hide StoreOk, Partial, Sound, Kept, One, FramedView, Pinuse, Cinuse, SizeOf, SetP, KeepP;
      ghost var m0, v0 := store.mem, Now();
      SetKeep(lo, hi);
      ch := One(ch, lo, hi, Live);
      assert RolesAfter(v0, Now(), lo, hi, lo, Live);
      LiveSettles(m0, store.bins, v0, Now(), lo, hi);
    }

    method SetKeep(lo: int, hi: int)
      requires Gathered(lo, hi)
      modifies store`mem
      ensures store.Valid() && store.mem == LiveTags(old(store.mem), lo, hi)
    {
      hide StoreOk, Partial, Tiled, Stretch, BinsIn, Pinuse, SizeOf, Cinuse, SetP, KeepP;
      ghost var m0 := store.mem;
      PartialFacts(m0, store.bins, Now(), lo, hi);
      Flags(HeadOf(m0, hi));
      Tag(lo + HEAD, KeepP(Word(lo + HEAD), hi - lo), m0, lo, hi);
      TagNext(SetP(Word(hi + HEAD)), m0, lo, hi);
    }

    /** A chunk in use takes what it needs from the top chunk behind it. */
    method GrowIntoTop(p: int, nb: int, ghost oldsize: int)
      requires Ready() && p in ch && ch[p] == Ck(oldsize, Live) && p + oldsize == top && nb % 16 == 0
      requires oldsize < nb < oldsize + topsize
      modifies store`mem, this`ch, this`top, this`topsize
      ensures Ready() && Regrown(old(store.mem), old(ch), store.mem, ch, p, nb)
      ensures top == p + nb && topsize == oldsize + old(topsize) - nb
    {
      hide StoreOk, Partial, Sound, Kept, Two, FramedView, Pinuse, Cinuse, SizeOf, Tiled, Stretch, BinsIn, Binned;
      hide SplitWords, Quiet, KeepP, Regrown, PrefixKept, Leads, GrowTopTags;
      ghost var m0, v0, hi := store.mem, Now(), top + topsize;
      SoundParts(m0, store.bins, v0);
      StartStretch(m0, store.bins, v0, p);
      LiveSize(m0, v0, p);
      TopFacts(m0, store.bins, v0, 16);
      NotBinned(store.bins, ch, top);
      TakeForth(m0, store.bins, v0, p, top);
      LeadsWith(m0, ch, p, hi);
      LeadRoles(m0, v0, p);
      PartialFacts(m0, store.bins, v0, p, hi);
      TopRoom(p, oldsize, nb, topsize);
      MidWord(m0, store.bins, v0, p, p + nb, hi);
      SetGrowTop(p, nb, hi);
      var newtop := p + nb;
      var newtopsize := top + topsize - newtop;
      top, topsize := newtop, newtopsize;
      ch := Two(ch, p, newtop, hi, Live, Top);
      GrowTopWords(m0, store.bins, p, newtop, hi);
      PrependRoles(v0, Now(), p, newtop, hi, Top);
      SplitSettles(m0, store.mem, store.bins, v0, Now(), p, newtop, hi, Top);
      KeptSelf(m0, v0.ch, p, hi);
      PrefixSelf(m0, p, oldsize);
      TagsPrefix(m0, p, newtop, hi, oldsize);
      RegrownTwo(m0, m0, v0.ch, store.mem, p, newtop, hi, Top);
    }

    /** `set_inuse` of the grown chunk and the head of the new top behind it. */
    method SetGrowTop(p: int, nb: int, ghost hi: int)
      requires Gathered(p, hi) && nb % 16 == 0 && nb >= MIN_CHUNK && p + nb + 16 <= hi && hi == top + topsize
      modifies store`mem
      ensures store.Valid() && store.mem == GrowTopTags(old(store.mem), p, p + nb, hi)
    {
      hide StoreOk, Partial, Pinuse, Cinuse, SizeOf, Tiled, Stretch, BinsIn, KeepP, SetP;
      ghost var m0 := store.mem;
      PartialFacts(m0, store.bins, Now(), p, hi);
      Mod16(p, nb);
      MidWord(m0, store.bins, Now(), p, p + nb, hi);
      Tag(p + HEAD, KeepP(Word(p + HEAD), nb), m0, p, hi);
      Tag(p + nb + HEAD, SetP(Word(p + nb + HEAD)), m0, p, hi);
      Tag(p + nb + HEAD, top + topsize - (p + nb) + PINUSE, m0, p, hi);
      assert store.mem == GrowTopTags(m0, p, p + nb, hi);
    }

    /** A chunk in use takes what it needs from the victim behind it. */
    method GrowIntoVictim(p: int, nb: int, oldsize: int) returns (ghost s: int)
      requires Ready() && p in ch && ch[p] == Ck(oldsize, Live) && p + oldsize == dv && nb % 16 == 0
      requires oldsize < nb <= oldsize + dvsize
      modifies store`mem, this`ch, this`dv, this`dvsize
      ensures Ready() && nb <= s < nb + MIN_CHUNK && Regrown(old(store.mem), old(ch), store.mem, ch, p, s)
      ensures s == Cut(oldsize + old(dvsize), nb) && dvsize == oldsize + old(dvsize) - s
      ensures dv == if s < oldsize + old(dvsize) then p + nb else NULL
    {
      hide StoreOk, Partial, Sound, Kept, Two, One, FramedView, Pinuse, Cinuse, SizeOf, Tiled, Stretch, BinsIn;
      hide Binned, SplitWords, Quiet, KeepP, Regrown, PrefixKept, Leads, GrowTags, LiveTags;
      ghost var m0, v0 := store.mem, Now();
      var hi := dv + dvsize;
      SoundParts(m0, store.bins, v0);
      StartStretch(m0, store.bins, v0, p);
      LiveSize(m0, v0, p);
      VictimFacts(m0, store.bins, v0);
      NotBinned(store.bins, ch, dv);
      TakeForth(m0, store.bins, v0, p, dv);
      LeadsWith(m0, ch, p, hi);
      LeadRoles(m0, v0, p);
      KeptSelf(m0, v0.ch, p, hi);
      PrefixSelf(m0, p, oldsize);
      var dsize := oldsize + dvsize - nb;
      if dsize >= MIN_CHUNK {
        var r := p + nb;
        FreeRoom(p, oldsize, dv, nb);
        SetGrow(p, r, hi);
        dvsize, dv := dsize, r;
        ch := Two(ch, p, r, hi, Live, Victim);
        PartialFacts(m0, store.bins, v0, p, hi);
        MidWord(m0, store.bins, v0, p, r, hi);
        GrowWords(m0, store.bins, p, r, hi, Victim);
        PrependRoles(v0, Now(), p, r, hi, Victim);
        SplitSettles(m0, store.mem, store.bins, v0, Now(), p, r, hi, Victim);
        TagsPrefix(m0, p, r, hi, oldsize);
        RegrownTwo(m0, m0, v0.ch, store.mem, p, r, hi, Victim);
        s := nb;
      } else {
        SetKeep(p, hi);
        dvsize, dv := 0, NULL;
        ch := One(ch, p, hi, Live);
        assert RolesAfter(v0, Now(), p, hi, p, Live);
        LiveSettles(m0, store.bins, v0, Now(), p, hi);
        TagsPrefix(m0, p, hi - 16, hi, oldsize);
        RegrownOne(m0, m0, v0.ch, store.mem, p, hi);
        s := hi - p;
      }
    }

    method SetGrow(p: int, r: int, hi: int)
      requires Gathered(p, hi) && r % 16 == 0 && p + MIN_CHUNK <= r && r + 16 <= hi
      modifies store`mem
      ensures store.Valid() && store.mem == GrowTags(old(store.mem), p, r, hi)
    {
      hide StoreOk, Partial, Pinuse, Cinuse, SizeOf, Tiled, Stretch, BinsIn, KeepP, SetP, ClearP;
      ghost var m0 := store.mem;
      PartialFacts(m0, store.bins, Now(), p, hi);
      MidWord(m0, store.bins, Now(), p, r, hi);
      Flags(HeadOf(m0, hi));
      Tag(p + HEAD, KeepP(Word(p + HEAD), r - p), m0, p, hi);
      Tag(r + HEAD, SetP(Word(r + HEAD)), m0, p, hi);
      Tag(r + HEAD, hi - r + PINUSE, m0, p, hi);
      Tag(hi, hi - r, m0, p, hi);
      TagNext(ClearP(Word(hi + HEAD)), m0, p, hi);
      assert store.mem == GrowTags(m0, p, r, hi);
    }

    /** A chunk in use gives back what it does not need. */
    method Shrink(p: int, nb: int, oldsize: int)
      requires Ready() && p in ch && ch[p] == Ck(oldsize, Live) && nb % 16 == 0 && MIN_CHUNK <= nb
      requires oldsize - nb >= MIN_CHUNK
      modifies store, this`ch, this`dv, this`dvsize, this`top, this`topsize
      ensures Ready() && Regrown(old(store.mem), old(ch), store.mem, ch, p, nb) && SameVictim(old(Now()), Now())
    {
      hide StoreOk, Partial, Sound, Kept, Two, One, FramedView, Pinuse, Cinuse, SizeOf, Tiled, Stretch, BinsIn;
      hide Binned, Regrown, PrefixKept, Leads, CutTags, Released, Disposal, SameVictim;
      ghost var m0, v0, hi := store.mem, Now(), p + oldsize;
      SoundParts(m0, store.bins, v0);
      StartStretch(m0, store.bins, v0, p);
      LiveSize(m0, v0, p);
      NextFacts(m0, store.bins, v0, p, p, hi);
      LeadsWith(m0, ch, p, hi);
      LeadRoles(m0, v0, p);
      FreeRoom(p, oldsize, hi, nb);
      var r, rsize := p + nb, oldsize - nb;
      CutLive(p, r, p + oldsize);
      ghost var m2, c2, v2 := store.mem, ch, Now();
      TwoAt(v0.ch, p, r, hi, Live, Live);
      TagsPrefix(m0, p, r, hi, nb);
      var lo, end, k := DisposeChunk(r, rsize);
      SameVictimBeside(v0, v2);
      SameVictimTrans(v0, v2, Now());
      RegrownCut(m0, v0.ch, m2, c2, store.mem, ch, p, r, hi);
    }

    /** The binned chunk behind a chunk in use leaves its bin. */
    method TakeNext(p: int, oldsize: int, nextsize: int)
      requires Ready() && p in ch && ch[p] == Ck(oldsize, Live) && p + oldsize in ch
      requires ch[p + oldsize] == Ck(nextsize, Kind.Free)
      modifies store
      ensures var hi := p + oldsize + nextsize;
        && Gathered(p, hi) && Leads(ch, p, hi) && hi in ch && !Tail(ch[hi].kind) && p % 16 == 0 && hi % 16 == 0
        && !(p <= dv < hi) && !(p <= top < hi) && oldsize >= MIN_CHUNK && nextsize >= 16
        && Kept(old(store.mem), ch, store.mem, ch, p, hi)
      ensures PrefixKept(old(store.mem), store.mem, p, oldsize)
    {
      hide StoreOk, Partial, Sound, Kept, FramedView, Pinuse, Cinuse, SizeOf, Tiled, Stretch, BinsIn, Binned;
      hide PrefixKept, Leads, OnlyLinks;
      ghost var m0, v0, b0 := store.mem, Now(), store.bins;
      var next := p + oldsize;
      var hi := next + nextsize;
      SoundParts(m0, b0, v0);
      StartStretch(m0, b0, v0, p);
      LiveSize(m0, v0, p);
      BinnedAt(b0, ch, next);
      NextFacts(m0, b0, v0, p, p, next);
      LeadsWith(m0, ch, p, hi);
      LeadRoles(m0, v0, p);
      ForthRoles(m0, v0, p, p, next);
      Roles(m0, v0, next);
      store.Unlink(next, nextsize);
      ghost var m1 := store.mem;
      LinksPrefix(m0, m1, ch, b0, p);
      UnlinkPartial(m0, m1, b0, v0, p, next);
      TakeForth(m1, b0, v0, p, next);
      KeptWider(m0, ch, m1, ch, p, next, p, hi);
      PartialFacts(m1, store.bins, v0, p, hi);
      PastFree(m1, ch, next);
    }

    /** A chunk in use takes what it needs from the binned chunk behind it. */
    method GrowIntoFree(p: int, nb: int, oldsize: int, nextsize: int) returns (ghost s: int)
      requires Ready() && p in ch && ch[p] == Ck(oldsize, Live) && nb % 16 == 0 && oldsize < nb <= oldsize + nextsize
      requires p + oldsize in ch && ch[p + oldsize] == Ck(nextsize, Kind.Free)
      modifies store, this`ch, this`dv, this`dvsize, this`top, this`topsize
      ensures Ready() && nb <= s < nb + MIN_CHUNK && Regrown(old(store.mem), old(ch), store.mem, ch, p, s)
      ensures s == Cut(oldsize + nextsize, nb) && SameVictim(old(Now()), Now())
    {
      hide StoreOk, Partial, Sound, Kept, Two, One, FramedView, Pinuse, Cinuse, SizeOf, Tiled, Stretch, BinsIn;
      hide Binned, Regrown, PrefixKept, Leads, CutTags, LiveTags, Released, OnlyLinks, Disposal, SameVictim;
      ghost var m0, v0 := store.mem, Now();
      var hi := p + oldsize + nextsize;
      TakeNext(p, oldsize, nextsize);
      ghost var m1 := store.mem;
      var rsize := oldsize + nextsize - nb;
      if rsize < MIN_CHUNK {
        GrowWhole(p, hi);
        SameVictimBeside(v0, Now());
        TagsPrefix(m1, p, hi - 16, hi, oldsize);
        RegrownOne(m0, m1, v0.ch, store.mem, p, hi);
        s := hi - p;
      } else {
        var r := SplitPoint(p, nb);
        CutLive(p, r, hi);
        ghost var m2, c2, v2 := store.mem, ch, Now();
        TwoAt(v0.ch, p, r, hi, Live, Live);
        TagsPrefix(m1, p, r, hi, oldsize);
        PrefixTrans(m0, m1, m2, p, oldsize, oldsize);
        KeptTrans(m0, v0.ch, m1, v0.ch, m2, c2, p, hi);
        var lo, end, k := DisposeChunk(r, rsize);
        SameVictimBeside(v0, v2);
        SameVictimTrans(v0, v2, Now());
        RegrownCut(m0, v0.ch, m2, c2, store.mem, ch, p, r, hi);
        s := nb;
      }
    }

    /** `try_realloc_chunk`: the chunk keeps its place and gets at least `nb` bytes, or nothing changes. */
    method TryReallocChunk(p: int, nb: int) returns (newp: int, ghost s: int)
      requires Ready() && p in ch && ch[p].kind.Live? && nb % 16 == 0 && MIN_CHUNK <= nb
      modifies store, this`ch, this`dv, this`dvsize, this`top, this`topsize
      ensures Ready() && p > 0 && newp == (if RoomBehind(old(ch), p, nb) then p else NULL)
      ensures newp == NULL ==> Same(old(store.mem), old(Now())) && store.bins == old(store.bins)
      ensures newp == p ==> nb <= s < nb + MIN_CHUNK && Regrown(old(store.mem), old(ch), store.mem, ch, p, s)
      ensures newp == p ==> RegrownTo(old(Now()), p, nb, s, Now())
    {
      hide StoreOk, Partial, Sound, Kept, Two, One, FramedView, Pinuse, Cinuse, SizeOf, Tiled, Stretch, BinsIn;
      hide Binned, Regrown, SameVictim;
      ghost var v0 := Now();
      SameVictimSelf(v0);
      SoundParts(store.mem, store.bins, v0);
      StartStretch(store.mem, store.bins, v0, p);
      PartialFacts(store.mem, store.bins, v0, p, p + ch[p].size);
      NotMmapped(store.mem, ch, p);
      NextFacts(store.mem, store.bins, v0, p, p, p + ch[p].size);
      Roles(store.mem, v0, p + ch[p].size);
      var oldsize := SizeOf(Word(p + HEAD));
      var next := p + oldsize;
      newp, s := p, oldsize;
      if Mmapped(Word(p + HEAD)) {
        assert false;
      } else if oldsize >= nb {
        RegrownSelf(store.mem, ch, p);
        if oldsize - nb >= MIN_CHUNK {
          Shrink(p, nb, oldsize);
          s := nb;
        }
      } else if next == top {
        if oldsize + topsize <= nb {
          newp := NULL;
        } else {
          GrowIntoTop(p, nb, oldsize);
          s := nb;
        }
      } else if next == dv {
        if oldsize + dvsize < nb {
          newp := NULL;
        } else {
          s := GrowIntoVictim(p, nb, oldsize);
        }
      } else if !Cinuse(Word(next + HEAD)) {
        var nextsize := SizeOf(Word(next + HEAD));
        if oldsize + nextsize < nb {
          newp := NULL;
        } else {
          s := GrowIntoFree(p, nb, oldsize, nextsize);
        }
      } else {
        newp := NULL;
      }
    }

    /** A write of one word into a payload, by the program or by a copy on its behalf. */
    method WriteWord(a: int, x: int, ghost q: int)
      requires Ready() && PayloadWord(ch, q, a)
      modifies store`mem
      ensures Ready() && a in old(store.mem) && store.mem == old(store.mem)[a := x]
      ensures SamePayloads(old(store.mem), store.mem, Holdings(ch) - {q})
    {
      hide StoreOk, Sound, FramedView, Tiled, Binned, BinsIn, PayloadWord, Holdings, SamePayloads, LinkWord, BinWord;
      SoundParts(store.mem, store.bins, Now());
      PayloadWritable(store.mem, store.bins, Now(), q, a);
      PayloadSound(store.mem, store.bins, Now(), q, a, x);
      PayloadOthers(store.mem, ch, q, a, x);
      store.Poke(a, x);
    }

    /** `copy_nonoverlapping` from one payload to another: whole words, then the bytes of a last partial word. */
    method CopyBytes(src: int, dst: int, n: nat)
      requires Ready() && CopyRoom(ch, src - MEM_OFFSET, n) && CopyRoom(ch, dst - MEM_OFFSET, n) && src != dst
      modifies store`mem
      ensures Ready() && SamePayloads(old(store.mem), store.mem, Holdings(ch) - {dst - MEM_OFFSET})
      ensures SameBytes(old(store.mem), src, store.mem, dst, n) && SameWords(old(store.mem), src, store.mem, dst, n)
    {
      hide StoreOk, Sound, FramedView, Tiled, Binned, BinsIn, Holdings, SamePayloads, ByteAt, Mix, CopyRoom;
      hide PayloadWord;
      ghost var m0, rest, q := store.mem, Holdings(ch) - {dst - MEM_OFFSET}, dst - MEM_OFFSET;
      PayloadsSelf(m0, rest);
      CopyAligned(m0, store.bins, Now(), src, n);
      CopyAligned(m0, store.bins, Now(), dst, n);
      var i := 0;
      while i + 8 <= n
        invariant 0 <= i <= n && i % 8 == 0 && Ready() && SamePayloads(m0, store.mem, rest)
        invariant forall k: nat :: k < i / 8 ==> WordCopied(m0, store.mem, src, dst, k)
      {
        ghost var m1 := store.mem;
        CopySource(m0, m1, store.bins, Now(), src, dst, n, i);
        CopyTarget(ch, dst, n, i);
        WriteWord(dst + i, Word(src + i), q);
        WordsExtend(m0, m1, store.mem, src, dst, i);
        PayloadsTrans(m0, m1, store.mem, rest);
        i := i + 8;
      }
      ghost var y := 0;
      if i < n {
        ghost var m1 := store.mem;
        CopySource(m0, m1, store.bins, Now(), src, dst, n, i);
        CopyTarget(ch, dst, n, i);
        CopySource(m1, m1, store.bins, Now(), dst, src, n, i);
        y := Word(dst + i);
        WriteWord(dst + i, Mix(Word(src + i), Word(dst + i), n - i), q);
        WordsKept(m0, m1, store.mem, src, dst, i);
        PayloadsTrans(m0, m1, store.mem, rest);
      }
      forall j: nat | j < n
        ensures ByteSame(m0, src, store.mem, dst, j)
      {
        if j < i {
          assert WordCopied(m0, store.mem, src, dst, j / 8);
          CopiedByte(m0, store.mem, src, dst, j);
        } else {
          MixedByte(m0, store.mem, src, dst, n, j, y);
        }
      }
    }

    /** The part of `realloc` that tries to keep the place of a block. */
    method Stay(oldmem: int, bytes: nat) returns (stays: bool, ghost s: int)
      requires Valid() && oldmem - MEM_OFFSET in Holdings(ch) && bytes < MAX_REQUEST
      modifies store, this`ch, this`dv, this`dvsize, this`top, this`topsize
      ensures Valid() && oldmem != NULL && stays == RoomBehind(old(ch), oldmem - MEM_OFFSET, Request2Size(bytes))
      ensures !stays ==> Same(old(store.mem), old(Now())) && store.bins == old(store.bins)
      ensures stays ==> Request2Size(bytes) <= s < Request2Size(bytes) + MIN_CHUNK
      ensures stays ==>
        && Moved(old(store.mem), old(ch), store.mem, ch, oldmem - MEM_OFFSET, oldmem - MEM_OFFSET, s, bytes)
        && RegrownTo(old(Now()), oldmem - MEM_OFFSET, Request2Size(bytes), s, Now())
    {
      hide StoreOk, Sound, FramedView, Tiled, Binned, BinsIn, Unborn, Total, Paged, SamePayloads, Released;
      hide Moved, Regrown, SizeOf, SameBytes, SameWords, RoomBehind, AlignUp, PadRequest, Request2Size, RegrownTo;
      ghost var m0, v0 := store.mem, Now();
      var oldp := oldmem - MEM_OFFSET;
      HeldThere(m0, store.bins, v0, oldp);
      SoundParts(m0, store.bins, v0);
      LiveSize(m0, v0, oldp);
      NotMmapped(m0, ch, oldp);
      var newp;
      newp, s := TryReallocChunk(oldp, Request2Size(bytes));
      stays := newp != NULL;
      GrantedTop(store.mem, store.bins, Now(), top);
      if stays {
        ResizedAligned(m0, v0.ch, store.mem, store.bins, Now(), oldp, s);
        RegrownMoved(m0, v0.ch, store.mem, ch, oldp, s, bytes);
      }
    }

    /** The part of `realloc` that moves a block: a new one, a copy, and the old one freed. */
    method Relocate(oldmem: int, bytes: nat) returns (ret: int, ghost s: int)
      requires Valid() && oldmem - MEM_OFFSET in Holdings(ch) && bytes < MAX_REQUEST
      modifies this, store
      ensures Valid() && (ret == NULL <==> old(Denied(Request2Size(bytes)))) && ret != oldmem
      ensures refusals == old(refusals) + (if ret == NULL then 1 else 0)
      ensures ret == NULL ==> store.mem == old(store.mem) && State() == old(State()).(asked := old(asked) + 1)
      ensures ret != NULL ==> Request2Size(bytes) <= s < Request2Size(bytes) + MIN_CHUNK
      ensures ret != NULL ==>
        Moved(old(store.mem), old(ch), store.mem, ch, oldmem - MEM_OFFSET, ret - MEM_OFFSET, s, bytes)
      ensures ret != NULL ==> MovedTo(sys, old(Answer(Request2Size(bytes))), old(store.bins), old(State()),
          Request2Size(bytes), oldmem - MEM_OFFSET, ret - MEM_OFFSET, s, State())
    {
      hide StoreOk, Sound, FramedView, Tiled, Binned, BinsIn, Unborn, Total, Paged, SamePayloads, Granted, Released;
      hide Moved, SizeOf, SameBytes, SameWords, AlignUp, PadRequest, AskSize, Request2Size;
      hide ServedTo, FreedTo;
      ghost var m0, v0 := store.mem, Now();
      var oldp := oldmem - MEM_OFFSET;
      HeldThere(m0, store.bins, v0, oldp);
      SoundParts(m0, store.bins, v0);
      LiveSize(m0, v0, oldp);
      ret, s := Malloc(bytes);
      if ret != NULL {
        ghost var m1, c1, h1 := store.mem, ch, State();
        var oc := SizeOf(Get(store.mem, oldp + HEAD)) - OVERHEAD;
        MallocMore(m0, v0.ch, m1, store.bins, Now(), oldp, ret - MEM_OFFSET, s, bytes);
        CopyBytes(oldmem, ret, Min(oc, bytes));
        ghost var m2 := store.mem;
        assert State() == h1;
        Free(oldmem);
        GrantElsewhere(m0, v0.ch, m1, c1, oldp, ret - MEM_OFFSET, s);
        GrantCopyRelease(m0, v0.ch, m1, c1, m2, store.mem, ch, oldp, ret - MEM_OFFSET, s, bytes);
      }
    }

    /** `realloc`: in place exactly if there is room behind the chunk, else a new chunk, a copy and a release; null
        only for
        a request of `max_request` or more, or when nothing on hand serves and the system refuses. */
    method Realloc(oldmem: int, bytes: nat) returns (ret: int, ghost s: int)
      requires Valid() && oldmem - MEM_OFFSET in Holdings(ch)
      modifies this, store
      ensures Valid() && (ret == NULL <==> bytes >= MAX_REQUEST || old(Stuck(oldmem - MEM_OFFSET, Request2Size(bytes))))
      ensures refusals == old(refusals) + (if bytes < MAX_REQUEST && ret == NULL then 1 else 0)
      ensures ret == NULL ==> Same(old(store.mem), old(Now()))
      ensures ret != NULL ==> Request2Size(bytes) <= s < Request2Size(bytes) + MIN_CHUNK
      ensures ret != NULL ==>
        Moved(old(store.mem), old(ch), store.mem, ch, oldmem - MEM_OFFSET, ret - MEM_OFFSET, s, bytes)
      ensures bytes < MAX_REQUEST ==> (ret == oldmem <==> RoomBehind(old(ch), oldmem - MEM_OFFSET, Request2Size(bytes)))
      ensures ret == oldmem != NULL ==>
        && State() == old(State()).(view := Now())
        && RegrownTo(old(Now()), oldmem - MEM_OFFSET, Request2Size(bytes), s, Now())
      ensures ret != NULL && ret != oldmem ==> MovedTo(sys, old(Answer(Request2Size(bytes))), old(store.bins),
          old(State()), Request2Size(bytes), oldmem - MEM_OFFSET, ret - MEM_OFFSET, s, State())
      ensures ret == NULL ==> State() == old(State()).(asked := asked)
      ensures ret == NULL ==> asked == old(asked) + (if bytes < MAX_REQUEST then 1 else 0)
    {
      hide Moved, Exhausted, RoomBehind, AlignUp, PadRequest, AskSize, Request2Size, MovedTo, RegrownTo, Sound, Unborn;
      hide StoreOk, Total, Paged, Holdings;
      ret, s := NULL, 0;
      if bytes >= MAX_REQUEST {
        return;
      }
      var stays;
      stays, s := Stay(oldmem, bytes);
      if stays {
        ret := oldmem;
      } else {
        ret, s := Relocate(oldmem, bytes);
      }
    }

    // -------------------------------------------------------------- memalign

    /** `set_inuse` of the part behind an aligned spot, then of the leader before it. */
    method CutLead(lo: int, mid: int, hi: int)
      requires Gathered(lo, hi) && mid % 16 == 0 && mid - lo >= MIN_CHUNK && hi - mid >= MIN_CHUNK && hi in ch
      requires !Tail(ch[hi].kind)
      requires !(lo <= dv < hi) && !(lo <= top < hi)
      modifies store`mem, this`ch
      ensures Ready() && ch == Two(old(ch), lo, mid, hi, Live, Live)
      ensures Kept(old(store.mem), old(ch), store.mem, ch, lo, hi)
    {
      hide StoreOk, Partial, Sound, Kept, Two, FramedView, Pinuse, Cinuse, SizeOf, Tiled, Stretch, BinsIn, SplitWords;
      hide Quiet, KeepP, SetP, CutTags;
      ghost var m0, v0 := store.mem, Now();
      SetLead(lo, mid, hi);
      ch := Two(ch, lo, mid, hi, Live, Live);
      PartialFacts(m0, store.bins, v0, lo, hi);
      MidWord(m0, store.bins, v0, lo, mid, hi);
      CutWords(m0, store.bins, lo, mid, hi);
      assert RolesAfter(v0, Now(), lo, hi, mid, Live);
      SplitSettles(m0, store.mem, store.bins, v0, Now(), lo, mid, hi, Live);
    }

    method SetLead(lo: int, mid: int, hi: int)
      requires Gathered(lo, hi) && mid % 16 == 0 && mid - lo >= MIN_CHUNK && hi - mid >= MIN_CHUNK
      modifies store`mem
      ensures store.Valid() && store.mem == CutTags(old(store.mem), lo, mid, hi)
    {
      hide StoreOk, Partial, Pinuse, Cinuse, SizeOf, Tiled, Stretch, BinsIn;
      ghost var m0 := store.mem;
      PartialFacts(m0, store.bins, Now(), lo, hi);
      MidWord(m0, store.bins, Now(), lo, mid, hi);
      Flags(HeadOf(m0, hi));
      MidHead(HeadOf(m0, mid), hi, mid);
      Tag(mid + HEAD, KeepP(Word(mid + HEAD), hi - mid), m0, lo, hi);
      TagNext(SetP(Word(hi + HEAD)), m0, lo, hi);
      Tag(lo + HEAD, KeepP(Word(lo + HEAD), mid - lo), m0, lo, hi);
      Tag(mid + HEAD, SetP(Word(mid + HEAD)), m0, lo, hi);
      assert store.mem == CutTags(m0, lo, mid, hi);
    }

    /** The leader before the aligned spot is given back. */
    method GiveLeader(p: int, newp: int, size: int, ghost m0: Mem, ghost c0: Tiling)
      requires Ready() && p in ch && ch[p] == Ck(size, Live) && Granted(m0, c0, store.mem, ch, p, size)
      requires newp % 16 == 0 && newp - p >= MIN_CHUNK && p + size - newp >= MIN_CHUNK
      modifies store, this`ch, this`dv, this`dvsize, this`top, this`topsize
      ensures Ready() && Granted(m0, c0, store.mem, ch, newp, p + size - newp) && SameVictim(old(Now()), Now())
    {
      hide StoreOk, Partial, Sound, Kept, Two, One, FramedView, Pinuse, Cinuse, SizeOf, Tiled, Stretch, BinsIn;
      hide Binned, Leads, Released, Granted, Disposal, SameVictim;
      ghost var m1, v1, hi := store.mem, Now(), p + size;
      SoundParts(m1, store.bins, v1);
      StartStretch(m1, store.bins, v1, p);
      NextFacts(m1, store.bins, v1, p, p, hi);
      LeadsWith(m1, ch, p, hi);
      LeadRoles(m1, v1, p);
      StretchAlone(m1, ch, p);
      CutLead(p, newp, p + size);
      ghost var m2, c2, v2 := store.mem, ch, Now();
      TwoFirst(v1.ch, p, newp, hi, Live, Live);
      var lo, end, k := DisposeChunk(p, newp - p);
      SameVictimBeside(v1, v2);
      SameVictimTrans(v1, v2, Now());
      LeaderGone(m0, c0, m1, v1.ch, m2, c2, store.mem, ch, p, newp, hi);
    }

    /** `memalign`: an aligned chunk of at least the padded size; what is before and behind it goes back. */
    method Memalign(alignment0: nat, bytes: nat) returns (ret: int, ghost s: int)
      requires Valid() && PowerOfTwo(alignment0) && alignment0 < WORD
      modifies this, store
      ensures Valid()
      ensures var req := AlignedRequest(alignment0, bytes); ret == NULL <==>
          req >= MAX_REQUEST || old(Denied(Request2Size(req)))
      ensures refusals == old(refusals) + (if AlignedRequest(alignment0, bytes) < MAX_REQUEST && ret == NULL
          then 1 else 0)
      ensures ret == NULL ==> Same(old(store.mem), old(Now()))
      ensures ret != NULL ==> ret % alignment0 == 0 && Request2Size(bytes) <= s <= Request2Size(bytes) + MIN_CHUNK
      ensures ret != NULL ==> Granted(old(store.mem), old(ch), store.mem, ch, ret - MEM_OFFSET, s)
      ensures ret != NULL ==>
        AlignedTo(old(Answer(Request2Size(AlignedRequest(alignment0, bytes)))), old(store.bins), old(State()),
          Max(alignment0, MIN_CHUNK), bytes, ret - MEM_OFFSET, s, State())
      ensures ret == NULL ==> State() == old(State()).(asked := asked)
      ensures ret == NULL ==> asked == old(asked) + (if AlignedRequest(alignment0, bytes) < MAX_REQUEST then 1 else 0)
    {
      hide StoreOk, Sound, FramedView, Tiled, Binned, BinsIn, Unborn, Total, Paged, Granted, Released, Regrown;
      hide SizeOf, Resized, PrefixKept, Exhausted, AlignUp, PadRequest, AskSize, Request2Size, ServedTo;
      hide SameVictim, Lead;
      ret, s := NULL, 0;
      var alignment := if alignment0 < MIN_CHUNK then MIN_CHUNK else alignment0;
      if bytes >= MAX_REQUEST - alignment {
        return;
      }
      ghost var m0, v0 := store.mem, Now();
      var nb := Request2Size(bytes);
      var req := AlignedRequest(alignment, bytes);
      var mem;
      mem, s := Malloc(req);
      if mem == NULL {
        return;
      }
      var p := mem - MEM_OFFSET;
      GrantedThere(m0, v0.ch, store.mem, store.bins, Now(), p, s);
      AlignmentFacts(alignment0, alignment);
      PaddedSize(alignment, bytes);
      p, s := AlignWithin(p, alignment, nb, s, m0, v0.ch);
      GrantedTop(store.mem, store.bins, Now(), top);
      ret := p + MEM_OFFSET;
      StillAligned(ret, alignment0, alignment);
    }

    /** The rest of `memalign`: a chunk in use shrinks to the aligned spot in it, and gives back what is before that
        spot and what it does not need behind it. */
    method AlignWithin(p0: int, alignment: nat, nb: int, ghost size0: int, ghost m0: Mem, ghost c0: Tiling)
      returns (p: int, ghost s: int)
      requires Ready() && p0 > 0 && p0 in ch && ch[p0] == Ck(size0, Live)
      requires Granted(m0, c0, store.mem, ch, p0, size0)
      requires alignment % 16 == 0 && alignment >= MIN_CHUNK && nb % 16 == 0 && nb >= MIN_CHUNK
      requires size0 >= nb + alignment + MIN_CHUNK
      modifies store, this`ch, this`dv, this`dvsize, this`top, this`topsize
      ensures Ready() && p > 0 && p == p0 + Lead(p0, alignment) && s == Trimmed(size0 - Lead(p0, alignment), nb)
      ensures (p + MEM_OFFSET) % alignment == 0 && nb <= s <= nb + MIN_CHUNK
      ensures Granted(m0, c0, store.mem, ch, p, s) && SameVictim(old(Now()), Now())
    {
      hide StoreOk, Sound, FramedView, Tiled, Binned, BinsIn, Granted, Released, Regrown, SizeOf, Resized, SameVictim;
      ghost var v0 := Now();
      SameVictimSelf(v0);
      ReadyThere(m0, c0, store.mem, store.bins, Now(), p0, size0);
      p, s := p0, size0;
      if (p0 + MEM_OFFSET) % alignment != 0 {
        var br := AlignUp(p0 + MEM_OFFSET, alignment) - MEM_OFFSET;
        p := if br - p0 > MIN_CHUNK then br else br + alignment;
        SpotFacts(p0, alignment, br, p);
        GiveLeader(p0, p, SizeOf(Get(store.mem, p0 + HEAD)), m0, c0);
        s := p0 + size0 - p;
        ReadyThere(m0, c0, store.mem, store.bins, Now(), p, s);
      }
      var size := SizeOf(Get(store.mem, p + HEAD));
      if size > nb + MIN_CHUNK {
        ghost var m1, c1, v1 := store.mem, ch, Now();
        Shrink(p, nb, size);
        SameVictimTrans(v0, v1, Now());
        GrantedResized(m0, c0, m1, c1, store.mem, ch, p, size, nb);
        s := nb;
      }
    }

    // -------------------------------------------------------------- many releases

    /** `set_inuse` over two neighbouring chunks in use. */
    method MergeNext(p: int, psize: int, next: int, nsize: int)
      requires Ready() && p in ch && ch[p] == Ck(psize, Live) && next == p + psize && next in ch
      requires ch[next] == Ck(nsize, Live)
      modifies store, this`ch
      ensures Ready() && Merged(old(store.mem), old(ch), store.mem, ch, p, next, next + nsize)
    {
      hide StoreOk, Partial, Sound, Kept, One, FramedView, Tiled, Binned, BinsIn, Merged;
      ghost var m0, v0 := store.mem, Now();
      SoundParts(m0, store.bins, v0);
      StartStretch(m0, store.bins, v0, p);
      LiveSize(m0, v0, p);
      NotBinned(store.bins, ch, next);
      TakeForth(m0, store.bins, v0, p, next);
      LeadRoles(m0, v0, p);
      Roles(m0, v0, next);
      LiveSuccessor(m0, v0, next);
      GrowWhole(p, next + nsize);
      MergedFrom(m0, v0.ch, store.mem, ch, p, next, next + nsize);
    }

    /** `internal_bulk_free` up to the final trim: neighbours that follow each other in the array are merged first. */
    method BulkDispose(ptrs: array<int>)
      requires Ready() && Doomed(ptrs[..], ch)
      modifies store, ptrs, this`ch, this`dv, this`dvsize, this`top, this`topsize
      ensures Ready() && Holdings(ch) == old(Holdings(ch)) - Targets(old(ptrs[..])) && SameVictim(old(Now()), Now())
      ensures SamePayloads(old(store.mem), store.mem, Holdings(ch))
      ensures forall k :: 0 <= k < ptrs.Length ==> ptrs[k] == NULL
    {
      hide StoreOk, Sound, FramedView, Tiled, Binned, BinsIn, Released, Merged, SamePayloads, Holdings, SizeOf;
      hide Settled, Doomed, One, Targets, SameVictim, Disposal;
      ghost var m0, v0, kept := store.mem, Now(), Holdings(ch) - Targets(ptrs[..]);
      SameVictimSelf(v0);
      PayloadsSelf(m0, kept);
      SettledStart(m0, ch, ptrs[..], kept);
      assert ptrs[0..] == ptrs[..];
      var i := 0;
      while i < ptrs.Length
        invariant 0 <= i <= ptrs.Length && Ready() && Settled(m0, store.mem, ch, ptrs[i..], kept)
        invariant SameVictim(v0, Now())
        invariant forall k :: 0 <= k < i ==> ptrs[k] == NULL
      {
        ghost var s, m1, c1, v1 := ptrs[i..], store.mem, ch, Now();
        assert ptrs[i + 1..] == s[1..];
        if ptrs[i] == NULL {
          SettledSkip(m0, m1, c1, s, kept);
        } else {
          var p := ptrs[i] - MEM_OFFSET;
          DoomedHead(m0, m1, c1, store.bins, Now(), s, kept);
          var psize := SizeOf(Get(store.mem, p + HEAD));
          var next := p + psize;
          ptrs[i] := NULL;
          if i + 1 != ptrs.Length && ptrs[i + 1] == next + MEM_OFFSET {
            DoomedNext(m0, m1, c1, store.bins, Now(), s, kept, next);
            var nsize := SizeOf(Get(store.mem, next + HEAD));
            MergeNext(p, psize, next, nsize);
            SameVictimBeside(v1, Now());
            ptrs[i + 1] := p + MEM_OFFSET;
            MergedSettled(m0, m1, c1, store.mem, ch, s, kept, next + nsize);
            assert ptrs[i + 1..] == [s[0]] + s[2..];
          } else {
            var lo, hi, k := DisposeChunk(p, psize);
            DisposedSettled(m0, m1, c1, store.mem, ch, s, kept);
            assert ptrs[i + 1..] == s[1..];
          }
          SameVictimTrans(v0, v1, Now());
        }
        i := i + 1;
      }
      SettledEnd(m0, store.mem, ch, ptrs[ptrs.Length..], kept);
    }

    /** The same pointers disposed of one by one, in the order given. */
    method DisposeEach(ptrs: seq<int>)
      requires Ready() && Doomed(ptrs, ch)
      modifies store, this`ch, this`dv, this`dvsize, this`top, this`topsize
      ensures Ready() && Holdings(ch) == old(Holdings(ch)) - Targets(ptrs) && SameVictim(old(Now()), Now())
      ensures SamePayloads(old(store.mem), store.mem, Holdings(ch))
    {
      hide StoreOk, Sound, FramedView, Tiled, Binned, BinsIn, Released, SamePayloads, Holdings, SizeOf, Settled;
      hide Doomed, One, Targets, SameVictim, Disposal;
      ghost var m0, v0, kept := store.mem, Now(), Holdings(ch) - Targets(ptrs);
      SameVictimSelf(v0);
      PayloadsSelf(m0, kept);
      SettledStart(m0, ch, ptrs, kept);
      assert ptrs[0..] == ptrs;
      var i := 0;
      while i < |ptrs|
        invariant 0 <= i <= |ptrs| && Ready() && Settled(m0, store.mem, ch, ptrs[i..], kept)
        invariant SameVictim(v0, Now())
      {
        ghost var s, m1, c1, v1 := ptrs[i..], store.mem, ch, Now();
        assert ptrs[i + 1..] == s[1..];
        if ptrs[i] == NULL {
          SettledSkip(m0, m1, c1, s, kept);
        } else {
          var p := ptrs[i] - MEM_OFFSET;
          DoomedHead(m0, m1, c1, store.bins, Now(), s, kept);
          var lo, hi, k := DisposeChunk(p, SizeOf(Get(store.mem, p + HEAD)));
          DisposedSettled(m0, m1, c1, store.mem, ch, s, kept);
          SameVictimTrans(v0, v1, Now());
        }
        i := i + 1;
      }
      SettledEnd(m0, store.mem, ch, ptrs[|ptrs|..], kept);
    }

    /** `internal_bulk_free` */
    method BulkFree(ptrs: array<int>)
      requires Valid() && top != NULL && Doomed(ptrs[..], ch)
      modifies this, store, ptrs
      ensures Valid() && Holdings(ch) == old(Holdings(ch)) - Targets(old(ptrs[..])) && refusals == old(refusals)
      ensures BulkFreedTo(sys, old(State()), old(Holdings(ch) - Targets(ptrs[..])), State())
      ensures SamePayloads(old(store.mem), store.mem, Holdings(ch))
      ensures forall k :: 0 <= k < ptrs.Length ==> ptrs[k] == NULL
    {
      hide StoreOk, Sound, FramedView, SamePayloads, Holdings, Doomed, Targets, Total, Paged, Unborn, SameVictim;
      hide TrimmedTo;
      ghost var m0 := store.mem;
      BulkDispose(ptrs);
      ghost var m2, b2, v2 := store.mem, store.bins, Now();
      assert Sound(m2, b2, v2) && SameVictim(old(Now()), v2);
      GrantedTop(store.mem, store.bins, Now(), top);
      if topsize > trimCheck {
        ghost var m1 := store.mem;
        var trimmed := SysTrim(0);
        PayloadsTrans(m0, m1, store.mem, Holdings(ch));
      }
    }
  }
}
