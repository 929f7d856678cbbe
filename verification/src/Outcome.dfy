/** What becomes of the heap when memory is given back: to the bins, to the victim, to the top chunk, to the system. */
module Outcomes {
  import opened Bits
  import opened Sizes
  import opened Rings
  import opened Heads
  import opened Tags
  import opened Heaps
  import opened Retags
  import opened HeapOps
  import opened Coalescing
  import opened Regions
  import opened Releases
  import opened SystemSteps
  import opened Choices

  // ---------------------------------------------------------------- one chunk

  /** What a chunk made of neighbours is: the top chunk if that is one of them, else the victim if that is. */
  function KindOver(v: View, lo: int, hi: int): Kind
  {
    if lo <= v.top < hi then Top else if lo <= v.dv < hi then Victim else Kind.Free
  }

  /** `[lo, hi)` is the chunk at `p` with the free chunk before it, if there is one. */
  ghost predicate BackJoined(ch: Tiling, p: int, lo: int)
  {
    if lo == p then forall a :: a in ch && Coalesced(ch[a].kind) ==> a + ch[a].size != p
    else lo in ch && Coalesced(ch[lo].kind) && lo + ch[lo].size == p
  }

  /** And with the chunk behind it, if that is free or the top chunk. */
  ghost predicate ForthJoined(ch: Tiling, next: int, hi: int)
  {
    if next in ch && (Coalesced(ch[next].kind) || ch[next].kind.Top?) then hi == next + ch[next].size else hi == next
  }

  /** The chunk at `p` and its free neighbours are now the chunk `[lo, hi)` of kind `k`. */
  ghost predicate Disposal(v: View, p: int, lo: int, hi: int, k: Kind, v': View)
  {
    && p in v.ch && BackJoined(v.ch, p, lo) && ForthJoined(v.ch, p + v.ch[p].size, hi)
    && k == KindOver(v, lo, hi) && v'.ch == One(v.ch, lo, hi, k) && RolesAfter(v, v', lo, hi, lo, k)
  }

  /** The victim has only grown, or it is part of the top chunk. */
  ghost predicate SameVictim(v: View, v': View)
  {
    && v'.segs == v.segs && v'.top <= v.top && v.top + v.topsize <= v'.top + v'.topsize
    && (if v.dv == NULL then v'.dv == NULL
        else if v'.dv == NULL then v'.top <= v.dv && v.dv + v.dvsize <= v'.top + v'.topsize
        else v'.dv <= v.dv && v.dv + v.dvsize <= v'.dv + v'.dvsize)
  }

  lemma SameVictimSelf(v: View)
    ensures SameVictim(v, v)
  {
  }

  /** Victim and top chunk stand apart from what changes. */
  lemma SameVictimBeside(v: View, v': View)
    requires v' == v.(ch := v'.ch)
    ensures SameVictim(v, v')
  {
  }

  lemma SameVictimTrans(v: View, v1: View, v2: View)
    requires SameVictim(v, v1) && SameVictim(v1, v2)
    ensures SameVictim(v, v2)
  {
  }

  /** A disposal loses no victim. */
  lemma DisposalVictim(mem: Mem, v: View, p: int, lo: int, hi: int, k: Kind, v': View)
    requires FramedView(mem, v) && Disposal(v, p, lo, hi, k, v') && v.ch[p].kind.Live?
    ensures SameVictim(v, v')
  {
    hide FramedView, One;
    var next := p + v.ch[p].size;
    TopThere(mem, v);
    Roles(mem, v, p);
    LiveSize(mem, v, p);
    assert Joined(v.ch, lo, p, next);
    JoinedRoles(mem, v, lo, p, next);
    Roles(mem, v, lo);
    if next in v.ch {
      Roles(mem, v, next);
      ForthRoles(mem, v, lo, p, next);
    }
  }

  lemma TopThere(mem: Mem, v: View)
    requires FramedView(mem, v)
    ensures v.top in v.ch && v.ch[v.top] == Ck(v.topsize, Top) && v.top > 0
  {
    assert Tagged(mem, v.ch, v.top);
  }

  /** A chunk in use whose head says the chunk before it is in use has no free chunk before it. */
  lemma NoneBefore(mem: Mem, ch: Tiling, p: int)
    requires Tiled(mem, ch) && p in ch && Pinuse(HeadOf(mem, p))
    ensures BackJoined(ch, p, p)
  {
    forall a | a in ch && Coalesced(ch[a].kind)
      ensures a + ch[a].size != p
    {
      assert Tagged(mem, ch, a);
    }
  }

  // ---------------------------------------------------------------- segments

  /** The segment is offered to the system, if the next question is the `k`-th. */
  ghost predicate Offers(sys: Answers, ch: Tiling, s: Seg, k: nat) { sys.canRelease(k) && Releasable(ch, s) }

  /** The questions it takes to offer all these segments. */
  ghost function AllQuestions(sys: Answers, ch: Tiling, segs: seq<Seg>, k: nat): nat
  {
    if segs == [] then 0
    else
      var n := Questions(sys, ch, segs[0], k);
      n + AllQuestions(sys, ch, segs[1..], k + n)
  }

  /** The victim after the offers: a victim that is offered is the victim no more, whatever the system says. */
  ghost function VictimLeft(sys: Answers, ch: Tiling, segs: seq<Seg>, k: nat, dv: int): int
  {
    if segs == [] then dv
    else VictimLeft(sys, ch, segs[1..], k + Questions(sys, ch, segs[0], k),
                    if Offers(sys, ch, segs[0], k) && segs[0].base == dv then NULL else dv)
  }

  lemma {:induction false} OffersSame(sys: Answers, ch: Tiling, ch': Tiling, segs: seq<Seg>, k: nat, dv: int)
    requires forall i :: 0 <= i < |segs| ==> Releasable(ch', segs[i]) == Releasable(ch, segs[i])
    ensures AllQuestions(sys, ch', segs, k) == AllQuestions(sys, ch, segs, k)
    ensures VictimLeft(sys, ch', segs, k, dv) == VictimLeft(sys, ch, segs, k, dv)
  {
    hide Releasable;
    if segs != [] {
      var n := Questions(sys, ch, segs[0], k);
      OffersSame(sys, ch, ch', segs[1..], k + n, dv);
      OffersSame(sys, ch, ch', segs[1..], k + n, NULL);
    }
  }

  /** What the first offer leaves to do. */
  lemma OffersNext(sys: Answers, ch: Tiling, ch': Tiling, segs: seq<Seg>, i: int, k: nat, dv: int)
    requires 0 < i < |segs|
    requires forall j :: i < j < |segs| ==> Releasable(ch', segs[j]) == Releasable(ch, segs[j])
    ensures var n := Questions(sys, ch, segs[i], k);
            var dv' := if Offers(sys, ch, segs[i], k) && segs[i].base == dv then NULL else dv;
            && AllQuestions(sys, ch, segs[i..], k) == n + AllQuestions(sys, ch', segs[i + 1..], k + n)
            && VictimLeft(sys, ch, segs[i..], k, dv) == VictimLeft(sys, ch', segs[i + 1..], k + n, dv')
  {
    hide Releasable, Questions, Offers;
    var n := Questions(sys, ch, segs[i], k);
    var dv' := if Offers(sys, ch, segs[i], k) && segs[i].base == dv then NULL else dv;
    assert segs[i..][1..] == segs[i + 1..];
    OffersSame(sys, ch, ch', segs[i + 1..], k + n, dv');
  }

  // ---------------------------------------------------------------- whole operations

  /** The allocator between operations: its view of the heap, what it counts, and how often it has asked. */
  datatype Heap = Heap(view: View, gauge: Gauges, asked: nat)

  /** `malloc` from `h` to `h'`, with `s` bytes at `p` for a request of `nb`: from what is on hand if anything serves,
      else from the system, whose answer would be `g`. */
  ghost predicate ServedTo(g: Grant, bins: map<int, int>, h: Heap, nb: int, p: int, s: int, h': Heap)
  {
    if !Exhausted(bins, h.view, nb) then h' == h.(view := h'.view) && Served(bins, h.view, nb, p, s, h'.view)
    else s == nb && FromSystem(g, h.view, h.gauge, nb, p, h'.view, h'.gauge) && h'.asked == h.asked + 1
  }

  /** `try_realloc_chunk` of the chunk at `p` that now has `s` bytes: it gives back what it can, or takes what it needs
      from the top chunk, the victim or the free chunk behind it. */
  ghost predicate RegrownTo(v: View, p: int, nb: int, s: int, v': View)
  {
    p in v.ch
    && var size, n := v.ch[p].size, p + v.ch[p].size;
    if size >= nb then s == Cut(size, nb) && SameVictim(v, v')
    else if n == v.top then s == nb && v' == v.(ch := v'.ch, top := p + nb, topsize := size + v.topsize - nb)
    else if n == v.dv then
      && s == Cut(size + v.dvsize, nb)
      && v' == v.(ch := v'.ch, dv := if s < size + v.dvsize then p + nb else NULL, dvsize := size + v.dvsize - s)
    else n in v.ch && s == Cut(size + v.ch[n].size, nb) && SameVictim(v, v')
  }

  /** `realloc` that cannot stay: `malloc`, then `free` of the old chunk. */
  ghost predicate MovedTo(sys: Answers, g: Grant, bins: map<int, int>, h: Heap, nb: int, p: int, q: int, s: int,
      h': Heap)
  {
    exists h1 :: ServedTo(g, bins, h, nb, q, s, h1) && FreedTo(sys, h1, p, h')
  }

  /** `release_unused_segments` from `h` to `h'`. */
  ghost predicate SweptTo(sys: Answers, h: Heap, h': Heap)
  {
    var v, k := h.view, h.asked;
    && |v.segs| > 0
    && h'.view == v.(ch := h'.view.ch, dvsize := h'.view.dvsize, dv := VictimLeft(sys, v.ch, v.segs[1..], k, v.dv),
                     segs := v.segs[..1] + Survivors(sys, v.ch, v.segs[1..], k))
    && h'.gauge == h.gauge.(footprint := Total(h'.view.segs), releaseChecks := Max(RELEASE_RATE, |v.segs| - 1))
    && h'.asked == k + AllQuestions(sys, v.ch, v.segs[1..], k)
  }

  /** What a trim takes from the top chunk of the newest segment. */
  ghost function TrimmedBy(sys: Answers, s: Seg, topsize: int, pad0: nat, k: nat): int
  {
    var pad := pad0 + TOP_FOOT;
    if pad0 < MAX_REQUEST && topsize > pad && Trims(sys, s, TrimExtra(topsize, pad), k)
        then TrimExtra(topsize, pad) else 0
  }

  /** The top chunk trimmed, if the system takes what it can spare beyond the pad. */
  ghost function TopTrimmed(sys: Answers, h: Heap, pad0: nat): Heap
    requires |h.view.segs| > 0
  {
    var v, g, k := h.view, h.gauge, h.asked;
    var extra := TrimmedBy(sys, v.segs[0], v.topsize, pad0, k);
    var k' := if v.topsize <= pad0 + TOP_FOOT then k else if sys.canRelease(k) then k + 2 else k + 1;
    if extra == 0 then h.(asked := k')
    else Heap(RetopView(v, End(v.segs[0]) - extra),
              g.(footprint := g.footprint - extra, trimCheck := TRIM_THRESHOLD), k')
  }

  /** `sys_trim` from `h` to `h'`: the top chunk, then the older segments. With no success at all the next trim is put
      off for good. */
  ghost predicate TrimmedTo(sys: Answers, h: Heap, pad0: nat, h': Heap)
  {
    if pad0 >= MAX_REQUEST || h.view.top == NULL then h' == h
    else
      && |h.view.segs| > 0
      && var h1 := TopTrimmed(sys, h, pad0);
      var trimCheck := h1.gauge.trimCheck;
      && SweptTo(sys, h1, h'.(gauge := h'.gauge.(trimCheck := trimCheck)))
      && h'.gauge.trimCheck == (if h'.gauge.footprint == h.gauge.footprint && h'.view.topsize > trimCheck
                                then WORD - 1 else trimCheck)
  }

  /** What follows a disposal that made a chunk of `size` bytes and kind `k`: a trim if that is a top chunk beyond the
      threshold, else a sweep whenever enough large chunks have been freed. */
  ghost predicate TidiedTo(sys: Answers, h: Heap, size: int, k: Kind, h': Heap)
  {
    if k.Top? && h.view.topsize > h.gauge.trimCheck then TrimmedTo(sys, h, 0, h')
    else if k.Free? && size >= MIN_LARGE then
      var h1 := h.(gauge := h.gauge.(releaseChecks := h.gauge.releaseChecks - 1));
      if h1.gauge.releaseChecks == 0 then SweptTo(sys, h1, h') else h' == h1
    else h' == h
  }

  /** `free` of the chunk at `p` from `h` to `h'`. */
  ghost predicate FreedTo(sys: Answers, h: Heap, p: int, h': Heap)
  {
    exists lo, hi, k, v :: Disposal(h.view, p, lo, hi, k, v) && TidiedTo(sys, h.(view := v), hi - lo, k, h')
  }

  /** `internal_bulk_free` from `h` to `h'`: the program is left with `held`, and one trim follows if it is due. */
  ghost predicate BulkFreedTo(sys: Answers, h: Heap, held: Tiling, h': Heap)
  {
    exists mem, bins, v ::
      && Sound(mem, bins, v) && SameVictim(h.view, v) && Holdings(v.ch) == held
      && if v.topsize > h.gauge.trimCheck then TrimmedTo(sys, h.(view := v), 0, h') else h' == h.(view := v)
  }
}
