/** Which memory serves a request: a binned chunk, the designated victim, the top chunk, or a region from the system. */
module Choices {
  import opened Bits
  import opened Sizes
  import opened Rings
  import opened Heads
  import opened Tries
  import opened TrieSearch
  import opened StoreSteps
  import opened Tags
  import opened Heaps
  import opened HeapOps
  import opened Regions
  import opened SystemSteps

  // ---------------------------------------------------------------- memory on hand

  ghost predicate AllBelow(bins: map<int, int>, nb: int) { forall a :: a in bins ==> bins[a] < nb }

  /** No chunk on hand serves `nb`: not the victim, not the top chunk, not a binned chunk. */
  ghost predicate Exhausted(bins: map<int, int>, v: View, nb: int)
  {
    v.dvsize < nb && v.topsize <= nb && AllBelow(bins, nb)
  }

  /** How much of a chunk of `c` bytes a request of `nb` takes: all of it if the rest could not be a chunk. */
  function Cut(c: int, nb: int): int { if c - nb >= MIN_CHUNK then nb else c }

  /** Some small bin holds a chunk of the very size, or of the next. */
  ghost predicate Near(bins: map<int, int>, nb: int) { exists a :: a in bins && nb <= bins[a] <= nb + 8 }

  ghost predicate NoneTighter(bins: map<int, int>, nb: int, size: int)
  {
    forall a :: a in bins && bins[a] >= nb ==> size <= bins[a]
  }

  /** A small request is served from the bins if one holds the very size, or if the victim does not serve; a large one
      unless the victim serves and no binned chunk fits more tightly. */
  ghost predicate BinsServe(bins: map<int, int>, v: View, nb: int)
  {
    if nb < MIN_LARGE then Near(bins, nb) || (v.dvsize < nb && !AllBelow(bins, nb))
    else !AllBelow(bins, nb) && !(nb <= v.dvsize && NoneTighter(bins, nb, v.dvsize))
  }

  lemma NoneServes(bins: map<int, int>, v: View, nb: int)
    requires AllBelow(bins, nb)
    ensures !BinsServe(bins, v, nb)
  {
  }

  /** Past the bins and the victim, no binned chunk would do. */
  lemma NoneLeft(bins: map<int, int>, v: View, nb: int)
    requires !BinsServe(bins, v, nb) && v.dvsize < nb
    ensures AllBelow(bins, nb)
  {
  }

  lemma VictimFirst(bins: map<int, int>, v: View, nb: int)
    requires nb < MIN_LARGE && nb <= v.dvsize && !Near(bins, nb)
    ensures !BinsServe(bins, v, nb)
  {
  }

  /** For a large request only the tree bins matter. */
  lemma LargeChoice(bins: map<int, int>, v: View, nb: int, p: int)
    requires nb >= MIN_LARGE && (p == NULL ==> NoFit(bins, nb)) && (p != NULL ==> BestFit(bins, nb, p))
    ensures BinsServe(bins, v, nb) <==> p != NULL && !(nb <= v.dvsize <= bins[p])
    ensures p != NULL ==> TightestFit(bins, nb, p)
  {
  }

  lemma SmallChoice(bins: map<int, int>, v: View, nb: int, p: int)
    requires BinsOk(bins) && nb < MIN_LARGE && TightestFit(bins, nb, p) && (v.dvsize < nb || bins[p] <= nb + 8)
    ensures BinsServe(bins, v, nb) && p > 0
  {
  }

  /** The tightest binned chunk serves; the rest of it becomes the victim if the request is small. */
  ghost predicate FromBins(bins: map<int, int>, v: View, nb: int, p: int, s: int, v': View)
  {
    && TightestFit(bins, nb, p) && s == Cut(bins[p], nb) && v' == v.(ch := v'.ch, dv := v'.dv, dvsize := v'.dvsize)
    && (v'.dv, v'.dvsize) == (if nb < MIN_LARGE && s < bins[p] then (p + nb, bins[p] - nb) else (v.dv, v.dvsize))
  }

  /** The victim serves; the rest of it is the victim. */
  ghost predicate FromVictim(v: View, nb: int, p: int, s: int, v': View)
  {
    && p == v.dv && s == Cut(v.dvsize, nb)
    && v' == v.(ch := v'.ch, dv := if s < v.dvsize then v.dv + nb else NULL, dvsize := v.dvsize - s)
  }

  /** The top chunk serves. */
  ghost predicate FromTop(v: View, nb: int, p: int, s: int, v': View)
  {
    p == v.top && s == nb && v' == v.(ch := v'.ch, top := v.top + nb, topsize := v.topsize - nb)
  }

  /** Who serves, in order: the bins, the victim, the top chunk. */
  ghost predicate Served(bins: map<int, int>, v: View, nb: int, p: int, s: int, v': View)
  {
    if BinsServe(bins, v, nb) then FromBins(bins, v, nb, p, s, v')
    else if nb <= v.dvsize then FromVictim(v, nb, p, s, v')
    else FromTop(v, nb, p, s, v')
  }

  /** In so many words: a chunk of the very size comes first for a small request, the tightest chunk unless the victim
      is as tight for a large one and unless it serves at all for a small one, then the victim, last the top chunk. */
  lemma WhoServes(bins: map<int, int>, v: View, nb: int, p: int, s: int, v': View)
    requires Served(bins, v, nb, p, s, v')
    ensures nb < 256 && (exists a :: a in bins && nb <= bins[a] <= nb + 8) ==> p in bins && nb <= bins[p] <= nb + 8
    ensures nb < 256 && v.dvsize < nb && (exists a :: a in bins && bins[a] >= nb) ==> TightestFit(bins, nb, p)
    ensures nb >= 256 && (exists a :: a in bins && bins[a] >= nb && (v.dvsize < nb || bins[a] < v.dvsize)) ==>
      BestFit(bins, nb, p)
    ensures nb <= v.dvsize && (forall a :: a in bins && bins[a] >= nb ==> bins[a] > nb + 8 && bins[a] >= v.dvsize) ==>
      p == v.dv
    ensures nb < 256 && nb <= v.dvsize && (forall a :: a in bins && bins[a] >= nb ==> bins[a] > nb + 8) ==> p == v.dv
    ensures v.dvsize < nb && (forall a :: a in bins ==> bins[a] < nb) ==>
      p == v.top && s == nb && v'.top == v.top + nb && v'.topsize == v.topsize - nb
  {
  }

  // ---------------------------------------------------------------- memory from the system

  /** What the allocator counts: bytes held now and at most, the trim threshold, frees until the next release. */
  datatype Gauges = Gauges(footprint: int, peak: int, trimCheck: int, releaseChecks: int)

  /** The region continues the newest segment. */
  predicate AtEnd(v: View, lo: int) { |v.segs| > 0 && lo == End(v.segs[0]) }

  /** The region does not, but it lies right in front of some segment. */
  predicate InFront(v: View, lo: int, ts: int)
  {
    !AtEnd(v, lo) && exists j :: 0 <= j < |v.segs| && v.segs[j].base == lo + ts
  }

  /** Where `add_segment` puts the record of the segment that ends at `end` with the top chunk. */
  function RecordAt(top: int, end: int): int { if end - TOP_FOOT < top + MIN_CHUNK then top else end - TOP_FOOT }

  /** The segments once the region `lo`, `ts` bytes long, is in use: the newest segment is longer, some segment starts
      earlier, or there is a new newest one. */
  ghost predicate SegmentsGrown(v: View, lo: int, ts: int, segs: seq<Seg>)
  {
    if v.segs == [] then segs == [Seg(SEG_HEAD, lo, ts)]
    else if AtEnd(v, lo) then segs == v.segs[0 := Seg(SEG_HEAD, v.segs[0].base, v.segs[0].size + ts)]
    else if InFront(v, lo, ts) then
      exists j :: 0 <= j < |v.segs| && v.segs[j].base == lo + ts
        && segs == v.segs[j := Seg(v.segs[j].at, lo, v.segs[j].size + ts)]
    else
      var at := RecordAt(v.top, End(v.segs[0])) + MEM_OFFSET;
      segs == [Seg(SEG_HEAD, lo, ts), Seg(at, v.segs[0].base, v.segs[0].size)] + v.segs[1..]
  }

  /** The rest of a region in front of a segment joins the chunk there if that is the top chunk or the victim. */
  ghost predicate FrontJoined(v: View, q: int, first: int, v': View)
  {
    if first == v.top then v' == v.(ch := v'.ch, top := q, topsize := v.topsize + first - q)
    else if first == v.dv then v' == v.(ch := v'.ch, dv := q, dvsize := v.dvsize + first - q)
    else v' == v.(ch := v'.ch)
  }

  /** The heap once the region is in use and `nb` bytes are served: from the longer top chunk, from the front of the
      region, or from the region as the new top chunk. */
  ghost predicate Grown(v: View, lo: int, ts: int, nb: int, v': View)
  {
    && SegmentsGrown(v, lo, ts, v'.segs)
    && (if AtEnd(v, lo) then v' == v.(ch := v'.ch, segs := v'.segs, top := v.top + nb, topsize := v.topsize + ts - nb)
        else if InFront(v, lo, ts) then FrontJoined(v.(segs := v'.segs), lo + nb, lo + ts, v')
        else v' == v.(ch := v'.ch, segs := v'.segs, top := lo + nb, topsize := ts - TOP_FOOT - nb))
  }

  function ServedAt(v: View, lo: int): int { if AtEnd(v, lo) then v.top else lo }

  lemma FirstPlace(v: View, lo: int, ts: int)
    requires v.segs == []
    ensures !InFront(v, lo, ts) && ServedAt(v, lo) == lo
  {
  }

  /** What is counted, after the region. */
  function GaugesGrown(g: Gauges, v: View, lo: int, ts: int): Gauges
  {
    Gauges(g.footprint + ts, Max(g.peak, g.footprint + ts), if InFront(v, lo, ts) then g.trimCheck else TRIM_THRESHOLD,
           if v.segs == [] then RELEASE_RATE else g.releaseChecks)
  }

  /** The region granted is in use, and `nb` bytes of it or of the chunk it extends are at `p`. */
  ghost predicate FromSystem(g: Grant, v: View, gauge: Gauges, nb: int, p: int, v': View, gauge': Gauges)
  {
    && g.Region? && p == ServedAt(v, g.base) && Grown(v, g.base, g.size, nb, v')
    && gauge' == GaugesGrown(gauge, v, g.base, g.size)
  }

  /** In so many words: a region at the end of the newest segment makes it and the top chunk longer, and the old top
      serves; any other serves from its front, and is part of the segment behind it or a segment of its own. */
  lemma WhereItGoes(g: Grant, v: View, gauge: Gauges, nb: int, p: int, v': View, gauge': Gauges)
    requires FromSystem(g, v, gauge, nb, p, v', gauge') && |v.segs| > 0
    ensures g.base == End(v.segs[0]) ==>
      && v'.segs == v.segs[0 := Seg(SEG_HEAD, v.segs[0].base, v.segs[0].size + g.size)]
      && p == v.top && v'.topsize == v.topsize + g.size - nb
    ensures g.base != End(v.segs[0]) ==> p == g.base
    ensures g.base != End(v.segs[0]) && (exists j :: 0 <= j < |v.segs| && v.segs[j].base == g.base + g.size) ==>
      exists j :: 0 <= j < |v.segs| && v.segs[j].base == g.base + g.size
        && v'.segs == v.segs[j := Seg(v.segs[j].at, g.base, v.segs[j].size + g.size)]
    ensures g.base != End(v.segs[0]) && (forall j :: 0 <= j < |v.segs| ==> v.segs[j].base != g.base + g.size) ==>
      |v'.segs| == |v.segs| + 1 && v'.segs[0] == Seg(SEG_HEAD, g.base, g.size) && v'.segs[2..] == v.segs[1..]
    ensures gauge'.footprint == gauge.footprint + g.size && gauge'.peak >= gauge'.footprint
  {
  }
}
