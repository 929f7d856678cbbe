/** The heap as a whole: segments, the chunks that tile them, and the part each chunk plays. */
module Heaps {
  import opened Sizes
  import opened Rings
  import opened Heads
  import opened Tries
  import opened Stores
  import opened Tags

  /** A segment: where its record lies, where its memory lies. */
  datatype Seg = Seg(at: int, base: int, size: int)

  function End(s: Seg): int { s.base + s.size }

  /** The address of the record of the newest segment, the `seg` field of the allocator itself. */
  const SEG_HEAD: int := -320

  /** Words of a segment record. */
  const SEG_SIZE: int := 8
  const SEG_NEXT: int := 16
  const SEG_FLAGS: int := 24

  ghost predicate Holds(s: Seg, p: int, c: Ck)
  {
    s.base <= p && if Tail(c.kind) then p + c.size == End(s) else p + c.size < End(s)
  }

  /** Some segment holds the chunk; only the closing chunk of a segment reaches its end. */
  ghost predicate Held(segs: seq<Seg>, p: int, c: Ck)
  {
    exists i :: 0 <= i < |segs| && Holds(segs[i], p, c)
  }

  /** The record of an older segment lies in that segment, in a chunk of its own before the fenceposts. */
  ghost predicate Recorded(ch: Tiling, s: Seg)
  {
    && s.at - MEM_OFFSET in ch && ch[s.at - MEM_OFFSET] == Ck(SEGMENT_CHUNK, Record) && s.base <= s.at - MEM_OFFSET
    && s.at + 32 in ch && ch[s.at + 32].kind.Fence? && s.at + 32 + ch[s.at + 32].size == End(s)
  }

  /** One segment: aligned, addressable, starting with a chunk that has nothing free before it, and recorded. */
  ghost predicate SegOk(mem: Mem, ch: Tiling, segs: seq<Seg>, i: int)
    requires 0 <= i < |segs|
  {
    var s := segs[i];
    && s.base > 0 && s.base % 16 == 0 && s.size % 16 == 0 && s.size > 0 && End(s) <= WORD
    && s.base in ch && Pinuse(HeadOf(mem, s.base))
    && (forall a :: s.base <= a < End(s) && a % 8 == 0 ==> a in mem)
    && Get(mem, s.at) == s.base && Get(mem, s.at + SEG_SIZE) == s.size && Get(mem, s.at + SEG_FLAGS) == 0
    && Get(mem, s.at + SEG_NEXT) == (if i + 1 < |segs| then segs[i + 1].at else NULL)
    && (if i == 0 then s.at == SEG_HEAD else Recorded(ch, s))
  }

  /** The top chunk closes the newest segment, up to the foot. */
  ghost predicate TopOk(ch: Tiling, segs: seq<Seg>, top: int, topsize: int)
  {
    && |segs| > 0 && top in ch && ch[top] == Ck(topsize, Top) && segs[0].base <= top
    && top + topsize + TOP_FOOT == End(segs[0])
    && top + topsize in ch && ch[top + topsize] == Ck(TOP_FOOT, Foot)
  }

  ghost predicate SegsApart(segs: seq<Seg>)
  {
    forall i, j :: 0 <= i < j < |segs| ==> End(segs[i]) <= segs[j].base || End(segs[j]) <= segs[i].base
  }

  ghost predicate RecordWords(mem: Mem)
  {
    SEG_HEAD in mem && SEG_HEAD + SEG_SIZE in mem && SEG_HEAD + SEG_NEXT in mem && SEG_HEAD + SEG_FLAGS in mem
  }

  ghost predicate SegsOk(mem: Mem, ch: Tiling, segs: seq<Seg>)
  {
    && SegsApart(segs)
    && (forall i {:trigger SegOk(mem, ch, segs, i)} :: 0 <= i < |segs| ==> SegOk(mem, ch, segs, i))
    && (forall p {:trigger Held(segs, p, ch[p])} :: p in ch ==> Held(segs, p, ch[p]))
    && RecordWords(mem)
  }

  /** Each free chunk other than the victim and the top is binned under its size; bins hold nothing else. */
  ghost predicate Binned(ch: Tiling, bins: map<int, int>)
  {
    && BinsIn(bins, ch)
    && (forall p :: p in ch && ch[p].kind.Free? ==> p in bins)
  }

  /** The victim is the one chunk of its kind. */
  ghost predicate VictimOk(ch: Tiling, dv: int, dvsize: int)
  {
    && (forall p :: p in ch && ch[p].kind.Victim? ==> p == dv)
    && (dv == NULL ==> dvsize == 0)
    && (dv != NULL ==> dv in ch && ch[dv] == Ck(dvsize, Victim))
  }

  ghost predicate OneTop(ch: Tiling, top: int)
  {
    forall p :: p in ch && ch[p].kind.Top? ==> p == top
  }

  /** Boundary tags and segments. */
  ghost predicate Framed(mem: Mem, ch: Tiling, segs: seq<Seg>, top: int, topsize: int)
  {
    && Tiled(mem, ch) && Backed(mem, ch) && SegsOk(mem, ch, segs)
    && TopOk(ch, segs, top, topsize) && OneTop(ch, top)
  }

  // ---------------------------------------------------------------- stretches

  /** One segment contains `[lo, hi]`. */
  ghost predicate Spans(segs: seq<Seg>, lo: int, hi: int)
  {
    exists i :: 0 <= i < |segs| && segs[i].base <= lo && hi < End(segs[i])
  }

  lemma SpanOne(mem: Mem, ch: Tiling, segs: seq<Seg>, p: int)
    requires SegsOk(mem, ch, segs) && p in ch && !Tail(ch[p].kind)
    ensures Spans(segs, p, p + ch[p].size)
  {
    assert Held(segs, p, ch[p]);
  }

  lemma SegPair(segs: seq<Seg>, i: int, j: int)
    requires SegsApart(segs) && 0 <= i < |segs| && 0 <= j < |segs|
    ensures i != j ==> End(segs[i]) <= segs[j].base || End(segs[j]) <= segs[i].base
  {
  }

  lemma SpanJoin(segs: seq<Seg>, lo: int, mid: int, hi: int)
    requires SegsApart(segs) && Spans(segs, lo, mid) && Spans(segs, mid, hi) && lo < mid < hi
    ensures Spans(segs, lo, hi)
  {
    var i :| 0 <= i < |segs| && segs[i].base <= lo && mid < End(segs[i]);
    var j :| 0 <= j < |segs| && segs[j].base <= mid && hi < End(segs[j]);
    SegPair(segs, i, j);
  }

  /** Ordinary chunks only: no records, feet or fences in the stretch. */
  ghost predicate Plain(ch: Tiling, lo: int, hi: int)
  {
    forall p :: p in ch && lo <= p < hi ==> !ch[p].kind.Record? && !Tail(ch[p].kind)
  }

  /** A chunk in use that lies outside the stretch keeps its payload, records included. */
  lemma QuietPayload(mem: Mem, mem': Mem, ch: Tiling, bins: map<int, int>, lo: int, hi: int, p: int, a: int)
    requires Tiled(mem, ch) && BinsIn(bins, ch) && Quiet(mem, mem', bins, lo, hi) && lo in ch && hi in ch && lo < hi
    requires p in ch && Used(ch[p].kind) && !Tail(ch[p].kind) && (p < lo || p >= hi)
    requires p + MEM_OFFSET <= a < p + ch[p].size + 8
    ensures Get(mem', a) == Get(mem, a)
  {
    PayloadNotLink(mem, ch, bins, p, a);
    if p < lo { Apart(ch, p, lo); assert Tagged(mem, ch, lo); }
  }

  lemma PayloadNotLink(mem: Mem, ch: Tiling, bins: map<int, int>, p: int, a: int)
    requires Tiled(mem, ch) && BinsIn(bins, ch) && p in ch && Used(ch[p].kind)
    requires p + MEM_OFFSET <= a < p + ch[p].size + 8
    ensures !LinkWord(bins, a) && !BinWord(a)
  {
    assert Tagged(mem, ch, p);
    forall q | q in bins
      ensures !(q + PREV <= a < q + LinkEnd(bins[q]))
    {
      assert Tagged(mem, ch, q);
      Apart(ch, p, q);
    }
  }

  lemma QuietRecord(mem: Mem, mem': Mem, ch: Tiling, bins: map<int, int>, segs: seq<Seg>, lo: int, hi: int, i: int)
    requires Tiled(mem, ch) && BinsIn(bins, ch) && Quiet(mem, mem', bins, lo, hi) && lo in ch && hi in ch && lo < hi
    requires 0 <= i < |segs| && SegOk(mem, ch, segs, i) && Plain(ch, lo, hi)
    ensures var at := segs[i].at;
            && Get(mem', at) == Get(mem, at) && Get(mem', at + SEG_SIZE) == Get(mem, at + SEG_SIZE)
            && Get(mem', at + SEG_NEXT) == Get(mem, at + SEG_NEXT)
            && Get(mem', at + SEG_FLAGS) == Get(mem, at + SEG_FLAGS)
  {
    var at := segs[i].at;
    assert Tagged(mem, ch, lo);
    if i == 0 {
      forall q | q in bins
        ensures q > 0
      {
        assert Tagged(mem, ch, q);
      }
    } else {
      var p := at - MEM_OFFSET;
      QuietPayload(mem, mem', ch, bins, lo, hi, p, at);
      QuietPayload(mem, mem', ch, bins, lo, hi, p, at + SEG_SIZE);
      QuietPayload(mem, mem', ch, bins, lo, hi, p, at + SEG_NEXT);
      QuietPayload(mem, mem', ch, bins, lo, hi, p, at + SEG_FLAGS);
    }
  }

  /** No segment starts inside the stretch or at its end. */
  lemma BaseOutside(segs: seq<Seg>, lo: int, hi: int, i: int)
    requires SegsApart(segs) && Spans(segs, lo, hi) && 0 <= i < |segs| && segs[i].size > 0 && lo < hi
    ensures segs[i].base <= lo || segs[i].base > hi
  {
    var j :| 0 <= j < |segs| && segs[j].base <= lo && hi < End(segs[j]);
    SegPair(segs, i, j);
  }

  lemma SpliceSeg(mem: Mem, mem': Mem, ch: Tiling, ch': Tiling, bins: map<int, int>, segs: seq<Seg>, lo: int, hi: int,
      i: int)
    requires Tiled(mem, ch) && BinsIn(bins, ch) && Quiet(mem, mem', bins, lo, hi) && SameOutside(ch, ch', lo, hi)
    requires lo < hi
    requires Entrance(mem, mem', ch, ch', lo) && hi in ch && Plain(ch, lo, hi)
    requires 0 <= i < |segs| && SegOk(mem, ch, segs, i) && SegsApart(segs) && Spans(segs, lo, hi)
    ensures SegOk(mem', ch', segs, i)
  {
    hide LinkWord, BinWord, Pinuse, Tiled, Spans;
    BaseOutside(segs, lo, hi, i);
    QuietRecord(mem, mem', ch, bins, segs, lo, hi, i);
    QuietTags(mem, mem', ch, bins, lo, hi, segs[i].base);
  }

  lemma SpliceHeld(ch: Tiling, ch': Tiling, segs: seq<Seg>, lo: int, hi: int, p: int)
    requires SameOutside(ch, ch', lo, hi) && Spans(segs, lo, hi) && Plain(ch', lo, hi)
    requires forall q {:trigger Held(segs, q, ch[q])} :: q in ch ==> Held(segs, q, ch[q])
    requires p in ch' && (lo <= p < hi ==> p + ch'[p].size <= hi)
    ensures Held(segs, p, ch'[p])
  {
    if p < lo || p >= hi {
      assert Held(segs, p, ch[p]);
    } else {
      var i :| 0 <= i < |segs| && segs[i].base <= lo && hi < End(segs[i]);
      assert Holds(segs[i], p, ch'[p]);
    }
  }

  lemma SpliceBacked(mem: Mem, mem': Mem, ch: Tiling, ch': Tiling, segs: seq<Seg>, lo: int, hi: int)
    requires Backed(mem, ch) && mem'.Keys == mem.Keys && SameOutside(ch, ch', lo, hi) && Spans(segs, lo, hi)
    requires forall i {:trigger SegOk(mem, ch, segs, i)} :: 0 <= i < |segs| ==> SegOk(mem, ch, segs, i)
    requires forall p :: p in ch' && lo <= p < hi ==> p + ch'[p].size <= hi
    ensures Backed(mem', ch')
  {
    var i :| 0 <= i < |segs| && segs[i].base <= lo && hi < End(segs[i]);
    assert SegOk(mem, ch, segs, i);
  }

  /** Everything about a change of one stretch. */
  ghost predicate Change(mem: Mem, mem': Mem, ch: Tiling, ch': Tiling, bins: map<int, int>, segs: seq<Seg>, lo: int,
      hi: int)
  {
    && BinsIn(bins, ch) && Quiet(mem, mem', bins, lo, hi) && SameOutside(ch, ch', lo, hi) && lo < hi
    && Spans(segs, lo, hi)
    && Entrance(mem, mem', ch, ch', lo) && Exit(mem, mem', ch, ch', hi) && Inner(mem', ch', lo, hi)
    && Plain(ch, lo, hi) && Plain(ch', lo, hi)
  }

  /** Retagging a stretch keeps tags and segments. */
  lemma ChangeFramed(mem: Mem, mem': Mem, ch: Tiling, ch': Tiling, bins: map<int, int>, segs: seq<Seg>, lo: int,
      hi: int)
    requires Tiled(mem, ch) && Backed(mem, ch) && SegsOk(mem, ch, segs)
    requires Change(mem, mem', ch, ch', bins, segs, lo, hi)
    ensures Tiled(mem', ch') && Backed(mem', ch') && SegsOk(mem', ch', segs)
  {
    hide Spans, Tagged, Entrance, Exit, Quiet, Plain, SameOutside, RecordWords, SegOk, Held, Backed, SegsApart;
    Splice(mem, mem', ch, ch', bins, lo, hi);
    InnerBounds(mem', ch', lo, hi);
    ChangeRecordWords(mem, mem', bins, lo, hi);
    SpliceBacked(mem, mem', ch, ch', segs, lo, hi);
    forall i | 0 <= i < |segs|
      ensures SegOk(mem', ch', segs, i)
    {
      assert SegOk(mem, ch, segs, i);
      ChangeSeg(mem, mem', ch, ch', bins, segs, lo, hi, i);
    }
    forall p | p in ch'
      ensures Held(segs, p, ch'[p])
    {
      SpliceHeld(ch, ch', segs, lo, hi, p);
    }
  }

  lemma ChangeSeg(mem: Mem, mem': Mem, ch: Tiling, ch': Tiling, bins: map<int, int>, segs: seq<Seg>, lo: int, hi: int,
      i: int)
    requires Tiled(mem, ch) && SegsApart(segs) && Change(mem, mem', ch, ch', bins, segs, lo, hi)
    requires 0 <= i < |segs| && SegOk(mem, ch, segs, i)
    ensures SegOk(mem', ch', segs, i)
  {
    SpliceSeg(mem, mem', ch, ch', bins, segs, lo, hi, i);
  }

  lemma InnerBounds(mem': Mem, ch': Tiling, lo: int, hi: int)
    requires Inner(mem', ch', lo, hi)
    ensures forall p :: p in ch' && lo <= p < hi ==> p + ch'[p].size <= hi
  {
    forall p | p in ch' && lo <= p < hi
      ensures p + ch'[p].size <= hi
    {
      assert Tagged(mem', ch', p);
    }
  }

  lemma ChangeRecordWords(mem: Mem, mem': Mem, bins: map<int, int>, lo: int, hi: int)
    requires Quiet(mem, mem', bins, lo, hi) && RecordWords(mem)
    ensures RecordWords(mem') && mem'.Keys == mem.Keys
  {
  }
}
