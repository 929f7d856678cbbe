/** Memory that comes from the system and goes back to it: tiling and segments across such changes. */
module Regions {
  import opened Sizes
  import opened Rings
  import opened Heads
  import opened Tries
  import opened Stores
  import opened Tags
  import opened Heaps
  import opened Retags
  import opened HeapOps
  import opened Coalescing

  // ---------------------------------------------------------------- replacing the chunks of a region

  /** The tag words of all chunks outside `[lo, hi)` are the same. */
  ghost predicate TagsSame(mem: Mem, mem': Mem, ch: Tiling, lo: int, hi: int)
  {
    forall p :: p in ch && (p < lo || p >= hi) ==> Get(mem', p) == Get(mem, p) && HeadOf(mem', p) == HeadOf(mem, p)
  }

  /** A chunk whose successor lies in the region is in use, and the successor still says so. */
  ghost predicate Abuts(mem': Mem, ch: Tiling, ch': Tiling, p: int)
    requires p in ch
  {
    var n := p + ch[p].size;
    ch[p].kind.Live? && n in ch' && !Tail(ch'[n].kind) && Pinuse(HeadOf(mem', n))
  }

  /** New chunks for a whole region: nothing outside depends on the chunks that were there. */
  ghost predicate Graft(mem: Mem, mem': Mem, ch: Tiling, ch': Tiling, lo: int, hi: int)
  {
    && lo < hi && SameOutside(ch, ch', lo, hi) && TagsSame(mem, mem', ch, lo, hi)
    && (forall p :: p in ch && p < lo ==> p + ch[p].size <= lo)
    && (forall p {:trigger Abuts(mem', ch, ch', p)} ::
          p in ch && (p < lo || p >= hi) && !Tail(ch[p].kind) && lo <= p + ch[p].size < hi ==> Abuts(mem', ch, ch', p))
    && (forall q :: q in ch && lo <= q < hi && Coalesced(ch[q].kind) ==> q + ch[q].size < hi)
    && Inner(mem', ch', lo, hi)
  }

  lemma GraftOutside(mem: Mem, mem': Mem, ch: Tiling, ch': Tiling, lo: int, hi: int, p: int)
    requires Tiled(mem, ch) && Graft(mem, mem', ch, ch', lo, hi) && p in ch && (p < lo || p >= hi)
    ensures p in ch' && Tagged(mem', ch', p)
  {
    hide SizeOf, Cinuse, Pinuse, Inner;
    assert Tagged(mem, ch, p);
    if !Tail(ch[p].kind) {
      var n := p + ch[p].size;
      assert Tagged(mem, ch, n);
      if lo <= n < hi { assert Abuts(mem', ch, ch', p); }
    }
    if !Pinuse(HeadOf(mem, p)) && !ch[p].kind.Foot? {
      var q := p - Get(mem, p);
      assert Tagged(mem, ch, q);
    }
  }

  lemma GraftDisjoint(mem: Mem, mem': Mem, ch: Tiling, ch': Tiling, lo: int, hi: int)
    requires Tiled(mem, ch) && Graft(mem, mem', ch, ch', lo, hi)
    ensures Disjoint(ch')
  {
    forall p, q | p in ch' && q in ch' && p < q
      ensures p + ch'[p].size <= q
    {
      if lo <= p < hi {
        assert Tagged(mem', ch', p);
      } else if q < lo || q >= hi {
        Apart(ch, p, q);
        assert Tagged(mem, ch, q);
      }
    }
  }

  lemma GraftTiled(mem: Mem, mem': Mem, ch: Tiling, ch': Tiling, lo: int, hi: int)
    requires Tiled(mem, ch) && Graft(mem, mem', ch, ch', lo, hi)
    ensures Tiled(mem', ch')
  {
    GraftDisjoint(mem, mem', ch, ch', lo, hi);
    forall p | p in ch'
      ensures Tagged(mem', ch', p)
    {
      if p < lo || p >= hi {
        GraftOutside(mem, mem', ch, ch', lo, hi, p);
      } else {
        assert Tagged(mem', ch', p);
      }
    }
  }

  /** A region in which there was no chunk before. */
  lemma GraftEmpty(mem: Mem, mem': Mem, ch: Tiling, ch': Tiling, lo: int, hi: int)
    requires lo < hi && SameOutside(ch, ch', lo, hi) && TagsSame(mem, mem', ch, lo, hi) && Inner(mem', ch', lo, hi)
    requires forall p :: p in ch ==> p + ch[p].size <= lo || hi <= p
    requires forall p :: p in ch ==> ch[p].size > 0
    requires forall p :: p in ch && !Tail(ch[p].kind) ==> p + ch[p].size in ch
    ensures Graft(mem, mem', ch, ch', lo, hi)
  {
    hide Inner, TagsSame, Abuts;
    forall p | p in ch && !Tail(ch[p].kind)
      ensures p + ch[p].size < lo || hi <= p + ch[p].size
    {
      var n := p + ch[p].size;
      assert n in ch && ch[n].size > 0;
    }
  }

  // ---------------------------------------------------------------- a top chunk and its foot

  /** In `[lo, hi)` there are just a top chunk and its foot. */
  ghost predicate TopPair(ch': Tiling, lo: int, hi: int)
  {
    var foot := hi - TOP_FOOT;
    && lo in ch' && ch'[lo] == Ck(foot - lo, Top) && foot in ch' && ch'[foot] == Ck(TOP_FOOT, Foot)
    && (forall p :: p in ch' && lo <= p < hi ==> p == lo || p == foot)
  }

  /** The two heads that `init_top` writes. */
  ghost predicate TopHeads(mem': Mem, lo: int, hi: int)
  {
    HeadOf(mem', lo) == hi - TOP_FOOT - lo + PINUSE && HeadOf(mem', hi - TOP_FOOT) == TOP_FOOT
  }

  lemma TopTags(mem': Mem, lo: int, hi: int)
    requires TopHeads(mem', lo, hi) && lo % 16 == 0 && hi % 16 == 0
    ensures var foot := hi - TOP_FOOT;
            && SizeOf(HeadOf(mem', lo)) == foot - lo && !Cinuse(HeadOf(mem', lo)) && Pinuse(HeadOf(mem', lo))
            && SizeOf(HeadOf(mem', foot)) == TOP_FOOT && !Cinuse(HeadOf(mem', foot)) && !Pinuse(HeadOf(mem', foot))
            && foot % 16 == 0 && (foot - lo) % 16 == 0
  {
    hide SizeOf, Cinuse, Pinuse;
    var foot := hi - TOP_FOOT;
    FootAligned(lo, hi);
    Parts(foot - lo, false, true);
    Parts(TOP_FOOT, false, false);
  }

  lemma FootAligned(lo: int, hi: int)
    requires lo % 16 == 0 && hi % 16 == 0
    ensures (hi - TOP_FOOT) % 16 == 0 && (hi - TOP_FOOT - lo) % 16 == 0 && (hi - TOP_FOOT - lo) % 8 == 0
  {
    Mod16(hi, TOP_FOOT);
    Mod16(hi - TOP_FOOT, lo);
  }

  lemma TopInner(mem': Mem, ch': Tiling, lo: int, hi: int)
    requires TopPair(ch', lo, hi) && TopHeads(mem', lo, hi) && lo > 0 && lo % 16 == 0 && hi % 16 == 0
    requires 16 <= hi - TOP_FOOT - lo < WORD
    ensures Inner(mem', ch', lo, hi)
  {
    hide SizeOf, Cinuse, Pinuse, TopHeads;
    var foot := hi - TOP_FOOT;
    TopTags(mem', lo, hi);
    assert Tagged(mem', ch', lo);
    assert Tagged(mem', ch', foot);
  }

  // ---------------------------------------------------------------- where memory may change

  /** `rec` is the place of a segment record: in the allocator itself or in a chunk of its own. */
  ghost predicate RecAt(ch: Tiling, rec: int)
  {
    rec == SEG_HEAD || (rec - MEM_OFFSET in ch && ch[rec - MEM_OFFSET] == Ck(SEGMENT_CHUNK, Record))
  }

  /** Memory comes or goes only in `[lo, hi)`, and other words change only in one segment record. */
  ghost predicate LocalTo(mem: Mem, mem': Mem, lo: int, hi: int, rec: int)
  {
    && (forall a :: a < lo || a >= hi ==> (a in mem' <==> a in mem))
    && (forall a :: (a < lo || a >= hi) && !(rec <= a < rec + 32) ==> Get(mem', a) == Get(mem, a))
  }

  lemma RecordApart(mem: Mem, ch: Tiling, rec: int, at: int)
    requires Tiled(mem, ch) && RecAt(ch, rec) && RecAt(ch, at) && rec != at
    ensures rec + 32 <= at || at + 32 <= rec
  {
    if rec != SEG_HEAD { assert Tagged(mem, ch, rec - MEM_OFFSET); }
    if at != SEG_HEAD { assert Tagged(mem, ch, at - MEM_OFFSET); }
  }

  /** Tags are no record words. */
  lemma TagNotRecord(mem: Mem, ch: Tiling, rec: int, p: int)
    requires Tiled(mem, ch) && RecAt(ch, rec) && p in ch
    ensures !(rec <= p < rec + 32) && !(rec <= p + HEAD < rec + 32)
  {
    assert Tagged(mem, ch, p);
    if rec != SEG_HEAD && p != rec - MEM_OFFSET { Apart(ch, p, rec - MEM_OFFSET); }
  }

  lemma LocalTags(mem: Mem, mem': Mem, ch: Tiling, lo: int, hi: int, rec: int)
    requires Tiled(mem, ch) && LocalTo(mem, mem', lo, hi, rec) && RecAt(ch, rec)
    requires forall p :: p in ch && p < lo ==> p + ch[p].size <= lo
    ensures TagsSame(mem, mem', ch, lo, hi)
  {
    forall p | p in ch && (p < lo || p >= hi)
      ensures Get(mem', p) == Get(mem, p) && HeadOf(mem', p) == HeadOf(mem, p)
    {
      assert Tagged(mem, ch, p);
      TagNotRecord(mem, ch, rec, p);
    }
  }

  // ---------------------------------------------------------------- segments away from the change

  function NextAt(segs: seq<Seg>, i: int): int
    requires 0 <= i < |segs|
  {
    if i + 1 < |segs| then segs[i + 1].at else NULL
  }

  lemma SegRec(mem: Mem, ch: Tiling, segs: seq<Seg>, i: int)
    requires 0 <= i < |segs| && SegOk(mem, ch, segs, i)
    ensures RecAt(ch, segs[i].at)
  {
  }

  /** A segment that lies away from the change and whose record is not the one written. */
  lemma SegFar(mem: Mem, mem': Mem, ch: Tiling, ch': Tiling, segs: seq<Seg>, segs': seq<Seg>, i: int, i': int,
      lo: int, hi: int, rec: int)
    requires Tiled(mem, ch) && 0 <= i < |segs| && SegOk(mem, ch, segs, i) && lo > 0
    requires 0 <= i' < |segs'| && (i == 0 <==> i' == 0) && segs'[i'] == segs[i] && NextAt(segs', i') == NextAt(segs, i)
    requires End(segs[i]) <= lo || hi <= segs[i].base
    requires LocalTo(mem, mem', lo, hi, rec) && RecAt(ch, rec) && segs[i].at != rec && SameOutside(ch, ch', lo, hi)
    ensures SegOk(mem', ch', segs', i')
  {
    hide Pinuse;
    var s := segs[i];
    RecordApart(mem, ch, rec, s.at);
    TagNotRecord(mem, ch, rec, s.base);
    if i > 0 { SegSize(mem, ch, segs, i); }
  }

  /** Different segments have different records. */
  lemma AtApart(mem: Mem, ch: Tiling, segs: seq<Seg>, i: int, j: int)
    requires Tiled(mem, ch) && 0 <= i < |segs| && 0 <= j < |segs| && SegOk(mem, ch, segs, i)
    requires SegOk(mem, ch, segs, j) && i != j && SegsApart(segs)
    ensures segs[i].at != segs[j].at
  {
    if i > 0 { SegSize(mem, ch, segs, i); }
    if j > 0 { SegSize(mem, ch, segs, j); }
    SegPair(segs, i, j);
  }

  /** Words of the segment that a record write can reach stay addressable. */
  lemma SegSize(mem: Mem, ch: Tiling, segs: seq<Seg>, i: int)
    requires 0 < i < |segs| && SegOk(mem, ch, segs, i) && Tiled(mem, ch)
    ensures segs[i].base + 16 <= segs[i].at && segs[i].at + 64 <= End(segs[i])
  {
    assert Tagged(mem, ch, segs[i].at + 32);
  }

  /** Payloads are out of reach of a local change. */
  lemma LocalPayloads(mem: Mem, mem': Mem, ch: Tiling, lo: int, hi: int, rec: int)
    requires Tiled(mem, ch) && LocalTo(mem, mem', lo, hi, rec) && RecAt(ch, rec)
    requires forall p :: p in ch && ch[p].kind.Live? ==> p + ch[p].size + 8 <= lo || p >= hi
    ensures SamePayloads(mem, mem', Holdings(ch))
  {
    var hs := Holdings(ch);
    forall p, a | p in hs && p + MEM_OFFSET <= a < p + hs[p].size + 8
      ensures Get(mem', a) == Get(mem, a)
    {
      assert p in ch && ch[p].kind.Live?;
      assert Tagged(mem, ch, p);
      if rec != SEG_HEAD { Apart(ch, p, rec - MEM_OFFSET); }
    }
  }

  lemma LocalWider(mem: Mem, mem': Mem, lo: int, hi: int, rec: int, lo': int, hi': int)
    requires LocalTo(mem, mem', lo, hi, rec) && lo' <= lo && hi <= hi'
    ensures LocalTo(mem, mem', lo', hi', rec)
  {
  }

  // ---------------------------------------------------------------- a new end for the newest segment

  /** The chunks of `[lo, e)` replaced by a top chunk and a foot that ends at `hi`. */
  function TopOver(ch: Tiling, lo: int, hi: int, e: int): Tiling
  {
    Outer(ch, lo, e)[lo := Ck(hi - TOP_FOOT - lo, Top)][hi - TOP_FOOT := Ck(TOP_FOOT, Foot)]
  }

  function Max(a: int, b: int): int { if a < b then b else a }

  /** The newest segment now ends at `hi`, with nothing else between its top chunk and the old or the new end. */
  ghost predicate Retop(mem: Mem, mem': Mem, v: View, hi: int)
    requires |v.segs| > 0
  {
    var s, lo, e := v.segs[0], v.top, Max(hi, End(v.segs[0]));
    && hi % 16 == 0 && hi <= WORD && hi - TOP_FOOT - lo >= 16
    && (forall i :: 0 < i < |v.segs| ==> End(v.segs[i]) <= s.base || e <= v.segs[i].base)
    && (forall p :: p in v.ch && lo <= p < e ==> p == lo || p == lo + v.topsize)
    && LocalTo(mem, mem', lo + HEAD, e, SEG_HEAD) && TopHeads(mem', lo, hi)
    && (forall a :: lo <= a < hi && a % 8 == 0 ==> a in mem')
    && Get(mem', SEG_HEAD) == s.base && Get(mem', SEG_HEAD + SEG_SIZE) == hi - s.base
    && Get(mem', SEG_HEAD + SEG_NEXT) == Get(mem, SEG_HEAD + SEG_NEXT) && Get(mem', SEG_HEAD + SEG_FLAGS) == 0
  }

  function RetopView(v: View, hi: int): View
    requires |v.segs| > 0
  {
    v.(ch := TopOver(v.ch, v.top, hi, Max(hi, End(v.segs[0]))),
       segs := v.segs[0 := Seg(SEG_HEAD, v.segs[0].base, hi - v.segs[0].base)],
       topsize := hi - TOP_FOOT - v.top)
  }

  lemma RetopPair(v: View, hi: int)
    requires |v.segs| > 0 && hi - TOP_FOOT - v.top >= 16
    ensures var lo, e, ch' := v.top, Max(hi, End(v.segs[0])), RetopView(v, hi).ch;
            TopPair(ch', lo, hi) && SameOutside(v.ch, ch', lo, e) && (forall p :: p in ch' && hi <= p < e ==> false)
  {
  }

  /** What stands directly before the top chunk is in use. */
  lemma BeforeTop(mem: Mem, v: View, p: int)
    requires FramedView(mem, v) && p in v.ch && !Tail(v.ch[p].kind) && p + v.ch[p].size == v.top
    ensures v.ch[p].kind.Live?
  {
    hide SegsOk, Backed;
    assert Tagged(mem, v.ch, p);
    FreeAfterUsed(mem, v.ch, v.top);
  }

  lemma RetopAbuts(mem: Mem, mem': Mem, v: View, hi: int, p: int)
    requires FramedView(mem, v) && Retop(mem, mem', v, hi) && p in v.ch && !Tail(v.ch[p].kind)
    requires var e := Max(hi, End(v.segs[0])); (p < v.top || p >= e) && v.top <= p + v.ch[p].size < e
    ensures Abuts(mem', v.ch, RetopView(v, hi).ch, p)
  {
    hide SegsOk, Backed, TopHeads, SizeOf, Cinuse, Pinuse, VictimOk, TopOver, OneTop, LocalTo;
    RetopPair(v, hi);
    assert Tagged(mem, v.ch, p) && Tagged(mem, v.ch, v.top);
    if p < v.top { BelowTop(mem, v, p); }
    BeforeTop(mem, v, p);
    TopTags(mem', v.top, hi);
  }

  lemma RetopInner(mem: Mem, mem': Mem, v: View, hi: int)
    requires FramedView(mem, v) && Retop(mem, mem', v, hi)
    ensures Inner(mem', RetopView(v, hi).ch, v.top, Max(hi, End(v.segs[0])))
    ensures TagsSame(mem, mem', v.ch, v.top, Max(hi, End(v.segs[0])))
    ensures forall p :: p in v.ch && p < v.top ==> p + v.ch[p].size <= v.top
  {
    hide SegsOk, Backed, TopHeads, SizeOf, Cinuse, Pinuse, VictimOk, TopOver, OneTop, LocalTo, TagsSame;
    var lo, e, ch' := v.top, Max(hi, End(v.segs[0])), RetopView(v, hi).ch;
    RetopPair(v, hi);
    assert Tagged(mem, v.ch, lo);
    TopInner(mem', ch', lo, hi);
    LocalWider(mem, mem', lo + HEAD, e, SEG_HEAD, lo, e);
    LocalTags(mem, mem', v.ch, lo, e, SEG_HEAD);
  }

  lemma RetopGraft(mem: Mem, mem': Mem, v: View, hi: int)
    requires FramedView(mem, v) && Retop(mem, mem', v, hi)
    ensures Graft(mem, mem', v.ch, RetopView(v, hi).ch, v.top, Max(hi, End(v.segs[0])))
  {
    hide SegsOk, Backed, Tiled, TopHeads, VictimOk, TopOver, OneTop, LocalTo, Inner, TagsSame, Abuts, RecordWords;
    var lo, e, ch' := v.top, Max(hi, End(v.segs[0])), RetopView(v, hi).ch;
    RetopPair(v, hi);
    RetopInner(mem, mem', v, hi);
    forall p | p in v.ch && (p < lo || p >= e) && !Tail(v.ch[p].kind) && lo <= p + v.ch[p].size < e
      ensures Abuts(mem', v.ch, ch', p)
    {
      RetopAbuts(mem, mem', v, hi, p);
    }
  }

  lemma RetopBacked(mem: Mem, mem': Mem, v: View, hi: int)
    requires FramedView(mem, v) && Retop(mem, mem', v, hi)
    ensures Backed(mem', RetopView(v, hi).ch)
  {
    hide SegsOk, TopHeads, VictimOk, TopOver, OneTop;
    var lo, e, ch' := v.top, Max(hi, End(v.segs[0])), RetopView(v, hi).ch;
    RetopPair(v, hi);
    forall p, a | p in ch' && p <= a < p + ch'[p].size && a % 8 == 0
      ensures a in mem'
    {
      if p < lo || p >= e {
        assert a in mem;
        if p < lo { Apart(v.ch, p, lo); }
      }
    }
  }

  lemma RetopHeld(mem: Mem, mem': Mem, v: View, hi: int, p: int)
    requires FramedView(mem, v) && Retop(mem, mem', v, hi) && p in RetopView(v, hi).ch
    ensures Held(RetopView(v, hi).segs, p, RetopView(v, hi).ch[p])
  {
    hide TopHeads, VictimOk, TopOver, OneTop, SegOk, LocalTo, Backed, RecordWords, SizeOf, Cinuse, Pinuse, Disjoint;
    var lo, e, v' := v.top, Max(hi, End(v.segs[0])), RetopView(v, hi);
    RetopPair(v, hi);
    assert Tagged(mem, v.ch, lo);
    if p < lo || p >= e {
      assert Tagged(mem, v.ch, p);
      assert Held(v.segs, p, v.ch[p]);
      var j :| 0 <= j < |v.segs| && Holds(v.segs[j], p, v.ch[p]);
      if p < lo { BelowTop(mem, v, p); }
      assert Holds(v'.segs[j], p, v'.ch[p]);
    } else {
      assert Holds(v'.segs[0], p, v'.ch[p]);
    }
  }

  lemma BelowTop(mem: Mem, v: View, p: int)
    requires FramedView(mem, v) && p in v.ch && p < v.top
    ensures p + v.ch[p].size <= v.top
  {
    Apart(v.ch, p, v.top);
    assert Tagged(mem, v.ch, v.top);
  }

  lemma RetopSegs(mem: Mem, mem': Mem, v: View, hi: int)
    requires FramedView(mem, v) && Retop(mem, mem', v, hi)
    ensures SegsOk(mem', RetopView(v, hi).ch, RetopView(v, hi).segs)
  {
    hide TopHeads, VictimOk, OneTop, Held, Backed, Pinuse, SegOk, Tagged;
    var v' := RetopView(v, hi);
    forall p | p in v'.ch
      ensures Held(v'.segs, p, v'.ch[p])
    {
      RetopHeld(mem, mem', v, hi, p);
    }
    forall i | 0 <= i < |v'.segs|
      ensures SegOk(mem', v'.ch, v'.segs, i)
    {
      RetopSeg(mem, mem', v, hi, i);
    }
    RetopApart(v, hi, mem, mem');
  }

  lemma RetopApart(v: View, hi: int, mem: Mem, mem': Mem)
    requires FramedView(mem, v) && Retop(mem, mem', v, hi)
    ensures SegsApart(RetopView(v, hi).segs) && RecordWords(mem')
  {
    hide TopHeads, VictimOk, TopOver, OneTop, Held, Backed, SegOk, SizeOf, Pinuse, Cinuse;
    assert Tagged(mem, v.ch, v.top);
  }

  lemma RetopSeg(mem: Mem, mem': Mem, v: View, hi: int, i: int)
    requires FramedView(mem, v) && Retop(mem, mem', v, hi) && 0 <= i < |v.segs|
    ensures SegOk(mem', RetopView(v, hi).ch, RetopView(v, hi).segs, i)
  {
    hide TopHeads, VictimOk, TopOver, OneTop, Held, Backed, Pinuse, SizeOf, Cinuse, LocalTo, SameOutside;
    var lo, e, v' := v.top, Max(hi, End(v.segs[0])), RetopView(v, hi);
    assert SegOk(mem, v.ch, v.segs, i);
    RetopPair(v, hi);
    if i > 0 {
      LocalWider(mem, mem', lo + HEAD, e, SEG_HEAD, lo, e);
      SegSize(mem, v.ch, v.segs, i);
      assert Tagged(mem, v.ch, lo) && Tagged(mem, v.ch, v.segs[i].base);
      SegFar(mem, mem', v.ch, v'.ch, v.segs, v'.segs, i, i, lo, e, SEG_HEAD);
    } else {
      RetopHead(mem, mem', v, hi);
    }
  }

  lemma RetopBase(mem: Mem, mem': Mem, v: View, hi: int)
    requires FramedView(mem, v) && Retop(mem, mem', v, hi) && SegOk(mem, v.ch, v.segs, 0)
    ensures v.segs[0].base in RetopView(v, hi).ch && Pinuse(HeadOf(mem', v.segs[0].base))
    ensures (hi - v.segs[0].base) % 16 == 0
  {
    hide TopHeads, VictimOk, TopOver, OneTop, SegsOk, Backed, Pinuse, SizeOf, Cinuse;
    var lo, base := v.top, v.segs[0].base;
    assert Tagged(mem, v.ch, lo);
    RetopPair(v, hi);
    TopTags(mem', lo, hi);
    Mod16(hi, base);
    if base != lo { BelowTop(mem, v, base); assert Tagged(mem, v.ch, base); }
  }

  lemma RetopWords(mem: Mem, mem': Mem, v: View, hi: int)
    requires FramedView(mem, v) && Retop(mem, mem', v, hi) && SegOk(mem, v.ch, v.segs, 0)
    ensures forall a :: v.segs[0].base <= a < hi && a % 8 == 0 ==> a in mem'
  {
    hide TopHeads, VictimOk, TopOver, OneTop, SegsOk, Backed, SizeOf, Cinuse, Pinuse;
    assert Tagged(mem, v.ch, v.top);
    forall a | v.segs[0].base <= a < hi && a % 8 == 0
      ensures a in mem'
    {
      if a < v.top { assert a in mem; }
    }
  }

  lemma RetopHead(mem: Mem, mem': Mem, v: View, hi: int)
    requires FramedView(mem, v) && Retop(mem, mem', v, hi)
    ensures SegOk(mem', RetopView(v, hi).ch, RetopView(v, hi).segs, 0)
  {
    hide TopHeads, VictimOk, TopOver, OneTop, Held, Backed, Pinuse, Tiled, LocalTo, SegsApart;
    assert SegOk(mem, v.ch, v.segs, 0);
    RetopBase(mem, mem', v, hi);
    RetopWords(mem, mem', v, hi);
  }

  lemma RetopRoles(mem: Mem, mem': Mem, bins: map<int, int>, v: View, hi: int)
    requires Sound(mem, bins, v) && Retop(mem, mem', v, hi)
    ensures var v' := RetopView(v, hi);
            && TopOk(v'.ch, v'.segs, v'.top, v'.topsize) && OneTop(v'.ch, v'.top)
            && VictimOk(v'.ch, v'.dv, v'.dvsize) && Binned(v'.ch, bins)
    ensures Holdings(RetopView(v, hi).ch) == Holdings(v.ch)
  {
    hide Tiled, TopHeads, TopOver, SegsOk, Backed, LocalTo;
    var lo, e, v' := v.top, Max(hi, End(v.segs[0])), RetopView(v, hi);
    RetopPair(v, hi);
    var hs, hs' := Holdings(v.ch), Holdings(v'.ch);
    forall p
      ensures p in hs <==> p in hs'
      ensures p in hs ==> hs[p] == hs'[p]
    {
    }
  }

  /** Moving the end of the newest segment keeps the heap sound and every payload in place. */
  lemma RetopSound(mem: Mem, mem': Mem, bins: map<int, int>, v: View, hi: int)
    requires |v.segs| > 0 && Sound(mem, bins, v) && Retop(mem, mem', v, hi)
    ensures Sound(mem', bins, RetopView(v, hi))
    ensures Holdings(RetopView(v, hi).ch) == Holdings(v.ch) && SamePayloads(mem, mem', Holdings(v.ch))
  {
    hide Tiled, Backed, SegsOk, VictimOk, TopOk, OneTop, Binned, Retop, RetopView, SamePayloads, Holdings;
    RetopGraft(mem, mem', v, hi);
    GraftTiled(mem, mem', v.ch, RetopView(v, hi).ch, v.top, Max(hi, End(v.segs[0])));
    RetopBacked(mem, mem', v, hi);
    RetopSegs(mem, mem', v, hi);
    RetopRoles(mem, mem', bins, v, hi);
    RetopPayloads(mem, mem', v, hi);
  }

  lemma RetopPayloads(mem: Mem, mem': Mem, v: View, hi: int)
    requires FramedView(mem, v) && Retop(mem, mem', v, hi)
    ensures SamePayloads(mem, mem', Holdings(v.ch))
  {
    hide SegsOk, Backed, SamePayloads, TopHeads;
    var lo, e := v.top, Max(hi, End(v.segs[0]));
    forall p | p in v.ch && v.ch[p].kind.Live?
      ensures p + v.ch[p].size + 8 <= lo + HEAD || p >= e
    {
      if p < lo { BelowTop(mem, v, p); }
    }
    LocalPayloads(mem, mem', v.ch, lo + HEAD, e, SEG_HEAD);
  }
}
