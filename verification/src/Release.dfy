/** Giving a whole segment back to the system. */
module Releases {
  import opened Sizes
  import opened Rings
  import opened Heads
  import opened Tries
  import opened Stores
  import opened Tags
  import opened Heaps
  import opened Retags
  import opened HeapOps
  import opened Coalescing
  import opened Regions
  import opened Growth

  /** A free first chunk that reaches the closing 80 bytes of an older segment fills it up to the record. */
  lemma WholeSegment(mem: Mem, v: View, i: int)
    requires FramedView(mem, v) && 0 < i < |v.segs| && v.segs[i].base in v.ch && Coalesced(v.ch[v.segs[i].base].kind)
    requires v.segs[i].base + v.ch[v.segs[i].base].size >= End(v.segs[i]) - TOP_FOOT
    ensures Filled(v.ch, v.segs[i])
  {
    hide VictimOk, Backed, Held, SizeOf, Cinuse, Pinuse;
    var s := v.segs[i];
    assert SegOk(mem, v.ch, v.segs, i);
    assert Tagged(mem, v.ch, s.at + 32) && Tagged(mem, v.ch, s.base);
    Apart(v.ch, s.base, s.at - MEM_OFFSET);
    StretchAlone(mem, v.ch, s.base);
    StretchAlone(mem, v.ch, s.at - MEM_OFFSET);
    StretchAlone(mem, v.ch, s.at + 32);
  }

  /** The segment holds just a free chunk, its record and its fenceposts. */
  ghost predicate Filled(ch: Tiling, s: Seg)
  {
    && s.base in ch && Coalesced(ch[s.base].kind) && s.base + ch[s.base].size == s.at - MEM_OFFSET < End(s)
    && Recorded(ch, s)
    && (forall p :: p in ch && s.base <= p < End(s) ==> p == s.base || p == s.at - MEM_OFFSET || p == s.at + 32)
  }

  /** A free first chunk reaches the closing 80 bytes of the segment. */
  ghost predicate Releasable(ch: Tiling, s: Seg)
  {
    s.base in ch && Coalesced(ch[s.base].kind) && s.base + ch[s.base].size >= End(s) - TOP_FOOT
  }

  ghost predicate NoneReleasable(ch: Tiling, segs: seq<Seg>, n: int)
  {
    forall k :: 0 < k < n && k < |segs| ==> !Releasable(ch, segs[k])
  }

  /** Nothing but what lies in the segment has changed. */
  ghost predicate SameElsewhere(ch: Tiling, ch': Tiling, s: Seg)
  {
    forall p :: p < s.base || p >= End(s) ==> (p in ch' <==> p in ch) && (p in ch ==> ch'[p] == ch[p])
  }

  /** A change inside one segment leaves the others as releasable as they were. */
  lemma OthersSame(mem: Mem, v: View, ch': Tiling, i: int)
    requires FramedView(mem, v) && 0 <= i < |v.segs| && SameElsewhere(v.ch, ch', v.segs[i])
    ensures forall k :: 0 <= k < |v.segs| && k != i ==> Releasable(ch', v.segs[k]) == Releasable(v.ch, v.segs[k])
  {
    hide VictimOk, SegOk, Backed, Tiled, Held;
    forall k | 0 <= k < |v.segs| && k != i
      ensures Releasable(ch', v.segs[k]) == Releasable(v.ch, v.segs[k])
    {
      SegOfView(mem, v, k);
      SegPair(v.segs, i, k);
    }
  }

  lemma OuterElsewhere(ch: Tiling, s: Seg)
    ensures SameElsewhere(ch, Outer(ch, s.base, End(s)), s)
  {
  }

  ghost predicate Dropped(mem: Mem, mem': Mem, v: View, i: int)
    requires 0 < i < |v.segs|
  {
    var s, rec := v.segs[i], v.segs[i - 1].at;
    && Filled(v.ch, s) && v.ch[s.base].kind.Free? && LocalTo(mem, mem', s.base, End(s), rec)
    && Get(mem', rec) == Get(mem, rec) && Get(mem', rec + SEG_SIZE) == Get(mem, rec + SEG_SIZE)
    && Get(mem', rec + SEG_NEXT) == NextAt(v.segs, i) && Get(mem', rec + SEG_FLAGS) == Get(mem, rec + SEG_FLAGS)
  }

  function DroppedView(v: View, i: int): View
    requires 0 < i < |v.segs|
  {
    v.(ch := Outer(v.ch, v.segs[i].base, End(v.segs[i])), segs := v.segs[..i] + v.segs[i + 1..])
  }

  /** Chunks of other segments neither lie in this one nor lead into it. */
  lemma OtherChunks(mem: Mem, v: View, i: int, p: int)
    requires FramedView(mem, v) && 0 <= i < |v.segs| && p in v.ch && (p < v.segs[i].base || p >= End(v.segs[i]))
    ensures p < v.segs[i].base ==> p + v.ch[p].size <= v.segs[i].base
    ensures !Tail(v.ch[p].kind) ==> p + v.ch[p].size < v.segs[i].base || p + v.ch[p].size >= End(v.segs[i])
  {
    hide VictimOk, Backed, SizeOf, Cinuse, Pinuse;
    assert SegOk(mem, v.ch, v.segs, i) && Tagged(mem, v.ch, p);
    assert Held(v.segs, p, v.ch[p]);
    var k :| 0 <= k < |v.segs| && Holds(v.segs[k], p, v.ch[p]);
    SegPair(v.segs, i, k);
  }

  lemma DroppedOuter(mem': Mem, v: View, i: int)
    requires 0 < i < |v.segs| && Filled(v.ch, v.segs[i])
    ensures var s, ch' := v.segs[i], DroppedView(v, i).ch;
            && SameOutside(v.ch, ch', s.base, End(s)) && Inner(mem', ch', s.base, End(s))
            && (forall q :: q in v.ch && s.base <= q < End(s) && Coalesced(v.ch[q].kind) ==> q + v.ch[q].size < End(s))
  {
  }

  lemma DroppedGraft(mem: Mem, mem': Mem, v: View, i: int)
    requires FramedView(mem, v) && 0 < i < |v.segs| && Dropped(mem, mem', v, i)
    ensures Graft(mem, mem', v.ch, DroppedView(v, i).ch, v.segs[i].base, End(v.segs[i]))
  {
    hide VictimOk, Backed, LocalTo, SegsOk, Tiled, TagsSame, Filled, DroppedView, SameOutside, Inner, TopOk, OneTop;
    hide SegOk, RecAt;
    var s := v.segs[i];
    SegOfView(mem, v, i);
    SegOfView(mem, v, i - 1);
    DroppedOuter(mem', v, i);
    forall p | p in v.ch && (p < s.base || p >= End(s))
      ensures p < s.base ==> p + v.ch[p].size <= s.base
      ensures !Tail(v.ch[p].kind) ==> p + v.ch[p].size < s.base || p + v.ch[p].size >= End(s)
    {
      OtherChunks(mem, v, i, p);
    }
    SegRec(mem, v.ch, v.segs, i - 1);
    LocalTags(mem, mem', v.ch, s.base, End(s), v.segs[i - 1].at);
  }

  lemma SegOfView(mem: Mem, v: View, i: int)
    requires FramedView(mem, v) && 0 <= i < |v.segs|
    ensures SegOk(mem, v.ch, v.segs, i) && v.segs[i].base > 0 && v.segs[i].size > 0
  {
  }

  lemma DroppedBacked(mem: Mem, mem': Mem, v: View, i: int)
    requires FramedView(mem, v) && 0 < i < |v.segs| && Dropped(mem, mem', v, i)
    ensures Backed(mem', DroppedView(v, i).ch)
  {
    hide VictimOk, SegsOk, Tiled, Filled;
    var s, ch' := v.segs[i], DroppedView(v, i).ch;
    forall p, a | p in ch' && p <= a < p + ch'[p].size && a % 8 == 0
      ensures a in mem'
    {
      assert p in v.ch && a in mem;
      OtherChunks(mem, v, i, p);
    }
  }

  /** Index of segment `k` after segment `i` is gone. */
  function Shifted(i: int, k: int): int { if k < i then k else k - 1 }

  lemma DroppedSeqs(v: View, i: int, k: int)
    requires 0 < i < |v.segs| && 0 <= k < |v.segs| && k != i
    ensures var segs' := DroppedView(v, i).segs;
            && |segs'| == |v.segs| - 1 && 0 <= Shifted(i, k) < |segs'| && segs'[Shifted(i, k)] == v.segs[k]
            && NextAt(segs', Shifted(i, k)) == (if k == i - 1 then NextAt(v.segs, i) else NextAt(v.segs, k))
  {
  }

  lemma DroppedHeld(mem: Mem, v: View, i: int, p: int)
    requires FramedView(mem, v) && 0 < i < |v.segs| && p in DroppedView(v, i).ch
    ensures Held(DroppedView(v, i).segs, p, DroppedView(v, i).ch[p])
  {
    hide VictimOk, Backed, Tiled, SegOk;
    var v' := DroppedView(v, i);
    SegOfView(mem, v, i);
    SizesOf(mem, v, p);
    assert Held(v.segs, p, v.ch[p]);
    var k :| 0 <= k < |v.segs| && Holds(v.segs[k], p, v.ch[p]);
    DroppedSeqs(v, i, k);
    assert Holds(v'.segs[Shifted(i, k)], p, v'.ch[p]);
  }

  lemma SizesOf(mem: Mem, v: View, p: int)
    requires FramedView(mem, v) && p in v.ch
    ensures v.ch[p].size > 0
  {
    assert Tagged(mem, v.ch, p);
  }

  lemma DroppedOther(mem: Mem, mem': Mem, v: View, i: int, k: int)
    requires FramedView(mem, v) && 0 < i < |v.segs| && Dropped(mem, mem', v, i) && 0 <= k < |v.segs| && k != i
    ensures 0 <= Shifted(i, k) < |DroppedView(v, i).segs|
    ensures SegOk(mem', DroppedView(v, i).ch, DroppedView(v, i).segs, Shifted(i, k))
  {
    hide VictimOk, Backed, SegOk, LocalTo, Filled, Tagged, Held;
    var s, rec := v.segs[i], v.segs[i - 1].at;
    SegOfView(mem, v, i);
    SegOfView(mem, v, k);
    SegOfView(mem, v, i - 1);
    SegRec(mem, v.ch, v.segs, i - 1);
    SegPair(v.segs, i, k);
    DroppedSeqs(v, i, k);
    if k == i - 1 {
      DroppedPred(mem, mem', v, i);
    } else {
      AtApart(mem, v.ch, v.segs, k, i - 1);
      SegFar(mem, mem', v.ch, DroppedView(v, i).ch, v.segs, DroppedView(v, i).segs, k, Shifted(i, k), s.base, End(s),
          rec);
    }
  }

  /** A segment away from the change whose own record is the one written. */
  lemma SegRelinked(mem: Mem, mem': Mem, ch: Tiling, ch': Tiling, segs: seq<Seg>, segs': seq<Seg>, k: int, lo: int,
      hi: int)
    requires Tiled(mem, ch) && 0 <= k < |segs| && SegOk(mem, ch, segs, k) && 0 < lo <= hi
    requires 0 <= k < |segs'| && segs'[k] == segs[k] && (End(segs[k]) <= lo || hi <= segs[k].base)
    requires LocalTo(mem, mem', lo, hi, segs[k].at) && SameOutside(ch, ch', lo, hi)
    requires var rec := segs[k].at;
             && Get(mem', rec) == Get(mem, rec) && Get(mem', rec + SEG_SIZE) == Get(mem, rec + SEG_SIZE)
             && Get(mem', rec + SEG_NEXT) == NextAt(segs', k) && Get(mem', rec + SEG_FLAGS) == Get(mem, rec + SEG_FLAGS)
    ensures SegOk(mem', ch', segs', k)
  {
    hide Pinuse;
    var t := segs[k];
    SegRec(mem, ch, segs, k);
    TagNotRecord(mem, ch, t.at, t.base);
    if k > 0 { SegSize(mem, ch, segs, k); }
  }

  /** The segment whose record led to the dropped one. */
  lemma DroppedPred(mem: Mem, mem': Mem, v: View, i: int)
    requires FramedView(mem, v) && 0 < i < |v.segs| && Dropped(mem, mem', v, i)
    ensures SegOk(mem', DroppedView(v, i).ch, DroppedView(v, i).segs, i - 1)
  {
    hide VictimOk, Backed, Filled, SegOk, LocalTo, SameOutside, Held, Tiled, Inner;
    SegOfView(mem, v, i);
    SegOfView(mem, v, i - 1);
    SegPair(v.segs, i, i - 1);
    DroppedSeqs(v, i, i - 1);
    DroppedOuter(mem', v, i);
    SegRelinked(mem, mem', v.ch, DroppedView(v, i).ch, v.segs, DroppedView(v, i).segs, i - 1, v.segs[i].base,
        End(v.segs[i]));
  }

  lemma DroppedSegs(mem: Mem, mem': Mem, v: View, i: int)
    requires FramedView(mem, v) && 0 < i < |v.segs| && Dropped(mem, mem', v, i)
    ensures SegsOk(mem', DroppedView(v, i).ch, DroppedView(v, i).segs)
  {
    hide VictimOk, Backed, SegOk, LocalTo, Filled, Tagged, Held, SegsApart, RecordWords, Tiled, Dropped;
    var v' := DroppedView(v, i);
    forall k | 0 <= k < |v'.segs|
      ensures SegOk(mem', v'.ch, v'.segs, k)
    {
      DroppedOther(mem, mem', v, i, if k < i then k else k + 1);
    }
    forall p | p in v'.ch
      ensures Held(v'.segs, p, v'.ch[p])
    {
      DroppedHeld(mem, v, i, p);
    }
    DroppedApart(mem, mem', v, i);
  }

  lemma DroppedApart(mem: Mem, mem': Mem, v: View, i: int)
    requires FramedView(mem, v) && 0 < i < |v.segs| && Dropped(mem, mem', v, i)
    ensures SegsApart(DroppedView(v, i).segs) && RecordWords(mem')
  {
    hide VictimOk, Backed, Filled, Tagged, Held, SegOk;
    SegOfView(mem, v, i);
  }

  lemma DroppedRoles(mem: Mem, mem': Mem, bins: map<int, int>, v: View, i: int)
    requires 0 < i < |v.segs| && Unsettled(mem, bins, v, v.segs[i].base) && Dropped(mem, mem', v, i)
    ensures var v' := DroppedView(v, i);
            && TopOk(v'.ch, v'.segs, v'.top, v'.topsize) && OneTop(v'.ch, v'.top)
            && VictimOk(v'.ch, v'.dv, v'.dvsize) && Binned(v'.ch, bins)
    ensures Holdings(DroppedView(v, i).ch) == Holdings(v.ch)
  {
    hide LocalTo, SegsOk, Tiled, Backed;
    var hs, hs' := Holdings(v.ch), Holdings(DroppedView(v, i).ch);
    forall p
      ensures p in hs <==> p in hs'
      ensures p in hs ==> hs[p] == hs'[p]
    {
    }
  }

  /** Dropping a filled segment keeps the heap sound and every payload in place. */
  lemma DroppedSound(mem: Mem, mem': Mem, bins: map<int, int>, v: View, i: int)
    requires 0 < i < |v.segs| && Unsettled(mem, bins, v, v.segs[i].base) && Dropped(mem, mem', v, i)
    ensures Sound(mem', bins, DroppedView(v, i))
    ensures Holdings(DroppedView(v, i).ch) == Holdings(v.ch) && SamePayloads(mem, mem', Holdings(v.ch))
  {
    hide Tiled, Backed, SegsOk, VictimOk, TopOk, OneTop, Binned, BinsIn, Dropped, SamePayloads, Holdings, Graft, Outer;
    DroppedGraft(mem, mem', v, i);
    GraftTiled(mem, mem', v.ch, DroppedView(v, i).ch, v.segs[i].base, End(v.segs[i]));
    DroppedBacked(mem, mem', v, i);
    DroppedSegs(mem, mem', v, i);
    DroppedRoles(mem, mem', bins, v, i);
    DroppedPayloads(mem, mem', v, i);
  }

  lemma DroppedPayloads(mem: Mem, mem': Mem, v: View, i: int)
    requires FramedView(mem, v) && 0 < i < |v.segs| && Dropped(mem, mem', v, i)
    ensures SamePayloads(mem, mem', Holdings(v.ch))
  {
    hide Backed, SegsOk, VictimOk, SamePayloads, LocalTo, Holdings, Tiled;
    var s := v.segs[i];
    SegOfView(mem, v, i - 1);
    SegRec(mem, v.ch, v.segs, i - 1);
    forall p | p in v.ch && v.ch[p].kind.Live?
      ensures p + v.ch[p].size + 8 <= s.base || p >= End(s)
    {
      OtherChunks(mem, v, i, p);
      UsedNext(mem, v.ch, p);
      if p < s.base { OtherChunks(mem, v, i, p + v.ch[p].size); }
    }
    LocalPayloads(mem, mem', v.ch, s.base, End(s), v.segs[i - 1].at);
  }

  // ---------------------------------------------------------------- before the release

  /** A binned chunk just unlinked is free and in no bin. */
  lemma UnlinkUnsettled(mem: Mem, mem': Mem, bins: map<int, int>, v: View, p: int)
    requires Sound(mem, bins, v) && p in bins && OnlyLinks(mem, mem', bins)
    ensures Unsettled(mem', bins - {p}, v, p)
  {
    hide FramedView, OnlyLinks;
    LinksFramed(mem, mem', bins, v);
  }

  /** Without its title the victim is a free chunk that is in no bin. */
  lemma RetireVictim(mem: Mem, bins: map<int, int>, v: View)
    requires Sound(mem, bins, v) && v.dv != NULL && v.dv in v.ch
    ensures Unsettled(mem, bins, v.(ch := v.ch[v.dv := Ck(v.ch[v.dv].size, Free)], dv := NULL, dvsize := 0), v.dv)
    ensures Holdings(v.ch[v.dv := Ck(v.ch[v.dv].size, Free)]) == Holdings(v.ch)
  {
    hide Tiled, SegsOk, Backed;
    var ch' := v.ch[v.dv := Ck(v.ch[v.dv].size, Free)];
    assert SameButVictim(v.ch, ch');
    SwapTiled(mem, v.ch, ch');
    SwapSegs(mem, v.ch, ch', v.segs);
    SwapHoldings(mem, v.ch, ch');
  }
}
