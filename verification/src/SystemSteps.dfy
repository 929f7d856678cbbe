/** What the system may answer, and what its answers mean for the heap. */
module SystemSteps {
  import opened Sizes
  import opened Rings
  import opened Heads
  import opened Tries
  import opened Stores
  import opened Tags
  import opened Heaps
  import opened Retags
  import opened HeapOps
  import opened Coalescing
  import opened Regions
  import opened Growth
  import opened NewSegments
  import opened Releases

  const PAGE: int := 4096

  /** The answer to a request for memory: a refusal, or a region and what its words hold. Flags are always zero. */
  datatype Grant = Refused | Region(base: int, size: int, fill: Mem)

  /** Regions are page-aligned, at least as large as asked for, and none of their words was addressable before. */
  ghost predicate GrantOk(g: Grant, mem: Mem, asize: int)
  {
    g.Region? ==>
      && g.base > 0 && g.base % PAGE == 0 && g.size % PAGE == 0 && g.size >= asize && g.base + g.size < WORD
      && (forall a :: a in g.fill ==> g.base <= a < g.base + g.size && a % 8 == 0)
      && (forall a :: g.base <= a < g.base + g.size ==> a !in mem && (a % 8 == 0 ==> a in g.fill))
  }

  /** The system as an oracle: what it says to its `k`-th question. It may change its mind from one question to the
      next. `alloc` is asked for bytes when `mem` is addressable, `takes` for a region to be given back, `takesPart` for
      the part of a region beyond a new size. */
  datatype Answers = Answers(
    alloc: (nat, Mem, int) -> Grant,
    canRelease: nat -> bool,
    takes: (nat, int, int) -> bool,
    takesPart: (nat, int, int, int) -> bool)

  ghost predicate Honest(sys: Answers) { forall k, mem, asize :: GrantOk(sys.alloc(k, mem, asize), mem, asize) }

  type System = sys: Answers | Honest(sys)
    witness Answers((k, mem, asize) => Refused, k => false, (k, base, size) => false, (k, base, size, newsize) => false)

  /** What `sys_alloc` asks the system for. */
  function AskSize(nb: nat): nat { AlignUp(nb + TOP_FOOT + ALIGN, GRANULARITY) }

  // ---------------------------------------------------------------- what is given back

  /** The system takes everything back. */
  ghost predicate Obliging(sys: Answers)
  {
    && (forall k :: sys.canRelease(k))
    && (forall k, base, size :: sys.takes(k, base, size))
    && (forall k, base, size, newsize :: sys.takesPart(k, base, size, newsize))
  }

  /** The segment goes, if the next question is the `k`-th. */
  ghost predicate Goes(sys: Answers, ch: Tiling, s: Seg, k: nat)
  {
    sys.canRelease(k) && Releasable(ch, s) && sys.takes(k + 1, s.base, s.size)
  }

  /** The questions that take. */
  ghost function Questions(sys: Answers, ch: Tiling, s: Seg, k: nat): nat
  {
    if sys.canRelease(k) && Releasable(ch, s) then 2 else 1
  }

  /** The segments that stay when each in turn is offered to the system. */
  ghost function Survivors(sys: Answers, ch: Tiling, segs: seq<Seg>, k: nat): seq<Seg>
  {
    if segs == [] then []
    else (if Goes(sys, ch, segs[0], k) then [] else [segs[0]])
         + Survivors(sys, ch, segs[1..], k + Questions(sys, ch, segs[0], k))
  }

  /** Offers depend on a tiling only by which segments it makes releasable. */
  lemma {:induction false} SurvivorsSame(sys: Answers, ch: Tiling, ch': Tiling, segs: seq<Seg>, k: nat)
    requires forall i :: 0 <= i < |segs| ==> Releasable(ch', segs[i]) == Releasable(ch, segs[i])
    ensures Survivors(sys, ch', segs, k) == Survivors(sys, ch, segs, k)
  {
    hide Releasable;
    if segs != [] { SurvivorsSame(sys, ch, ch', segs[1..], k + Questions(sys, ch, segs[0], k)); }
  }

  /** What the offer of the newest older segment leaves to do. */
  lemma SurvivorsNext(sys: Answers, ch: Tiling, ch': Tiling, segs: seq<Seg>, i: int, k: nat)
    requires 0 < i < |segs|
    requires forall j :: i < j < |segs| ==> Releasable(ch', segs[j]) == Releasable(ch, segs[j])
    ensures segs[..i] + Survivors(sys, ch, segs[i..], k)
         == segs[..i] + (if Goes(sys, ch, segs[i], k) then [] else [segs[i]])
            + Survivors(sys, ch', segs[i + 1..], k + Questions(sys, ch, segs[i], k))
  {
    hide Releasable, Goes, Questions;
    assert segs[i..][1..] == segs[i + 1..];
    SurvivorsSame(sys, ch, ch', segs[i + 1..], k + Questions(sys, ch, segs[i], k));
  }

  /** The top chunk's surplus goes, if the next question is the `k`-th. */
  ghost predicate Trims(sys: Answers, s: Seg, extra: int, k: nat)
  {
    sys.canRelease(k) && sys.takesPart(k + 1, s.base, s.size, s.size - extra)
  }

  /** All segments are whole pages. */
  ghost predicate Paged(segs: seq<Seg>)
  {
    forall i :: 0 <= i < |segs| ==> segs[i].size % PAGE == 0
  }

  /** The memory held from the system. */
  ghost function Total(segs: seq<Seg>): int
  {
    if segs == [] then 0 else segs[0].size + Total(segs[1..])
  }

  lemma PageAligned(a: int)
    requires a % PAGE == 0
    ensures a % 16 == 0 && a % 8 == 0
  {
    var k := a / PAGE;
    assert a == PAGE * k;
    Times(a, 16, 256 * k);
    Times(a, 8, 512 * k);
  }

  lemma {:induction false} TotalUpdate(segs: seq<Seg>, j: int, s: Seg)
    requires 0 <= j < |segs|
    ensures Total(segs[j := s]) == Total(segs) - segs[j].size + s.size
  {
    if j == 0 {
      assert segs[j := s][1..] == segs[1..];
    } else {
      TotalUpdate(segs[1..], j - 1, s);
      assert segs[j := s][1..] == segs[1..][j - 1 := s];
    }
  }

  lemma {:induction false} TotalDrop(segs: seq<Seg>, j: int)
    requires 0 <= j < |segs|
    ensures Total(segs[..j] + segs[j + 1..]) == Total(segs) - segs[j].size
  {
    if j == 0 {
      assert segs[..0] + segs[1..] == segs[1..];
    } else {
      TotalDrop(segs[1..], j - 1);
      assert (segs[..j] + segs[j + 1..])[1..] == segs[1..][..j - 1] + segs[1..][j..];
    }
  }

  // ---------------------------------------------------------------- memory arrives

  ghost predicate Widened(mem: Mem, m1: Mem, lo: int, hi: int)
  {
    && (forall a :: a < lo || a >= hi ==> (a in m1 <==> a in mem) && Get(m1, a) == Get(mem, a))
    && (forall a :: lo <= a < hi && a % 8 == 0 ==> a in m1)
  }

  lemma GrantWidens(mem: Mem, g: Grant, asize: int, bins: map<int, int>)
    requires GrantOk(g, mem, asize) && g.Region?
    ensures Widened(mem, mem + g.fill, g.base, g.base + g.size) && Carried(mem, mem + g.fill, bins)
    ensures g.base % 16 == 0 && (g.base + g.size) % 16 == 0 && g.size % 16 == 0
  {
    GrantAligned(mem, g, asize);
    hide BinnedWord;
    var m1 := mem + g.fill;
    assert forall a :: a in mem ==> a !in g.fill;
  }

  lemma GrantAligned(mem: Mem, g: Grant, asize: int)
    requires GrantOk(g, mem, asize) && g.Region?
    ensures g.base % 16 == 0 && (g.base + g.size) % 16 == 0 && g.size % 16 == 0
  {
    PageAligned(g.base);
    PageAligned(g.size);
    Mod16(g.base, g.size);
  }

  lemma SegVacant(mem: Mem, ch: Tiling, segs: seq<Seg>, i: int, lo: int, hi: int)
    requires 0 <= i < |segs| && SegOk(mem, ch, segs, i) && lo % 16 == 0 && lo < hi
    requires forall a :: lo <= a < hi ==> a !in mem
    ensures End(segs[i]) <= lo || hi <= segs[i].base
  {
    hide Recorded, Pinuse;
    var a := Max(segs[i].base, lo);
    Mod16(a, 0);
    assert segs[i].base <= a < End(segs[i]) ==> a in mem;
  }

  lemma GrantFresh(mem: Mem, v: View, g: Grant, asize: int)
    requires FramedView(mem, v) && GrantOk(g, mem, asize) && g.Region? && asize > 0
    ensures Fresh(v.segs, g.base, g.base + g.size)
  {
    hide FramedView, SegOk;
    PageAligned(g.base);
    forall i | 0 <= i < |v.segs|
      ensures End(v.segs[i]) <= g.base || g.base + g.size <= v.segs[i].base
    {
      SegOfView(mem, v, i);
      SegVacant(mem, v.ch, v.segs, i, g.base, g.base + g.size);
    }
  }

  lemma WidenLocal(mem: Mem, m1: Mem, lo: int, hi: int, rec: int)
    requires Widened(mem, m1, lo, hi) && rec + 32 <= lo
    ensures LocalTo(mem, m1, lo, hi, rec)
  {
  }

  lemma WidenTiled(mem: Mem, m1: Mem, v: View, lo: int, hi: int)
    requires FramedView(mem, v) && Widened(mem, m1, lo, hi) && Fresh(v.segs, lo, hi) && 0 < lo < hi
    ensures Tiled(m1, v.ch)
  {
    hide SegsOk, VictimOk, Tagged, Tiled, TopOk, OneTop, Backed, Widened, TagsSame, LocalTo, Graft;
    FreshChunks(mem, v, lo, hi);
    NextThere(mem, v.ch);
    WidenLocal(mem, m1, lo, hi, SEG_HEAD);
    LocalTags(mem, m1, v.ch, lo, hi, SEG_HEAD);
    GraftEmpty(mem, m1, v.ch, v.ch, lo, hi);
    GraftTiled(mem, m1, v.ch, v.ch, lo, hi);
  }

  lemma WidenBacked(mem: Mem, m1: Mem, v: View, lo: int, hi: int)
    requires FramedView(mem, v) && Widened(mem, m1, lo, hi)
    ensures Backed(m1, v.ch) && RecordWords(mem) && (lo > 0 ==> RecordWords(m1))
  {
    hide SegOk, VictimOk, Tiled, TopOk, OneTop, Held;
    forall p, a | p in v.ch && p <= a < p + v.ch[p].size && a % 8 == 0
      ensures a in m1
    {
      assert a in mem;
    }
  }

  lemma WidenSeg(mem: Mem, m1: Mem, v: View, lo: int, hi: int, i: int)
    requires FramedView(mem, v) && Widened(mem, m1, lo, hi) && Fresh(v.segs, lo, hi) && 0 < lo < hi && 0 <= i < |v.segs|
    ensures SegOk(m1, v.ch, v.segs, i)
  {
    hide SegsOk, VictimOk, Tagged, TopOk, OneTop, Backed, SegOk, Tiled;
    SegOfView(mem, v, i);
    SegRead(mem, v, i);
    SegHere(mem, v, i);
    SegRelinked(mem, m1, v.ch, v.ch, v.segs, v.segs, i, lo, hi);
  }

  /** New memory does not disturb the heap. */
  lemma WidenSound(mem: Mem, m1: Mem, bins: map<int, int>, v: View, lo: int, hi: int)
    requires Sound(mem, bins, v) && Widened(mem, m1, lo, hi) && Fresh(v.segs, lo, hi) && 0 < lo < hi
    ensures Sound(m1, bins, v)
  {
    hide Tiled, Backed, VictimOk, Held, Binned, TopOk, OneTop, SegOk, Widened, Fresh, SegsApart, RecordWords;
    WidenTiled(mem, m1, v, lo, hi);
    WidenBacked(mem, m1, v, lo, hi);
    forall i | 0 <= i < |v.segs|
      ensures SegOk(m1, v.ch, v.segs, i)
    {
      WidenSeg(mem, m1, v, lo, hi, i);
    }
  }

  // ---------------------------------------------------------------- reading segment records

  lemma SegHere(mem: Mem, v: View, i: int)
    requires FramedView(mem, v) && 0 <= i < |v.segs|
    ensures v.segs[i].at == SEG_HEAD || (v.segs[i].base < v.segs[i].at && v.segs[i].at + 32 < End(v.segs[i]))
    ensures i == 0 ==> v.segs[i].at == SEG_HEAD
  {
    hide VictimOk, Held, SizeOf, Cinuse, Pinuse, Backed, SegOk;
    SegOfView(mem, v, i);
    if i > 0 { SegSize(mem, v.ch, v.segs, i); } else { SegFirst(mem, v.ch, v.segs); }
  }

  lemma SegFirst(mem: Mem, ch: Tiling, segs: seq<Seg>)
    requires |segs| > 0 && SegOk(mem, ch, segs, 0)
    ensures segs[0].at == SEG_HEAD
  {
  }

  lemma SegWords(mem: Mem, ch: Tiling, segs: seq<Seg>, i: int)
    requires 0 <= i < |segs| && SegOk(mem, ch, segs, i) && RecordWords(mem)
    requires i > 0 ==> segs[i].at % 8 == 0 && segs[i].base < segs[i].at && segs[i].at + 32 < End(segs[i])
    ensures var s := segs[i];
            && s.at in mem && s.at + SEG_SIZE in mem && s.at + SEG_NEXT in mem && s.at + SEG_FLAGS in mem
            && mem[s.at] == s.base && mem[s.at + SEG_SIZE] == s.size && mem[s.at + SEG_NEXT] == NextAt(segs, i)
            && mem[s.at + SEG_FLAGS] == 0
  {
    hide Recorded, Pinuse;
  }

  lemma RecAligned(mem: Mem, ch: Tiling, rec: int)
    requires Tiled(mem, ch) && RecAt(ch, rec) && rec != SEG_HEAD
    ensures rec % 8 == 0
  {
    hide SizeOf, Cinuse, Pinuse, NextOk, PrevFree;
    assert Tagged(mem, ch, rec - MEM_OFFSET);
    Mod16(rec - MEM_OFFSET, MEM_OFFSET);
  }

  lemma SegAligned(mem: Mem, ch: Tiling, segs: seq<Seg>, i: int)
    requires Tiled(mem, ch) && 0 < i < |segs| && SegOk(mem, ch, segs, i)
    ensures segs[i].at % 8 == 0
  {
    hide SegOk, RecAt, Tiled;
    SegSize(mem, ch, segs, i);
    SegRec(mem, ch, segs, i);
    SegPositive(mem, ch, segs, i);
    RecAligned(mem, ch, segs[i].at);
  }

  lemma SegPositive(mem: Mem, ch: Tiling, segs: seq<Seg>, i: int)
    requires 0 <= i < |segs| && SegOk(mem, ch, segs, i)
    ensures segs[i].base > 0 && segs[i].size > 0 && segs[i].base % 16 == 0 && segs[i].size % 16 == 0
    ensures End(segs[i]) <= WORD
  {
  }

  lemma SegRead(mem: Mem, v: View, i: int)
    requires FramedView(mem, v) && 0 <= i < |v.segs|
    ensures var s := v.segs[i];
            && s.at != NULL && s.at in mem && s.at + SEG_SIZE in mem && s.at + SEG_NEXT in mem
            && s.at + SEG_FLAGS in mem
            && mem[s.at] == s.base && mem[s.at + SEG_SIZE] == s.size && mem[s.at + SEG_NEXT] == NextAt(v.segs, i)
            && mem[s.at + SEG_FLAGS] == 0
            && s.base > 0 && s.size > 0
  {
    hide VictimOk, Held, Tiled, SegOk, Backed, SegsApart;
    SegOfView(mem, v, i);
    SegHere(mem, v, i);
    if i > 0 { SegAligned(mem, v.ch, v.segs, i); SegSize(mem, v.ch, v.segs, i); }
    SegWords(mem, v.ch, v.segs, i);
  }

  /** The newest segment, and no other, holds the top chunk. */
  lemma TopSegment(mem: Mem, v: View, i: int)
    requires FramedView(mem, v) && 0 <= i < |v.segs|
    ensures i == 0 <==> v.segs[i].base <= v.top < End(v.segs[i])
    ensures v.top > 0
  {
    hide VictimOk, Held, SizeOf, Cinuse, Pinuse, Backed, SegOk;
    assert Tagged(mem, v.ch, v.top);
    SegPair(v.segs, 0, i);
  }

  // ---------------------------------------------------------------- words that no bin uses

  /** Words of the allocator's own segment record. */
  lemma OwnWord(mem: Mem, bins: map<int, int>, v: View, a: int)
    requires FramedView(mem, v) && BinsIn(bins, v.ch) && SEG_HEAD <= a < SEG_HEAD + 32
    ensures !BinnedWord(bins, a) && !BinWord(a)
  {
    hide SegsOk, VictimOk, Tiled;
    NextThere(mem, v.ch);
  }

  lemma FreshWord(mem: Mem, bins: map<int, int>, v: View, lo: int, hi: int, a: int)
    requires FramedView(mem, v) && BinsIn(bins, v.ch) && Fresh(v.segs, lo, hi) && 0 < lo <= a < hi
    ensures !BinnedWord(bins, a) && !BinWord(a)
  {
    hide SegsOk, VictimOk, Tiled;
    FreshChunks(mem, v, lo, hi);
  }

  /** Words from the top chunk to the end of its segment. */
  lemma TopWord(mem: Mem, bins: map<int, int>, v: View, a: int)
    requires FramedView(mem, v) && BinsIn(bins, v.ch) && v.top <= a < End(v.segs[0])
    ensures !BinnedWord(bins, a) && !BinWord(a)
  {
    hide SegsOk, VictimOk, SizeOf, Cinuse, Pinuse, Backed;
    assert Tagged(mem, v.ch, v.top);
    forall p | p in v.ch && v.ch[p].kind.Free?
      ensures !(p <= a < p + v.ch[p].size)
    {
      assert Tagged(mem, v.ch, p);
      Apart(v.ch, p, v.top);
      Apart(v.ch, p, v.top + v.topsize);
    }
  }

  /** Words of a record in a chunk of its own. */
  lemma RecordWord(mem: Mem, bins: map<int, int>, v: View, i: int, a: int)
    requires FramedView(mem, v) && BinsIn(bins, v.ch) && 0 <= i < |v.segs| && v.segs[i].at <= a < v.segs[i].at + 32
    ensures !BinnedWord(bins, a) && !BinWord(a)
  {
    hide SegsOk, VictimOk, SizeOf, Cinuse, Pinuse, Backed, SegOk;
    SegOfView(mem, v, i);
    SegRec(mem, v.ch, v.segs, i);
    if v.segs[i].at == SEG_HEAD {
      OwnWord(mem, bins, v, a);
    } else {
      var r := v.segs[i].at - MEM_OFFSET;
      assert Tagged(mem, v.ch, r);
      forall p | p in v.ch && v.ch[p].kind.Free?
        ensures !(p <= a < p + v.ch[p].size)
      {
        Apart(v.ch, p, r);
      }
    }
  }

  lemma NotBinnedWord(bins: map<int, int>, a: int)
    requires BinsOk(bins) && !BinnedWord(bins, a)
    ensures !LinkWord(bins, a) && a - HEAD !in bins
  {
  }

  // ---------------------------------------------------------------- the first region

  lemma InitKept(m1: Mem, m2: Mem)
    requires OnlyLinks(m1, m2, map[])
    ensures m2.Keys == m1.Keys && forall a :: !BinWord(a) ==> Get(m2, a) == Get(m1, a)
  {
  }

  lemma BeginWords(mem: Mem, lo: int, hi: int)
    requires lo % 16 == 0 && hi % 16 == 0 && hi - lo >= 96
    requires forall a :: lo <= a < hi && a % 8 == 0 ==> a in mem
    ensures lo + HEAD in mem && hi - TOP_FOOT + HEAD in mem
  {
    Mod16(lo, 0);
    Mod16(hi, TOP_FOOT);
    Mod16(hi - TOP_FOOT, 0);
  }

  lemma FirstIs(lo: int, hi: int)
    ensures var v := FirstView(lo, hi);
            v == View(v.ch, [Seg(SEG_HEAD, lo, hi - lo)], NULL, 0, lo, hi - TOP_FOOT - lo)
  {
  }

  lemma BegunFrom(m1: Mem, m2: Mem, m3: Mem, lo: int, hi: int)
    requires lo > 0 && lo % 16 == 0 && hi % 16 == 0 && hi <= WORD && hi - lo >= 96
    requires RecordWords(m1) && Get(m1, SEG_HEAD) == lo && Get(m1, SEG_HEAD + SEG_SIZE) == hi - lo
    requires Get(m1, SEG_HEAD + SEG_NEXT) == NULL && Get(m1, SEG_HEAD + SEG_FLAGS) == 0
    requires forall a :: lo <= a < hi && a % 8 == 0 ==> a in m1
    requires m2.Keys == m1.Keys && forall a :: !BinWord(a) ==> Get(m2, a) == Get(m1, a)
    requires m3 == m2[lo + HEAD := hi - lo - TOP_FOOT + PINUSE][hi - TOP_FOOT + HEAD := TOP_FOOT]
    ensures Begun(m3, lo, hi)
  {
  }

  // ---------------------------------------------------------------- the end of the newest segment moves

  /** Only the top chunk and its foot lie behind the start of the top chunk. */
  lemma TopOnly(mem: Mem, v: View)
    requires FramedView(mem, v)
    ensures |v.segs| > 0
    ensures forall p :: p in v.ch && v.top <= p < End(v.segs[0]) ==> p == v.top || p == v.top + v.topsize
    ensures v.top > 0 && v.top % 16 == 0 && v.topsize >= 16 && v.topsize % 16 == 0 && v.segs[0].base <= v.top
    ensures v.top + v.topsize + TOP_FOOT == End(v.segs[0])
  {
    hide SegsOk, VictimOk, SizeOf, Cinuse, Pinuse, Backed;
    assert Tagged(mem, v.ch, v.top);
    StretchAlone(mem, v.ch, v.top);
    StretchAlone(mem, v.ch, v.top + v.topsize);
  }

  /** A word between the top chunk and the old or new end of the newest segment. */
  lemma EndWord(mem: Mem, bins: map<int, int>, v: View, hi: int, a: int)
    requires |v.segs| > 0 && FramedView(mem, v) && BinsIn(bins, v.ch) && v.top <= a < hi && a % 8 == 0 && v.top > 0
    requires End(v.segs[0]) < hi ==> Fresh(v.segs, End(v.segs[0]), hi)
    requires forall x :: End(v.segs[0]) <= x < hi && x % 8 == 0 ==> x in mem
    ensures a in mem && !BinnedWord(bins, a) && !BinWord(a)
  {
    hide FramedView, BinsIn, BinnedWord;
    TopOnly(mem, v);
    if a < End(v.segs[0]) {
      TopWord(mem, bins, v, a);
      SegCovers(mem, v, 0, a);
    } else {
      FreshWord(mem, bins, v, End(v.segs[0]), hi, a);
    }
  }

  lemma EndHead(mem: Mem, bins: map<int, int>, v: View, hi: int, p: int)
    requires |v.segs| > 0 && FramedView(mem, v) && BinsIn(bins, v.ch) && v.top <= p < hi - 16 && p % 16 == 0
    requires v.top > 0
    requires End(v.segs[0]) < hi ==> Fresh(v.segs, End(v.segs[0]), hi)
    requires forall x :: End(v.segs[0]) <= x < hi && x % 8 == 0 ==> x in mem
    ensures p + HEAD in mem && !BinnedWord(bins, p + HEAD) && !BinWord(p + HEAD)
  {
    hide FramedView, BinsIn, BinnedWord, Fresh;
    EndWord(mem, bins, v, hi, p + HEAD);
  }

  lemma SegCovers(mem: Mem, v: View, i: int, a: int)
    requires FramedView(mem, v) && 0 <= i < |v.segs| && v.segs[i].base <= a < End(v.segs[i]) && a % 8 == 0
    ensures a in mem
  {
    assert SegOk(mem, v.ch, v.segs, i);
  }

  lemma RetopIs(v: View, hi: int)
    requires |v.segs| > 0
    ensures var v' := RetopView(v, hi);
            && v'.dv == v.dv && v'.dvsize == v.dvsize && v'.top == v.top && v'.topsize == hi - TOP_FOOT - v.top
            && v'.segs == v.segs[0 := Seg(SEG_HEAD, v.segs[0].base, hi - v.segs[0].base)]
  {
  }

  lemma ExtendRetop(mem: Mem, mem': Mem, v: View, ts: int)
    requires |v.segs| > 0 && FramedView(mem, v) && ts > 0 && ts % 16 == 0 && End(v.segs[0]) + ts <= WORD
    requires Fresh(v.segs, End(v.segs[0]), End(v.segs[0]) + ts)
    requires forall a :: End(v.segs[0]) <= a < End(v.segs[0]) + ts && a % 8 == 0 ==> a in mem
    requires mem' == mem[SEG_HEAD + SEG_SIZE := v.segs[0].size + ts][v.top + HEAD := v.topsize + ts + PINUSE]
        [v.top + v.topsize + ts + HEAD := TOP_FOOT]
    requires SEG_HEAD + SEG_SIZE in mem && v.top + HEAD in mem && v.top + v.topsize + ts + HEAD in mem
    ensures Retop(mem, mem', v, End(v.segs[0]) + ts)
  {
    hide FramedView;
    TopOnly(mem, v);
    SegRead(mem, v, 0);
    SegHere(mem, v, 0);
    SegsApartView(mem, v);
    FreshChunks(mem, v, End(v.segs[0]), End(v.segs[0]) + ts);
    SegEnds(mem, v, 0);
    forall a | v.top <= a < End(v.segs[0]) && a % 8 == 0
      ensures a in mem
    {
      SegCovers(mem, v, 0, a);
    }
  }

  lemma SegsApartView(mem: Mem, v: View)
    requires FramedView(mem, v)
    ensures SegsApart(v.segs) && (forall i :: 0 <= i < |v.segs| ==> v.segs[i].size > 0)
  {
    forall i | 0 <= i < |v.segs|
      ensures v.segs[i].size > 0
    {
      assert SegOk(mem, v.ch, v.segs, i);
    }
  }

  lemma SegEnds(mem: Mem, v: View, i: int)
    requires FramedView(mem, v) && 0 <= i < |v.segs|
    ensures End(v.segs[i]) % 16 == 0 && End(v.segs[i]) <= WORD
  {
    hide FramedView, SegOk;
    SegOfView(mem, v, i);
    SegPositive(mem, v.ch, v.segs, i);
    Mod16(v.segs[i].base, v.segs[i].size);
  }

  lemma RecordAligned(csp: int)
    requires csp % 16 == 0
    ensures (csp + HEAD) % 8 == 0 && (csp + MEM_OFFSET) % 8 == 0 && (csp + MEM_OFFSET + SEG_SIZE) % 8 == 0
    ensures (csp + MEM_OFFSET + SEG_NEXT) % 8 == 0 && (csp + MEM_OFFSET + SEG_FLAGS) % 8 == 0
    ensures (csp + SEGMENT_CHUNK) % 16 == 0
  {
    Mod16(csp, 0);
    Mod16(csp, MEM_OFFSET);
    Mod16(csp + MEM_OFFSET, 0);
    Mod16(csp, 32);
    Mod16(csp + 32, 0);
    Mod16(csp, SEGMENT_CHUNK);
  }

  function FenceAt(first: int, k: nat): int { first + HEAD + 8 * k }

  /** Memory after the record of the newest segment moved to the chunk at `csp`. */
  function Pushed(mem: Mem, csp: int, lo: int, hi: int): Mem
  {
    var ss := csp + MEM_OFFSET;
    mem[csp + HEAD := SEGMENT_CHUNK + PINUSE + CINUSE]
       [ss := Get(mem, SEG_HEAD)][ss + SEG_SIZE := Get(mem, SEG_HEAD + SEG_SIZE)]
       [ss + SEG_NEXT := Get(mem, SEG_HEAD + SEG_NEXT)][ss + SEG_FLAGS := Get(mem, SEG_HEAD + SEG_FLAGS)]
       [SEG_HEAD := lo][SEG_HEAD + SEG_SIZE := hi - lo][SEG_HEAD + SEG_FLAGS := 0][SEG_HEAD + SEG_NEXT := ss]
  }

  lemma PushedFacts(mem: Mem, csp: int, lo: int, hi: int, end: int)
    requires RecordWords(mem) && csp > 0 && csp + 48 <= end
    requires csp + HEAD in mem && csp + MEM_OFFSET in mem && csp + MEM_OFFSET + SEG_SIZE in mem
    requires csp + MEM_OFFSET + SEG_NEXT in mem && csp + MEM_OFFSET + SEG_FLAGS in mem
    ensures var m := Pushed(mem, csp, lo, hi);
            && m.Keys == mem.Keys && LocalTo(mem, m, csp + HEAD, end, SEG_HEAD)
            && HeadOf(m, csp) == SEGMENT_CHUNK + PINUSE + CINUSE
            && Get(m, csp + MEM_OFFSET) == Get(mem, SEG_HEAD)
            && Get(m, csp + MEM_OFFSET + SEG_SIZE) == Get(mem, SEG_HEAD + SEG_SIZE)
            && Get(m, csp + MEM_OFFSET + SEG_NEXT) == Get(mem, SEG_HEAD + SEG_NEXT)
            && Get(m, csp + MEM_OFFSET + SEG_FLAGS) == Get(mem, SEG_HEAD + SEG_FLAGS)
            && Get(m, SEG_HEAD) == lo && Get(m, SEG_HEAD + SEG_SIZE) == hi - lo
            && Get(m, SEG_HEAD + SEG_NEXT) == csp + MEM_OFFSET && Get(m, SEG_HEAD + SEG_FLAGS) == 0
  {
    assert Pushed(mem, csp, lo, hi).Keys == mem.Keys;
  }

  // ---------------------------------------------------------------- a segment away from all others

  /** A region from the system that touches no segment. */
  ghost predicate NewRegion(mem: Mem, segs: seq<Seg>, lo: int, hi: int)
  {
    && lo > 0 && lo % 16 == 0 && hi % 16 == 0 && hi <= WORD && hi - lo >= 96 && Fresh(segs, lo, hi)
    && (forall a :: lo <= a < hi && a % 8 == 0 ==> a in mem)
  }

  /** The spot for the record: 80 bytes before the end. */
  lemma RecordSpot(end: int, rawsp: int)
    requires end % 16 == 0 && rawsp == end - 95 && rawsp + 16 >= 0
    ensures rawsp + (AlignUp(rawsp + MEM_OFFSET, ALIGN) - (rawsp + MEM_OFFSET)) == end - TOP_FOOT
  {
    var r := AlignUp(rawsp + MEM_OFFSET, ALIGN);
    assert r == end - 64;
  }

  lemma CloseShape(p: int, size: int, csp: int, end: int)
    requires p > 0 && p % 16 == 0 && size % 16 == 0 && size >= 16 && p + size + TOP_FOOT == end <= WORD
    requires csp == if end - TOP_FOOT < p + MIN_CHUNK then p else end - TOP_FOOT
    ensures ClosedShape(p, csp, end)
  {
  }

  lemma OpenWords(mem: Mem, bins: map<int, int>, v: View, lo: int, hi: int)
    requires FramedView(mem, v) && BinsIn(bins, v.ch) && NewRegion(mem, v.segs, lo, hi)
    ensures lo > 0 && lo % 16 == 0 && lo + HEAD in mem && hi - TOP_FOOT + HEAD in mem && hi - lo >= 96
    ensures !BinnedWord(bins, lo + HEAD) && !BinnedWord(bins, hi - TOP_FOOT + HEAD)
  {
    hide FramedView, BinsIn, BinnedWord;
    BeginWords(mem, lo, hi);
    FreshWord(mem, bins, v, lo, hi, lo + HEAD);
    FreshWord(mem, bins, v, lo, hi, hi - TOP_FOOT + HEAD);
  }

  /** Words that no bin uses, all addressable. */
  ghost predicate Spare(mem: Mem, bins: map<int, int>, lo: int, hi: int)
  {
    && (forall a :: lo <= a < hi ==> !BinWord(a) && !BinnedWord(bins, a))
    && (forall a :: lo <= a < hi && a % 8 == 0 ==> a in mem)
  }

  lemma SpareKept(mem: Mem, mem': Mem, bins: map<int, int>, lo: int, hi: int)
    requires Spare(mem, bins, lo, hi) && mem'.Keys == mem.Keys
    ensures Spare(mem', bins, lo, hi)
  {
    forall a | lo <= a < hi && a % 8 == 0
      ensures a in mem'
    {
      assert a in mem.Keys;
    }
  }

  lemma SpareTop(mem: Mem, bins: map<int, int>, v: View)
    requires FramedView(mem, v) && BinsIn(bins, v.ch) && |v.segs| > 0
    ensures Spare(mem, bins, v.top, End(v.segs[0])) && Spare(mem, bins, SEG_HEAD, SEG_HEAD + 32)
  {
    hide Tiled, BinsIn, BinnedWord, Backed, SegOk, VictimOk, Held, BinWord;
    TopOnly(mem, v);
    forall a | v.top <= a < End(v.segs[0])
      ensures !BinWord(a) && !BinnedWord(bins, a) && (a % 8 == 0 ==> a in mem)
    {
      TopWord(mem, bins, v, a);
      if a % 8 == 0 { SegCovers(mem, v, 0, a); }
    }
    forall a | SEG_HEAD <= a < SEG_HEAD + 32
      ensures !BinWord(a) && !BinnedWord(bins, a)
    {
      OwnWord(mem, bins, v, a);
    }
  }

  /** The words that the push of a record writes. */
  ghost predicate RecordSpare(mem: Mem, bins: map<int, int>, csp: int)
  {
    && RecordWords(mem)
    && csp + HEAD in mem && csp + MEM_OFFSET in mem && csp + MEM_OFFSET + SEG_SIZE in mem
    && csp + MEM_OFFSET + SEG_NEXT in mem && csp + MEM_OFFSET + SEG_FLAGS in mem
    && (forall a :: csp <= a < csp + 48 || SEG_HEAD <= a < SEG_HEAD + 32 ==> !BinWord(a) && !BinnedWord(bins, a))
  }

  lemma RecordSpareKept(mem: Mem, mem': Mem, bins: map<int, int>, csp: int)
    requires RecordSpare(mem, bins, csp) && mem'.Keys == mem.Keys
    ensures RecordSpare(mem', bins, csp)
  {
    assert forall a :: a in mem <==> a in mem';
  }

  lemma PushedKeys(mem: Mem, bins: map<int, int>, csp: int, lo: int, hi: int)
    requires RecordSpare(mem, bins, csp)
    ensures Pushed(mem, csp, lo, hi).Keys == mem.Keys
  {
  }

  lemma SpareRecord(mem: Mem, bins: map<int, int>, csp: int, end: int)
    requires Spare(mem, bins, csp, end) && Spare(mem, bins, SEG_HEAD, SEG_HEAD + 32) && csp % 16 == 0
    requires csp + 48 <= end && RecordWords(mem)
    ensures RecordSpare(mem, bins, csp)
  {
    RecordAligned(csp);
  }

  lemma SpareFree(mem: Mem, bins: map<int, int>, p: int, csp: int)
    requires Spare(mem, bins, p, csp + 48) && p % 16 == 0 && csp % 16 == 0 && p + 32 <= csp
    ensures p + HEAD in mem && csp in mem && csp + HEAD in mem
    ensures !BinWord(p + HEAD) && !BinWord(csp) && !BinWord(csp + HEAD)
    ensures !BinnedWord(bins, p + HEAD) && !BinnedWord(bins, csp) && !BinnedWord(bins, csp + HEAD)
  {
    hide BinWord, BinnedWord;
    RecordAligned(csp);
    RecordAligned(p);
    Mod16(csp, 0);
  }

  lemma ClosedFacts(p: int, csp: int, end: int)
    requires ClosedShape(p, csp, end)
    ensures csp > 0 && p % 16 == 0 && csp % 16 == 0 && (csp + SEGMENT_CHUNK) % 8 == 0 && csp + SEGMENT_CHUNK + 32 <= end
    ensures csp == p || p + 32 <= csp
  {
    Mod16(csp, SEGMENT_CHUNK);
  }

  lemma CloseSpare(mem: Mem, bins: map<int, int>, v: View, csp: int, end: int)
    requires FramedView(mem, v) && BinsIn(bins, v.ch) && |v.segs| > 0 && end == End(v.segs[0])
    requires ClosedShape(v.top, csp, end)
    ensures RecordSpare(mem, bins, csp)
    ensures Spare(mem, bins, csp + SEGMENT_CHUNK, end) && Spare(mem, bins, v.top, csp + 48)
  {
    hide FramedView, BinsIn, BinnedWord, BinWord, RecordSpare;
    SpareTop(mem, bins, v);
    RecordKeys(mem, v, csp, end);
    SpareRecord(mem, bins, csp, end);
  }

  lemma FirstFence(mem: Mem, first: int, end: int)
    requires first + 16 <= end && forall k: nat :: FenceAt(first, k) < end ==> Get(mem, FenceAt(first, k)) == FENCE
    ensures HeadOf(mem, first) == FENCE
  {
    assert FenceAt(first, 0) == first + HEAD;
  }

  lemma PayloadsTrans(m0: Mem, m1: Mem, m2: Mem, hs: Tiling)
    requires SamePayloads(m0, m1, hs) && SamePayloads(m1, m2, hs)
    ensures SamePayloads(m0, m2, hs)
  {
    forall p, a | p in hs && p + MEM_OFFSET <= a < p + hs[p].size + 8
      ensures Get(m2, a) == Get(m0, a)
    {
      assert Get(m1, a) == Get(m0, a);
    }
  }

  lemma AddedIs(v: View, lo: int, hi: int, rec: int)
    requires |v.segs| > 0
    ensures var v' := AddedView(v, lo, hi, rec);
            && v'.dv == v.dv && v'.dvsize == v.dvsize && v'.top == lo && v'.topsize == hi - TOP_FOOT - lo
            && v'.segs ==
                 [Seg(SEG_HEAD, lo, hi - lo), Seg(rec + MEM_OFFSET, v.segs[0].base, v.segs[0].size)] + v.segs[1..]
  {
  }

  lemma OpenedWrites(mem: Mem, m1: Mem, v: View, lo: int, hi: int)
    requires NewRegion(mem, v.segs, lo, hi) && lo + HEAD in mem && hi - TOP_FOOT + HEAD in mem
    requires m1 == mem[lo + HEAD := hi - lo - TOP_FOOT + PINUSE][hi - TOP_FOOT + HEAD := TOP_FOOT]
    ensures Opened(mem, m1, v, lo, hi) && m1.Keys == mem.Keys
    ensures forall a :: a < lo || a >= hi ==> Get(m1, a) == Get(mem, a)
  {
    hide Fresh;
    assert m1.Keys == mem.Keys;
  }

  /** The writes of `add_segment` in order: the new top, the record, the fenceposts, the rest of the old top. */
  lemma AddedWrites(mem: Mem, m1: Mem, m3: Mem, m4: Mem, v: View, lo: int, hi: int, csp: int)
    requires |v.segs| > 0 && FramedView(mem, v) && NewRegion(mem, v.segs, lo, hi)
    requires ClosedShape(v.top, csp, End(v.segs[0]))
    requires lo + HEAD in mem && hi - TOP_FOOT + HEAD in mem
    requires m1 == mem[lo + HEAD := hi - lo - TOP_FOOT + PINUSE][hi - TOP_FOOT + HEAD := TOP_FOOT]
    requires m3.Keys == mem.Keys && HeadOf(m3, csp + SEGMENT_CHUNK) == FENCE
    requires forall a :: a < csp + SEGMENT_CHUNK + HEAD || a >= End(v.segs[0]) ==>
        Get(m3, a) == Get(Pushed(m1, csp, lo, hi), a)
    requires m4 == if csp == v.top then m3 else FreeTags(m3, v.top, csp)
    ensures Added(mem, m1, m4, v, lo, hi, csp)
  {
    hide FramedView, NewRegion, Pushed, Opened;
    var end := End(v.segs[0]);
    TopOnly(mem, v);
    OpenedWrites(mem, m1, v, lo, hi);
    RegionFresh(mem, v, lo, hi);
    RecordKeys(mem, v, csp, end);
    PushedFacts(m1, csp, lo, hi, end);
    SegRead(mem, v, 0);
    SegHere(mem, v, 0);
    FourthWords(m1, Pushed(m1, csp, lo, hi), m3, m4, v.top, csp, end);
  }

  lemma RegionFresh(mem: Mem, v: View, lo: int, hi: int)
    requires |v.segs| > 0 && NewRegion(mem, v.segs, lo, hi)
    ensures lo > 0 && (End(v.segs[0]) <= lo || hi <= v.segs[0].base)
  {
  }

  lemma RecordKeys(mem: Mem, v: View, csp: int, end: int)
    requires |v.segs| > 0 && FramedView(mem, v) && ClosedShape(v.top, csp, end) && end == End(v.segs[0])
    ensures csp in mem && csp + HEAD in mem && csp + MEM_OFFSET in mem && csp + MEM_OFFSET + SEG_SIZE in mem
    ensures csp + MEM_OFFSET + SEG_NEXT in mem && csp + MEM_OFFSET + SEG_FLAGS in mem
    ensures RecordWords(mem) && v.top + HEAD in mem && forall a :: v.top <= a < end && a % 8 == 0 ==> a in mem
  {
    TopCovered(mem, v, end);
    TopOnly(mem, v);
    assert WordsIn(mem, v.top, end);
    SpotKeys(mem, v.top, end, csp);
    TopKey(mem, v.top, end);
    hide FramedView;
  }

  lemma SpotKeys(mem: Mem, lo: int, hi: int, csp: int)
    requires csp % 16 == 0 && lo <= csp && csp + SEGMENT_CHUNK <= hi && WordsIn(mem, lo, hi)
    ensures csp in mem && csp + HEAD in mem && csp + MEM_OFFSET in mem && csp + MEM_OFFSET + SEG_SIZE in mem
    ensures csp + MEM_OFFSET + SEG_NEXT in mem && csp + MEM_OFFSET + SEG_FLAGS in mem
  {
    hide WordsIn;
    RecordAligned(csp);
    Mod16(csp, 0);
    WordIn(mem, lo, hi, csp);
    WordIn(mem, lo, hi, csp + HEAD);
    WordIn(mem, lo, hi, csp + MEM_OFFSET);
    WordIn(mem, lo, hi, csp + MEM_OFFSET + SEG_SIZE);
    WordIn(mem, lo, hi, csp + MEM_OFFSET + SEG_NEXT);
    WordIn(mem, lo, hi, csp + MEM_OFFSET + SEG_FLAGS);
  }

  lemma TopKey(mem: Mem, top: int, hi: int)
    requires top % 16 == 0 && top + 16 <= hi && WordsIn(mem, top, hi)
    ensures top + HEAD in mem
  {
    hide WordsIn;
    RecordAligned(top);
    WordIn(mem, top, hi, top + HEAD);
  }

  ghost predicate WordsIn(mem: Mem, lo: int, hi: int) { forall a :: lo <= a < hi && a % 8 == 0 ==> a in mem }

  lemma WordIn(mem: Mem, lo: int, hi: int, a: int)
    requires WordsIn(mem, lo, hi) && lo <= a < hi && a % 8 == 0
    ensures a in mem
  {
  }

  /** Every word from the top chunk to the end of its segment is there. */
  lemma TopCovered(mem: Mem, v: View, end: int)
    requires |v.segs| > 0 && FramedView(mem, v) && end == End(v.segs[0])
    ensures RecordWords(mem) && forall a :: v.top <= a < end && a % 8 == 0 ==> a in mem
  {
    hide Tiled, VictimOk, SegOk, Held, Backed, SegsApart;
    TopOnly(mem, v);
    forall a | v.top <= a < end && a % 8 == 0
      ensures a in mem
    {
      SegCovers(mem, v, 0, a);
    }
  }

  lemma FourthWords(m1: Mem, m2: Mem, m3: Mem, m4: Mem, p: int, csp: int, end: int)
    requires ClosedShape(p, csp, end) && LocalTo(m1, m2, csp + HEAD, end, SEG_HEAD) && m2.Keys == m1.Keys == m3.Keys
    requires HeadOf(m2, csp) == SEGMENT_CHUNK + PINUSE + CINUSE && HeadOf(m3, csp + SEGMENT_CHUNK) == FENCE
    requires forall a :: a < csp + SEGMENT_CHUNK + HEAD || a >= end ==> Get(m3, a) == Get(m2, a)
    requires m4 == if csp == p then m3 else FreeTags(m3, p, csp)
    requires p + HEAD in m3 && csp in m3 && csp + HEAD in m3
    ensures m4.Keys == m1.Keys && LocalTo(m1, m4, p + HEAD, end, SEG_HEAD) && ClosedWords(m4, p, csp, end)
    ensures forall a :: SEG_HEAD <= a < SEG_HEAD + 32 || csp + MEM_OFFSET <= a < csp + MEM_OFFSET + 32 ==>
        Get(m4, a) == Get(m2, a)
  {
    assert m4.Keys == m3.Keys;
    assert ClearP(SEGMENT_CHUNK + PINUSE + CINUSE) == SEGMENT_CHUNK + CINUSE;
  }

  // ---------------------------------------------------------------- memory in front of a segment

  lemma PrependRoles(v: View, v': View, lo: int, q: int, hi: int, k: Kind)
    requires v'.segs == v.segs && lo < q < hi
    requires if k.Top? then v'.top == q && v'.topsize == hi - q && lo <= v.top < hi
        else v'.top == v.top && v'.topsize == v.topsize && !(lo <= v.top < hi)
    requires if k.Victim? then v'.dv == q && v'.dvsize == hi - q && lo <= v.dv < hi
        else v'.dv == v.dv && v'.dvsize == v.dvsize && !(lo <= v.dv < hi)
    ensures RolesAfter(v, v', lo, hi, q, k)
  {
  }

  lemma FrontHead(mg: Mem, v: View, lo: int, oldbase: int, nb: int)
    requires HeadOf(mg, lo) == oldbase - lo + PINUSE + CINUSE && lo % 16 == 0 && oldbase % 16 == 0 && nb % 16 == 0
    ensures Pinuse(HeadOf(mg, lo)) && (lo + nb) % 16 == 0
  {
    hide SizeOf, Cinuse, Pinuse;
    Mod16(oldbase, lo);
    Mod16(oldbase - lo, 0);
    Parts(oldbase - lo, true, true);
  }

  /** The roles around a chunk in use and its successor. */
  lemma LeadRoles(mem: Mem, v: View, p: int)
    requires FramedView(mem, v) && p in v.ch && v.ch[p].kind.Live?
    ensures var n := p + v.ch[p].size;
            && n in v.ch && v.ch[n].size > 0
            && var hi := n + v.ch[n].size;
               (p <= v.dv < hi ==> v.dv == n) && (p <= v.top < hi ==> v.top == n)
  {
    hide SegsOk, Backed, SizeOf, Cinuse, Pinuse;
    assert Tagged(mem, v.ch, p);
    var n := p + v.ch[p].size;
    assert Tagged(mem, v.ch, n);
    StretchAlone(mem, v.ch, p);
    StretchAlone(mem, v.ch, n);
    Roles(mem, v, p);
  }

  /** A bin operation does not see the head of the chunk at `lo`. */
  lemma LinksUnder(mg: Mem, m1: Mem, m2: Mem, bins: map<int, int>, lo: int, h: int)
    requires OnlyLinks(m1, m2, bins) && lo + HEAD in mg && m1 == mg[lo + HEAD := HeadOf(m1, lo)] && h == HeadOf(mg, lo)
    requires !BinWord(lo + HEAD) && !LinkWord(bins, lo + HEAD)
    ensures OnlyLinks(mg, m2[lo + HEAD := h], bins) && m2 == m2[lo + HEAD := h][lo + HEAD := HeadOf(m1, lo)]
  {
    assert m1.Keys == mg.Keys;
    assert m2[lo + HEAD := h].Keys == mg.Keys;
  }

  lemma RegionFacts(mem: Mem, segs: seq<Seg>, lo: int, hi: int)
    requires NewRegion(mem, segs, lo, hi)
    ensures lo > 0 && lo % 16 == 0 && hi % 16 == 0 && hi <= WORD && hi - lo >= 96 && Fresh(segs, lo, hi)
    ensures lo + HEAD in mem
  {
    RecordAligned(lo);
  }

  lemma FrontIs(v: View, j: int, lo: int)
    requires 0 <= j < |v.segs|
    ensures var v' := FrontView(v, j, lo);
            && v'.dv == v.dv && v'.dvsize == v.dvsize && v'.top == v.top && v'.topsize == v.topsize
            && v'.segs == v.segs[j := Seg(v.segs[j].at, lo, End(v.segs[j]) - lo)]
            && lo in v'.ch && v'.ch[lo] == Ck(v.segs[j].base - lo, Live)
  {
  }

  lemma FrontedWrites(mem: Mem, mg: Mem, v: View, j: int, lo: int, ts: int)
    requires FramedView(mem, v) && 0 <= j < |v.segs| && NewRegion(mem, v.segs, lo, lo + ts) && lo + ts == v.segs[j].base
    requires var at := v.segs[j].at;
             && at in mem && at + SEG_SIZE in mem && lo + HEAD in mem
             && mg == mem[at := lo][at + SEG_SIZE := v.segs[j].size + ts]
                 [lo + HEAD := v.segs[j].base - lo + PINUSE + CINUSE]
    ensures Fronted(mem, mg, v, j, lo)
  {
    hide FramedView;
    SegRead(mem, v, j);
    SegHere(mem, v, j);
    assert mg.Keys == mem.Keys;
  }

  /** A region in front of a segment, taken as one chunk and then cut: in all, one grant. */
  lemma RegionGranted(m0: Mem, c0: Tiling, mg: Mem, c1: Tiling, m2: Mem, c2: Tiling, lo: int, nb: int, ts: int)
    requires lo !in c0 && Holdings(c1) == Holdings(c0)[lo := Ck(ts, Live)] && SamePayloads(m0, mg, Holdings(c0))
    requires Resized(mg, c1, m2, c2, lo, nb)
    ensures Granted(m0, c0, m2, c2, lo, nb)
  {
    var hs := Holdings(c0);
    assert lo !in hs;
    assert Holdings(c1) - {lo} == hs;
    assert Holdings(c2) == hs[lo := Ck(nb, Live)];
    PayloadsTrans(m0, mg, m2, hs);
  }

  /** A grant after a step that kept all holdings. */
  lemma GrantedVia(m0: Mem, c0: Tiling, m1: Mem, c1: Tiling, m2: Mem, c2: Tiling, p: int, s: int)
    requires Holdings(c1) == Holdings(c0) && SamePayloads(m0, m1, Holdings(c0)) && Granted(m1, c1, m2, c2, p, s)
    ensures Granted(m0, c0, m2, c2, p, s)
  {
    PayloadsTrans(m0, m1, m2, Holdings(c0));
  }

  lemma WidenPayloads(mem: Mem, m1: Mem, v: View, lo: int, hi: int)
    requires FramedView(mem, v) && Widened(mem, m1, lo, hi) && Fresh(v.segs, lo, hi) && 0 < lo < hi
    ensures SamePayloads(mem, m1, Holdings(v.ch))
  {
    hide SegsOk, Backed, VictimOk;
    FreshChunks(mem, v, lo, hi);
    forall p | p in v.ch && v.ch[p].kind.Live?
      ensures p + v.ch[p].size + 8 <= lo || p >= hi
    {
      assert Tagged(mem, v.ch, p) && Tagged(mem, v.ch, p + v.ch[p].size);
    }
    WidenLocal(mem, m1, lo, hi, SEG_HEAD);
    LocalPayloads(mem, m1, v.ch, lo, hi, SEG_HEAD);
  }

  lemma RegionWords(mem: Mem, segs: seq<Seg>, lo: int, hi: int)
    requires NewRegion(mem, segs, lo, hi)
    ensures hi > lo && (hi - lo) % 16 == 0 && hi <= WORD && Fresh(segs, lo, hi)
    ensures forall a :: lo <= a < hi && a % 8 == 0 ==> a in mem
  {
    Mod16(hi, lo);
  }

  lemma RegionIs(mem: Mem, m1: Mem, segs: seq<Seg>, lo: int, ts: int)
    requires Widened(mem, m1, lo, lo + ts) && Fresh(segs, lo, lo + ts) && lo > 0 && lo % 16 == 0
    requires (lo + ts) % 16 == 0 && lo + ts <= WORD && ts >= 96
    ensures NewRegion(m1, segs, lo, lo + ts)
  {
  }

  lemma GrantFacts(mem: Mem, g: Grant, asize: int)
    requires GrantOk(g, mem, asize) && g.Region?
    ensures g.base > 0 && g.size >= asize && g.base + g.size < WORD && g.size % PAGE == 0
  {
  }

  lemma PagedUpdate(segs: seq<Seg>, j: int, s: Seg, ts: int)
    requires 0 <= j < |segs| && s.size == segs[j].size + ts
    ensures Paged(segs) && ts % PAGE == 0 ==> Paged(segs[j := s])
  {
    if Paged(segs) && ts % PAGE == 0 {
      PageSum(segs[j].size, ts);
    }
  }

  lemma PageSum(a: int, b: int)
    requires a % PAGE == 0 && b % PAGE == 0
    ensures (a + b) % PAGE == 0 && (a - b) % PAGE == 0
  {
    var i, j := a / PAGE, b / PAGE;
    Times(a + b, PAGE, i + j);
    Times(a - b, PAGE, i - j);
  }

  lemma TotalAdd(segs: seq<Seg>, segs': seq<Seg>, lo: int, ts: int)
    requires |segs| > 0
    requires exists at :: segs' == [Seg(SEG_HEAD, lo, ts), Seg(at, segs[0].base, segs[0].size)] + segs[1..]
    ensures Total(segs') == Total(segs) + ts && (Paged(segs) && ts % PAGE == 0 ==> Paged(segs'))
  {
    var at :| segs' == [Seg(SEG_HEAD, lo, ts), Seg(at, segs[0].base, segs[0].size)] + segs[1..];
    assert segs'[1..] == [Seg(at, segs[0].base, segs[0].size)] + segs[1..];
    assert segs'[1..][1..] == segs[1..];
  }

  lemma TotalNone(segs: seq<Seg>)
    ensures segs == [] ==> Total(segs) == 0
  {
  }

  lemma TotalOne(segs: seq<Seg>, lo: int, ts: int)
    requires segs == [Seg(SEG_HEAD, lo, ts)]
    ensures Total(segs) == ts && (ts % PAGE == 0 ==> Paged(segs))
  {
    assert segs[1..] == [];
  }

  lemma UnbornWiden(mem: Mem, m1: Mem, bins: map<int, int>, v: View, lo: int, hi: int)
    requires Unborn(mem, bins, v) && Widened(mem, m1, lo, hi) && 0 < lo < hi
    ensures RecordWords(m1) && Get(m1, SEG_HEAD + SEG_NEXT) == NULL
    ensures forall a :: lo <= a < hi && a % 8 == 0 ==> a in m1
  {
  }

  lemma PayloadsNone(mem: Mem, mem': Mem)
    ensures SamePayloads(mem, mem', map[]) && Holdings(map[]) == map[]
  {
  }

  /** Chunks handed out have positive addresses. */
  lemma GrantedPositive(mem: Mem, bins: map<int, int>, v: View, p: int, s: int, m0: Mem, c0: Tiling)
    requires Sound(mem, bins, v) && Granted(m0, c0, mem, v.ch, p, s)
    ensures p > 0
  {
    assert p in Holdings(v.ch);
    assert Tagged(mem, v.ch, p);
  }

  lemma SmallClass(size: nat)
    requires size <= MAX_SMALL_REQUEST
    ensures var nb := Request2Size(size);
      nb % 16 == 0 && MIN_CHUNK <= nb <= 240 && SmallIndex(nb) < 31 && 8 * SmallIndex(nb) == nb
  {
  }

  lemma GrantedTop(mem: Mem, bins: map<int, int>, v: View, top: int)
    requires Sound(mem, bins, v) && top == v.top
    ensures top > 0
  {
    hide SegsOk, Binned;
    assert Tagged(mem, v.ch, v.top);
  }

  // ---------------------------------------------------------------- memory goes back

  lemma RecordElsewhere(mem: Mem, v: View, i: int)
    requires FramedView(mem, v) && 0 <= i < |v.segs|
    ensures !(v.segs[0].base <= v.segs[i].at < End(v.segs[0]))
  {
    hide FramedView;
    SegHere(mem, v, i);
    SegRead(mem, v, 0);
    SegsApartView(mem, v);
    SegPair(v.segs, 0, i);
  }

  /** Memory without the words of `[lo, hi)`. */
  function Outside(mem: Mem, lo: int, hi: int): Mem
  {
    map a | a in mem && (a < lo || a >= hi) :: mem[a]
  }

  lemma OutsideAt(mem: Mem, lo: int, hi: int, a: int)
    ensures a in Outside(mem, lo, hi) <==> a in mem && (a < lo || a >= hi)
    ensures a < lo || a >= hi ==> Get(Outside(mem, lo, hi), a) == Get(mem, a)
  {
  }

  lemma OutsideCarries(mem: Mem, bins: map<int, int>, lo: int, hi: int)
    requires 0 < lo && forall a :: lo <= a < hi ==> !BinnedWord(bins, a)
    ensures Carried(mem, Outside(mem, lo, hi), bins)
  {
  }

  lemma UnsettledView(mem: Mem, bins: map<int, int>, v: View, p: int)
    requires Unsettled(mem, bins, v, p)
    ensures FramedView(mem, v) && BinsIn(bins, v.ch) && p !in bins && p in v.ch && v.ch[p].kind.Free?
  {
  }

  lemma DropWords(mem: Mem, bins: map<int, int>, v: View, i: int)
    requires 0 < i < |v.segs| && FramedView(mem, v) && BinsIn(bins, v.ch) && Filled(v.ch, v.segs[i])
    requires v.segs[i].base !in bins
    ensures Carried(mem, Outside(mem, v.segs[i].base, End(v.segs[i])), bins)
    ensures var a := v.segs[i - 1].at + SEG_NEXT; a in mem && (a < v.segs[i].base || a >= End(v.segs[i]))
  {
    hide FramedView, BinnedWord, Carried, Outside;
    var s := v.segs[i];
    SegRead(mem, v, i);
    SegRead(mem, v, i - 1);
    SegHere(mem, v, i - 1);
    SegsApartView(mem, v);
    SegPair(v.segs, i, i - 1);
    forall a | s.base <= a < End(s)
      ensures !BinnedWord(bins, a)
    {
      DropUnbinned(mem, bins, v, i, a);
    }
    OutsideCarries(mem, bins, s.base, End(s));
  }

  lemma DropUnbinned(mem: Mem, bins: map<int, int>, v: View, i: int, a: int)
    requires 0 < i < |v.segs| && FramedView(mem, v) && BinsIn(bins, v.ch) && Filled(v.ch, v.segs[i])
    requires v.segs[i].base !in bins
    requires v.segs[i].base <= a < End(v.segs[i])
    ensures !BinnedWord(bins, a)
  {
    hide FramedView;
    forall q | q in bins
      ensures !(q <= a < q + bins[q])
    {
      if q < v.segs[i].base { OtherChunks(mem, v, i, q); }
    }
  }

  lemma DroppedWrites(mem: Mem, mem': Mem, v: View, i: int)
    requires 0 < i < |v.segs| && FramedView(mem, v) && Filled(v.ch, v.segs[i]) && v.ch[v.segs[i].base].kind.Free?
    requires mem' == Outside(mem, v.segs[i].base, End(v.segs[i]))[v.segs[i - 1].at + SEG_NEXT := NextAt(v.segs, i)]
    requires var a := v.segs[i - 1].at + SEG_NEXT; a in mem && (a < v.segs[i].base || a >= End(v.segs[i]))
    ensures Dropped(mem, mem', v, i)
  {
    hide FramedView, Filled;
    SegHere(mem, v, i - 1);
    SegRead(mem, v, i - 1);
    SegRead(mem, v, i);
    SegsApartView(mem, v);
    SegPair(v.segs, i, i - 1);
  }

  lemma DroppedIs(v: View, i: int)
    requires 0 < i < |v.segs|
    ensures var v' := DroppedView(v, i);
            v'.dv == v.dv && v'.dvsize == v.dvsize && v'.top == v.top && v'.topsize == v.topsize
                && v'.segs == v.segs[..i] + v.segs[i + 1..]
            && v'.ch == Outer(v.ch, v.segs[i].base, End(v.segs[i]))
  {
  }

  /** The head of the first chunk of a segment can be read. */
  lemma BaseRead(mem: Mem, v: View, i: int)
    requires FramedView(mem, v) && 0 <= i < |v.segs|
    ensures var base := v.segs[i].base;
            && base % 16 == 0 && base in v.ch && base + HEAD in mem
            && SizeOf(HeadOf(mem, base)) == ShownSize(v.ch[base]) && !Tail(v.ch[base].kind)
            && (InUse(HeadOf(mem, base)) <==> Used(v.ch[base].kind))
  {
    hide VictimOk, SegsOk, OneTop, TopOk;
    BaseKind(mem, v, i);
    assert Tagged(mem, v.ch, v.segs[i].base);
    RecordAligned(v.segs[i].base);
  }

  lemma FillsSegment(mem: Mem, v: View, i: int)
    requires FramedView(mem, v) && 0 < i < |v.segs| && v.segs[i].base in v.ch && !Used(v.ch[v.segs[i].base].kind)
    requires !Tail(v.ch[v.segs[i].base].kind)
    requires v.segs[i].base + v.ch[v.segs[i].base].size >= End(v.segs[i]) - TOP_FOOT
    ensures Filled(v.ch, v.segs[i]) && Coalesced(v.ch[v.segs[i].base].kind)
  {
    hide FramedView, Filled;
    TopSegment(mem, v, i);
    Roles(mem, v, v.segs[i].base);
    SegRead(mem, v, i);
    WholeSegment(mem, v, i);
  }

  /** A chunk that fills a segment of whole pages is large. */
  lemma SegLarge(mem: Mem, v: View, i: int)
    requires FramedView(mem, v) && 0 < i < |v.segs| && Paged(v.segs) && Filled(v.ch, v.segs[i])
    requires v.segs[i].base + v.ch[v.segs[i].base].size >= End(v.segs[i]) - TOP_FOOT
    ensures v.ch[v.segs[i].base].size >= MIN_LARGE
  {
    hide FramedView, Filled;
    SegRead(mem, v, i);
    assert v.segs[i].size >= PAGE;
  }

  lemma FilledFree(ch: Tiling, s: Seg)
    requires Filled(ch, s)
    ensures s.base in ch && Filled(ch[s.base := Ck(ch[s.base].size, Free)], s)
  {
  }

  lemma PagedDrop(segs: seq<Seg>, i: int)
    requires 0 <= i < |segs| && Paged(segs)
    ensures Paged(segs[..i] + segs[i + 1..])
  {
  }

  /** `((topsize - pad + unit - 1) / unit - 1) * unit` */
  function TrimExtra(topsize: int, pad: int): int
  {
    ((topsize - pad + GRANULARITY - 1) / GRANULARITY - 1) * GRANULARITY
  }

  /** What a trim may give back: whole units, such that more than `pad` stays. */
  lemma TrimUnits(topsize: int, pad: int)
    requires topsize > pad >= 0
    ensures var extra := TrimExtra(topsize, pad);
            0 <= extra && extra % GRANULARITY == 0 && topsize - extra > pad && topsize - extra <= pad + GRANULARITY
  {
    var q := (topsize - pad + GRANULARITY - 1) / GRANULARITY;
    assert (q - 1) * GRANULARITY == q * GRANULARITY - GRANULARITY;
    Times((q - 1) * GRANULARITY, GRANULARITY, q - 1);
  }

  lemma UnitAligned(a: int)
    requires a % GRANULARITY == 0
    ensures a % 16 == 0 && a % PAGE == 0
  {
    var k := a / GRANULARITY;
    assert a == GRANULARITY * k;
    Times(a, 16, 4096 * k);
    Times(a, PAGE, 16 * k);
  }

  lemma TrimAmount(topsize: int, pad: int)
    requires topsize > pad >= 0
    ensures var extra := TrimExtra(topsize, pad);
            extra >= 0 && extra % 16 == 0 && extra % PAGE == 0 && topsize - extra > pad
                && topsize - extra <= pad + GRANULARITY
  {
    TrimUnits(topsize, pad);
    UnitAligned(TrimExtra(topsize, pad));
  }

  lemma TrimWords(mem: Mem, bins: map<int, int>, v: View, hi: int)
    requires FramedView(mem, v) && BinsIn(bins, v.ch) && |v.segs| > 0 && v.top < hi <= End(v.segs[0])
    ensures Carried(mem, Outside(mem, hi, End(v.segs[0])), bins)
  {
    hide FramedView, BinnedWord, Carried, Outside, BinsIn;
    TopOnly(mem, v);
    forall a | hi <= a < End(v.segs[0])
      ensures !BinnedWord(bins, a)
    {
      TopWord(mem, bins, v, a);
    }
    OutsideCarries(mem, bins, hi, End(v.segs[0]));
  }

  lemma TrimHead(mem: Mem, bins: map<int, int>, v: View, hi: int, p: int)
    requires FramedView(mem, v) && BinsIn(bins, v.ch) && |v.segs| > 0 && v.top < hi <= End(v.segs[0])
    requires v.top <= p < hi - 16 && p % 16 == 0
    ensures p + HEAD in mem && p + HEAD in Outside(mem, hi, End(v.segs[0])) && !BinnedWord(bins, p + HEAD)
    ensures !BinWord(p + HEAD)
  {
    hide FramedView, BinnedWord, BinsIn, BinWord, Outside;
    TopOnly(mem, v);
    TopWord(mem, bins, v, p + HEAD);
    RecordAligned(p);
    SegCovers(mem, v, 0, p + HEAD);
    OutsideAt(mem, hi, End(v.segs[0]), p + HEAD);
  }

  lemma TrimRetop(mem: Mem, mem': Mem, v: View, extra: int)
    requires |v.segs| > 0 && FramedView(mem, v) && extra > 0 && extra % 16 == 0 && v.topsize - extra >= 16
    requires SEG_HEAD + SEG_SIZE in mem && v.top + HEAD in mem && v.top + v.topsize - extra + HEAD in mem
    requires var hi := End(v.segs[0]) - extra;
             mem' == Outside(mem, hi, End(v.segs[0]))[SEG_HEAD + SEG_SIZE := v.segs[0].size - extra]
                 [v.top + HEAD := v.topsize - extra + PINUSE][v.top + v.topsize - extra + HEAD := TOP_FOOT]
    ensures Retop(mem, mem', v, End(v.segs[0]) - extra)
  {
    hide FramedView;
    TopOnly(mem, v);
    SegRead(mem, v, 0);
    SegHere(mem, v, 0);
    SegsApartView(mem, v);
    SegEnds(mem, v, 0);
    forall a | v.top <= a < End(v.segs[0]) && a % 8 == 0
      ensures a in mem
    {
      SegCovers(mem, v, 0, a);
    }
  }

  lemma HeldThere(mem: Mem, bins: map<int, int>, v: View, p: int)
    requires HeapOk(mem, bins, v) && p in Holdings(v.ch)
    ensures Sound(mem, bins, v) && v.top != NULL && p in v.ch && v.ch[p].kind.Live? && p > 0 && p + HEAD in mem
  {
    hide SegsOk, VictimOk, Binned, TopOk, OneTop;
    assert p in v.ch;
    assert Tagged(mem, v.ch, p);
    RecordAligned(p);
  }

  /** A release followed by a step that keeps all holdings. */
  lemma ReleasedThen(m0: Mem, c0: Tiling, m1: Mem, c1: Tiling, m2: Mem, c2: Tiling, p: int)
    requires Released(m0, c0, m1, c1, p) && Holdings(c2) == Holdings(c1) && SamePayloads(m1, m2, Holdings(c1))
    ensures Released(m0, c0, m2, c2, p)
  {
    PayloadsTrans(m0, m1, m2, Holdings(c1));
  }

  // ---------------------------------------------------------------- growing in place

  lemma TopRoom(p: int, oldsize: int, nb: int, topsize: int)
    requires topsize % 16 == 0 && nb % 16 == 0 && oldsize % 16 == 0 && p % 16 == 0 && nb < oldsize + topsize
    ensures p + nb + 16 <= p + oldsize + topsize && (p + nb) % 16 == 0
  {
    Mod16(p, nb);
    Mod16(oldsize, topsize);
    Mod16(oldsize + topsize, nb);
  }

  lemma PrefixSelf(mem: Mem, p: int, size: int)
    ensures PrefixKept(mem, mem, p, size)
  {
  }

  lemma LiveSize(mem: Mem, v: View, p: int)
    requires FramedView(mem, v) && p in v.ch && v.ch[p].kind.Live?
    ensures v.ch[p].size % 16 == 0 && MIN_CHUNK <= v.ch[p].size < WORD && p % 16 == 0 && p > 0
  {
    hide SegsOk, Backed;
    assert Tagged(mem, v.ch, p);
  }

  /** The end of a chunk that grows into the free chunk behind it. */
  lemma FreeRoom(p: int, oldsize: int, next: int, nb: int)
    requires p % 16 == 0 && oldsize % 16 == 0 && nb % 16 == 0
    ensures (p + nb) % 16 == 0 && (p + oldsize) % 16 == 0
  {
    Mod16(p, nb);
    Mod16(p, oldsize);
  }

  lemma RegrownSelf(mem: Mem, ch: Tiling, p: int)
    requires p in ch && ch[p].kind.Live?
    ensures Regrown(mem, ch, mem, ch, p, ch[p].size)
  {
    assert Holdings(ch)[p := Ck(ch[p].size, Live)] == Holdings(ch);
  }
}
