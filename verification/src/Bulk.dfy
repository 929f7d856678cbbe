/** Releasing many chunks: what is still to be released, and that the way it is done leaves no trace. */
module Bulk {
  import opened Sizes
  import opened Rings
  import opened Heads
  import opened Tries
  import opened Stores
  import opened Tags
  import opened Heaps
  import opened Retags
  import opened HeapOps
  import opened Coalescing
  import opened SystemSteps
  import opened Payloads

  /** The chunks that the non-null pointers of `s` stand for. */
  ghost function Targets(s: seq<int>): set<int>
  {
    set k | 0 <= k < |s| && s[k] != NULL :: s[k] - MEM_OFFSET
  }

  /** Non-null pointers are distinct and stand for chunks that the program holds. */
  ghost predicate Doomed(s: seq<int>, ch: Tiling)
  {
    && (forall k :: 0 <= k < |s| && s[k] != NULL ==> s[k] - MEM_OFFSET in Holdings(ch))
    && (forall j, k :: 0 <= j < k < |s| && s[j] != NULL ==> s[j] != s[k])
  }

  /** All but the pending chunks are as they will be in the end. */
  ghost predicate Settled(mem: Mem, mem': Mem, ch': Tiling, s: seq<int>, kept: Tiling)
  {
    Doomed(s, ch') && Holdings(ch') - Targets(s) == kept && SamePayloads(mem, mem', kept)
  }

  lemma SkipNull(s: seq<int>, ch: Tiling)
    requires |s| > 0 && s[0] == NULL && Doomed(s, ch)
    ensures Doomed(s[1..], ch) && Targets(s[1..]) == Targets(s)
  {
    var r := s[1..];
    forall q
      ensures q in Targets(s) <==> q in Targets(r)
    {
      if q in Targets(s) {
        var k :| 0 <= k < |s| && s[k] != NULL && s[k] - MEM_OFFSET == q;
        assert r[k - 1] == s[k];
      }
    }
  }

  lemma HeadTarget(s: seq<int>, ch: Tiling)
    requires |s| > 0 && s[0] != NULL && Doomed(s, ch)
    ensures Targets(s[1..]) == Targets(s) - {s[0] - MEM_OFFSET} && s[0] - MEM_OFFSET in Targets(s)
  {
    var r := s[1..];
    forall q
      ensures q in Targets(r) <==> q in Targets(s) && q != s[0] - MEM_OFFSET
    {
      if q in Targets(s) && q != s[0] - MEM_OFFSET {
        var k :| 0 <= k < |s| && s[k] != NULL && s[k] - MEM_OFFSET == q;
        assert r[k - 1] == s[k];
      }
      if q in Targets(r) {
        var k :| 0 <= k < |r| && r[k] != NULL && r[k] - MEM_OFFSET == q;
        assert s[k + 1] == r[k];
      }
    }
  }

  /** One chunk disposed of. */
  lemma DisposedSettled(mem: Mem, m1: Mem, c1: Tiling, m2: Mem, c2: Tiling, s: seq<int>, kept: Tiling)
    requires |s| > 0 && s[0] != NULL && Settled(mem, m1, c1, s, kept) && Released(m1, c1, m2, c2, s[0] - MEM_OFFSET)
    ensures Settled(mem, m2, c2, s[1..], kept)
  {
    var p, r := s[0] - MEM_OFFSET, s[1..];
    HeadTarget(s, c1);
    assert forall k :: 0 <= k < |r| ==> r[k] == s[k + 1];
    var h1, h2 := Holdings(c1), Holdings(c2);
    assert h2 - Targets(r) == kept;
    forall q, a | q in kept && q + MEM_OFFSET <= a < q + kept[q].size + 8
      ensures Get(m2, a) == Get(mem, a)
    {
      assert Get(m1, a) == Get(mem, a);
      assert h2[q] == kept[q];
    }
  }

  /** One chunk merged with the next, which is pending too; the merged chunk is pending in its place. */
  lemma MergedSettled(mem: Mem, m1: Mem, c1: Tiling, m2: Mem, c2: Tiling, s: seq<int>, kept: Tiling, hi: int)
    requires |s| > 1 && s[0] != NULL && s[1] != NULL && Settled(mem, m1, c1, s, kept)
    requires Merged(m1, c1, m2, c2, s[0] - MEM_OFFSET, s[1] - MEM_OFFSET, hi)
    ensures Settled(mem, m2, c2, [s[0]] + s[2..], kept)
  {
    var p, n, r := s[0] - MEM_OFFSET, s[1] - MEM_OFFSET, [s[0]] + s[2..];
    MergedTargets(s, c1);
    var h1, h2 := Holdings(c1), Holdings(c2);
    forall k | 0 <= k < |r| && r[k] != NULL
      ensures r[k] - MEM_OFFSET in h2
    {
      assert r[k] == s[if k == 0 then 0 else k + 1];
    }
    forall j, k | 0 <= j < k < |r| && r[j] != NULL
      ensures r[j] != r[k]
    {
      assert r[j] == s[if j == 0 then 0 else j + 1] && r[k] == s[k + 1];
    }
    assert h2 - Targets(r) == kept;
    forall q, a | q in kept && q + MEM_OFFSET <= a < q + kept[q].size + 8
      ensures Get(m2, a) == Get(mem, a)
    {
      assert Get(m1, a) == Get(mem, a);
      assert (h1 - {p, n})[q] == kept[q];
    }
  }

  lemma MergedTargets(s: seq<int>, ch: Tiling)
    requires |s| > 1 && s[0] != NULL && s[1] != NULL && Doomed(s, ch)
    ensures Targets([s[0]] + s[2..]) == Targets(s) - {s[1] - MEM_OFFSET}
    ensures s[0] - MEM_OFFSET in Targets(s) && s[1] - MEM_OFFSET in Targets(s) && s[0] != s[1]
  {
    var r := [s[0]] + s[2..];
    assert forall q :: q in Targets(r) <==> q in Targets(s) && q != s[1] - MEM_OFFSET by {
      forall q
        ensures q in Targets(r) <==> q in Targets(s) && q != s[1] - MEM_OFFSET
      {
        if q in Targets(s) && q != s[1] - MEM_OFFSET { MergedHas(s, q); }
        if q in Targets(r) { MergedOnly(s, ch, q); }
      }
    }
  }

  lemma MergedHas(s: seq<int>, q: int)
    requires |s| > 1 && q in Targets(s) && q != s[1] - MEM_OFFSET
    ensures q in Targets([s[0]] + s[2..])
  {
    var r := [s[0]] + s[2..];
    var k :| 0 <= k < |s| && s[k] != NULL && s[k] - MEM_OFFSET == q;
    assert r[if k == 0 then 0 else k - 1] == s[k];
  }

  lemma MergedOnly(s: seq<int>, ch: Tiling, q: int)
    requires |s| > 1 && s[0] != NULL && s[1] != NULL && Doomed(s, ch) && q in Targets([s[0]] + s[2..])
    ensures q in Targets(s) && q != s[1] - MEM_OFFSET
  {
    var r := [s[0]] + s[2..];
    var k :| 0 <= k < |r| && r[k] != NULL && r[k] - MEM_OFFSET == q;
    assert s[if k == 0 then 0 else k + 1] == r[k];
  }

  /** Two neighbouring chunks in use became one. */
  ghost predicate Merged(m1: Mem, c1: Tiling, m2: Mem, c2: Tiling, p: int, n: int, hi: int)
  {
    && p in Holdings(c1) && n in Holdings(c1) && p != n
    && Holdings(c2) == (Holdings(c1) - {n})[p := Ck(hi - p, Live)] && SamePayloads(m1, m2, Holdings(c1) - {p, n})
  }

  lemma MergedFrom(m1: Mem, c1: Tiling, m2: Mem, c2: Tiling, p: int, n: int, hi: int)
    requires Tiled(m1, c1) && p in c1 && n in c1 && c1[p].kind.Live? && c1[n].kind.Live? && n == p + c1[p].size
    requires hi == n + c1[n].size
    requires Kept(m1, c1, m2, c2, p, hi) && c2 == One(c1, p, hi, Live)
    ensures Merged(m1, c1, m2, c2, p, n, hi)
  {
    assert Tagged(m1, c1, p) && Tagged(m1, c1, n);
    StretchAlone(m1, c1, p);
    StretchAlone(m1, c1, n);
    var hs, hs2 := (Holdings(c1) - {n})[p := Ck(hi - p, Live)], Holdings(c2);
    forall q
      ensures q in hs <==> q in hs2
      ensures q in hs ==> hs[q] == hs2[q]
    {
    }
    var rest := Holdings(c1) - {p, n};
    forall q, a | q in rest && q + MEM_OFFSET <= a < q + rest[q].size + 8
      ensures Get(m2, a) == Get(m1, a)
    {
      assert c1[q] == rest[q];
    }
  }

  lemma AllSettled(mem: Mem, mem': Mem, ch': Tiling, s: seq<int>, kept: Tiling)
    requires Settled(mem, mem', ch', s, kept) && (forall k :: 0 <= k < |s| ==> s[k] == NULL)
    ensures Holdings(ch') == kept && SamePayloads(mem, mem', kept)
  {
    assert Targets(s) == {};
    assert Holdings(ch') - {} == Holdings(ch');
  }

  lemma SettledStart(mem: Mem, ch: Tiling, s: seq<int>, kept: Tiling)
    requires Doomed(s, ch) && kept == Holdings(ch) - Targets(s) && SamePayloads(mem, mem, kept)
    ensures Settled(mem, mem, ch, s, kept)
  {
  }

  lemma SettledSkip(mem: Mem, m1: Mem, c1: Tiling, s: seq<int>, kept: Tiling)
    requires |s| > 0 && s[0] == NULL && Settled(mem, m1, c1, s, kept)
    ensures Settled(mem, m1, c1, s[1..], kept)
  {
    SkipNull(s, c1);
  }

  lemma SettledEnd(mem: Mem, mem': Mem, ch': Tiling, s: seq<int>, kept: Tiling)
    requires Settled(mem, mem', ch', s, kept) && s == []
    ensures Holdings(ch') == kept && SamePayloads(mem, mem', kept)
  {
    AllSettled(mem, mem', ch', s, kept);
  }

  lemma LiveSuccessor(mem: Mem, v: View, p: int)
    requires FramedView(mem, v) && p in v.ch && v.ch[p].kind.Live?
    ensures var n := p + v.ch[p].size; n in v.ch && !Tail(v.ch[n].kind)
  {
    hide SegsOk, Backed, VictimOk;
    assert Tagged(mem, v.ch, p);
  }

  /** The chunk behind the first pending pointer. */
  lemma DoomedHead(mem: Mem, m1: Mem, c1: Tiling, bins: map<int, int>, v: View, s: seq<int>, kept: Tiling)
    requires |s| > 0 && s[0] != NULL && Settled(mem, m1, c1, s, kept) && Sound(m1, bins, v) && v.ch == c1
    ensures var p := s[0] - MEM_OFFSET; p in v.ch && v.ch[p] == Ck(SizeOf(HeadOf(m1, p)), Live)
  {
    hide FramedView, Binned, Tiled, BinsIn, SizeOf;
    var p := s[0] - MEM_OFFSET;
    assert p in Holdings(c1);
    SoundParts(m1, bins, v);
    NotMmapped(m1, v.ch, p);
  }

  lemma DoomedNext(mem: Mem, m1: Mem, c1: Tiling, bins: map<int, int>, v: View, s: seq<int>, kept: Tiling, next: int)
    requires |s| > 1 && s[0] != NULL && s[1] == next + MEM_OFFSET && Settled(mem, m1, c1, s, kept)
    requires Sound(m1, bins, v) && v.ch == c1
    requires next == s[0] - MEM_OFFSET + SizeOf(HeadOf(m1, s[0] - MEM_OFFSET))
    ensures s[1] != NULL && next in v.ch && v.ch[next] == Ck(SizeOf(HeadOf(m1, next)), Live)
  {
    hide FramedView, Binned, Tiled, BinsIn, SizeOf;
    DoomedHead(mem, m1, c1, bins, v, s, kept);
    SoundParts(m1, bins, v);
    LiveSize(m1, v, s[0] - MEM_OFFSET);
    assert next in Holdings(c1);
    NotMmapped(m1, v.ch, next);
  }
}
