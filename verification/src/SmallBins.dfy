/** The small bins: one ring per bin, anchored at a header among the allocator's own words. */
module SmallBins {
  import opened Bits
  import opened Sizes
  import opened Rings
  import opened Tries

  /** The address of the pretend chunk that anchors small bin `i` (`smallbin_at`). */
  function Header(i: int): int { -1024 + 16 * i }

  function Anchored(i: int, l: seq<int>): seq<int> { [Header(i)] + l }

  /** One bin: its members all have the one size of the bin; the ring links are only meaningful while it is marked. */
  ghost predicate SmallBin(mem: Mem, bins: map<int, int>, i: int, l: seq<int>)
  {
    && Spaced(Anchored(i, l))
    && (l != [] ==> Ring(mem, Anchored(i, l)))
    && (forall k :: 0 <= k < |l| ==> l[k] in bins && bins[l[k]] == 8 * i)
  }

  ghost predicate SmallOk(mem: Mem, bins: map<int, int>, sb: seq<seq<int>>)
  {
    && |sb| == 32
    && (forall i {:trigger SmallBin(mem, bins, i, sb[i])} :: 0 <= i < 32 ==> SmallBin(mem, bins, i, sb[i]))
    && (forall p :: p in bins && 0 <= bins[p] < MIN_LARGE ==> p in sb[bins[p] / 8])
  }

  lemma SmallFrame(mem: Mem, mem': Mem, bins: map<int, int>, bins': map<int, int>, i: int, l: seq<int>)
    requires SmallBin(mem, bins, i, l) && 0 <= i < 32
    requires Get(mem', Header(i) + PREV) == Get(mem, Header(i) + PREV)
    requires Get(mem', Header(i) + NEXT) == Get(mem, Header(i) + NEXT)
    requires forall k :: 0 <= k < |l| ==>
        Get(mem', l[k] + PREV) == Get(mem, l[k] + PREV) && Get(mem', l[k] + NEXT) == Get(mem, l[k] + NEXT)
    requires forall k :: 0 <= k < |l| ==> l[k] in bins' && bins'[l[k]] == bins[l[k]]
    ensures SmallBin(mem', bins', i, l)
  {
    if l != [] {
      var r := Anchored(i, l);
      forall k | 0 <= k < |r|
        ensures Get(mem', r[k] + PREV) == Get(mem, r[k] + PREV) && Get(mem', r[k] + NEXT) == Get(mem, r[k] + NEXT)
      {
      }
      RingFrame(mem, mem', r);
    }
  }

  ghost predicate AppendWritten(mem: Mem, mem': Mem, i: int, l: seq<int>, c: int)
  {
    var h := Header(i);
    var f := if l == [] then h else l[|l| - 1];
    && SameExcept(mem, mem', {h + PREV, f + NEXT, c + PREV, c + NEXT})
    && Get(mem', h + PREV) == c && Get(mem', f + NEXT) == c && Get(mem', c + PREV) == f && Get(mem', c + NEXT) == h
  }

  /** Appending to a bin, whether or not it was empty. */
  lemma AppendSelf(mem: Mem, mem': Mem, bins: map<int, int>, i: int, l: seq<int>, c: int)
    requires SmallBin(mem, bins, i, l) && 0 <= i < 32 && c > 0 && c % 16 == 0 && c !in bins
    requires AppendWritten(mem, mem', i, l, c)
    ensures SmallBin(mem', bins[c := 8 * i], i, l + [c])
  {
    var r := Anchored(i, l);
    assert Anchored(i, l + [c]) == r + [c];
    assert forall k :: 0 <= k < |r| ==> r[k] != c;
    assert Spaced(r + [c]);
    forall k | 0 <= k < |r|
      ensures k > 0 ==> Get(mem', r[k] + PREV) == Get(mem, r[k] + PREV)
      ensures k < |r| - 1 ==> Get(mem', r[k] + NEXT) == Get(mem, r[k] + NEXT)
    {
      assert r[k] % 16 == 0 && r[0] % 16 == 0 && r[|r| - 1] % 16 == 0;
      assert k > 0 ==> r[0] != r[k];
      assert k < |r| - 1 ==> r[k] != r[|r| - 1];
    }
    assert r[|r| - 1] == if l == [] then Header(i) else l[|l| - 1];
    RingAppend(mem, mem', r, c);
  }

  /** The members of another bin, or of this one, are different aligned chunks. */
  lemma AppendOther(mem: Mem, mem': Mem, bins: map<int, int>, sb: seq<seq<int>>, i: int, c: int, j: int)
    requires |sb| == 32 && 0 <= i < 32 && 0 <= j < 32 && i != j && BinsOk(bins) && c > 0 && c % 16 == 0 && c !in bins
    requires SmallBin(mem, bins, i, sb[i]) && SmallBin(mem, bins, j, sb[j])
    requires AppendWritten(mem, mem', i, sb[i], c)
    ensures SmallBin(mem', bins[c := 8 * i], j, sb[j])
  {
    var l := sb[j];
    var f := if sb[i] == [] then Header(i) else sb[i][|sb[i]| - 1];
    forall k | 0 <= k < |l|
      ensures Get(mem', l[k] + PREV) == Get(mem, l[k] + PREV) && Get(mem', l[k] + NEXT) == Get(mem, l[k] + NEXT)
    {
      assert l[k] in bins && l[k] > 0 && l[k] % 16 == 0 && bins[l[k]] != 8 * i;
      assert f % 16 == 0 && f != l[k];
    }
    SmallFrame(mem, mem', bins, bins[c := 8 * i], j, l);
  }

  lemma AppendAll(mem: Mem, mem': Mem, bins: map<int, int>, sb: seq<seq<int>>, i: int, c: int)
    requires SmallOk(mem, bins, sb) && 0 <= i < 32 && BinsOk(bins) && c > 0 && c % 16 == 0 && c !in bins
    requires AppendWritten(mem, mem', i, sb[i], c)
    ensures SmallOk(mem', bins[c := 8 * i], sb[i := sb[i] + [c]])
  {
    var bins', sb' := bins[c := 8 * i], sb[i := sb[i] + [c]];
    forall j | 0 <= j < 32
      ensures SmallBin(mem', bins', j, sb'[j])
    {
      assert SmallBin(mem, bins, j, sb[j]) && SmallBin(mem, bins, i, sb[i]);
      if j == i {
        AppendSelf(mem, mem', bins, i, sb[i], c);
      } else {
        AppendOther(mem, mem', bins, sb, i, c, j);
      }
    }
    forall p | p in bins' && 0 <= bins'[p] < MIN_LARGE
      ensures p in sb'[bins'[p] / 8]
    {
      if p == c { assert sb'[i][|sb[i]|] == c; } else { assert p in sb[bins[p] / 8]; }
    }
  }

  // ---------------------------------------------------------------- removal

  /** Unlinking the member at `k`; the last member is removed by clearing the bin's mark alone. */
  ghost predicate CutWritten(mem: Mem, mem': Mem, i: int, l: seq<int>, k: int)
    requires 0 <= k < |l|
  {
    var r := Anchored(i, l);
    if |l| == 1 then SameExcept(mem, mem', {})
    else
      && SameExcept(mem, mem', {r[k] + NEXT, r[After(r, k + 1)] + PREV})
      && Get(mem', r[k] + NEXT) == r[After(r, k + 1)] && Get(mem', r[After(r, k + 1)] + PREV) == r[k]
  }

  lemma CutSelf(mem: Mem, mem': Mem, bins: map<int, int>, i: int, l: seq<int>, k: int)
    requires SmallBin(mem, bins, i, l) && 0 <= i < 32 && 0 <= k < |l| && CutWritten(mem, mem', i, l, k)
    ensures SmallBin(mem', bins - {l[k]}, i, Without(l, k))
  {
    var r := Anchored(i, l);
    assert Anchored(i, Without(l, k)) == Without(r, k + 1);
    assert r[k + 1] == l[k];
    CutSpaced(r, k + 1);
    if |l| > 1 { CutRing(mem, mem', r, k + 1); }
    CutMembers(bins, i, l, k);
  }

  lemma CutSpaced(r: seq<int>, k: int)
    requires Spaced(r) && 0 <= k < |r|
    ensures Spaced(Without(r, k))
  {
  }

  lemma CutMembers(bins: map<int, int>, i: int, l: seq<int>, k: int)
    requires Spaced(l) || Spaced(Anchored(i, l))
    requires 0 <= k < |l| && forall m :: 0 <= m < |l| ==> l[m] in bins && bins[l[m]] == 8 * i
    ensures forall m :: 0 <= m < |l| - 1 ==>
        Without(l, k)[m] in bins - {l[k]} && (bins - {l[k]})[Without(l, k)[m]] == 8 * i
  {
    var r := Anchored(i, l);
    forall m | 0 <= m < |l| && m != k
      ensures l[m] != l[k]
    {
      assert r[m + 1] == l[m] && r[k + 1] == l[k];
      assert m < k ==> r[m + 1] != r[k + 1];
      assert k < m ==> r[k + 1] != r[m + 1];
    }
  }

  lemma CutRing(mem: Mem, mem': Mem, r: seq<int>, k: int)
    requires Ring(mem, r) && Spaced(r) && |r| >= 3 && 0 < k < |r|
    requires SameExcept(mem, mem', {r[k - 1] + NEXT, r[After(r, k)] + PREV})
    requires Get(mem', r[k - 1] + NEXT) == r[After(r, k)] && Get(mem', r[After(r, k)] + PREV) == r[k - 1]
    ensures Ring(mem', Without(r, k))
  {
    forall i | 0 <= i < |r|
      ensures i != After(r, k) ==> Get(mem', r[i] + PREV) == Get(mem, r[i] + PREV)
      ensures i != k - 1 ==> Get(mem', r[i] + NEXT) == Get(mem, r[i] + NEXT)
    {
      assert r[i] % 16 == 0 && r[k - 1] % 16 == 0 && r[After(r, k)] % 16 == 0;
    }
    RingRemove(mem, mem', r, k);
  }

  lemma CutOther(mem: Mem, mem': Mem, bins: map<int, int>, i: int, l: seq<int>, k: int, j: int, m: seq<int>)
    requires 0 <= i < 32 && 0 <= j < 32 && i != j && 0 <= k < |l|
    requires SmallBin(mem, bins, i, l) && SmallBin(mem, bins, j, m) && BinsOk(bins)
    requires CutWritten(mem, mem', i, l, k)
    ensures SmallBin(mem', bins - {l[k]}, j, m)
  {
    var r := Anchored(i, l);
    var f, b := r[k], r[After(r, k + 1)];
    assert forall x :: 0 <= x < |r| ==> r[x] == Header(i) || (r[x] in bins && bins[r[x]] == 8 * i);
    assert f % 16 == 0 && b % 16 == 0;
    forall x | 0 <= x < |m|
      ensures m[x] != l[k]
      ensures Get(mem', m[x] + PREV) == Get(mem, m[x] + PREV) && Get(mem', m[x] + NEXT) == Get(mem, m[x] + NEXT)
    {
      assert m[x] in bins && m[x] > 0 && m[x] % 16 == 0 && bins[m[x]] != 8 * i;
      assert l[k] in bins && bins[l[k]] == 8 * i;
    }
    SmallFrame(mem, mem', bins, bins - {l[k]}, j, m);
  }

  lemma CutAll(mem: Mem, mem': Mem, bins: map<int, int>, sb: seq<seq<int>>, i: int, k: int)
    requires SmallOk(mem, bins, sb) && 0 <= i < 32 && BinsOk(bins) && 0 <= k < |sb[i]|
    requires CutWritten(mem, mem', i, sb[i], k)
    ensures SmallOk(mem', bins - {sb[i][k]}, sb[i := Without(sb[i], k)])
  {
    var c := sb[i][k];
    var bins', sb' := bins - {c}, sb[i := Without(sb[i], k)];
    assert SmallBin(mem, bins, i, sb[i]);
    forall j | 0 <= j < 32
      ensures SmallBin(mem', bins', j, sb'[j])
    {
      assert SmallBin(mem, bins, j, sb[j]);
      if j == i {
        CutSelf(mem, mem', bins, i, sb[i], k);
      } else {
        CutOther(mem, mem', bins, i, sb[i], k, j, sb[j]);
      }
    }
    forall p | p in bins' && 0 <= bins'[p] < MIN_LARGE
      ensures p in sb'[bins'[p] / 8]
    {
      assert p in sb[bins[p] / 8];
      if bins[p] / 8 == i {
        var m :| 0 <= m < |sb[i]| && sb[i][m] == p;
        assert Without(sb[i], k)[if m < k then m else m - 1] == p;
      }
    }
  }
}
