/** The four outcomes of `unlink_large_chunk`, each as a whole: the forest without the chunk is in order again. */
module TrieUnlink {
  import opened Bits
  import opened Sizes
  import opened Rings
  import opened Tries
  import opened TrieRemove

  // ---------------------------------------------------------------- leaving a ring of several

  ghost predicate DropWritten(mem: Mem, mem': Mem, r: seq<int>, k: int)
    requires 0 <= k < |r|
  {
    && SameExcept(mem, mem', {r[Before(r, k)] + NEXT, r[After(r, k)] + PREV})
    && Get(mem', r[Before(r, k)] + NEXT) == r[After(r, k)]
    && Get(mem', r[After(r, k)] + PREV) == r[Before(r, k)]
  }

  lemma DropRing(mem: Mem, mem': Mem, r: seq<int>, k: int)
    requires Ring(mem, r) && Scattered(r) && |r| >= 2 && 0 <= k < |r| && DropWritten(mem, mem', r, k)
    ensures Ring(mem', Without(r, k))
  {
    var f, b := Before(r, k), After(r, k);
    forall i | 0 <= i < |r|
      ensures i != b ==> Get(mem', r[i] + PREV) == Get(mem, r[i] + PREV)
      ensures i != f ==> Get(mem', r[i] + NEXT) == Get(mem, r[i] + NEXT)
    {
      PairAway(r, i, f);
      PairAway(r, i, b);
    }
    RingRemove(mem, mem', r, k);
  }

  lemma PairAway(r: seq<int>, i: int, j: int)
    requires Scattered(r) && 0 <= i < |r| && 0 <= j < |r|
    ensures i != j ==> Away(r[i], r[j])
  {
  }

  lemma DropKeeps(mem: Mem, mem': Mem, r: seq<int>, k: int, i: int)
    requires Scattered(r) && |r| >= 2 && 0 <= k < |r| && 0 <= i < |r| && DropWritten(mem, mem', r, k)
    ensures Get(mem', r[i] + INDEX) == Get(mem, r[i] + INDEX) && Get(mem', r[i] + PARENT) == Get(mem, r[i] + PARENT)
    ensures Get(mem', r[i] + CHILD0) == Get(mem, r[i] + CHILD0) && Get(mem', r[i] + CHILD1) == Get(mem, r[i] + CHILD1)
  {
    PairAway(r, i, Before(r, k));
    PairAway(r, i, After(r, k));
  }

  lemma DropFollower(mem: Mem, mem': Mem, trie: Trie, p: Pos, k: int, i: int)
    requires p in trie && Placed(mem, trie, p) && Scattered(trie[p]) && 0 < k < |trie[p]|
    requires DropWritten(mem, mem', trie[p], k) && 0 <= i < |trie[p]| - 1
    ensures var n := Without(trie[p], k); Get(mem', n[i] + INDEX) == p.bin && (i > 0 ==> Follower(mem', n[i]))
  {
    hide Ring, Scattered;
    var j := if i < k then i else i + 1;
    DropKeeps(mem, mem', trie[p], k, j);
    assert j > 0 ==> Follower(mem, trie[p][j]);
  }

  lemma DropTree(mem: Mem, mem': Mem, trie: Trie, p: Pos, k: int)
    requires p in trie && Placed(mem, trie, p) && Scattered(trie[p]) && 0 < k < |trie[p]|
    requires DropWritten(mem, mem', trie[p], k)
    ensures var trie', n := trie[p := Without(trie[p], k)], Without(trie[p], k);
            && n[0] == trie[p][0]
            && Get(mem', n[0] + CHILD0) == At(trie', Kid(p, false))
            && Get(mem', n[0] + CHILD1) == At(trie', Kid(p, true))
            && Get(mem', n[0] + PARENT) == ParentOf(trie', p)
  {
    hide Ring, Scattered, Follower;
    DropKeeps(mem, mem', trie[p], k, 0);
    KidUp(p, false);
    KidUp(p, true);
  }

  lemma DropFollowerPlaced(mem: Mem, mem': Mem, trie: Trie, p: Pos, k: int)
    requires p in trie && Placed(mem, trie, p) && Scattered(trie[p]) && 0 < k < |trie[p]|
    requires DropWritten(mem, mem', trie[p], k)
    ensures Placed(mem', trie[p := Without(trie[p], k)], p)
  {
    hide Ring, Scattered, DropWritten, Follower;
    var n := Without(trie[p], k);
    DropRing(mem, mem', trie[p], k);
    forall i | 0 <= i < |n|
      ensures Get(mem', n[i] + INDEX) == p.bin && (i > 0 ==> Follower(mem', n[i]))
    {
      DropFollower(mem, mem', trie, p, k, i);
    }
    DropTree(mem, mem', trie, p, k);
  }

  lemma DropHeadDetached(mem: Mem, mem': Mem, trie: Trie, p: Pos)
    requires p in trie && Placed(mem, trie, p) && Scattered(trie[p]) && |trie[p]| >= 2
    requires DropWritten(mem, mem', trie[p], 0)
    ensures Detached(mem', Without(trie[p], 0), p.bin)
  {
    var r := trie[p];
    var n := Without(r, 0);
    DropRing(mem, mem', r, 0);
    forall i | 0 <= i < |n|
      ensures Get(mem', n[i] + INDEX) == p.bin && Follower(mem', n[i])
    {
      assert n[i] == r[i + 1];
      DropKeeps(mem, mem', r, 0, i + 1);
      assert Follower(mem, r[i + 1]);
    }
  }

  /** Ring surgery at `p` does not concern the other positions; `trie'` may have any ring with the same head at `p`. */
  lemma DropOthers(mem: Mem, mem': Mem, trie: Trie, trie': Trie, p: Pos, k: int, q: Pos)
    requires p in trie && 0 <= k < |trie[p]| && |trie[p]| >= 2 && DropWritten(mem, mem', trie[p], k)
    requires q in trie && q != p && Placed(mem, trie, q) && forall i :: 0 <= i < |trie[q]| ==> trie[q][i] > 0
    requires q in trie' && trie'[q] == trie[q] && forall x :: At(trie', x) == At(trie, x)
    requires Clear(trie[q], trie[p][Before(trie[p], k)]) && Clear(trie[q], trie[p][After(trie[p], k)])
    ensures Placed(mem', trie', q)
  {
    var f, b := trie[p][Before(trie[p], k)], trie[p][After(trie[p], k)];
    OthersFrame(mem, mem', trie, trie', q, {f + NEXT, b + PREV}, {f, b});
  }

  lemma DropNode(mem: Mem, mem': Mem, bins: map<int, int>, trie: Trie, home: map<int, Pos>, trie': Trie, p: Pos,
      k: int, q: Pos)
    requires BinsOk(bins) && Homed(bins, trie, home) && AllShaped(bins, trie)
    requires p in trie && 0 <= k < |trie[p]| && |trie[p]| >= 2 && DropWritten(mem, mem', trie[p], k)
    requires q in trie && q != p && Placed(mem, trie, q)
    requires q in trie' && trie'[q] == trie[q] && forall x :: At(trie', x) == At(trie, x)
    ensures Placed(mem', trie', q)
  {
    assert Shaped(bins, trie, q) && Shaped(bins, trie, p);
    RingPositive(bins, trie, q);
    OtherClear(bins, trie, home, q, p, Before(trie[p], k));
    OtherClear(bins, trie, home, q, p, After(trie[p], k));
    DropOthers(mem, mem', trie, trie', p, k, q);
  }

  lemma DropSlots(mem: Mem, mem': Mem, trie: Trie, trie': Trie, r: seq<int>, k: int)
    requires 0 <= k < |r| && DropWritten(mem, mem', r, k) && Slots(mem, trie)
    requires r[Before(r, k)] > 0 && r[After(r, k)] > 0
    requires forall x :: At(trie', x) == At(trie, x)
    ensures Slots(mem', trie')
  {
  }

  // ---------------------------------------------------------------- the forest without the chunk

  ghost predicate Drops(bins: map<int, int>, trie: Trie, home: map<int, Pos>, p: Pos, k: int, c: int)
  {
    ForestOk(bins, trie, home) && p in trie && 0 <= k < |trie[p]| && trie[p][k] == c
  }

  lemma ShapedSub(bins: map<int, int>, trie: Trie, home: map<int, Pos>, trie': Trie, c: int, q: Pos)
    requires q in trie && Shaped(bins, trie, q) && q in trie' && trie'[q] == trie[q]
    requires Homed(bins, trie, home) && c in home && home[c] != q
    requires q.path != [] ==> Up(q) in trie'
    ensures Shaped(bins - {c}, trie', q)
  {
    forall i | 0 <= i < |trie[q]|
      ensures trie[q][i] != c
    {
      assert home[trie[q][i]] == q;
    }
  }

  lemma DropShaped(bins: map<int, int>, trie: Trie, p: Pos, k: int)
    requires p in trie && Shaped(bins, trie, p) && 0 <= k < |trie[p]| && |trie[p]| >= 2
    ensures Shaped(bins - {trie[p][k]}, trie[p := Without(trie[p], k)], p)
  {
    var r := trie[p];
    var n := Without(r, k);
    forall i | 0 <= i < |n|
      ensures n[i] in bins && n[i] != r[k] && bins[n[i]] == bins[r[0]] && n[i] % 16 == 0
    {
      assert n[i] == r[if i < k then i else i + 1];
    }
  }

  lemma DropHomed(bins: map<int, int>, trie: Trie, home: map<int, Pos>, p: Pos, k: int)
    requires Homed(bins, trie, home) && p in trie && 0 <= k < |trie[p]| && Spaced(trie[p])
    ensures var c := trie[p][k]; Homed(bins - {c}, trie[p := Without(trie[p], k)], home - {c})
  {
    var r := trie[p];
    var c, n := r[k], Without(r, k);
    var trie', home' := trie[p := n], home - {c};
    forall a | a in bins - {c} && (bins - {c})[a] >= MIN_LARGE
      ensures a in home' && home'[a] in trie' && a in trie'[home'[a]]
    {
      assert a in trie[home[a]];
      if home[a] == p {
        var i :| 0 <= i < |r| && r[i] == a;
        assert n[if i < k then i else i - 1] == a;
      }
    }
    forall q, i | q in trie' && 0 <= i < |trie'[q]|
      ensures trie'[q][i] in home' && home'[trie'[q][i]] == q
    {
      if q == p {
        assert n[i] == r[if i < k then i else i + 1];
      } else {
        assert home[trie[q][i]] == q && home[c] == p;
      }
    }
  }

  lemma DropForest(bins: map<int, int>, trie: Trie, home: map<int, Pos>, p: Pos, k: int, c: int)
    requires Drops(bins, trie, home, p, k, c) && |trie[p]| >= 2
    ensures ForestOk(bins - {c}, trie[p := Without(trie[p], k)], home - {c})
  {
    hide OnPath, TreeIndex, TopBit, Spaced;
    var bins', trie' := bins - {c}, trie[p := Without(trie[p], k)];
    assert Shaped(bins, trie, p);
    DropShaped(bins, trie, p, k);
    DropHomed(bins, trie, home, p, k);
    assert home[c] == p;
    forall q | q in trie'
      ensures Shaped(bins', trie', q) && |trie'[q]| > 0 && trie'[q][0] in bins'
      ensures bins'[trie'[q][0]] == bins[trie[q][0]]
    {
      assert Shaped(bins, trie, q);
      if q != p { ShapedSub(bins, trie, home, trie', c, q); }
    }
  }

  lemma LeafOffForest(bins: map<int, int>, trie: Trie, home: map<int, Pos>, p: Pos, c: int)
    requires Drops(bins, trie, home, p, 0, c) && |trie[p]| == 1 && IsLeaf(trie, p)
    ensures ForestOk(bins - {c}, trie - {p}, home - {c})
  {
    var bins', trie', home' := bins - {c}, trie - {p}, home - {c};
    assert home[c] == p;
    forall q | q in trie'
      ensures Shaped(bins', trie', q) && |trie'[q]| > 0 && trie'[q][0] in bins'
      ensures bins'[trie'[q][0]] == bins[trie[q][0]]
    {
      assert Shaped(bins, trie, q);
      if q.path != [] { UpKid(q); }
      ShapedSub(bins, trie, home, trie', c, q);
    }
    LeafOffHomed(bins, trie, home, p, c);
  }

  lemma LeafOffHomed(bins: map<int, int>, trie: Trie, home: map<int, Pos>, p: Pos, c: int)
    requires Homed(bins, trie, home) && p in trie && trie[p] == [c]
    ensures Homed(bins - {c}, trie - {p}, home - {c})
  {
    forall a | a in bins - {c} && (bins - {c})[a] >= MIN_LARGE
      ensures home[a] != p
    {
      assert a in trie[home[a]];
    }
    forall q, i | q in trie - {p} && 0 <= i < |trie[q]|
      ensures trie[q][i] != c
    {
      assert home[trie[q][i]] == q && home[trie[p][0]] == p;
    }
  }

  /** Moving the ring of leaf `leaf` up to `p` renames the home of its members. */
  function Rehome(home: map<int, Pos>, c: int, leaf: Pos, p: Pos): map<int, Pos>
  {
    map a | a in home && a != c :: if home[a] == leaf then p else home[a]
  }

  ghost predicate Below(leaf: Pos, p: Pos)
  {
    leaf.bin == p.bin && |p.path| < |leaf.path| && p.path == leaf.path[..|p.path|]
  }

  lemma RaiseShaped(bins: map<int, int>, trie: Trie, home: map<int, Pos>, p: Pos, c: int, leaf: Pos)
    requires Homed(bins, trie, home) && p in trie && Shaped(bins, trie, p) && c in home && home[c] == p
    requires leaf in trie && Shaped(bins, trie, leaf) && Below(leaf, p)
    ensures Shaped(bins - {c}, (trie - {leaf})[p := trie[leaf]], p)
  {
    var r := trie[leaf];
    forall i | 0 <= i < |r|
      ensures r[i] != c
    {
      assert home[r[i]] == leaf;
    }
    if p.path != [] { assert |Up(p).path| < |leaf.path|; }
  }

  lemma RaiseHomed(bins: map<int, int>, trie: Trie, home: map<int, Pos>, p: Pos, c: int, leaf: Pos)
    requires Homed(bins, trie, home) && p in trie && trie[p] == [c] && leaf in trie && leaf != p
    ensures Homed(bins - {c}, (trie - {leaf})[p := trie[leaf]], Rehome(home, c, leaf, p))
  {
    var trie', home' := (trie - {leaf})[p := trie[leaf]], Rehome(home, c, leaf, p);
    forall a | a in bins - {c} && (bins - {c})[a] >= MIN_LARGE
      ensures a in home' && home'[a] in trie' && a in trie'[home'[a]]
    {
      assert a in trie[home[a]];
    }
    forall q, i | q in trie' && 0 <= i < |trie'[q]|
      ensures trie'[q][i] in home' && home'[trie'[q][i]] == q
    {
      assert home[trie[p][0]] == p;
      if q == p { assert home[trie[leaf][i]] == leaf; } else { assert home[trie[q][i]] == q; }
    }
  }

  lemma RaiseForest(bins: map<int, int>, trie: Trie, home: map<int, Pos>, p: Pos, c: int, leaf: Pos)
    requires Drops(bins, trie, home, p, 0, c) && |trie[p]| == 1 && IsLeaf(trie, leaf) && Below(leaf, p)
    ensures ForestOk(bins - {c}, (trie - {leaf})[p := trie[leaf]], Rehome(home, c, leaf, p))
  {
    hide OnPath, TreeIndex, TopBit, Spaced;
    var bins', trie' := bins - {c}, (trie - {leaf})[p := trie[leaf]];
    assert home[c] == p;
    assert Shaped(bins, trie, p) && Shaped(bins, trie, leaf);
    RaiseShaped(bins, trie, home, p, c, leaf);
    RaiseHomed(bins, trie, home, p, c, leaf);
    forall q | q in trie'
      ensures Shaped(bins', trie', q) && |trie'[q]| > 0 && trie'[q][0] in bins'
      ensures bins'[trie'[q][0]] == bins[trie[if q == p then leaf else q][0]]
    {
      if q != p {
        assert Shaped(bins, trie, q);
        if q.path != [] { UpKid(q); }
        ShapedSub(bins, trie, home, trie', c, q);
      }
    }
    RaiseUnique(bins, trie, bins', trie', p, leaf);
  }

  lemma RaiseUnique(bins: map<int, int>, trie: Trie, bins': map<int, int>, trie': Trie, p: Pos, leaf: Pos)
    requires forall q :: q in trie ==> |trie[q]| > 0 && trie[q][0] in bins
    requires forall q :: q in trie' ==> |trie'[q]| > 0 && trie'[q][0] in bins'
    requires UniqueSizes(bins, trie) && p in trie && leaf in trie && leaf !in trie'
    requires forall q :: q in trie' && q != p ==> q in trie && bins'[trie'[q][0]] == bins[trie[q][0]]
    requires p in trie' ==> bins'[trie'[p][0]] == bins[trie[leaf][0]]
    ensures UniqueSizes(bins', trie')
  {
    forall q, s | q in trie' && s in trie' && bins'[trie'[q][0]] == bins'[trie'[s][0]]
      ensures q == s
    {
      var q', s' := if q == p then leaf else q, if s == p then leaf else s;
      assert bins[trie[q'][0]] == bins[trie[s'][0]];
    }
  }

  // ---------------------------------------------------------------- the four outcomes

  lemma DropAllOthers(mem: Mem, mem': Mem, bins: map<int, int>, trie: Trie, home: map<int, Pos>, trie': Trie, p: Pos,
      k: int)
    requires BinsOk(bins) && TrieOk(mem, bins, trie, home) && AllShaped(bins, trie)
    requires p in trie && 0 <= k < |trie[p]| && |trie[p]| >= 2 && DropWritten(mem, mem', trie[p], k)
    requires trie'.Keys == trie.Keys && forall q :: q in trie && q != p ==> trie'[q] == trie[q]
    requires forall x :: At(trie', x) == At(trie, x)
    ensures forall q {:trigger Placed(mem', trie', q)} :: q in trie' && q != p ==> Placed(mem', trie', q)
    ensures Slots(mem', trie')
  {
    assert Shaped(bins, trie, p);
    RingPositive(bins, trie, p);
    DropSlots(mem, mem', trie, trie', trie[p], k);
    forall q | q in trie' && q != p
      ensures Placed(mem', trie', q)
    {
      assert Placed(mem, trie, q);
      DropNode(mem, mem', bins, trie, home, trie', p, k, q);
    }
  }

  lemma DropAt(trie: Trie, p: Pos, k: int)
    requires p in trie && 0 < k < |trie[p]|
    ensures forall x :: At(trie[p := Without(trie[p], k)], x) == At(trie, x)
  {
  }

  /** A follower leaves its ring. */
  lemma RemoveFollower(mem: Mem, mem': Mem, bins: map<int, int>, trie: Trie, home: map<int, Pos>, p: Pos, k: int,
      c: int)
    requires BinsOk(bins) && TrieOk(mem, bins, trie, home) && Drops(bins, trie, home, p, k, c)
    requires k > 0 && DropWritten(mem, mem', trie[p], k)
    ensures TrieOk(mem', bins - {c}, trie[p := Without(trie[p], k)], home - {c})
  {
    var trie' := trie[p := Without(trie[p], k)];
    DropForest(bins, trie, home, p, k, c);
    DropAt(trie, p, k);
    DropAllOthers(mem, mem', bins, trie, home, trie', p, k);
    FollowerStays(mem, mem', bins, trie, p, k);
  }

  lemma FollowerStays(mem: Mem, mem': Mem, bins: map<int, int>, trie: Trie, p: Pos, k: int)
    requires BinsOk(bins) && AllShaped(bins, trie) && p in trie && Placed(mem, trie, p)
    requires 0 < k < |trie[p]| && DropWritten(mem, mem', trie[p], k)
    ensures Placed(mem', trie[p := Without(trie[p], k)], p)
  {
    assert Shaped(bins, trie, p);
    RingScattered(bins, trie, p);
    DropFollowerPlaced(mem, mem', trie, p, k);
  }

  /** A leaf with no ring behind it leaves its place empty. */
  lemma RemoveLeaf(mem: Mem, mem': Mem, bins: map<int, int>, trie: Trie, home: map<int, Pos>, p: Pos, c: int)
    requires BinsOk(bins) && TrieOk(mem, bins, trie, home) && Drops(bins, trie, home, p, 0, c)
    requires |trie[p]| == 1 && IsLeaf(trie, p) && DetachWritten(mem, mem', trie, p)
    ensures TrieOk(mem', bins - {c}, trie - {p}, home - {c})
  {
    LeafOffForest(bins, trie, home, p, c);
    DetachAll(mem, mem', bins, trie, home, p);
  }

  lemma DetachAll(mem: Mem, mem': Mem, bins: map<int, int>, trie: Trie, home: map<int, Pos>, leaf: Pos)
    requires BinsOk(bins) && TrieOk(mem, bins, trie, home) && IsLeaf(trie, leaf) && DetachWritten(mem, mem', trie, leaf)
    ensures forall q {:trigger Placed(mem', trie - {leaf}, q)} :: q in trie - {leaf} ==> Placed(mem', trie - {leaf}, q)
    ensures Slots(mem', trie - {leaf})
    ensures Detached(mem', trie[leaf], leaf.bin)
  {
    assert Shaped(bins, trie, leaf) && Placed(mem, trie, leaf);
    RingPositive(bins, trie, leaf);
    if leaf.path != [] {
      assert Shaped(bins, trie, Up(leaf));
      RingPositive(bins, trie, Up(leaf));
      OtherClear(bins, trie, home, leaf, Up(leaf), 0);
    }
    DetachSlots(mem, mem', trie, leaf);
    DetachSelf(mem, mem', trie, leaf);
    forall q | q in trie - {leaf}
      ensures Placed(mem', trie - {leaf}, q)
    {
      assert Placed(mem, trie, q) && Shaped(bins, trie, q);
      DetachNode(mem, mem', bins, trie, home, leaf, q);
    }
  }

  /** The place at `p` goes to the detached ring `trie[s][j..]`, whose head is a member of the old forest. */
  ghost predicate Takeover(mem: Mem, mem': Mem, bins: map<int, int>, trie: Trie, home: map<int, Pos>, trie': Trie,
      p: Pos, s: Pos, j: int)
  {
    && BinsOk(bins) && Homed(bins, trie, home) && AllShaped(bins, trie) && SubTrie(trie', trie)
    && p in trie' && s in trie && 0 <= j < |trie[s]|
    && (p.path != [] ==> Up(p) in trie')
    && (forall q {:trigger Placed(mem, trie', q)} :: q in trie' && q != p ==> Placed(mem, trie', q) && q != s)
    && Slots(mem, trie')
    && Detached(mem, trie[s][j..], p.bin)
    && HandoverWritten(mem, mem', trie', p, trie[s][j])
  }

  lemma TakeoverOthers(mem: Mem, mem': Mem, bins: map<int, int>, trie: Trie, home: map<int, Pos>, trie': Trie, p: Pos,
      s: Pos, j: int)
    requires Takeover(mem, mem', bins, trie, home, trie', p, s, j)
    ensures forall q {:trigger Placed(mem', trie'[p := trie[s][j..]], q)} ::
              q in trie' && q != p ==> Placed(mem', trie'[p := trie[s][j..]], q)
  {
    var r := trie[s][j..];
    forall q | q in trie' && q != p
      ensures Placed(mem', trie'[p := r], q)
    {
      assert Shaped(bins, trie, p) && Shaped(bins, trie, q);
      if p.path != [] { assert Shaped(bins, trie, Up(p)); RingPositive(bins, trie, Up(p)); }
      assert Placed(mem, trie', q);
      RingPositive(bins, trie, q);
      InvolvedSeen(bins, trie, home, trie', p, s, j, q);
      HandoverNode(mem, mem', trie, trie', p, r, q);
    }
  }

  /** How the new head's own ring sees the other chunks of the handover. */
  lemma TakeoverSees(bins: map<int, int>, trie: Trie, home: map<int, Pos>, trie': Trie, s: Pos, j: int, t: Pos)
    requires BinsOk(bins) && Homed(bins, trie, home) && AllShaped(bins, trie) && SubTrie(trie', trie)
    requires s in trie && 0 <= j < |trie[s]| && At(trie', t) != NULL && t != s
    ensures At(trie', t) != trie[s][j] && OwnSees(trie[s][j..], At(trie', t))
  {
    assert Shaped(bins, trie, s) && Shaped(bins, trie, t);
    OtherClear(bins, trie, home, s, t, 0);
    forall k | 0 < k < |trie[s][j..]|
      ensures trie[s][j..][k] > 0 && Away(trie[s][j..][k], At(trie', t))
    {
      assert trie[s][j..][k] == trie[s][j + k];
    }
  }

  lemma TakeoverSeesHead(bins: map<int, int>, trie: Trie, s: Pos, j: int)
    requires BinsOk(bins) && AllShaped(bins, trie) && s in trie && 0 <= j < |trie[s]|
    ensures OwnSees(trie[s][j..], trie[s][j])
    ensures forall k :: 0 <= k < |trie[s][j..]| ==> trie[s][j..][k] > 0
  {
    assert Shaped(bins, trie, s);
    RingPositive(bins, trie, s);
    RingScattered(bins, trie, s);
  }

  lemma TakeoverSeesAll(bins: map<int, int>, trie: Trie, home: map<int, Pos>, trie': Trie, p: Pos, s: Pos, j: int)
    requires BinsOk(bins) && Homed(bins, trie, home) && AllShaped(bins, trie) && SubTrie(trie', trie)
    requires s in trie && 0 <= j < |trie[s]| && (s == p || s !in trie') && trie[s][j] != NULL
    requires p.path != [] ==> At(trie', Up(p)) != NULL
    ensures SelfSees(trie', p, trie[s][j..])
  {
    TakeoverSeesHead(bins, trie, s, j);
    KidUp(p, false);
    KidUp(p, true);
    if p.path != [] { TakeoverSees(bins, trie, home, trie', s, j, Up(p)); }
    if At(trie', Kid(p, false)) != NULL { TakeoverSees(bins, trie, home, trie', s, j, Kid(p, false)); }
    if At(trie', Kid(p, true)) != NULL { TakeoverSees(bins, trie, home, trie', s, j, Kid(p, true)); }
  }

  lemma TakeoverUp(mem: Mem, mem': Mem, bins: map<int, int>, trie: Trie, home: map<int, Pos>, trie': Trie, p: Pos,
      s: Pos, j: int)
    requires Takeover(mem, mem', bins, trie, home, trie', p, s, j)
    ensures p.bin < 32 && (p.path != [] ==> At(trie', Up(p)) > 0)
    ensures At(trie', Kid(p, false)) >= 0 && At(trie', Kid(p, true)) >= 0
  {
    assert Shaped(bins, trie, p);
    if p.path != [] { assert Shaped(bins, trie, Up(p)); RingPositive(bins, trie, Up(p)); }
    if Kid(p, false) in trie' { assert Shaped(bins, trie, Kid(p, false)); RingPositive(bins, trie, Kid(p, false)); }
    if Kid(p, true) in trie' { assert Shaped(bins, trie, Kid(p, true)); RingPositive(bins, trie, Kid(p, true)); }
  }

  /** After a takeover every position is in place. */
  lemma TakeoverAll(mem: Mem, mem': Mem, bins: map<int, int>, trie: Trie, home: map<int, Pos>, trie': Trie, p: Pos,
      s: Pos, j: int)
    requires Takeover(mem, mem', bins, trie, home, trie', p, s, j)
    requires s == p || s !in trie'
    ensures var trie2 := trie'[p := trie[s][j..]];
            && (forall q {:trigger Placed(mem', trie2, q)} :: q in trie2 ==> Placed(mem', trie2, q))
            && Slots(mem', trie2)
  {
    var r := trie[s][j..];
    TakeoverUp(mem, mem', bins, trie, home, trie', p, s, j);
    TakeoverSeesHead(bins, trie, s, j);
    assert r[0] > 0;
    TakeoverSeesAll(bins, trie, home, trie', p, s, j);
    assert r[0] == trie[s][j];
    HandoverSelf(mem, mem', trie', p, r);
    HandoverSlots(mem, mem', trie', p, r);
    TakeoverOthers(mem, mem', bins, trie, home, trie', p, s, j);
  }

  /** A node with a ring behind it hands its place to the next of the ring. */
  lemma RemoveHead(mem: Mem, mem1: Mem, mem2: Mem, bins: map<int, int>, trie: Trie, home: map<int, Pos>, p: Pos, c: int)
    requires BinsOk(bins) && TrieOk(mem, bins, trie, home) && Drops(bins, trie, home, p, 0, c) && |trie[p]| >= 2
    requires DropWritten(mem, mem1, trie[p], 0) && HandoverWritten(mem1, mem2, trie, p, trie[p][1])
    ensures TrieOk(mem2, bins - {c}, trie[p := Without(trie[p], 0)], home - {c})
  {
    DropForest(bins, trie, home, p, 0, c);
    assert Shaped(bins, trie, p) && Placed(mem, trie, p);
    RingScattered(bins, trie, p);
    DropHeadDetached(mem, mem1, trie, p);
    DropAllOthers(mem, mem1, bins, trie, home, trie, p, 0);
    assert Without(trie[p], 0) == trie[p][1..];
    TakeoverAll(mem1, mem2, bins, trie, home, trie, p, p, 1);
  }

  /** A node alone in its ring but with nodes below hands its place to a leaf below it, ring and all. */
  lemma RemoveByLeaf(mem: Mem, mem1: Mem, mem2: Mem, bins: map<int, int>, trie: Trie, home: map<int, Pos>, p: Pos,
      c: int, leaf: Pos)
    requires BinsOk(bins) && TrieOk(mem, bins, trie, home) && Drops(bins, trie, home, p, 0, c) && |trie[p]| == 1
    requires IsLeaf(trie, leaf) && Below(leaf, p)
    requires DetachWritten(mem, mem1, trie, leaf) && HandoverWritten(mem1, mem2, trie - {leaf}, p, At(trie, leaf))
    ensures TrieOk(mem2, bins - {c}, (trie - {leaf})[p := trie[leaf]], Rehome(home, c, leaf, p))
  {
    hide OnPath, TreeIndex, TopBit, Spaced, Placed, Slots, Homed, UniqueSizes, DetachWritten, HandoverWritten, Rehome;
    RaiseForest(bins, trie, home, p, c, leaf);
    DetachAll(mem, mem1, bins, trie, home, leaf);
    assert Shaped(bins, trie, p) && Shaped(bins, trie, leaf);
    assert trie[leaf][0..] == trie[leaf];
    TakeoverAll(mem1, mem2, bins, trie, home, trie - {leaf}, p, leaf, 0);
  }
}
