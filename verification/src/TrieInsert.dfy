/** Insertion into a tree bin, `insert_large_chunk`, on the ghost forest. */
module TrieInsert {
  import opened Bits
  import opened Sizes
  import opened Rings
  import opened Tries

  /** The link words of one chunk. */
  function LinkWords(a: int): set<int>
  {
    {a + PREV, a + NEXT, a + CHILD0, a + CHILD1, a + PARENT, a + INDEX}
  }

  /** Chunk `c` of size `size` is about to enter the forest. */
  ghost predicate Newcomer(bins: map<int, int>, c: int, size: int)
  {
    && c !in bins && BinsOk(bins[c := size]) && MIN_LARGE <= size < WORD
  }

  lemma NewcomerClear(bins: map<int, int>, trie: Trie, c: int, size: int, p: Pos)
    requires Newcomer(bins, c, size) && p in trie && Shaped(bins, trie, p)
    ensures c > 0 && c % 16 == 0 && Clear(trie[p], c)
  {
    var bins' := bins[c := size];
    assert c in bins';
    forall k | 0 <= k < |trie[p]|
      ensures trie[p][k] > 0 && Away(trie[p][k], c)
    {
      MemberSize(bins, trie, p, k);
      LargeApart(bins', trie[p][k], c);
    }
  }

  // ---------------------------------------------------------------- a new leaf

  /** `pos` is a vacant place just below an occupied one, on the path of `size`. */
  ghost predicate Vacant(bins: map<int, int>, trie: Trie, pos: Pos, size: int)
    requires forall q :: q in trie ==> |trie[q]| > 0 && trie[q][0] in bins
  {
    && pos !in trie && pos.bin < 32 && 0 <= size
    && TreeIndex(size) == pos.bin && OnPath(size, TopBit(pos.bin), pos.path)
    && (pos.path != [] ==> Up(pos) in trie)
    && (forall q :: q in trie ==> bins[trie[q][0]] != size)
  }

  lemma ShapedFrame(bins: map<int, int>, bins': map<int, int>, trie: Trie, trie': Trie, q: Pos)
    requires q in trie && q in trie' && trie'[q] == trie[q] && Shaped(bins, trie, q)
    requires forall a :: a in bins && bins[a] >= MIN_LARGE && a in trie[q] ==> a in bins' && bins'[a] == bins[a]
    requires q.path != [] ==> Up(q) in trie'
    ensures Shaped(bins', trie', q)
  {
  }

  lemma LeafHomed(bins: map<int, int>, trie: Trie, home: map<int, Pos>, pos: Pos, c: int, size: int)
    requires Homed(bins, trie, home) && c !in bins && pos !in trie
    requires forall p, k :: p in trie && 0 <= k < |trie[p]| ==> trie[p][k] in bins
    ensures Homed(bins[c := size], trie[pos := [c]], home[c := pos])
  {
    var bins', trie', home' := bins[c := size], trie[pos := [c]], home[c := pos];
    forall a | a in bins' && bins'[a] >= MIN_LARGE
      ensures a in home' && home'[a] in trie' && a in trie'[home'[a]]
    {
      if a != c { assert home[a] in trie && a in trie[home[a]]; }
    }
  }

  lemma LeafForest(bins: map<int, int>, trie: Trie, home: map<int, Pos>, pos: Pos, c: int, size: int)
    requires ForestOk(bins, trie, home) && Newcomer(bins, c, size) && Vacant(bins, trie, pos, size)
    ensures ForestOk(bins[c := size], trie[pos := [c]], home[c := pos])
  {
    var bins', trie', home' := bins[c := size], trie[pos := [c]], home[c := pos];
    forall q | q in trie'
      ensures Shaped(bins', trie', q)
    {
      if q != pos {
        assert Shaped(bins, trie, q);
        ShapedFrame(bins, bins', trie, trie', q);
      }
    }
    forall p, k | p in trie && 0 <= k < |trie[p]|
      ensures trie[p][k] in bins
    {
      assert Shaped(bins, trie, p);
    }
    LeafHomed(bins, trie, home, pos, c, size);
  }

  /** The words that linking a new leaf writes. */
  ghost predicate LeafWritten(mem: Mem, mem': Mem, trie: Trie, pos: Pos, c: int)
  {
    && SameExcept(mem, mem', {PointerTo(trie, pos)} + LinkWords(c))
    && Get(mem', PointerTo(trie, pos)) == c
    && Get(mem', c + PREV) == c && Get(mem', c + NEXT) == c
    && Get(mem', c + CHILD0) == NULL && Get(mem', c + CHILD1) == NULL
    && Get(mem', c + PARENT) == ParentOf(trie, pos) && Get(mem', c + INDEX) == pos.bin
  }

  /** Nothing hangs below a vacant place. */
  lemma LeafKids(bins: map<int, int>, trie: Trie, pos: Pos, x: bool)
    requires pos !in trie
    requires Kid(pos, x) in trie ==> Shaped(bins, trie, Kid(pos, x))
    ensures Kid(pos, x) !in trie
  {
    KidUp(pos, x);
  }

  lemma LeafPlaced(mem: Mem, mem': Mem, trie: Trie, pos: Pos, c: int)
    requires pos !in trie && Kid(pos, false) !in trie && Kid(pos, true) !in trie
    requires LeafWritten(mem, mem', trie, pos, c) && c > 0
    ensures Placed(mem', trie[pos := [c]], pos)
  {
    var trie' := trie[pos := [c]];
    KidUp(pos, false);
    KidUp(pos, true);
    assert Linked(mem', [c], 0);
  }

  lemma LeafOthers(mem: Mem, mem': Mem, trie: Trie, pos: Pos, c: int, q: Pos)
    requires LeafWritten(mem, mem', trie, pos, c) && pos !in trie && pos.bin < 32
    requires q in trie && Placed(mem, trie, q) && Clear(trie[q], c) && (q.path != [] ==> Up(q) in trie)
    requires pos.path != [] ==> q != Up(pos) && Clear(trie[q], At(trie, Up(pos)))
    ensures Placed(mem', trie[pos := [c]], q)
  {
    var trie' := trie[pos := [c]];
    KidUp(q, false);
    KidUp(q, true);
    var chunks := if pos.path == [] then {c} else {c, At(trie, Up(pos))};
    var w := PointerTo(trie, pos);
    assert w < 0 || (At(trie, Up(pos)) in chunks && At(trie, Up(pos)) + PREV <= w < At(trie, Up(pos)) + NODE_END);
    OthersFrame(mem, mem', trie, trie', q, {w} + LinkWords(c), chunks);
  }

  lemma LeafParent(mem: Mem, mem': Mem, trie: Trie, pos: Pos, c: int)
    requires LeafWritten(mem, mem', trie, pos, c) && pos !in trie
    requires pos.path != [] && Up(pos) in trie && Placed(mem, trie, Up(pos)) && Clear(trie[Up(pos)], c)
    requires Scattered(trie[Up(pos)]) && (Up(pos).path != [] ==> Up(Up(pos)) in trie)
    ensures Placed(mem', trie[pos := [c]], Up(pos))
  {
    var trie' := trie[pos := [c]];
    var q := Up(pos);
    UpKid(pos);
    KidUp(q, !Last(pos));
    LeafParentRing(mem, mem', trie, pos, c);
    PlacedParts(mem, mem', trie, trie', q);
  }

  /** The followers of the parent are not written. */
  lemma LeafParentRing(mem: Mem, mem': Mem, trie: Trie, pos: Pos, c: int)
    requires LeafWritten(mem, mem', trie, pos, c) && pos.path != [] && Up(pos) in trie && |trie[Up(pos)]| > 0
    requires Clear(trie[Up(pos)], c) && Scattered(trie[Up(pos)])
    ensures forall k :: 0 < k < |trie[Up(pos)]| ==> WordsSame(mem, mem', trie[Up(pos)][k])
  {
    hide WordsSame, SameExcept;
    var r := trie[Up(pos)];
    forall k | 0 < k < |r|
      ensures WordsSame(mem, mem', r[k])
    {
      assert Away(r[0], r[k]);
      WordsUntouched(mem, mem', {PointerTo(trie, pos)} + LinkWords(c), r[k]);
    }
  }

  lemma LeafSlots(mem: Mem, mem': Mem, trie: Trie, pos: Pos, c: int)
    requires LeafWritten(mem, mem', trie, pos, c) && Slots(mem, trie) && pos.bin < 32 && c > 0
    requires pos.path != [] ==> At(trie, Up(pos)) > 0
    ensures Slots(mem', trie[pos := [c]])
  {
  }

  lemma LeafNode(mem: Mem, mem': Mem, bins: map<int, int>, trie: Trie, home: map<int, Pos>, pos: Pos, c: int,
      size: int, q: Pos)
    requires BinsOk(bins) && Newcomer(bins, c, size) && pos !in trie && pos.bin < 32 && Homed(bins, trie, home)
    requires LeafWritten(mem, mem', trie, pos, c)
    requires q in trie && Placed(mem, trie, q) && Shaped(bins, trie, q)
    requires pos.path != [] ==> Up(pos) in trie && Shaped(bins, trie, Up(pos))
    ensures Placed(mem', trie[pos := [c]], q)
  {
    NewcomerClear(bins, trie, c, size, q);
    if pos.path != [] && q == Up(pos) {
      RingScattered(bins, trie, q);
      LeafParent(mem, mem', trie, pos, c);
    } else {
      if pos.path != [] { OtherClear(bins, trie, home, q, Up(pos), 0); }
      LeafOthers(mem, mem', trie, pos, c, q);
    }
  }

  /** Hanging a chunk of a new size below the last node of its search path keeps the forest. */
  lemma InsertLeaf(mem: Mem, mem': Mem, bins: map<int, int>, trie: Trie, home: map<int, Pos>, pos: Pos, c: int,
      size: int)
    requires BinsOk(bins) && TrieOk(mem, bins, trie, home) && Newcomer(bins, c, size) && Vacant(bins, trie, pos, size)
    requires LeafWritten(mem, mem', trie, pos, c)
    ensures TrieOk(mem', bins[c := size], trie[pos := [c]], home[c := pos])
  {
    var trie' := trie[pos := [c]];
    assert c in bins[c := size];
    LeafForest(bins, trie, home, pos, c, size);
    if pos.path != [] { assert Shaped(bins, trie, Up(pos)); }
    LeafSlots(mem, mem', trie, pos, c);
    LeafKids(bins, trie, pos, false);
    LeafKids(bins, trie, pos, true);
    LeafPlaced(mem, mem', trie, pos, c);
    forall q | q in trie'
      ensures Placed(mem', trie', q)
    {
      if q != pos {
        assert Placed(mem, trie, q) && Shaped(bins, trie, q);
        LeafNode(mem, mem', bins, trie, home, pos, c, size, q);
      }
    }
  }

  // ---------------------------------------------------------------- joining a ring

  /** The words that joining the ring at `pos` writes. */
  ghost predicate JoinWritten(mem: Mem, mem': Mem, trie: Trie, pos: Pos, c: int)
    requires pos in trie && |trie[pos]| > 0
  {
    var r := trie[pos];
    && SameExcept(mem, mem', {r[0] + PREV, r[|r| - 1] + NEXT} + LinkWords(c))
    && Get(mem', r[0] + PREV) == c && Get(mem', r[|r| - 1] + NEXT) == c
    && Get(mem', c + PREV) == r[|r| - 1] && Get(mem', c + NEXT) == r[0]
    && Get(mem', c + CHILD0) == NULL && Get(mem', c + CHILD1) == NULL
    && Get(mem', c + PARENT) == NULL && Get(mem', c + INDEX) == pos.bin
  }

  lemma JoinShaped(bins: map<int, int>, trie: Trie, pos: Pos, c: int, size: int)
    requires Newcomer(bins, c, size) && pos in trie && Shaped(bins, trie, pos) && bins[trie[pos][0]] == size
    ensures Shaped(bins[c := size], trie[pos := trie[pos] + [c]], pos)
  {
    var r := trie[pos];
    NewcomerClear(bins, trie, c, size, pos);
    assert Spaced(r + [c]);
  }

  lemma JoinHomed(bins: map<int, int>, trie: Trie, home: map<int, Pos>, pos: Pos, c: int, size: int)
    requires Homed(bins, trie, home) && c !in bins && pos in trie
    requires forall p, k :: p in trie && 0 <= k < |trie[p]| ==> trie[p][k] in bins
    ensures Homed(bins[c := size], trie[pos := trie[pos] + [c]], home[c := pos])
  {
    var r := trie[pos];
    var bins', trie', home' := bins[c := size], trie[pos := r + [c]], home[c := pos];
    forall a | a in bins' && bins'[a] >= MIN_LARGE
      ensures a in home' && home'[a] in trie' && a in trie'[home'[a]]
    {
      if a == c {
        assert (r + [c])[|r|] == c;
      } else {
        assert home[a] in trie && a in trie[home[a]];
      }
    }
    forall p, k | p in trie' && 0 <= k < |trie'[p]|
      ensures trie'[p][k] in home' && home'[trie'[p][k]] == p
    {
      if !(p == pos && k == |r|) { assert trie'[p][k] == trie[p][k]; }
    }
  }

  lemma JoinForest(bins: map<int, int>, trie: Trie, home: map<int, Pos>, pos: Pos, c: int, size: int)
    requires ForestOk(bins, trie, home) && Newcomer(bins, c, size)
    requires pos in trie && bins[trie[pos][0]] == size
    ensures ForestOk(bins[c := size], trie[pos := trie[pos] + [c]], home[c := pos])
  {
    var bins', trie' := bins[c := size], trie[pos := trie[pos] + [c]];
    forall q | q in trie'
      ensures Shaped(bins', trie', q)
    {
      assert Shaped(bins, trie, q);
      if q == pos {
        JoinShaped(bins, trie, pos, c, size);
      } else {
        ShapedFrame(bins, bins', trie, trie', q);
      }
    }
    forall p, k | p in trie && 0 <= k < |trie[p]|
      ensures trie[p][k] in bins
    {
      assert Shaped(bins, trie, p);
    }
    JoinHomed(bins, trie, home, pos, c, size);
    JoinUnique(bins, trie, pos, c, size);
  }

  lemma JoinUnique(bins: map<int, int>, trie: Trie, pos: Pos, c: int, size: int)
    requires forall p :: p in trie ==> |trie[p]| > 0 && trie[p][0] in bins
    requires UniqueSizes(bins, trie) && pos in trie && c !in bins
    ensures var trie' := trie[pos := trie[pos] + [c]];
            && (forall p :: p in trie' ==> |trie'[p]| > 0 && trie'[p][0] in bins[c := size])
            && UniqueSizes(bins[c := size], trie')
  {
    var bins', trie' := bins[c := size], trie[pos := trie[pos] + [c]];
    forall p | p in trie'
      ensures |trie'[p]| > 0 && trie'[p][0] == trie[p][0] && trie[p][0] in bins
      ensures bins'[trie'[p][0]] == bins[trie[p][0]]
    {
    }
  }

  /** What joining a ring leaves alone in the member at `k`. */
  lemma JoinKeeps(mem: Mem, mem': Mem, r: seq<int>, c: int, k: int)
    requires |r| > 0 && 0 <= k < |r|
    requires SameExcept(mem, mem', {r[0] + PREV, r[|r| - 1] + NEXT} + LinkWords(c))
    requires Scattered(r) && Away(r[k], c)
    ensures Get(mem', r[k] + INDEX) == Get(mem, r[k] + INDEX) && Get(mem', r[k] + PARENT) == Get(mem, r[k] + PARENT)
    ensures Get(mem', r[k] + CHILD0) == Get(mem, r[k] + CHILD0) && Get(mem', r[k] + CHILD1) == Get(mem, r[k] + CHILD1)
    ensures k > 0 ==> Get(mem', r[k] + PREV) == Get(mem, r[k] + PREV)
    ensures k < |r| - 1 ==> Get(mem', r[k] + NEXT) == Get(mem, r[k] + NEXT)
  {
    assert k > 0 ==> Away(r[0], r[k]);
    assert k < |r| - 1 ==> Away(r[k], r[|r| - 1]);
  }

  lemma JoinRing(mem: Mem, mem': Mem, trie: Trie, pos: Pos, c: int)
    requires pos in trie && Placed(mem, trie, pos) && JoinWritten(mem, mem', trie, pos, c)
    requires Clear(trie[pos], c) && Scattered(trie[pos]) && Spaced(trie[pos] + [c])
    ensures Ring(mem', trie[pos] + [c])
  {
    var r := trie[pos];
    forall k | 0 <= k < |r|
      ensures k > 0 ==> Get(mem', r[k] + PREV) == Get(mem, r[k] + PREV)
      ensures k < |r| - 1 ==> Get(mem', r[k] + NEXT) == Get(mem, r[k] + NEXT)
    {
      JoinKeeps(mem, mem', r, c, k);
    }
    RingAppend(mem, mem', r, c);
  }

  lemma JoinFollower(mem: Mem, mem': Mem, trie: Trie, pos: Pos, c: int, k: int)
    requires pos in trie && |trie[pos]| > 0 && Placed(mem, trie, pos) && JoinWritten(mem, mem', trie, pos, c)
    requires Clear(trie[pos], c) && Scattered(trie[pos]) && 0 <= k < |trie[pos]|
    ensures Get(mem', trie[pos][k] + INDEX) == pos.bin && (k > 0 ==> Follower(mem', trie[pos][k]))
  {
    hide Ring, Scattered;
    assert Away(trie[pos][k], c);
    JoinKeeps(mem, mem', trie[pos], c, k);
    assert k > 0 ==> Follower(mem, trie[pos][k]);
  }

  lemma JoinPlaced(mem: Mem, mem': Mem, trie: Trie, pos: Pos, c: int)
    requires pos in trie && Placed(mem, trie, pos) && JoinWritten(mem, mem', trie, pos, c)
    requires Clear(trie[pos], c) && Scattered(trie[pos]) && Spaced(trie[pos] + [c])
    ensures Placed(mem', trie[pos := trie[pos] + [c]], pos)
  {
    hide Scattered, Clear, Spaced, SameExcept;
    var n := trie[pos] + [c];
    JoinRing(mem, mem', trie, pos, c);
    forall k | 0 <= k < |n|
      ensures Get(mem', n[k] + INDEX) == pos.bin && (k > 0 ==> Follower(mem', n[k]))
    {
      if k < |trie[pos]| { JoinFollower(mem, mem', trie, pos, c, k); }
    }
    JoinTree(mem, mem', trie, pos, c);
  }

  lemma JoinTree(mem: Mem, mem': Mem, trie: Trie, pos: Pos, c: int)
    requires pos in trie && Placed(mem, trie, pos) && JoinWritten(mem, mem', trie, pos, c)
    requires Clear(trie[pos], c) && Scattered(trie[pos])
    ensures var trie' := trie[pos := trie[pos] + [c]];
            && Get(mem', trie[pos][0] + CHILD0) == At(trie', Kid(pos, false))
            && Get(mem', trie[pos][0] + CHILD1) == At(trie', Kid(pos, true))
            && Get(mem', trie[pos][0] + PARENT) == ParentOf(trie', pos)
  {
    hide Scattered, Follower;
    assert Away(trie[pos][0], c);
    JoinKeeps(mem, mem', trie[pos], c, 0);
    JoinAt(trie, pos, c);
    KidUp(pos, false);
    KidUp(pos, true);
  }

  /** Joining a ring moves no tree node. */
  lemma JoinAt(trie: Trie, pos: Pos, c: int)
    requires pos in trie && |trie[pos]| > 0
    ensures forall x :: At(trie[pos := trie[pos] + [c]], x) == At(trie, x)
  {
  }

  lemma JoinOthers(mem: Mem, mem': Mem, trie: Trie, pos: Pos, c: int, q: Pos)
    requires pos in trie && |trie[pos]| > 0
    requires SameExcept(mem, mem', {trie[pos][0] + PREV, trie[pos][|trie[pos]| - 1] + NEXT} + LinkWords(c))
    requires q in trie && q != pos && Placed(mem, trie, q) && Clear(trie[q], c)
    requires Clear(trie[q], trie[pos][0]) && Clear(trie[q], trie[pos][|trie[pos]| - 1])
    ensures Placed(mem', trie[pos := trie[pos] + [c]], q)
  {
    var r := trie[pos];
    var a, b := r[0], r[|r| - 1];
    JoinAt(trie, pos, c);
    OthersFrame(mem, mem', trie, trie[pos := r + [c]], q, {a + PREV, b + NEXT} + LinkWords(c), {c, a, b});
  }

  lemma JoinSlots(mem: Mem, mem': Mem, trie: Trie, pos: Pos, c: int)
    requires pos in trie && |trie[pos]| > 0 && JoinWritten(mem, mem', trie, pos, c) && Slots(mem, trie)
    requires trie[pos][0] > 0 && trie[pos][|trie[pos]| - 1] > 0 && c > 0
    ensures Slots(mem', trie[pos := trie[pos] + [c]])
  {
    var trie' := trie[pos := trie[pos] + [c]];
    forall i | 0 <= i < 32
      ensures Get(mem', Slot(i)) == At(trie', Pos(i, []))
    {
      assert At(trie', Pos(i, [])) == At(trie, Pos(i, []));
    }
  }

  /** Adding a chunk of a size the tree already holds to the end of that size's ring keeps the forest. */
  lemma InsertJoin(mem: Mem, mem': Mem, bins: map<int, int>, trie: Trie, home: map<int, Pos>, pos: Pos, c: int,
      size: int)
    requires BinsOk(bins) && TrieOk(mem, bins, trie, home) && Newcomer(bins, c, size)
    requires pos in trie && bins[trie[pos][0]] == size && JoinWritten(mem, mem', trie, pos, c)
    ensures TrieOk(mem', bins[c := size], trie[pos := trie[pos] + [c]], home[c := pos])
  {
    var trie' := trie[pos := trie[pos] + [c]];
    JoinForest(bins, trie, home, pos, c, size);
    assert Shaped(bins, trie, pos);
    NewcomerClear(bins, trie, c, size, pos);
    RingScattered(bins, trie, pos);
    JoinSlots(mem, mem', trie, pos, c);
    JoinPlaced(mem, mem', trie, pos, c);
    forall q | q in trie'
      ensures Placed(mem', trie', q)
    {
      if q != pos {
        assert Placed(mem, trie, q) && Shaped(bins, trie, q);
        JoinNode(mem, mem', bins, trie, home, pos, c, size, q);
      }
    }
  }

  lemma JoinNode(mem: Mem, mem': Mem, bins: map<int, int>, trie: Trie, home: map<int, Pos>, pos: Pos, c: int,
      size: int, q: Pos)
    requires BinsOk(bins) && Newcomer(bins, c, size) && Homed(bins, trie, home)
    requires pos in trie && Shaped(bins, trie, pos)
    requires SameExcept(mem, mem', {trie[pos][0] + PREV, trie[pos][|trie[pos]| - 1] + NEXT} + LinkWords(c))
    requires q in trie && q != pos && Placed(mem, trie, q) && Shaped(bins, trie, q)
    ensures Placed(mem', trie[pos := trie[pos] + [c]], q)
  {
    hide Placed, SameExcept, Homed, BinsOk, Newcomer, Clear, OnPath, TreeIndex;
    NewcomerClear(bins, trie, c, size, q);
    OtherClear(bins, trie, home, q, pos, 0);
    OtherClear(bins, trie, home, q, pos, |trie[pos]| - 1);
    JoinOthers(mem, mem', trie, pos, c, q);
  }
}
