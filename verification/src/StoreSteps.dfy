/** What each bin procedure needs to read before it writes, and why its writes leave the store in order. */
module StoreSteps {
  import opened Bits
  import opened Sizes
  import opened Rings
  import opened Heads
  import opened Tries
  import opened SmallBins
  import opened TrieInsert
  import opened TrieRemove
  import opened TrieUnlink
  import opened TrieSearch
  import opened Stores

  /** The bin without the chunk, the others in order. */
  ghost predicate Struck(l: seq<int>, chunk: int, l': seq<int>)
  {
    exists k :: 0 <= k < |l| && l[k] == chunk && l' == Without(l, k)
  }

  function SmallBinAt(sb: seq<seq<int>>, i: nat): seq<int> { if i < |sb| then sb[i] else [] }

  /** What `insert_small_chunk` needs to know before it writes. */
  lemma SmallReady(mem: Mem, smallmap: nat, treemap: nat, bins: map<int, int>, sb: seq<seq<int>>, trie: Trie,
      home: map<int, Pos>, c: int, size: int)
    requires StoreOk(mem, smallmap, treemap, bins, sb, trie, home) && Binnable(mem, bins, c, size)
    requires 0 <= size < MIN_LARGE
    ensures |sb| == 32 && (And(smallmap, Pow2(size / 8)) == 0 <==> sb[size / 8] == [])
    ensures Header(size / 8) + PREV in mem && Header(size / 8) + NEXT in mem && c + PREV in mem && c + NEXT in mem
    ensures c > 0 && c % 16 == 0
    ensures sb[size / 8] != [] ==>
      var f := sb[size / 8][|sb[size / 8]| - 1];
      && Get(mem, Header(size / 8) + PREV) == f && f + NEXT in mem && f % 16 == 0 && f != c
  {
    BinnableFacts(mem, bins, c, size);
    TestBit(smallmap, size / 8);
    SmallLast(mem, bins, sb, size / 8);
  }

  /** The header's `prev` link leads to the last member, and its words are addressable. */
  lemma SmallLast(mem: Mem, bins: map<int, int>, sb: seq<seq<int>>, i: int)
    requires SmallOk(mem, bins, sb) && Addressable(mem, bins) && 0 <= i < 32 && BinsOk(bins)
    ensures Header(i) + PREV in mem && Header(i) + NEXT in mem
    ensures sb[i] != [] ==>
      var f := sb[i][|sb[i]| - 1];
      && Get(mem, Header(i) + PREV) == f && f + NEXT in mem && f + PREV in mem
      && f in bins && bins[f] == 8 * i && f % 16 == 0 && f > 0
  {
    assert SmallBin(mem, bins, i, sb[i]);
    if sb[i] != [] { assert Linked(mem, Anchored(i, sb[i]), 0); }
  }

  lemma AppendWrites(m0: Mem, m: Mem, i: int, l: seq<int>, f: int, c: int)
    requires f == (if l == [] then Header(i) else l[|l| - 1])
    requires m == m0[Header(i) + PREV := c][f + NEXT := c][c + PREV := f][c + NEXT := Header(i)]
    requires f % 16 == 0 && c % 16 == 0 && c != f && c != Header(i)
    requires Header(i) + PREV in m0 && f + NEXT in m0 && c + PREV in m0 && c + NEXT in m0
    ensures m.Keys == m0.Keys && AppendWritten(m0, m, i, l, c)
  {
  }

  /** A small binned chunk is a member of the ring its size selects, with addressable neighbours. */
  lemma SmallMember(mem: Mem, smallmap: nat, treemap: nat, bins: map<int, int>, sb: seq<seq<int>>, trie: Trie,
      home: map<int, Pos>, c: int, size: int) returns (k: int)
    requires StoreOk(mem, smallmap, treemap, bins, sb, trie, home) && c in bins && bins[c] == size
    requires 0 <= size < MIN_LARGE
    ensures |sb| == 32 && 0 <= k < |sb[size / 8]| && sb[size / 8][k] == c
    ensures c + PREV in mem && c + NEXT in mem
    ensures NeighboursOf(mem, size / 8, sb[size / 8], k, mem[c + PREV], mem[c + NEXT])
  {
    var i := size / 8;
    k :| 0 <= k < |sb[i]| && sb[i][k] == c;
    SmallNeighbours(mem, bins, sb, i, k);
  }

  /** `f` and `b` are the neighbours of member `k`, writable, equal exactly when it is the only member. */
  ghost predicate NeighboursOf(mem: Mem, i: int, l: seq<int>, k: int, f: int, b: int)
  {
    && 0 <= k < |l|
    && f == Anchored(i, l)[k] && b == Anchored(i, l)[After(Anchored(i, l), k + 1)]
    && (f == b <==> |l| == 1) && f + NEXT in mem && b + PREV in mem && f % 16 == 0 && b % 16 == 0
  }

  lemma SmallNeighbours(mem: Mem, bins: map<int, int>, sb: seq<seq<int>>, i: int, k: int)
    requires SmallOk(mem, bins, sb) && Addressable(mem, bins) && 0 <= i < 32 && 0 <= k < |sb[i]| && BinsOk(bins)
    ensures NeighboursOf(mem, i, sb[i], k, Get(mem, sb[i][k] + PREV), Get(mem, sb[i][k] + NEXT))
    ensures sb[i][k] + PREV in mem && sb[i][k] + NEXT in mem && sb[i][k] in bins && bins[sb[i][k]] == 8 * i
  {
    var r := Anchored(i, sb[i]);
    assert SmallBin(mem, bins, i, sb[i]);
    assert r[k + 1] == sb[i][k];
    assert Linked(mem, r, k + 1);
    NeighboursEqual(mem, r, k + 1);
    CutEnds(mem, bins, sb, i, k);
  }

  lemma SmallFirst(mem: Mem, smallmap: nat, treemap: nat, bins: map<int, int>, sb: seq<seq<int>>, trie: Trie,
      home: map<int, Pos>, i: nat)
    requires StoreOk(mem, smallmap, treemap, bins, sb, trie, home) && i < 32 && BitAt(smallmap, i)
    ensures |sb| == 32 && sb[i] != [] && Header(i) + PREV in mem
    ensures var p := sb[i][|sb[i]| - 1];
            && mem[Header(i) + PREV] == p && p in bins && bins[p] == 8 * i && p + PREV in mem && p + NEXT in mem
            && mem[p + NEXT] == Header(i) && NeighboursOf(mem, i, sb[i], |sb[i]| - 1, mem[p + PREV], Header(i))
  {
    SmallLast(mem, bins, sb, i);
    SmallNeighbours(mem, bins, sb, i, |sb[i]| - 1);
  }

  lemma CutWrites(m0: Mem, m: Mem, i: int, l: seq<int>, k: int, f: int, b: int)
    requires NeighboursOf(m0, i, l, k, f, b)
    requires m == if f == b then m0 else m0[f + NEXT := b][b + PREV := f]
    ensures m.Keys == m0.Keys && CutWritten(m0, m, i, l, k)
  {
  }

  // ---------------------------------------------------------------- walking down a tree

  /** The node at `pos` as the code reads it. */
  lemma NodeRead(mem: Mem, smallmap: nat, treemap: nat, bins: map<int, int>, sb: seq<seq<int>>, trie: Trie,
      home: map<int, Pos>, pos: Pos)
    requires StoreOk(mem, smallmap, treemap, bins, sb, trie, home) && pos in trie
    ensures At(trie, pos) in bins && At(trie, pos) > 0 && MIN_LARGE <= SizeAt(bins, trie, pos) < WORD
    ensures bins[At(trie, pos)] == SizeAt(bins, trie, pos)
    ensures var t := At(trie, pos);
            && t + HEAD in mem && SizeOf(mem[t + HEAD]) == SizeAt(bins, trie, pos)
            && t + CHILD0 in mem && t + CHILD1 in mem && t + PREV in mem && t + NEXT in mem && t + PARENT in mem
            && t + INDEX in mem
            && mem[t + CHILD0] == At(trie, Kid(pos, false)) && mem[t + CHILD1] == At(trie, Kid(pos, true))
    ensures (At(trie, Kid(pos, false)) != NULL <==> Kid(pos, false) in trie) && At(trie, Kid(pos, false)) >= 0
    ensures (At(trie, Kid(pos, true)) != NULL <==> Kid(pos, true) in trie) && At(trie, Kid(pos, true)) >= 0
  {
    StoreParts(mem, smallmap, treemap, bins, sb, trie, home);
    hide StoreOk, BinsOk, Addressable, Headed, TrieOk, ForestOk, SizeOf;
    NodeSized(bins, trie, home, pos);
    NodePlaced(mem, bins, trie, home, pos);
    ChunkWords(mem, bins, At(trie, pos));
    KidSign(bins, trie, home, Kid(pos, false));
    KidSign(bins, trie, home, Kid(pos, true));
  }

  lemma StoreParts(mem: Mem, smallmap: nat, treemap: nat, bins: map<int, int>, sb: seq<seq<int>>, trie: Trie,
      home: map<int, Pos>)
    requires StoreOk(mem, smallmap, treemap, bins, sb, trie, home)
    ensures BinsOk(bins) && Addressable(mem, bins) && Headed(mem, bins) && TrieOk(mem, bins, trie, home)
    ensures ForestOk(bins, trie, home)
  {
    hide SmallOk, Marked, BinsOk, Addressable, Headed, ForestOk, Slots, Placed;
  }

  lemma NodeSized(bins: map<int, int>, trie: Trie, home: map<int, Pos>, pos: Pos)
    requires BinsOk(bins) && ForestOk(bins, trie, home) && pos in trie
    ensures At(trie, pos) in bins && At(trie, pos) > 0 && MIN_LARGE <= SizeAt(bins, trie, pos) < WORD
    ensures bins[At(trie, pos)] == SizeAt(bins, trie, pos)
  {
    hide Homed, UniqueSizes, Spaced, OnPath, TreeIndex, TopBit;
    assert Shaped(bins, trie, pos);
  }

  lemma NodePlaced(mem: Mem, bins: map<int, int>, trie: Trie, home: map<int, Pos>, pos: Pos)
    requires TrieOk(mem, bins, trie, home) && pos in trie
    ensures var t := At(trie, pos);
      Get(mem, t + CHILD0) == At(trie, Kid(pos, false)) && Get(mem, t + CHILD1) == At(trie, Kid(pos, true))
  {
    hide ForestOk, Slots, Follower, ParentOf, Kid;
    assert Placed(mem, trie, pos);
  }

  lemma ChunkWords(mem: Mem, bins: map<int, int>, t: int)
    requires Addressable(mem, bins) && Headed(mem, bins) && t in bins && bins[t] >= MIN_LARGE
    ensures t + HEAD in mem && SizeOf(mem[t + HEAD]) == bins[t] && t + PREV in mem && t + NEXT in mem
    ensures t + CHILD0 in mem && t + CHILD1 in mem && t + PARENT in mem && t + INDEX in mem
  {
    hide SizeOf;
  }

  /** A child pointer is null exactly if there is no child. */
  lemma KidSign(bins: map<int, int>, trie: Trie, home: map<int, Pos>, kid: Pos)
    requires BinsOk(bins) && ForestOk(bins, trie, home)
    ensures (At(trie, kid) != NULL <==> kid in trie) && At(trie, kid) >= 0
  {
    hide BinsOk, ForestOk;
    if kid in trie { NodeSized(bins, trie, home, kid); }
  }

  lemma RootRead(mem: Mem, smallmap: nat, treemap: nat, bins: map<int, int>, sb: seq<seq<int>>, trie: Trie,
      home: map<int, Pos>, i: nat)
    requires StoreOk(mem, smallmap, treemap, bins, sb, trie, home) && i < 32
    ensures Slot(i) in mem && mem[Slot(i)] == At(trie, Pos(i, []))
    ensures BitAt(treemap, i) <==> Pos(i, []) in trie
    ensures Pos(i, []) in trie <==> At(trie, Pos(i, [])) != NULL
    ensures treemap < MAP_LIMIT
  {
    if Pos(i, []) in trie { assert Shaped(bins, trie, Pos(i, [])); }
  }

  /** Every node of the searched size lies at or below the current one. */
  ghost predicate Descending(bins: map<int, int>, trie: Trie, size: int, pos: Pos, k: nat)
  {
    && Request(size, pos.bin) && pos in trie && OnPath(size, TopBit(pos.bin), pos.path)
    && k == Shl(64, size, LeftShift(pos.bin) + |pos.path|)
    && (forall q :: q in trie && SizeAt(bins, trie, q) == size ==> Under(q, pos))
  }

  /** A vacant place for `size`: see `Vacant`. */
  ghost predicate VacantAt(bins: map<int, int>, trie: Trie, pos: Pos, size: int)
  {
    && (forall q :: q in trie ==> |trie[q]| > 0 && trie[q][0] in bins)
    && Vacant(bins, trie, pos, size)
  }

  lemma DescendStart(mem: Mem, smallmap: nat, treemap: nat, bins: map<int, int>, sb: seq<seq<int>>, trie: Trie,
      home: map<int, Pos>, size: int)
    requires StoreOk(mem, smallmap, treemap, bins, sb, trie, home) && MIN_LARGE <= size < WORD
    requires BitAt(treemap, TreeIndex(size))
    ensures TreeIndex(size) < 32 && Slot(TreeIndex(size)) in mem
    ensures var pos := Pos(TreeIndex(size), []);
            && pos in trie && mem[Slot(pos.bin)] == At(trie, pos) > 0
            && Descending(bins, trie, size, pos, Shl(64, size, LeftShift(pos.bin)))
  {
    hide StoreOk, ForestOk, Shl, BitAt, TreeIndex;
    var pos := Pos(TreeIndex(size), []);
    TreeIndexRange(size);
    StoreForest(mem, smallmap, treemap, bins, sb, trie, home);
    RootRead(mem, smallmap, treemap, bins, sb, trie, home, pos.bin);
    NodeRead(mem, smallmap, treemap, bins, sb, trie, home, pos);
    forall q | q in trie && SizeAt(bins, trie, q) == size
      ensures Under(q, pos)
    {
      NodeFacts(bins, trie, home, q);
    }
  }

  /** The bit that the shifted size shows at the top is the next one on the path. */
  lemma TopBitShown(size: nat, bin: nat, d: nat)
    requires bin < 32 && d <= TopBit(bin)
    ensures BitAt(Shl(64, size, LeftShift(bin) + d), 63) == BitAt(size, TopBit(bin) - d)
  {
    ShlBit(64, size, LeftShift(bin) + d, 63);
  }

  /** A node of another size on the path of `size` is not at the end of the path. */
  lemma NotFull(bins: map<int, int>, trie: Trie, home: map<int, Pos>, size: int, pos: Pos)
    requires ForestOk(bins, trie, home) && Request(size, pos.bin) && pos in trie
    requires OnPath(size, TopBit(pos.bin), pos.path)
    requires SizeAt(bins, trie, pos) != size
    ensures |pos.path| <= TopBit(pos.bin)
  {
    NodeFacts(bins, trie, home, pos);
    SameBinPrefix(SizeAt(bins, trie, pos), size);
    if |pos.path| == TopBit(pos.bin) + 1 { FullPath(SizeAt(bins, trie, pos), size, TopBit(pos.bin), pos.path); }
  }

  lemma SameUnderKid(bins: map<int, int>, trie: Trie, home: map<int, Pos>, size: int, pos: Pos, q: Pos)
    requires ForestOk(bins, trie, home) && Request(size, pos.bin) && pos in trie
    requires OnPath(size, TopBit(pos.bin), pos.path)
    requires SizeAt(bins, trie, pos) != size && |pos.path| <= TopBit(pos.bin)
    requires q in trie && SizeAt(bins, trie, q) == size && Under(q, pos)
    ensures Under(q, Kid(pos, BitAt(size, TopBit(pos.bin) - |pos.path|)))
  {
    NodeFacts(bins, trie, home, q);
    assert q != pos;
    assert q.path[|pos.path|] == BitAt(size, TopBit(pos.bin) - |pos.path|);
  }

  lemma DescendStep(mem: Mem, smallmap: nat, treemap: nat, bins: map<int, int>, sb: seq<seq<int>>, trie: Trie,
      home: map<int, Pos>, size: int, pos: Pos, k: nat)
    requires StoreOk(mem, smallmap, treemap, bins, sb, trie, home) && Descending(bins, trie, size, pos, k)
    requires SizeAt(bins, trie, pos) != size
    ensures |pos.path| <= TopBit(pos.bin)
    ensures var kid := Kid(pos, BitAt(k, 63));
            && (kid in trie ==> Descending(bins, trie, size, kid, (2 * k) % Pow2(64)))
            && (kid !in trie ==> VacantAt(bins, trie, kid, size))
  {
    hide StoreOk, BitAt, Shl, TreeIndex, VacantAt, OnPath, ForestOk, Pow2, LeftShift, TopBit;
    StoreForest(mem, smallmap, treemap, bins, sb, trie, home);
    NotFull(bins, trie, home, size, pos);
    TopBitShown(size, pos.bin, |pos.path|);
    var turn := BitAt(k, 63);
    var kid := Kid(pos, turn);
    NextStep(size, TopBit(pos.bin), pos.path);
    ShlAppend(size, LeftShift(pos.bin) + |pos.path|);
    forall q | q in trie && SizeAt(bins, trie, q) == size
      ensures Under(q, kid)
    {
      SameUnderKid(bins, trie, home, size, pos, q);
    }
    if kid !in trie { VacantKid(bins, trie, home, size, pos, turn); }
  }

  lemma VacantKid(bins: map<int, int>, trie: Trie, home: map<int, Pos>, size: int, pos: Pos, turn: bool)
    requires ForestOk(bins, trie, home) && Request(size, pos.bin) && pos in trie && Kid(pos, turn) !in trie
    requires OnPath(size, TopBit(pos.bin), Kid(pos, turn).path)
    requires forall q :: q in trie && SizeAt(bins, trie, q) == size ==> Under(q, Kid(pos, turn))
    ensures VacantAt(bins, trie, Kid(pos, turn), size)
  {
    KidUp(pos, turn);
    forall q | q in trie
      ensures bins[trie[q][0]] != size
    {
      NothingUnder(bins, trie, home, Kid(pos, turn), q);
    }
  }

  // ---------------------------------------------------------------- inserting into a tree

  function RingOf(trie: Trie, p: Pos): seq<int> { if p in trie then trie[p] else [] }

  /** The chunk joins the ring of the node of its size, or becomes a node where the bits of its size lead. */
  ghost predicate PlantedAt(bins: map<int, int>, trie: Trie, pos: Pos, chunk: int, size: int, trie': Trie)
  {
    && trie' == trie[pos := RingOf(trie, pos) + [chunk]]
    && if pos in trie then SizeAt(bins, trie, pos) == size else VacantAt(bins, trie, pos, size)
  }

  ghost predicate Planted(bins: map<int, int>, trie: Trie, chunk: int, size: int, trie': Trie)
  {
    exists pos :: PlantedAt(bins, trie, pos, chunk, size, trie')
  }

  lemma NodePlanted(bins: map<int, int>, trie: Trie, pos: Pos, chunk: int, size: int)
    requires VacantAt(bins, trie, pos, size)
    ensures Planted(bins, trie, chunk, size, trie[pos := [chunk]])
  {
    assert [] + [chunk] == [chunk];
    assert PlantedAt(bins, trie, pos, chunk, size, trie[pos := [chunk]]);
  }

  lemma RingPlanted(bins: map<int, int>, trie: Trie, pos: Pos, chunk: int, size: int)
    requires pos in trie && SizeAt(bins, trie, pos) == size
    ensures Planted(bins, trie, chunk, size, trie[pos := RingOf(trie, pos) + [chunk]])
  {
    hide SizeAt;
    assert PlantedAt(bins, trie, pos, chunk, size, trie[pos := RingOf(trie, pos) + [chunk]]);
  }

  /** On the way down from `p` to `leaf` the left child is taken only where there is no right one. */
  ghost predicate RightFirst(trie: Trie, p: Pos, leaf: Pos)
  {
    forall i :: |p.path| <= i < |leaf.path| && !leaf.path[i] ==> Kid(Pos(leaf.bin, leaf.path[..i]), true) !in trie
  }

  /** Of the chunks of its size, the one that is the tree node. */
  ghost predicate HeadsRing(trie: Trie, v: int) { exists pos :: pos in trie && At(trie, pos) == v }

  lemma RightFirstKid(trie: Trie, p: Pos, leaf: Pos, x: bool)
    requires leaf == p || (Below(leaf, p) && RightFirst(trie, p, leaf))
    requires x || Kid(leaf, true) !in trie
    ensures RightFirst(trie, p, Kid(leaf, x))
  {
    var kid := Kid(leaf, x);
    forall i | |p.path| <= i < |kid.path| && !kid.path[i]
      ensures Kid(Pos(kid.bin, kid.path[..i]), true) !in trie
    {
      if i < |leaf.path| {
        assert kid.path[..i] == leaf.path[..i];
      } else {
        assert kid.path[..i] == leaf.path;
      }
    }
  }

  /** The chunk, `k`-th of the ring at `p`, is gone: from the ring, or with the node, whose place the leaf on the
      rightmost way down takes. */
  ghost predicate PulledAt(trie: Trie, p: Pos, k: int, chunk: int, trie': Trie)
  {
    && p in trie && 0 <= k < |trie[p]| && trie[p][k] == chunk
    && if |trie[p]| >= 2 then trie' == trie[p := Without(trie[p], k)]
       else if IsLeaf(trie, p) then trie' == trie - {p}
       else exists leaf ::
         IsLeaf(trie, leaf) && Below(leaf, p) && RightFirst(trie, p, leaf) && trie' == (trie - {leaf})[p := trie[leaf]]
  }

  ghost predicate Pulled(trie: Trie, chunk: int, trie': Trie) { exists p, k :: PulledAt(trie, p, k, chunk, trie') }

  /** What `insert_large_chunk` needs to know before it writes. */
  lemma LargeWords(mem: Mem, smallmap: nat, treemap: nat, bins: map<int, int>, sb: seq<seq<int>>, trie: Trie,
      home: map<int, Pos>, c: int, size: int)
    requires StoreOk(mem, smallmap, treemap, bins, sb, trie, home) && Binnable(mem, bins, c, size) && size >= MIN_LARGE
    ensures MIN_LARGE <= size < WORD && TreeIndex(size) < 32 && c > 0 && c % 16 == 0 && c !in bins
    ensures (And(treemap, Pow2(TreeIndex(size))) != 0 <==> BitAt(treemap, TreeIndex(size)))
    ensures Slot(TreeIndex(size)) in mem
    ensures c + PREV in mem && c + NEXT in mem && c + CHILD0 in mem && c + CHILD1 in mem && c + PARENT in mem
    ensures c + INDEX in mem
  {
    hide TreeIndex, BitAt, And, StoreOk;
    BinnableFacts(mem, bins, c, size);
    TreeIndexRange(size);
    TestBit(treemap, TreeIndex(size));
    RootRead(mem, smallmap, treemap, bins, sb, trie, home, TreeIndex(size));
  }

  lemma LargeReady(mem: Mem, smallmap: nat, treemap: nat, bins: map<int, int>, sb: seq<seq<int>>, trie: Trie,
      home: map<int, Pos>, c: int, size: int)
    requires StoreOk(mem, smallmap, treemap, bins, sb, trie, home) && Binnable(mem, bins, c, size) && size >= MIN_LARGE
    ensures MIN_LARGE <= size < WORD && TreeIndex(size) < 32 && c > 0 && c % 16 == 0 && c !in bins
    ensures c + PREV in mem && c + NEXT in mem && c + CHILD0 in mem && c + CHILD1 in mem && c + PARENT in mem
    ensures c + INDEX in mem
    ensures forall a :: c + PREV <= a < c + NODE_END ==> !BinWord(a) && !LinkWord(bins, a) && a - HEAD !in bins
  {
    hide TreeIndex, StoreOk;
    LargeWords(mem, smallmap, treemap, bins, sb, trie, home, c, size);
    forall a | c + PREV <= a < c + NODE_END
      ensures !LinkWord(bins, a) && a - HEAD !in bins
    {
      OutsideBins(mem, bins, c, size, a);
    }
  }

  /** Words of a chunk that is in no bin are not links. */
  lemma OutsideBins(mem: Mem, bins: map<int, int>, c: int, size: int, a: int)
    requires Binnable(mem, bins, c, size) && c + PREV <= a < c + size
    ensures !LinkWord(bins, a) && a - HEAD !in bins
  {
    var bins' := bins[c := size];
    forall q | q in bins
      ensures !(q + PREV <= a < q + LinkEnd(bins[q])) && q != a - HEAD
    {
      BinApart(bins', q, c);
      assert bins'[q] == bins[q] && bins'[q] >= MIN_CHUNK;
    }
  }

  /** The three words written first belong to the chunk itself. */
  ghost predicate Blanked(m0: Mem, m1: Mem, c: int, idx: int)
  {
    && c + INDEX in m0 && c + CHILD0 in m0 && c + CHILD1 in m0
    && m1 == m0[c + INDEX := idx][c + CHILD0 := NULL][c + CHILD1 := NULL]
  }

  lemma BlankedDomain(m0: Mem, m1: Mem, c: int, idx: int)
    requires Blanked(m0, m1, c, idx)
    ensures m1.Keys == m0.Keys
  {
  }

  lemma BlankedWords(m0: Mem, m1: Mem, c: int, idx: nat)
    requires Blanked(m0, m1, c, idx) && Slot(idx) in m0 && c + PREV in m0 && c + NEXT in m0 && c + PARENT in m0
    ensures Slot(idx) in m1 && c + PREV in m1 && c + NEXT in m1 && c + PARENT in m1
  {
    BlankedDomain(m0, m1, c, idx);
    assert forall a :: a in m0 <==> a in m1;
  }

  lemma FreshWrites(m0: Mem, m1: Mem, bins: map<int, int>, c: int, size: int, idx: int)
    requires Blanked(m0, m1, c, idx) && size >= MIN_LARGE
    ensures m1.Keys == m0.Keys && TreeWrites(m0, m1, bins[c := size])
    ensures Get(m1, c + HEAD) == Get(m0, c + HEAD)
  {
    var bins' := bins[c := size];
    assert c in bins' && bins'[c] >= MIN_LARGE;
  }

  lemma BinnableStill(m0: Mem, m1: Mem, bins: map<int, int>, c: int, size: int)
    requires Binnable(m0, bins, c, size) && m1.Keys == m0.Keys && Get(m1, c + HEAD) == Get(m0, c + HEAD)
    ensures Binnable(m1, bins, c, size) && (size >= MIN_LARGE ==> Newcomer(bins, c, size))
  {
    BinnableFacts(m0, bins, c, size);
  }

  /** The memory image of a new leaf, as written: three words first, four words last. */
  ghost predicate LeafImage(m0: Mem, m1: Mem, m: Mem, trie: Trie, pos: Pos, c: int)
  {
    && Blanked(m0, m1, c, pos.bin)
    && m == m1[PointerTo(trie, pos) := c][c + PARENT := ParentOf(trie, pos)][c + NEXT := c][c + PREV := c]
    && PointerTo(trie, pos) in m0 && c + INDEX in m0 && c + CHILD0 in m0 && c + CHILD1 in m0
    && c + PARENT in m0 && c + NEXT in m0 && c + PREV in m0
    && (PointerTo(trie, pos) < c + PREV || PointerTo(trie, pos) >= c + NODE_END)
  }

  lemma LeafImageWritten(m0: Mem, m1: Mem, m: Mem, trie: Trie, pos: Pos, c: int)
    requires LeafImage(m0, m1, m, trie, pos, c)
    ensures LeafWritten(m1, m, trie, pos, c) && m.Keys == m1.Keys == m0.Keys
  {
  }

  lemma LeafMarked(smallmap: nat, treemap: nat, sb: seq<seq<int>>, trie: Trie, pos: Pos, c: int)
    requires Marked(smallmap, treemap, sb, trie) && pos.bin < 32
    ensures Marked(smallmap, if pos.path == [] then MarkBit(treemap, pos.bin) else treemap, sb, trie[pos := [c]])
  {
    MarkSets(treemap, pos.bin);
  }

  /** A new leaf in place: the whole store is in order. */
  lemma LeafInserted(m0: Mem, m1: Mem, m: Mem, smallmap: nat, treemap: nat, bins: map<int, int>, sb: seq<seq<int>>,
      trie: Trie, home: map<int, Pos>, c: int, size: int, pos: Pos)
    requires StoreOk(m1, smallmap, treemap, bins, sb, trie, home) && Binnable(m0, bins, c, size) && size >= MIN_LARGE
    requires LeafImage(m0, m1, m, trie, pos, c) && VacantAt(bins, trie, pos, size)
    ensures StoreOk(m, smallmap, if pos.path == [] then MarkBit(treemap, pos.bin)
        else treemap, bins[c := size], sb, trie[pos := [c]], home[c := pos])
    ensures OnlyLinks(m0, m, bins[c := size])
  {
    LeafImageWritten(m0, m1, m, trie, pos, c);
    FreshWrites(m0, m1, bins, c, size, pos.bin);
    BinnableStill(m0, m1, bins, c, size);
    InsertLeaf(m1, m, bins, trie, home, pos, c, size);
    LeafMarked(smallmap, treemap, sb, trie, pos, c);
    if pos.path != [] { assert Shaped(bins, trie, Up(pos)); }
    LeafTreeWrites(m1, m, bins, trie, pos, c, size);
    LargeInserted(m1, m, smallmap, treemap, if pos.path == [] then MarkBit(treemap, pos.bin) else treemap, bins, sb,
        trie, trie[pos := [c]], home, home[c := pos], c, size);
    TreeWritesTrans(m0, m1, m, bins[c := size]);
    TreeKeeps(m0, m, bins[c := size]);
  }

  lemma RootInserted(m0: Mem, m1: Mem, m: Mem, smallmap: nat, treemap: nat, bins: map<int, int>, sb: seq<seq<int>>,
      trie: Trie, home: map<int, Pos>, c: int, size: int)
    requires StoreOk(m1, smallmap, treemap, bins, sb, trie, home) && Binnable(m0, bins, c, size) && size >= MIN_LARGE
    requires TreeIndex(size) < 32 && !BitAt(treemap, TreeIndex(size)) && Blanked(m0, m1, c, TreeIndex(size))
    requires m == m1[Slot(TreeIndex(size)) := c][c + PARENT := Slot(TreeIndex(size))][c + NEXT := c][c + PREV := c]
    ensures StoreOk(m, smallmap, MarkBit(treemap, TreeIndex(size)), bins[c := size], sb,
                trie[Pos(TreeIndex(size), []) := [c]], home[c := Pos(TreeIndex(size), [])])
    ensures OnlyLinks(m0, m, bins[c := size])
  {
    var pos := Pos(TreeIndex(size), []);
    BinnableFacts(m0, bins, c, size);
    RootVacant(m1, smallmap, treemap, bins, sb, trie, home, size);
    LeafInserted(m0, m1, m, smallmap, treemap, bins, sb, trie, home, c, size, pos);
  }

  lemma RootVacant(mem: Mem, smallmap: nat, treemap: nat, bins: map<int, int>, sb: seq<seq<int>>, trie: Trie,
      home: map<int, Pos>, size: int)
    requires StoreOk(mem, smallmap, treemap, bins, sb, trie, home) && MIN_LARGE <= size < WORD
    requires TreeIndex(size) < 32 && !BitAt(treemap, TreeIndex(size))
    ensures VacantAt(bins, trie, Pos(TreeIndex(size), []), size) && Slot(TreeIndex(size)) in mem
  {
    var pos := Pos(TreeIndex(size), []);
    RootRead(mem, smallmap, treemap, bins, sb, trie, home, pos.bin);
    forall q | q in trie
      ensures bins[trie[q][0]] != size
    {
      NodeFacts(bins, trie, home, q);
      NothingUnder(bins, trie, home, pos, q);
    }
  }

  lemma KidInserted(m0: Mem, m1: Mem, m: Mem, smallmap: nat, treemap: nat, bins: map<int, int>, sb: seq<seq<int>>,
      trie: Trie, home: map<int, Pos>, c: int, size: int, pos: Pos, turn: bool)
    requires StoreOk(m1, smallmap, treemap, bins, sb, trie, home) && Binnable(m0, bins, c, size) && size >= MIN_LARGE
    requires pos in trie && VacantAt(bins, trie, Kid(pos, turn), size) && Blanked(m0, m1, c, TreeIndex(size))
    requires var t := At(trie, pos); m == m1[t + ChildWord(turn) := c][c + PARENT := t][c + NEXT := c][c + PREV := c]
    ensures StoreOk(m, smallmap, treemap, bins[c := size], sb, trie[Kid(pos, turn) := [c]], home[c := Kid(pos, turn)])
    ensures OnlyLinks(m0, m, bins[c := size])
  {
    hide SmallOk, Marked, Homed, UniqueSizes, Placed, Slots, OnPath, TreeIndex, TopBit, Spaced;
    KidUp(pos, turn);
    NodeRead(m1, smallmap, treemap, bins, sb, trie, home, pos);
    FreshWrites(m0, m1, bins, c, size, TreeIndex(size));
    BinnableStill(m0, m1, bins, c, size);
    assert Shaped(bins, trie, pos);
    NewcomerClear(bins, trie, c, size, pos);
    assert Away(trie[pos][0], c);
    LeafInserted(m0, m1, m, smallmap, treemap, bins, sb, trie, home, c, size, Kid(pos, turn));
  }

  /** The end of the ring at `pos`, as the code reads it. */
  lemma RingRead(mem: Mem, smallmap: nat, treemap: nat, bins: map<int, int>, sb: seq<seq<int>>, trie: Trie,
      home: map<int, Pos>, pos: Pos)
    requires StoreOk(mem, smallmap, treemap, bins, sb, trie, home) && pos in trie
    ensures |trie[pos]| > 0 && At(trie, pos) == trie[pos][0] && At(trie, pos) + PREV in mem
    ensures var f := trie[pos][|trie[pos]| - 1]; mem[At(trie, pos) + PREV] == f && f + NEXT in mem
  {
    hide UniqueSizes, Homed, SmallOk, Marked, OnPath, TreeIndex, TopBit, Spaced, Follower, ParentOf, Slots, Headed;
    assert Shaped(bins, trie, pos) && Placed(mem, trie, pos);
    assert Linked(mem, trie[pos], 0);
  }

  lemma JoinImageWritten(m1: Mem, m: Mem, trie: Trie, pos: Pos, c: int)
    requires pos in trie && |trie[pos]| > 0
    requires var t, f := trie[pos][0], trie[pos][|trie[pos]| - 1];
             && m == m1[f + NEXT := c][t + PREV := c][c + PREV := f][c + NEXT := t][c + PARENT := NULL]
             && t + PREV in m1 && f + NEXT in m1 && c + PREV in m1 && c + NEXT in m1 && c + PARENT in m1
             && Away(t, c) && Away(f, c) && t % 16 == 0 && f % 16 == 0
    requires Get(m1, c + INDEX) == pos.bin && Get(m1, c + CHILD0) == NULL && Get(m1, c + CHILD1) == NULL
    ensures JoinWritten(m1, m, trie, pos, c) && m.Keys == m1.Keys
  {
  }

  lemma RingInserted(m0: Mem, m1: Mem, m: Mem, smallmap: nat, treemap: nat, bins: map<int, int>, sb: seq<seq<int>>,
      trie: Trie, home: map<int, Pos>, c: int, size: int, pos: Pos)
    requires StoreOk(m1, smallmap, treemap, bins, sb, trie, home) && Binnable(m0, bins, c, size) && size >= MIN_LARGE
    requires pos in trie && SizeAt(bins, trie, pos) == size && Blanked(m0, m1, c, TreeIndex(size))
    requires |trie[pos]| > 0
    requires var t, f := trie[pos][0], trie[pos][|trie[pos]| - 1];
             m == m1[f + NEXT := c][t + PREV := c][c + PREV := f][c + NEXT := t][c + PARENT := NULL]
    ensures StoreOk(m, smallmap, treemap, bins[c := size], sb, trie[pos := trie[pos] + [c]], home[c := pos])
    ensures OnlyLinks(m0, m, bins[c := size])
  {
    FreshWrites(m0, m1, bins, c, size, TreeIndex(size));
    BinnableStill(m0, m1, bins, c, size);
    RingInsertReady(m1, smallmap, treemap, bins, sb, trie, home, c, size, pos);
    JoinImageWritten(m1, m, trie, pos, c);
    InsertJoin(m1, m, bins, trie, home, pos, c, size);
    assert Marked(smallmap, treemap, sb, trie[pos := trie[pos] + [c]]);
    assert Shaped(bins, trie, pos);
    JoinTreeWrites(m1, m, bins, trie, pos, c, size);
    LargeInserted(m1, m, smallmap, treemap, treemap, bins, sb, trie, trie[pos := trie[pos] + [c]], home,
        home[c := pos], c, size);
    TreeWritesTrans(m0, m1, m, bins[c := size]);
    TreeKeeps(m0, m, bins[c := size]);
  }

  lemma RingInsertReady(mem: Mem, smallmap: nat, treemap: nat, bins: map<int, int>, sb: seq<seq<int>>, trie: Trie,
      home: map<int, Pos>, c: int, size: int, pos: Pos)
    requires StoreOk(mem, smallmap, treemap, bins, sb, trie, home) && Newcomer(bins, c, size) && pos in trie
    requires SizeAt(bins, trie, pos) == size
    ensures |trie[pos]| > 0 && TreeIndex(size) == pos.bin && bins[trie[pos][0]] == size
    ensures var t, f := trie[pos][0], trie[pos][|trie[pos]| - 1];
            && t + PREV in mem && f + NEXT in mem
            && Away(t, c) && Away(f, c) && t % 16 == 0 && f % 16 == 0
  {
    assert Shaped(bins, trie, pos) && Placed(mem, trie, pos);
    NodeFacts(bins, trie, home, pos);
    NewcomerClear(bins, trie, c, size, pos);
    MemberSize(bins, trie, pos, |trie[pos]| - 1);
  }

  // ---------------------------------------------------------------- unlinking from a tree

  lemma KidPointer(trie: Trie, p: Pos, x: bool)
    ensures Kid(p, x).path != [] && Last(Kid(p, x)) == x && PointerTo(trie, Kid(p, x)) == At(trie, p) + ChildWord(x)
  {
    KidUp(p, x);
  }

  lemma KidBelow(leaf: Pos, p: Pos, x: bool)
    requires leaf == p || Below(leaf, p)
    ensures Below(Kid(leaf, x), p)
  {
  }

  /** How far a path can still grow. */
  function Room(p: Pos): nat { if |p.path| <= 64 then 64 - |p.path| else 0 }

  lemma RoomShrinks(mem: Mem, smallmap: nat, treemap: nat, bins: map<int, int>, sb: seq<seq<int>>, trie: Trie,
      home: map<int, Pos>, p: Pos, kid: Pos)
    requires StoreOk(mem, smallmap, treemap, bins, sb, trie, home) && kid in trie && kid.path != [] && Up(kid) == p
    ensures Room(kid) < Room(p)
  {
    NodeFacts(bins, trie, home, kid);
  }

  /** The word that points to `chunk`, the node at `p`, can be found from its index and parent. */
  ghost predicate PointerReady(mem: Mem, trie: Trie, p: Pos, chunk: int, xp: int)
  {
    && p.bin < 32 && chunk + INDEX in mem && mem[chunk + INDEX] == p.bin && chunk > 0
    && Slot(p.bin) in mem && xp == ParentOf(trie, p)
    && (p.path == [] ==> mem[Slot(p.bin)] == chunk)
    && (p.path != [] ==>
          && mem[Slot(p.bin)] != chunk && xp > 0 && xp + CHILD0 in mem && xp + CHILD1 in mem
          && Get(mem, xp + ChildWord(Last(p))) == chunk && (Last(p) ==> mem[xp + CHILD0] != chunk))
  }

  /** The chunks whose tree links change are apart, and `r` comes without children. */
  ghost predicate LinksReady(mem: Mem, trie: Trie, p: Pos, chunk: int, xp: int, r: int)
  {
    && chunk > 0 && r > 0 && p.bin < 32 && xp == ParentOf(trie, p)
    && (p.path != [] ==> xp > 0 && Away(chunk, xp) && Away(r, xp))
    && chunk + CHILD0 in mem && chunk + CHILD1 in mem
    && mem[chunk + CHILD0] == At(trie, Kid(p, false)) && mem[chunk + CHILD1] == At(trie, Kid(p, true))
    && r + PARENT in mem && r + CHILD0 in mem && r + CHILD1 in mem && mem[r + CHILD0] == NULL && mem[r + CHILD1] == NULL
    && Away(chunk, r) && KidReady(mem, trie, p, chunk, xp, r, false) && KidReady(mem, trie, p, chunk, xp, r, true)
    && (At(trie, Kid(p, false)) != NULL && At(trie, Kid(p, true)) != NULL ==>
        Away(At(trie, Kid(p, false)), At(trie, Kid(p, true))))
  }

  ghost predicate KidReady(mem: Mem, trie: Trie, p: Pos, chunk: int, xp: int, r: int, x: bool)
  {
    var c := At(trie, Kid(p, x));
    c != NULL ==> c > 0 && c + PARENT in mem && Away(c, chunk) && Away(c, r) && (p.path != [] ==> Away(c, xp))
  }

  /** Repointing leaves the children of `chunk` readable. */
  lemma LinksKept(mem: Mem, trie: Trie, p: Pos, chunk: int, xp: int, r: int)
    requires LinksReady(mem, trie, p, chunk, xp, r)
    ensures PointerTo(trie, p) < chunk + PREV || PointerTo(trie, p) >= chunk + NODE_END
    ensures PointerTo(trie, p) < r + PREV || PointerTo(trie, p) >= r + NODE_END
  {
  }

  /** The first child is read after the pointer and the parent are written. */
  lemma LinksRead(m0: Mem, m: Mem, trie: Trie, p: Pos, chunk: int, xp: int, r: int)
    requires LinksReady(m0, trie, p, chunk, xp, r) && PointerTo(trie, p) in m0 && m == m0[PointerTo(trie, p) := r]
    ensures m.Keys == m0.Keys && r + PARENT in m
    ensures var m1 := m[r + PARENT := xp];
            && m1.Keys == m0.Keys && chunk + CHILD0 in m1 && m1[chunk + CHILD0] == At(trie, Kid(p, false))
            && r + CHILD0 in m1
            && (At(trie, Kid(p, false)) != NULL ==> At(trie, Kid(p, false)) + PARENT in m1)
  {
    LinksKept(m0, trie, p, chunk, xp, r);
  }

  /** The second child is read after the first has moved. */
  lemma LinksReadOn(m0: Mem, m2: Mem, trie: Trie, p: Pos, chunk: int, xp: int, r: int)
    requires LinksReady(m0, trie, p, chunk, xp, r) && PointerTo(trie, p) in m0
    requires var m1, c0 := m0[PointerTo(trie, p) := r][r + PARENT := xp], At(trie, Kid(p, false));
             m2 == (if c0 == NULL then m1 else m1[r + CHILD0 := c0][c0 + PARENT := r]) && m2.Keys == m0.Keys
    ensures chunk + CHILD1 in m2 && m2[chunk + CHILD1] == At(trie, Kid(p, true)) && r + CHILD1 in m2
    ensures At(trie, Kid(p, true)) != NULL ==> At(trie, Kid(p, true)) + PARENT in m2
  {
    LinksKept(m0, trie, p, chunk, xp, r);
    assert chunk + CHILD1 in m0.Keys && r + CHILD1 in m0.Keys;
    assert At(trie, Kid(p, true)) != NULL ==> At(trie, Kid(p, true)) + PARENT in m0.Keys;
  }

  lemma RelinkHandover(m0: Mem, m: Mem, trie: Trie, p: Pos, chunk: int, xp: int, r: int)
    requires LinksReady(m0, trie, p, chunk, xp, r) && PointerTo(trie, p) in m0
    requires var m1 := m0[PointerTo(trie, p) := r][r + PARENT := xp];
             var c0, c1 := At(trie, Kid(p, false)), At(trie, Kid(p, true));
             var m2 := if c0 == NULL then m1 else m1[r + CHILD0 := c0][c0 + PARENT := r];
             m == if c1 == NULL then m2 else m2[r + CHILD1 := c1][c1 + PARENT := r]
    ensures HandoverWritten(m0, m, trie, p, r)
  {
  }

  // ---------------------------------------------------------------- the chunk to unlink, as the code reads it

  /** `c` is member `k` of the ring at `p`; its parent word tells a node from a follower. */
  ghost predicate MemberAt(mem: Mem, bins: map<int, int>, trie: Trie, p: Pos, k: int, c: int)
  {
    && p in trie && 0 <= k < |trie[p]| && trie[p][k] == c && c in bins && bins[c] >= MIN_LARGE
    && c + PREV in mem && c + NEXT in mem && c + PARENT in mem && c + CHILD0 in mem && c + CHILD1 in mem
    && mem[c + PREV] == trie[p][Before(trie[p], k)] && mem[c + NEXT] == trie[p][After(trie[p], k)]
    && mem[c + PREV] + NEXT in mem && mem[c + NEXT] + PREV in mem
    && (k > 0 <==> mem[c + PARENT] == NULL) && (k == 0 ==> mem[c + PARENT] == ParentOf(trie, p))
  }

  lemma MemberRead(mem: Mem, smallmap: nat, treemap: nat, bins: map<int, int>, sb: seq<seq<int>>, trie: Trie,
      home: map<int, Pos>, c: int) returns (p: Pos, k: int)
    requires StoreOk(mem, smallmap, treemap, bins, sb, trie, home) && c in bins && bins[c] >= MIN_LARGE
    ensures MemberAt(mem, bins, trie, p, k, c)
    ensures mem[c + NEXT] == c <==> |RingOf(trie, p)| == 1
    ensures |RingOf(trie, p)| == 1 ==> k == 0
  {
    p, k := MemberIndex(bins, trie, home, c);
    MemberWords(mem, bins, trie, home, p, k);
    assert Shaped(bins, trie, p);
    RingScattered(bins, trie, p);
    if |trie[p]| > 1 { PairAway(trie[p], k, After(trie[p], k)); }
  }

  lemma MemberIndex(bins: map<int, int>, trie: Trie, home: map<int, Pos>, c: int) returns (p: Pos, k: int)
    requires Homed(bins, trie, home) && c in bins && bins[c] >= MIN_LARGE
    ensures p in trie && 0 <= k < |trie[p]| && trie[p][k] == c
  {
    p := home[c];
    k :| 0 <= k < |trie[p]| && trie[p][k] == c;
  }

  lemma MemberWords(mem: Mem, bins: map<int, int>, trie: Trie, home: map<int, Pos>, p: Pos, k: int)
    requires BinsOk(bins) && Addressable(mem, bins) && TrieOk(mem, bins, trie, home) && p in trie && 0 <= k < |trie[p]|
    ensures MemberAt(mem, bins, trie, p, k, trie[p][k])
  {
    hide BinsOk, Homed, UniqueSizes, OnPath, TreeIndex;
    assert Shaped(bins, trie, p) && Placed(mem, trie, p);
    assert Linked(mem, trie[p], k);
    MemberSize(bins, trie, p, k);
    MemberSize(bins, trie, p, Before(trie[p], k));
    MemberSize(bins, trie, p, After(trie[p], k));
    if k > 0 {
      assert Follower(mem, trie[p][k]);
    } else {
      if p.path != [] { assert Shaped(bins, trie, Up(p)); }
      ParentNonzero(bins, trie, p);
    }
  }

  lemma ParentNonzero(bins: map<int, int>, trie: Trie, p: Pos)
    requires BinsOk(bins) && p in trie && Shaped(bins, trie, p)
    requires p.path != [] ==> Shaped(bins, trie, Up(p))
    ensures ParentOf(trie, p) != NULL
  {
  }

  /** Nodes of different positions are apart. */
  lemma NodesAway(bins: map<int, int>, trie: Trie, home: map<int, Pos>, forest: Trie, p: Pos, q: Pos)
    requires BinsOk(bins) && Homed(bins, trie, home) && AllShaped(bins, trie) && SubTrie(forest, trie)
    requires p in forest && q in forest && p != q
    ensures At(forest, p) > 0 && At(forest, q) > 0 && Away(At(forest, p), At(forest, q))
    ensures Away(At(forest, q), At(forest, p))
    ensures At(forest, p) in bins && At(forest, q) in bins && bins[At(forest, p)] >= MIN_LARGE
    ensures bins[At(forest, q)] >= MIN_LARGE
  {
    assert Shaped(bins, trie, p) && Shaped(bins, trie, q);
    OtherClear(bins, trie, home, p, q, 0);
    RingPositive(bins, trie, q);
  }

  /** The forest in which a handover takes place, with the node `c` at `p` still in its tree. */
  ghost predicate Standing(mem: Mem, bins: map<int, int>, trie: Trie, home: map<int, Pos>, forest: Trie, p: Pos, c: int)
  {
    && BinsOk(bins) && Addressable(mem, bins) && Homed(bins, trie, home) && AllShaped(bins, trie)
    && SubTrie(forest, trie)
    && Slots(mem, forest) && p in forest && At(forest, p) == c && Get(mem, c + INDEX) == p.bin
    && (p.path != [] ==> Up(p) in forest && Placed(mem, forest, Up(p)))
  }

  lemma StandingPointer(mem: Mem, bins: map<int, int>, trie: Trie, home: map<int, Pos>, forest: Trie, p: Pos, c: int)
    requires Standing(mem, bins, trie, home, forest, p, c)
    ensures PointerReady(mem, forest, p, c, ParentOf(forest, p))
  {
    hide OnPath, TreeIndex, TopBit, Spaced, Homed, UniqueSizes;
    assert Shaped(bins, trie, p);
    RingPositive(bins, trie, p);
    if p.path != [] {
      UpKid(p);
      assert Shaped(bins, trie, Up(p));
      NodesAway(bins, trie, home, forest, p, Up(p));
      var root := Pos(p.bin, []);
      if root in forest { NodesAway(bins, trie, home, forest, p, root); }
      var other := Kid(Up(p), false);
      if Last(p) && other in forest { KidUp(Up(p), false); NodesAway(bins, trie, home, forest, p, other); }
    }
  }

  lemma StandingKid(mem: Mem, bins: map<int, int>, trie: Trie, home: map<int, Pos>, forest: Trie, p: Pos, c: int,
      r: int, x: bool)
    requires Standing(mem, bins, trie, home, forest, p, c)
    requires At(forest, Kid(p, x)) != NULL ==> Away(At(forest, Kid(p, x)), r)
    ensures KidReady(mem, forest, p, c, ParentOf(forest, p), r, x)
  {
    if At(forest, Kid(p, x)) != NULL {
      KidUp(p, x);
      NodesAway(bins, trie, home, forest, Kid(p, x), p);
      if p.path != [] { NodesAway(bins, trie, home, forest, Kid(p, x), Up(p)); }
    }
  }

  /** `r` is apart from the nodes around `p`. */
  ghost predicate Outsider(forest: Trie, p: Pos, c: int, r: int)
  {
    && r > 0 && Away(c, r) && (p.path != [] ==> Away(r, At(forest, Up(p))))
    && (At(forest, Kid(p, false)) != NULL ==> Away(At(forest, Kid(p, false)), r))
    && (At(forest, Kid(p, true)) != NULL ==> Away(At(forest, Kid(p, true)), r))
  }

  lemma StandingLinks(mem: Mem, bins: map<int, int>, trie: Trie, home: map<int, Pos>, forest: Trie, p: Pos, c: int,
      r: int)
    requires Standing(mem, bins, trie, home, forest, p, c) && Outsider(forest, p, c, r)
    requires r in bins && bins[r] >= MIN_LARGE && Get(mem, r + CHILD0) == NULL && Get(mem, r + CHILD1) == NULL
    requires Get(mem, c + CHILD0) == At(forest, Kid(p, false)) && Get(mem, c + CHILD1) == At(forest, Kid(p, true))
    ensures LinksReady(mem, forest, p, c, ParentOf(forest, p), r)
  {
    assert Shaped(bins, trie, p);
    RingPositive(bins, trie, p);
    if p.path != [] { NodesAway(bins, trie, home, forest, p, Up(p)); }
    StandingKid(mem, bins, trie, home, forest, p, c, r, false);
    StandingKid(mem, bins, trie, home, forest, p, c, r, true);
    if At(forest, Kid(p, false)) != NULL && At(forest, Kid(p, true)) != NULL {
      KidUp(p, false);
      KidUp(p, true);
      NodesAway(bins, trie, home, forest, Kid(p, false), Kid(p, true));
    }
  }

  // ---------------------------------------------------------------- leaving a ring

  lemma DropImage(m0: Mem, m1: Mem, smallmap: nat, treemap: nat, bins: map<int, int>, sb: seq<seq<int>>, trie: Trie,
      home: map<int, Pos>, p: Pos, k: int, c: int)
    requires StoreOk(m0, smallmap, treemap, bins, sb, trie, home) && MemberAt(m0, bins, trie, p, k, c)
    requires |RingOf(trie, p)| >= 2
    requires m1 == m0[m0[c + PREV] + NEXT := m0[c + NEXT]][m0[c + NEXT] + PREV := m0[c + PREV]]
    ensures DropWritten(m0, m1, trie[p], k) && m1.Keys == m0.Keys
  {
    hide DropWritten;
    RingAligned(m0, smallmap, treemap, bins, sb, trie, home, p, Before(trie[p], k));
    RingAligned(m0, smallmap, treemap, bins, sb, trie, home, p, After(trie[p], k));
    hide StoreOk;
    DropWrites(m0, m1, trie[p], k);
  }

  lemma RingAligned(mem: Mem, smallmap: nat, treemap: nat, bins: map<int, int>, sb: seq<seq<int>>, trie: Trie,
      home: map<int, Pos>, p: Pos, k: int)
    requires StoreOk(mem, smallmap, treemap, bins, sb, trie, home) && p in trie && 0 <= k < |trie[p]|
    ensures trie[p][k] % 16 == 0
  {
    hide SmallOk, Addressable, Headed, Marked, Homed, UniqueSizes, Slots, Placed, Spaced, OnPath, TreeIndex, TopBit;
    assert Shaped(bins, trie, p);
  }

  lemma DropWrites(m0: Mem, m1: Mem, r: seq<int>, k: int)
    requires |r| >= 2 && 0 <= k < |r|
    requires var b, n := r[Before(r, k)], r[After(r, k)];
      && b % 16 == 0 && n % 16 == 0 && b + NEXT in m0 && n + PREV in m0 && m1 == m0[b + NEXT := n][n + PREV := b]
    ensures DropWritten(m0, m1, r, k) && m1.Keys == m0.Keys
  {
    NextPrev(r[Before(r, k)], r[After(r, k)]);
  }

  lemma NextPrev(b: int, n: int)
    requires b % 16 == 0 && n % 16 == 0
    ensures b + NEXT != n + PREV
  {
  }

  lemma MemberDrops(mem: Mem, smallmap: nat, treemap: nat, bins: map<int, int>, sb: seq<seq<int>>, trie: Trie,
      home: map<int, Pos>, p: Pos, k: int, c: int)
    requires StoreOk(mem, smallmap, treemap, bins, sb, trie, home) && MemberAt(mem, bins, trie, p, k, c)
    ensures Drops(bins, trie, home, p, k, c) && AllShaped(bins, trie) && BinsOk(bins) && TrieOk(mem, bins, trie, home)
    ensures Shaped(bins, trie, p) && Placed(mem, trie, p) && p.bin < 32 && (p.path != [] ==> Up(p) in trie)
    ensures Homed(bins, trie, home) && Addressable(mem, bins) && treemap < MAP_LIMIT
  {
    assert Shaped(bins, trie, p) && Placed(mem, trie, p);
  }

  lemma FollowerRemoved(m0: Mem, m1: Mem, smallmap: nat, treemap: nat, bins: map<int, int>, sb: seq<seq<int>>,
      trie: Trie, home: map<int, Pos>, p: Pos, k: int, c: int)
    requires StoreOk(m0, smallmap, treemap, bins, sb, trie, home) && MemberAt(m0, bins, trie, p, k, c) && k > 0
    requires DropWritten(m0, m1, trie[p], k) && m1.Keys == m0.Keys
    ensures StoreOk(m1, smallmap, treemap, bins - {c}, sb, trie[p := Without(trie[p], k)], home - {c})
    ensures OnlyLinks(m0, m1, bins)
  {
    MemberDrops(m0, smallmap, treemap, bins, sb, trie, home, p, k, c);
    RemoveFollower(m0, m1, bins, trie, home, p, k, c);
    DropTreeWrites(m0, m1, bins, trie, p, k);
    LargeRemoved(m0, m1, smallmap, treemap, treemap, bins, sb, trie, trie[p := Without(trie[p], k)], home, home - {c},
        c);
  }

  lemma HeadReady(m0: Mem, m1: Mem, smallmap: nat, treemap: nat, bins: map<int, int>, sb: seq<seq<int>>, trie: Trie,
      home: map<int, Pos>, p: Pos, c: int)
    requires StoreOk(m0, smallmap, treemap, bins, sb, trie, home) && MemberAt(m0, bins, trie, p, 0, c) && |trie[p]| >= 2
    requires DropWritten(m0, m1, trie[p], 0) && m1.Keys == m0.Keys
    ensures PointerReady(m1, trie, p, c, ParentOf(trie, p)) && LinksReady(m1, trie, p, c, ParentOf(trie, p), trie[p][1])
    ensures m0[c + NEXT] == trie[p][1] > 0 && treemap < MAP_LIMIT
  {
    hide StoreOk, TrieOk, ForestOk, BinsOk, Homed, AllShaped, Shaped, DropWritten, PointerReady, LinksReady, Outsider;
    hide Spaced;
    MemberDrops(m0, smallmap, treemap, bins, sb, trie, home, p, 0, c);
    RingScattered(bins, trie, p);
    RingPositive(bins, trie, p);
    MemberSize(bins, trie, p, 1);
    DropAllOthers(m0, m1, bins, trie, home, trie, p, 0);
    DropHeadDetached(m0, m1, trie, p);
    DropKeeps(m0, m1, trie[p], 0, 0);
    assert Without(trie[p], 0)[0] == trie[p][1];
    HeadOutsider(bins, trie, home, p, c);
    StandingPointer(m1, bins, trie, home, trie, p, c);
    StandingLinks(m1, bins, trie, home, trie, p, c, trie[p][1]);
  }

  lemma HeadOutsider(bins: map<int, int>, trie: Trie, home: map<int, Pos>, p: Pos, c: int)
    requires BinsOk(bins) && Homed(bins, trie, home) && AllShaped(bins, trie) && p in trie && |trie[p]| >= 2
    requires trie[p][0] == c
    ensures Outsider(trie, p, c, trie[p][1])
  {
    assert Shaped(bins, trie, p);
    RingScattered(bins, trie, p);
    RingPositive(bins, trie, p);
    KidUp(p, false);
    KidUp(p, true);
    if p.path != [] { assert Shaped(bins, trie, Up(p)); TakeoverSees(bins, trie, home, trie, p, 1, Up(p)); }
    if At(trie, Kid(p, false)) != NULL { TakeoverSees(bins, trie, home, trie, p, 1, Kid(p, false)); }
    if At(trie, Kid(p, true)) != NULL { TakeoverSees(bins, trie, home, trie, p, 1, Kid(p, true)); }
  }

  lemma HeadRemoved(m0: Mem, m1: Mem, m2: Mem, smallmap: nat, treemap: nat, bins: map<int, int>, sb: seq<seq<int>>,
      trie: Trie, home: map<int, Pos>, p: Pos, c: int)
    requires StoreOk(m0, smallmap, treemap, bins, sb, trie, home) && MemberAt(m0, bins, trie, p, 0, c) && |trie[p]| >= 2
    requires DropWritten(m0, m1, trie[p], 0) && HandoverWritten(m1, m2, trie, p, trie[p][1]) && m2.Keys == m0.Keys
    ensures StoreOk(m2, smallmap, treemap, bins - {c}, sb, trie[p := Without(trie[p], 0)], home - {c})
    ensures OnlyLinks(m0, m2, bins)
  {
    MemberDrops(m0, smallmap, treemap, bins, sb, trie, home, p, 0, c);
    RemoveHead(m0, m1, m2, bins, trie, home, p, c);
    DropTreeWrites(m0, m1, bins, trie, p, 0);
    MemberSize(bins, trie, p, 1);
    HandoverTreeWrites(m1, m2, bins, trie, trie, p, trie[p][1]);
    TreeWritesTrans(m0, m1, m2, bins);
    LargeRemoved(m0, m2, smallmap, treemap, treemap, bins, sb, trie, trie[p := Without(trie[p], 0)], home, home - {c},
        c);
  }

  // ---------------------------------------------------------------- a lone chunk

  lemma LoneRead(mem: Mem, smallmap: nat, treemap: nat, bins: map<int, int>, sb: seq<seq<int>>, trie: Trie,
      home: map<int, Pos>, p: Pos, c: int)
    requires StoreOk(mem, smallmap, treemap, bins, sb, trie, home) && MemberAt(mem, bins, trie, p, 0, c)
    requires |RingOf(trie, p)| == 1
    ensures c == At(trie, p) && |trie[p]| == 1 && treemap < MAP_LIMIT
    ensures mem[c + CHILD1] == NULL && mem[c + CHILD0] == NULL <==> IsLeaf(trie, p)
  {
    NodeRead(mem, smallmap, treemap, bins, sb, trie, home, p);
  }

  lemma LeafReady(mem: Mem, smallmap: nat, treemap: nat, bins: map<int, int>, sb: seq<seq<int>>, trie: Trie,
      home: map<int, Pos>, p: Pos, c: int)
    requires StoreOk(mem, smallmap, treemap, bins, sb, trie, home) && MemberAt(mem, bins, trie, p, 0, c)
    requires |trie[p]| == 1
    ensures PointerReady(mem, trie, p, c, ParentOf(trie, p))
  {
    MemberDrops(mem, smallmap, treemap, bins, sb, trie, home, p, 0, c);
    if p.path != [] { assert Placed(mem, trie, Up(p)); }
    StandingPointer(mem, bins, trie, home, trie, p, c);
  }

  lemma LeafOffMarked(smallmap: nat, treemap: nat, sb: seq<seq<int>>, trie: Trie, p: Pos)
    requires Marked(smallmap, treemap, sb, trie) && p.bin < 32
    ensures Marked(smallmap, if p.path == [] then ClearBit(treemap, p.bin) else treemap, sb, trie - {p})
  {
    ClearClears(treemap, p.bin);
  }

  lemma LeafRemoved(m0: Mem, m1: Mem, smallmap: nat, treemap: nat, treemap': nat, bins: map<int, int>,
      sb: seq<seq<int>>, trie: Trie, home: map<int, Pos>, p: Pos, c: int)
    requires StoreOk(m0, smallmap, treemap, bins, sb, trie, home) && MemberAt(m0, bins, trie, p, 0, c)
    requires |trie[p]| == 1 && IsLeaf(trie, p)
    requires DetachWritten(m0, m1, trie, p) && m1.Keys == m0.Keys
    requires p.bin < 32 && treemap' == if p.path == [] then ClearBit(treemap, p.bin) else treemap
    ensures StoreOk(m1, smallmap, treemap', bins - {c}, sb, trie - {p}, home - {c})
    ensures OnlyLinks(m0, m1, bins)
  {
    MemberDrops(m0, smallmap, treemap, bins, sb, trie, home, p, 0, c);
    RemoveLeaf(m0, m1, bins, trie, home, p, c);
    if p.path != [] { assert Shaped(bins, trie, Up(p)); }
    DetachTreeWrites(m0, m1, bins, trie, p);
    LeafOffMarked(smallmap, treemap, sb, trie, p);
    LargeRemoved(m0, m1, smallmap, treemap, treemap', bins, sb, trie, trie - {p}, home, home - {c}, c);
  }

  lemma RaiseOutsider(bins: map<int, int>, trie: Trie, home: map<int, Pos>, p: Pos, c: int, leaf: Pos)
    requires BinsOk(bins) && Homed(bins, trie, home) && AllShaped(bins, trie) && p in trie && trie[p] == [c]
    requires leaf in trie && Below(leaf, p)
    ensures Outsider(trie - {leaf}, p, c, At(trie, leaf))
  {
    var forest := trie - {leaf};
    assert Shaped(bins, trie, p) && Shaped(bins, trie, leaf);
    RingPositive(bins, trie, leaf);
    OtherClear(bins, trie, home, p, leaf, 0);
    if p.path != [] { assert Shaped(bins, trie, Up(p)); TakeoverSees(bins, trie, home, forest, leaf, 0, Up(p)); }
    if At(forest, Kid(p, false)) != NULL { TakeoverSees(bins, trie, home, forest, leaf, 0, Kid(p, false)); }
    if At(forest, Kid(p, true)) != NULL { TakeoverSees(bins, trie, home, forest, leaf, 0, Kid(p, true)); }
  }

  lemma RaiseReady(m0: Mem, m1: Mem, smallmap: nat, treemap: nat, bins: map<int, int>, sb: seq<seq<int>>, trie: Trie,
      home: map<int, Pos>, p: Pos, c: int, leaf: Pos)
    requires StoreOk(m0, smallmap, treemap, bins, sb, trie, home) && MemberAt(m0, bins, trie, p, 0, c) && |trie[p]| == 1
    requires IsLeaf(trie, leaf) && Below(leaf, p)
    requires PointerTo(trie, leaf) in m0 && m1 == m0[PointerTo(trie, leaf) := NULL]
    ensures DetachWritten(m0, m1, trie, leaf) && m1.Keys == m0.Keys
    ensures ParentOf(trie - {leaf}, p) == ParentOf(trie, p) && At(trie, leaf) > 0
    ensures PointerReady(m1, trie - {leaf}, p, c, ParentOf(trie, p))
    ensures LinksReady(m1, trie - {leaf}, p, c, ParentOf(trie, p), At(trie, leaf))
  {
    hide StoreOk, TrieOk, ForestOk, BinsOk, Homed, PointerReady, LinksReady, Outsider, Spaced, OnPath, Ring;
    hide TreeIndex, Standing;
    var forest := trie - {leaf};
    MemberDrops(m0, smallmap, treemap, bins, sb, trie, home, p, 0, c);
    assert Shaped(bins, trie, leaf);
    RingPositive(bins, trie, leaf);
    DetachAll(m0, m1, bins, trie, home, leaf);
    RaiseOutsider(bins, trie, home, p, c, leaf);
    RaiseStands(m0, m1, smallmap, treemap, bins, sb, trie, home, p, c, leaf);
    StandingPointer(m1, bins, trie, home, forest, p, c);
    StandingLinks(m1, bins, trie, home, forest, p, c, At(trie, leaf));
  }

  lemma RaiseStands(m0: Mem, m1: Mem, smallmap: nat, treemap: nat, bins: map<int, int>, sb: seq<seq<int>>, trie: Trie,
      home: map<int, Pos>, p: Pos, c: int, leaf: Pos)
    requires StoreOk(m0, smallmap, treemap, bins, sb, trie, home) && MemberAt(m0, bins, trie, p, 0, c) && |trie[p]| == 1
    requires IsLeaf(trie, leaf) && Below(leaf, p) && m1.Keys == m0.Keys && AllShaped(bins, trie)
    requires forall q {:trigger Placed(m1, trie - {leaf}, q)} :: q in trie - {leaf} ==> Placed(m1, trie - {leaf}, q)
    requires Slots(m1, trie - {leaf})
    ensures Standing(m1, bins, trie, home, trie - {leaf}, p, c)
    ensures Get(m1, c + CHILD0) == At(trie - {leaf}, Kid(p, false))
    ensures Get(m1, c + CHILD1) == At(trie - {leaf}, Kid(p, true))
  {
    hide StoreOk, TrieOk, ForestOk, BinsOk, Homed, Spaced, OnPath, Ring, TreeIndex, Marked, SmallOk;
    MemberDrops(m0, smallmap, treemap, bins, sb, trie, home, p, 0, c);
    assert Placed(m1, trie - {leaf}, p);
    if p.path != [] { assert Placed(m1, trie - {leaf}, Up(p)); }
  }

  lemma RaiseMarked(smallmap: nat, treemap: nat, sb: seq<seq<int>>, trie: Trie, p: Pos, leaf: Pos)
    requires Marked(smallmap, treemap, sb, trie) && p in trie && leaf in trie && Below(leaf, p)
    ensures Marked(smallmap, treemap, sb, (trie - {leaf})[p := trie[leaf]])
  {
  }

  lemma RaiseRemoved(m0: Mem, m1: Mem, m2: Mem, smallmap: nat, treemap: nat, bins: map<int, int>, sb: seq<seq<int>>,
      trie: Trie, home: map<int, Pos>, p: Pos, c: int, leaf: Pos)
    requires StoreOk(m0, smallmap, treemap, bins, sb, trie, home) && MemberAt(m0, bins, trie, p, 0, c) && |trie[p]| == 1
    requires IsLeaf(trie, leaf) && Below(leaf, p) && m2.Keys == m0.Keys
    requires DetachWritten(m0, m1, trie, leaf) && HandoverWritten(m1, m2, trie - {leaf}, p, At(trie, leaf))
    ensures StoreOk(m2, smallmap, treemap, bins - {c}, sb, (trie - {leaf})[p := trie[leaf]], Rehome(home, c, leaf, p))
    ensures OnlyLinks(m0, m2, bins)
  {
    MemberDrops(m0, smallmap, treemap, bins, sb, trie, home, p, 0, c);
    RemoveByLeaf(m0, m1, m2, bins, trie, home, p, c, leaf);
    RaiseWrites(m0, m1, m2, bins, trie, home, p, leaf);
    RaiseMarked(smallmap, treemap, sb, trie, p, leaf);
    LargeRemoved(m0, m2, smallmap, treemap, treemap, bins, sb, trie, (trie - {leaf})[p := trie[leaf]], home,
        Rehome(home, c, leaf, p), c);
  }

  lemma RaiseWrites(m0: Mem, m1: Mem, m2: Mem, bins: map<int, int>, trie: Trie, home: map<int, Pos>, p: Pos, leaf: Pos)
    requires AllShaped(bins, trie) && p in trie && leaf in trie && Below(leaf, p)
    requires DetachWritten(m0, m1, trie, leaf) && HandoverWritten(m1, m2, trie - {leaf}, p, At(trie, leaf))
    ensures TreeWrites(m0, m2, bins)
  {
    assert Shaped(bins, trie, p) && Shaped(bins, trie, leaf);
    assert Shaped(bins, trie, Up(leaf));
    DetachTreeWrites(m0, m1, bins, trie, leaf);
    HandoverTreeWrites(m1, m2, bins, trie, trie - {leaf}, p, At(trie, leaf));
    TreeWritesTrans(m0, m1, m2, bins);
  }

  // ---------------------------------------------------------------- best fit

  /** `v` is the best chunk seen so far, `rsize` what it has to spare; none seen is recorded as `rsize == -size` in
      words. */
  ghost predicate Winner(bins: map<int, int>, trie: Trie, size: int, bin: nat, v: int, rsize: int, vp: Spot)
  {
    && 0 <= size < WORD
    && (v == NULL ==> vp == Nowhere && rsize == WORD - size)
    && (v != NULL ==>
          && vp.There? && vp.pos in trie && vp.pos.bin == bin && v == At(trie, vp.pos)
          && SizeAt(bins, trie, vp.pos) == size + rsize && rsize >= 0)
  }

  /** What is left to look at in bin `bin` lies at `s`, whose node is `t`. */
  ghost predicate Remaining(bins: map<int, int>, trie: Trie, size: int, bin: nat, rsize: int, t: int, s: Spot)
  {
    && t == AtSpot(trie, s) && (s.There? ==> s.pos in trie && s.pos.bin == bin)
    && Searching(bins, trie, size, bin, size + rsize, Nowhere, s)
    && (rsize <= 0 || Fits(bins, trie, size, s))
  }

  /** The state of the first search loop. */
  ghost predicate Seeking(bins: map<int, int>, trie: Trie, size: int, rsize: int, pos: Pos, rs: Spot, sizebits: nat)
  {
    && Walking(trie, size, pos, rs)
    && Searching(bins, trie, size, pos.bin, size + rsize, There(pos), rs)
    && sizebits == Shl(64, size, LeftShift(pos.bin) + |pos.path|)
  }

  lemma SeekStart(mem: Mem, smallmap: nat, treemap: nat, bins: map<int, int>, sb: seq<seq<int>>, trie: Trie,
      home: map<int, Pos>, size: int)
    requires StoreOk(mem, smallmap, treemap, bins, sb, trie, home) && MIN_LARGE <= size < WORD
    requires BitAt(treemap, TreeIndex(size))
    ensures TreeIndex(size) < 32 && Slot(TreeIndex(size)) in mem
    ensures var pos := Pos(TreeIndex(size), []);
            && pos in trie && mem[Slot(pos.bin)] == At(trie, pos) && AtSpot(trie, Nowhere) == NULL
            && Seeking(bins, trie, size, WORD - size, pos, Nowhere, Shl(64, size, LeftShift(pos.bin)))
    ensures Winner(bins, trie, size, TreeIndex(size), NULL, WORD - size, Nowhere)
  {
    hide StoreOk, TreeIndex, Shl, BitAt, Winner, Seeking, At;
    TreeIndexRange(size);
    RootRead(mem, smallmap, treemap, bins, sb, trie, home, TreeIndex(size));
    NoWinner(bins, trie, size, TreeIndex(size));
    SeekingStart(bins, trie, size, TreeIndex(size));
  }

  lemma SeekingStart(bins: map<int, int>, trie: Trie, size: int, bin: nat)
    requires MIN_LARGE <= size < WORD && bin == TreeIndex(size) && bin < 32 && Pos(bin, []) in trie
    ensures Seeking(bins, trie, size, WORD - size, Pos(bin, []), Nowhere, Shl(64, size, LeftShift(bin)))
  {
    hide TreeIndex, Shl;
  }

  lemma NoWinner(bins: map<int, int>, trie: Trie, size: int, bin: nat)
    requires 0 <= size < WORD
    ensures Winner(bins, trie, size, bin, NULL, WORD - size, Nowhere)
  {
  }

  /** Seeing the node at `pos`: the winner after it. */
  lemma SeekBetter(bins: map<int, int>, trie: Trie, size: int, bin: nat, v: int, rsize: int, vp: Spot, pos: Pos)
    requires Winner(bins, trie, size, bin, v, rsize, vp) && pos in trie && pos.bin == bin && At(trie, pos) > 0
    ensures var csize := SizeAt(bins, trie, pos);
            csize >= size && csize - size < rsize ==>
                Winner(bins, trie, size, bin, At(trie, pos), csize - size, There(pos))
  {
  }

  lemma ExactRemaining(bins: map<int, int>, trie: Trie, size: int, bin: nat, t: int, pos: Pos)
    requires pos in trie && pos.bin == bin && t == At(trie, pos)
    ensures Remaining(bins, trie, size, bin, 0, t, There(pos))
  {
    forall q | q in trie && q.bin == bin
      ensures Searched(bins, trie, size, size, Nowhere, There(pos), q)
    {
    }
  }

  lemma StoreForest(mem: Mem, smallmap: nat, treemap: nat, bins: map<int, int>, sb: seq<seq<int>>, trie: Trie,
      home: map<int, Pos>)
    requires StoreOk(mem, smallmap, treemap, bins, sb, trie, home)
    ensures ForestOk(bins, trie, home)
  {
  }

  lemma SeekStep(mem: Mem, smallmap: nat, treemap: nat, bins: map<int, int>, sb: seq<seq<int>>, trie: Trie,
      home: map<int, Pos>, size: int, rsize0: int, pos: Pos, rs: Spot, sizebits: nat)
    requires StoreOk(mem, smallmap, treemap, bins, sb, trie, home)
    requires Seeking(bins, trie, size, rsize0, pos, rs, sizebits)
    requires SizeAt(bins, trie, pos) != size && rsize0 > 0
    ensures |pos.path| <= TopBit(pos.bin)
    ensures var csize := SizeAt(bins, trie, pos);
            var rsize := if csize >= size && csize - size < rsize0 then csize - size else rsize0;
            var turn := BitAt(sizebits, 63);
            var kid, next := Kid(pos, turn), NextRst(trie, pos, turn, rs);
            && (kid in trie ==> Seeking(bins, trie, size, rsize, kid, next, (2 * sizebits) % Pow2(64)))
            && (kid !in trie ==> Remaining(bins, trie, size, pos.bin, rsize, AtSpot(trie, next), next))
            && AtSpot(trie, next) ==
                 if At(trie, Kid(pos, true)) != NULL && At(trie, Kid(pos, true)) != At(trie, kid)
                 then At(trie, Kid(pos, true)) else AtSpot(trie, rs)
  {
    hide StoreOk, ForestOk, BitAt, Shl, Searching, OnPath, ForksOff, Fits, TreeIndex, AtSpot, Remaining, Pow2;
    hide LeftShift, TopBit;
    StoreForest(mem, smallmap, treemap, bins, sb, trie, home);
    NotFull(bins, trie, home, size, pos);
    TopBitShown(size, pos.bin, |pos.path|);
    var turn := BitAt(sizebits, 63);
    var csize := SizeAt(bins, trie, pos);
    var rsize := if csize >= size && csize - size < rsize0 then csize - size else rsize0;
    assert Better(size + rsize0, csize, size) == size + rsize;
    SearchStep(bins, trie, home, size, size + rsize0, pos, rs, turn);
    ShlAppend(size, LeftShift(pos.bin) + |pos.path|);
    NextRstAt(mem, smallmap, treemap, bins, sb, trie, home, pos, turn, rs);
    var kid, next := Kid(pos, turn), NextRst(trie, pos, turn, rs);
    if kid !in trie { SeekEnds(bins, trie, home, size, rsize, kid, next); }
  }

  /** The path has run out: what is left is the remembered subtree. */
  lemma SeekEnds(bins: map<int, int>, trie: Trie, home: map<int, Pos>, size: int, rsize: int, kid: Pos, next: Spot)
    requires ForestOk(bins, trie, home) && kid !in trie && Request(size, kid.bin)
    requires OnPath(size, TopBit(kid.bin), kid.path)
    requires Searching(bins, trie, size, kid.bin, size + rsize, There(kid), next)
    requires ForksOff(trie, kid.bin, kid.path, next)
    ensures Remaining(bins, trie, size, kid.bin, rsize, AtSpot(trie, next), next)
  {
    hide ForestOk, Searching, OnPath, Fits, TreeIndex, AtSpot;
    SearchEnds(bins, trie, home, size, size + rsize, kid, next);
    RstFits(bins, trie, home, size, kid.bin, kid.path, next);
  }

  /** The pointer comparison of the code computes the next remembered subtree. */
  lemma NextRstAt(mem: Mem, smallmap: nat, treemap: nat, bins: map<int, int>, sb: seq<seq<int>>, trie: Trie,
      home: map<int, Pos>, pos: Pos, turn: bool, rs: Spot)
    requires StoreOk(mem, smallmap, treemap, bins, sb, trie, home) && pos in trie
    ensures AtSpot(trie, NextRst(trie, pos, turn, rs))
            == if At(trie, Kid(pos, true)) != NULL && At(trie, Kid(pos, true)) != At(trie, Kid(pos, turn))
                then At(trie, Kid(pos, true)) else AtSpot(trie, rs)
  {
    NodeRead(mem, smallmap, treemap, bins, sb, trie, home, pos);
    if Kid(pos, true) in trie && Kid(pos, false) in trie {
      KidUp(pos, false);
      KidUp(pos, true);
      assert AllShaped(bins, trie);
      NodesAway(bins, trie, home, trie, Kid(pos, true), Kid(pos, false));
    }
  }

  /** A measure for walking down. */
  function Spots(s: Spot): nat { if s.Nowhere? then 0 else 1 + Room(s.pos) }

  lemma RemainingRead(mem: Mem, smallmap: nat, treemap: nat, bins: map<int, int>, sb: seq<seq<int>>, trie: Trie,
      home: map<int, Pos>, size: int, bin: nat, rsize: int, t: int, s: Spot)
    requires StoreOk(mem, smallmap, treemap, bins, sb, trie, home) && Remaining(bins, trie, size, bin, rsize, t, s)
    ensures t != NULL ==> s.There? && s.pos in trie && t == At(trie, s.pos)
    ensures t == NULL ==> s == Nowhere
  {
    if s.There? { assert Shaped(bins, trie, s.pos); }
  }

  lemma LeftRead(mem: Mem, smallmap: nat, treemap: nat, bins: map<int, int>, sb: seq<seq<int>>, trie: Trie,
      home: map<int, Pos>, size: int, bin: nat, v: int, rsize0: int, vp: Spot, t: int, pos: Pos)
    requires StoreOk(mem, smallmap, treemap, bins, sb, trie, home)
    requires Winner(bins, trie, size, bin, v, rsize0, vp) && Remaining(bins, trie, size, bin, rsize0, t, There(pos))
    requires pos in trie
    ensures var csize := SizeAt(bins, trie, pos);
            var rsize := if csize >= size && csize - size < rsize0 then csize - size else rsize0;
            && Remaining(bins, trie, size, bin, rsize, if At(trie, Kid(pos, false)) == NULL
                then At(trie, Kid(pos, true)) else At(trie, Kid(pos, false)), LeftmostKid(trie, pos))
            && (csize >= size && csize - size < rsize0 ==>
                Winner(bins, trie, size, bin, At(trie, pos), rsize, There(pos)))
    ensures Spots(LeftmostKid(trie, pos)) < Spots(There(pos))
  {
    hide SmallOk, Addressable, Headed, Marked, Homed, UniqueSizes, Placed, Slots, OnPath, Spaced;
    var csize := SizeAt(bins, trie, pos);
    var rsize := if csize >= size && csize - size < rsize0 then csize - size else rsize0;
    assert Better(size + rsize0, csize, size) == size + rsize;
    LeftmostStep(bins, trie, home, size, size + rsize0, pos);
    NodeRead(mem, smallmap, treemap, bins, sb, trie, home, pos);
    SeekBetter(bins, trie, size, bin, v, rsize0, vp, pos);
    if LeftmostKid(trie, pos).There? {
      KidUp(pos, false);
      KidUp(pos, true);
      RoomShrinks(mem, smallmap, treemap, bins, sb, trie, home, pos, LeftmostKid(trie, pos).pos);
    }
  }

  // ---------------------------------------------------------------- from bin to bin

  /** No chunk below bin `bin` fits. */
  ghost predicate EmptyBelow(bins: map<int, int>, trie: Trie, size: int, bin: nat)
  {
    forall q :: q in trie && q.bin < bin ==> SizeAt(bins, trie, q) < size
  }

  lemma BinStart(mem: Mem, smallmap: nat, treemap: nat, bins: map<int, int>, sb: seq<seq<int>>, trie: Trie,
      home: map<int, Pos>, size: int)
    requires StoreOk(mem, smallmap, treemap, bins, sb, trie, home) && MIN_LARGE <= size < WORD
    ensures TreeIndex(size) < 32 && Slot(TreeIndex(size)) in mem
    ensures mem[Slot(TreeIndex(size))] != NULL <==> BitAt(treemap, TreeIndex(size))
    ensures EmptyBelow(bins, trie, size, TreeIndex(size))
    ensures Winner(bins, trie, size, TreeIndex(size), NULL, WORD - size, Nowhere)
    ensures mem[Slot(TreeIndex(size))] == NULL ==>
      Remaining(bins, trie, size, TreeIndex(size), WORD - size, NULL, Nowhere)
  {
    var bin := TreeIndex(size);
    TreeIndexRange(size);
    RootRead(mem, smallmap, treemap, bins, sb, trie, home, bin);
    forall q | q in trie && q.bin < bin
      ensures SizeAt(bins, trie, q) < size
    {
      LaterBin(bins, trie, home, size, q);
    }
    if Pos(bin, []) !in trie {
      forall q | q in trie
        ensures q.bin != bin
      {
        NothingUnder(bins, trie, home, Pos(bin, []), q);
      }
    }
  }

  /** Nothing seen and nothing left: the bin of the request has no fit. */
  lemma BinExhausted(mem: Mem, smallmap: nat, treemap: nat, bins: map<int, int>, sb: seq<seq<int>>, trie: Trie,
      home: map<int, Pos>, size: int, rsize: int, vp: Spot, s: Spot)
    requires StoreOk(mem, smallmap, treemap, bins, sb, trie, home) && MIN_LARGE <= size < WORD
    requires Winner(bins, trie, size, TreeIndex(size), NULL, rsize, vp)
    requires Remaining(bins, trie, size, TreeIndex(size), rsize, NULL, s)
    requires EmptyBelow(bins, trie, size, TreeIndex(size))
    ensures rsize == WORD - size && EmptyBelow(bins, trie, size, TreeIndex(size) + 1)
  {
    RemainingRead(mem, smallmap, treemap, bins, sb, trie, home, size, TreeIndex(size), rsize, NULL, s);
    forall q | q in trie && q.bin < TreeIndex(size) + 1
      ensures SizeAt(bins, trie, q) < size
    {
      if q.bin == TreeIndex(size) {
        NodeFacts(bins, trie, home, q);
        assert Searched(bins, trie, size, size + rsize, Nowhere, s, q);
      }
    }
  }

  lemma MapBits(treemap: nat, idx: nat, j: nat)
    requires idx < 32 && j < 32 && treemap < MAP_LIMIT
    ensures BitAt(And(LeftBits(32, Pow2(idx)), treemap), j) <==> j > idx && BitAt(treemap, j)
    ensures And(LeftBits(32, Pow2(idx)), treemap) < MAP_LIMIT
  {
    AndBit(LeftBits(32, Pow2(idx)), treemap, j);
    LeftBitsAbove(32, idx, j);
    AndBound(LeftBits(32, Pow2(idx)), treemap);
    MapLimit();
    OrBound(32, (2 * Pow2(idx)) % Pow2(32), Neg(32, (2 * Pow2(idx)) % Pow2(32)));
  }

  lemma RootOf(bins: map<int, int>, trie: Trie, home: map<int, Pos>, q: Pos)
    requires ForestOk(bins, trie, home) && q in trie
    ensures Pos(q.bin, []) in trie && Under(q, Pos(q.bin, []))
  {
    Ancestors(bins, trie, home, q, 0);
  }

  /** The next non-empty bin above the request's: everything in it fits, everything before does not. */
  lemma NextBin(mem: Mem, smallmap: nat, treemap: nat, bins: map<int, int>, sb: seq<seq<int>>, trie: Trie,
      home: map<int, Pos>, size: int)
    requires StoreOk(mem, smallmap, treemap, bins, sb, trie, home) && MIN_LARGE <= size < WORD && TreeIndex(size) < 32
    requires EmptyBelow(bins, trie, size, TreeIndex(size) + 1)
    requires And(LeftBits(32, Pow2(TreeIndex(size))), treemap) != 0
    ensures var left := And(LeftBits(32, Pow2(TreeIndex(size))), treemap);
            && left < Pow2(32) && LeastBit(32, left) > 0
            && (var i := TrailingZeros(LeastBit(32, left));
                && i < 32 && Slot(i) in mem && EmptyBelow(bins, trie, size, i)
                && Winner(bins, trie, size, i, NULL, WORD - size, Nowhere)
                && Remaining(bins, trie, size, i, WORD - size, mem[Slot(i)], There(Pos(i, [])))
                && Pos(i, []) in trie)
  {
    var idx := TreeIndex(size);
    var left := And(LeftBits(32, Pow2(idx)), treemap);
    RootRead(mem, smallmap, treemap, bins, sb, trie, home, idx);
    MapLimit();
    MapBits(treemap, idx, 0);
    LowestMarked(32, left);
    var i := TrailingZeros(LeastBit(32, left));
    MapBits(treemap, idx, i);
    RootRead(mem, smallmap, treemap, bins, sb, trie, home, i);
    forall q | q in trie && q.bin < i
      ensures SizeAt(bins, trie, q) < size
    {
      NoBinBetween(mem, smallmap, treemap, bins, sb, trie, home, size, i, q);
    }
    WholeBin(bins, trie, home, size, i);
  }

  lemma NoBinBetween(mem: Mem, smallmap: nat, treemap: nat, bins: map<int, int>, sb: seq<seq<int>>, trie: Trie,
      home: map<int, Pos>, size: int, i: nat, q: Pos)
    requires StoreOk(mem, smallmap, treemap, bins, sb, trie, home) && MIN_LARGE <= size < WORD && TreeIndex(size) < 32
    requires EmptyBelow(bins, trie, size, TreeIndex(size) + 1)
    requires forall j: nat :: j < i ==> !BitAt(And(LeftBits(32, Pow2(TreeIndex(size))), treemap), j)
    requires q in trie && q.bin < i
    ensures SizeAt(bins, trie, q) < size
  {
    var idx := TreeIndex(size);
    if q.bin > idx {
      NodeFacts(bins, trie, home, q);
      RootOf(bins, trie, home, q);
      RootRead(mem, smallmap, treemap, bins, sb, trie, home, q.bin);
      MapBits(treemap, idx, q.bin);
    }
  }

  lemma WholeBin(bins: map<int, int>, trie: Trie, home: map<int, Pos>, size: int, i: nat)
    requires ForestOk(bins, trie, home) && MIN_LARGE <= size < WORD && i > TreeIndex(size)
    ensures Searching(bins, trie, size, i, WORD, Nowhere, There(Pos(i, [])))
    ensures Fits(bins, trie, size, There(Pos(i, [])))
  {
    forall q | q in trie && q.bin == i
      ensures Searched(bins, trie, size, WORD, Nowhere, There(Pos(i, [])), q) && SizeAt(bins, trie, q) >= size
    {
      LaterBin(bins, trie, home, size, q);
    }
  }

  lemma NoNextBin(mem: Mem, smallmap: nat, treemap: nat, bins: map<int, int>, sb: seq<seq<int>>, trie: Trie,
      home: map<int, Pos>, size: int)
    requires StoreOk(mem, smallmap, treemap, bins, sb, trie, home) && MIN_LARGE <= size < WORD && TreeIndex(size) < 32
    requires EmptyBelow(bins, trie, size, TreeIndex(size) + 1)
    requires And(LeftBits(32, Pow2(TreeIndex(size))), treemap) == 0
    ensures NoFit(bins, size)
  {
    forall q | q in trie
      ensures SizeAt(bins, trie, q) < size
    {
      NodeFacts(bins, trie, home, q);
      forall j: nat | j < 32
        ensures !BitAt(And(LeftBits(32, Pow2(TreeIndex(size))), treemap), j)
      {
        ZeroBit(j);
      }
      NoBinBetween(mem, smallmap, treemap, bins, sb, trie, home, size, 32, q);
    }
    NothingFits(bins, trie, home, size);
  }

  /** The search over, its winner is the best fit; with something left to look at there is a winner. */
  lemma LargeFound(mem: Mem, smallmap: nat, treemap: nat, bins: map<int, int>, sb: seq<seq<int>>, trie: Trie,
      home: map<int, Pos>, size: int, bin: nat,
                   v0: int, r0: int, vp0: Spot, t0: int, s0: Spot, v: int, rsize: int, vp: Spot)
    requires StoreOk(mem, smallmap, treemap, bins, sb, trie, home) && EmptyBelow(bins, trie, size, bin)
    requires Winner(bins, trie, size, bin, v0, r0, vp0) && Remaining(bins, trie, size, bin, r0, t0, s0)
    requires v0 != NULL || t0 != NULL
    requires v0 != NULL ==> v != NULL
    requires Winner(bins, trie, size, bin, v, rsize, vp) && Remaining(bins, trie, size, bin, rsize, NULL, Nowhere)
    ensures v != NULL && BestFit(bins, size, v) && rsize == bins[v] - size && HeadsRing(trie, v)
  {
    if v == NULL {
      SomethingFits(bins, trie, home, size, bin, rsize, s0);
      assert false;
    }
    BestOfBin(bins, trie, home, size, vp.pos);
  }

  lemma SomethingFits(bins: map<int, int>, trie: Trie, home: map<int, Pos>, size: int, bin: nat, rsize: int, s: Spot)
    requires ForestOk(bins, trie, home) && s.There? && s.pos in trie && s.pos.bin == bin && Fits(bins, trie, size, s)
    requires Searching(bins, trie, size, bin, size + rsize, Nowhere, Nowhere)
    ensures size + rsize < WORD
  {
    NodeFacts(bins, trie, home, s.pos);
    assert Under(s.pos, s.pos);
    assert Searched(bins, trie, size, size + rsize, Nowhere, Nowhere, s.pos);
  }

  // ---------------------------------------------------------------- the smallest of all

  lemma LowestBin(mem: Mem, smallmap: nat, treemap: nat, bins: map<int, int>, sb: seq<seq<int>>, trie: Trie,
      home: map<int, Pos>, size: int)
    requires StoreOk(mem, smallmap, treemap, bins, sb, trie, home) && 0 <= size < MIN_LARGE && treemap != 0
    ensures treemap < Pow2(32) && LeastBit(32, treemap) > 0
    ensures var i := TrailingZeros(LeastBit(32, treemap));
            && i < 32 && Pos(i, []) in trie && Slot(i) in mem && mem[Slot(i)] == At(trie, Pos(i, [])) != NULL
            && EmptyBelow(bins, trie, size, i)
            && (var rsize := SizeAt(bins, trie, Pos(i, [])) - size;
                && Winner(bins, trie, size, i, mem[Slot(i)], rsize, There(Pos(i, [])))
                && Remaining(bins, trie, size, i, rsize, AtSpot(trie, LeftmostKid(trie, Pos(i, []))),
                    LeftmostKid(trie, Pos(i, []))))
  {
    MapLimit();
    LowestMarked(32, treemap);
    var i := TrailingZeros(LeastBit(32, treemap));
    RootRead(mem, smallmap, treemap, bins, sb, trie, home, i);
    forall q | q in trie
      ensures q.bin >= i
    {
      NodeFacts(bins, trie, home, q);
      RootOf(bins, trie, home, q);
      RootRead(mem, smallmap, treemap, bins, sb, trie, home, q.bin);
    }
    LowestStart(bins, trie, home, size, Pos(i, []));
  }

  lemma SmallFits(bins: map<int, int>, trie: Trie, home: map<int, Pos>, size: int, q: Pos)
    requires ForestOk(bins, trie, home) && q in trie && size < MIN_LARGE
    ensures SizeAt(bins, trie, q) > size
  {
    NodeFacts(bins, trie, home, q);
  }

  lemma LowestStart(bins: map<int, int>, trie: Trie, home: map<int, Pos>, size: int, root: Pos)
    requires ForestOk(bins, trie, home) && root in trie && root.path == [] && 0 <= size < MIN_LARGE
    requires At(trie, root) != NULL
    ensures Winner(bins, trie, size, root.bin, At(trie, root), SizeAt(bins, trie, root) - size, There(root))
    ensures Remaining(bins, trie, size, root.bin, SizeAt(bins, trie, root) - size,
                AtSpot(trie, LeftmostKid(trie, root)), LeftmostKid(trie, root))
  {
    NodeFacts(bins, trie, home, root);
    forall q | q in trie && q.bin == root.bin
      ensures Searched(bins, trie, size, WORD, Nowhere, There(root), q)
    {
    }
    forall q | q in trie && Under(q, root)
      ensures SizeAt(bins, trie, q) >= size
    {
      SmallFits(bins, trie, home, size, q);
    }
    LeftmostStep(bins, trie, home, size, WORD, root);
  }

  lemma KidRoom(mem: Mem, smallmap: nat, treemap: nat, bins: map<int, int>, sb: seq<seq<int>>, trie: Trie,
      home: map<int, Pos>, pos: Pos, kid: Pos)
    requires StoreOk(mem, smallmap, treemap, bins, sb, trie, home) && kid in trie
    requires LeftmostKid(trie, pos) == There(kid)
    ensures Room(kid) < Room(pos)
  {
    KidUp(pos, false);
    KidUp(pos, true);
    RoomShrinks(mem, smallmap, treemap, bins, sb, trie, home, pos, kid);
  }

  lemma SmallestFound(mem: Mem, smallmap: nat, treemap: nat, bins: map<int, int>, sb: seq<seq<int>>, trie: Trie,
      home: map<int, Pos>, size: int, bin: nat, v: int, rsize: int, vp: Spot)
    requires StoreOk(mem, smallmap, treemap, bins, sb, trie, home) && v != NULL && EmptyBelow(bins, trie, size, bin)
    requires Winner(bins, trie, size, bin, v, rsize, vp) && Remaining(bins, trie, size, bin, rsize, NULL, Nowhere)
    ensures BestFit(bins, size, v) && rsize == bins[v] - size && HeadsRing(trie, v)
  {
    BestOfBin(bins, trie, home, size, vp.pos);
  }

  // ---------------------------------------------------------------- empty bins

  lemma NoBits()
    ensures forall i: nat :: !BitAt(0, i)
  {
    forall i: nat
      ensures !BitAt(0, i)
    {
      ZeroBit(i);
    }
  }

  lemma EmptyOk(mem: Mem)
    requires forall i: nat :: !BitAt(0, i)
    requires forall a :: -1024 <= a < 0 && a % 8 == 0 ==> a in mem && mem[a] == 0
    ensures StoreOk(mem, 0, 0, map[], seq(32, _ => []), map[], map[])
  {
    var sb: seq<seq<int>> := seq(32, _ => []);
    forall i | 0 <= i < 32
      ensures SmallBin(mem, map[], i, sb[i])
    {
    }
  }

  lemma StoreWords(mem: Mem, smallmap: nat, treemap: nat, bins: map<int, int>, sb: seq<seq<int>>, trie: Trie,
      home: map<int, Pos>)
    requires StoreOk(mem, smallmap, treemap, bins, sb, trie, home)
    ensures forall i :: 0 <= i < 32 ==> Header(i) + PREV in mem && Header(i) + NEXT in mem
  {
  }

  lemma FirstMember(mem: Mem, bins: map<int, int>, i: int, l: seq<int>)
    requires SmallBin(mem, bins, i, l)
    ensures |l| > 0 ==> l[0] in bins
  {
  }

  lemma NodeMember(bins: map<int, int>, trie: Trie, home: map<int, Pos>, p: Pos)
    requires ForestOk(bins, trie, home)
    ensures p in trie ==> |trie[p]| > 0 && trie[p][0] in bins
  {
  }

  /** Nothing is threaded through the headers of empty bins. */
  lemma EmptyKept(mem: Mem, mem': Mem, smallmap: nat, treemap: nat, bins: map<int, int>, sb: seq<seq<int>>,
      trie: Trie, home: map<int, Pos>)
    requires StoreOk(mem, smallmap, treemap, bins, sb, trie, home) && bins == map[] && mem'.Keys == mem.Keys
    requires forall a :: a < -1024 || a >= -496 ==> Get(mem', a) == Get(mem, a)
    ensures StoreOk(mem', smallmap, treemap, bins, sb, trie, home)
  {
    forall p
      ensures p !in trie
    {
      NodeMember(bins, trie, home, p);
    }
    forall i | 0 <= i < 32
      ensures SmallBin(mem', bins, i, sb[i])
    {
      FirstMember(mem, bins, i, sb[i]);
    }
  }

  // ---------------------------------------------------------------- choosing a small bin

  /** No chunk in the small bins that serves `nb` is smaller than `size`. */
  ghost predicate SmallestFit(bins: map<int, int>, nb: int, size: int)
  {
    forall a :: a in bins && nb <= bins[a] < MIN_LARGE ==> size <= bins[a]
  }

  /** Of all binned chunks that serve `nb`, none is smaller than the one at `p`. */
  ghost predicate TightestFit(bins: map<int, int>, nb: int, p: int)
  {
    p in bins && bins[p] >= nb && forall a :: a in bins && bins[a] >= nb ==> bins[p] <= bins[a]
  }

  lemma AndThree(x: nat)
    ensures And(x, 3) != 0 <==> BitAt(x, 0) || BitAt(x, 1)
  {
    AndZero(x / 4);
    assert And(x / 2, 1) == (x / 2) % 2 + 2 * And(x / 4, 0);
  }

  lemma MarkedSmall(mem: Mem, smallmap: nat, treemap: nat, bins: map<int, int>, sb: seq<seq<int>>, trie: Trie,
      home: map<int, Pos>, a: int)
    requires StoreOk(mem, smallmap, treemap, bins, sb, trie, home) && a in bins && bins[a] < MIN_LARGE
    ensures BitAt(smallmap, bins[a] / 8) && bins[a] / 8 < 32
  {
  }

  /** The lowest marked bin from `idx` on holds the smallest fitting small chunks. */
  lemma LowestServes(mem: Mem, smallmap: nat, treemap: nat, bins: map<int, int>, sb: seq<seq<int>>, trie: Trie,
      home: map<int, Pos>, nb: nat, i: nat)
    requires StoreOk(mem, smallmap, treemap, bins, sb, trie, home) && nb / 8 <= i
    requires forall j: nat :: nb / 8 <= j < i ==> !BitAt(smallmap, j)
    ensures SmallestFit(bins, nb, 8 * i)
  {
    hide StoreOk, BitAt;
    forall a | a in bins && nb <= bins[a] < MIN_LARGE
      ensures 8 * i <= bins[a]
    {
      MarkedSmall(mem, smallmap, treemap, bins, sb, trie, home, a);
      assert nb / 8 <= bins[a] / 8;
    }
  }

  /** The bin for `idx` or the one behind it. */
  lemma NearBin(smallmap: nat, idx: nat)
    requires smallmap < MAP_LIMIT && idx < 31 && And(Shr(smallmap, idx), 3) != 0
    ensures var i := idx + (if Shr(smallmap, idx) % 2 == 0 then 1 else 0);
            BitAt(smallmap, i) && forall j: nat :: idx <= j < i ==> !BitAt(smallmap, j)
  {
    AndThree(Shr(smallmap, idx));
    ShrBit(smallmap, idx, 0);
    ShrBit(smallmap, idx, 1);
  }

  lemma {:induction false} BitBound(w: nat, m: nat, j: nat)
    requires m < Pow2(w) && BitAt(m, j)
    ensures j < w
  {
    if w == 0 { ZeroBit(j); } else if j > 0 { BitBound(w - 1, m / 2, j - 1); }
  }

  lemma {:induction false} ShrBound(m: nat, i: nat)
    ensures Shr(m, i) <= m
  {
    if i > 0 { ShrBound(m / 2, i - 1); }
  }

  function FarBits(smallmap: nat, idx: nat): nat
  {
    And(Shl(32, Shr(smallmap, idx), idx), LeftBits(32, Pow2(idx)))
  }

  lemma FarBit(smallmap: nat, idx: nat, j: nat)
    requires idx < 32 && j < 32
    ensures BitAt(FarBits(smallmap, idx), j) <==> j > idx && BitAt(smallmap, j)
  {
    AndBit(Shl(32, Shr(smallmap, idx), idx), LeftBits(32, Pow2(idx)), j);
    ShlBit(32, Shr(smallmap, idx), idx, j);
    LeftBitsAbove(32, idx, j);
    if j >= idx { ShrBit(smallmap, idx, j - idx); }
  }

  lemma FarBitsNonzero(smallmap: nat, idx: nat)
    requires smallmap < Pow2(32) && idx < 31 && And(Shr(smallmap, idx), 3) == 0 && Shr(smallmap, idx) != 0
    ensures 0 < FarBits(smallmap, idx) < Pow2(32) && !BitAt(smallmap, idx)
  {
    hide And, Shr, Shl, LeftBits, TrailingZeros, BitAt, Pow2;
    var s := Shr(smallmap, idx);
    AndThree(s);
    ShrBound(smallmap, idx);
    NonzeroBit(32, s);
    var k := TrailingZeros(s);
    ShrBit(smallmap, idx, k);
    ShrBit(smallmap, idx, 0);
    BitBound(32, smallmap, idx + k);
    FarBit(smallmap, idx, idx + k);
    ZeroBit(idx + k);
    AndBound(Shl(32, s, idx), LeftBits(32, Pow2(idx)));
  }

  /** The lowest marked bin beyond the two nearest. */
  lemma FarBin(smallmap: nat, idx: nat)
    requires smallmap < MAP_LIMIT && idx < 31 && And(Shr(smallmap, idx), 3) == 0 && Shr(smallmap, idx) != 0
    ensures 0 < FarBits(smallmap, idx) < Pow2(32) && LeastBit(32, FarBits(smallmap, idx)) > 0
    ensures var i := TrailingZeros(LeastBit(32, FarBits(smallmap, idx)));
            idx < i < 32 && BitAt(smallmap, i) && forall j: nat :: idx <= j < i ==> !BitAt(smallmap, j)
  {
    hide FarBits, TrailingZeros, LeastBit, Shr, And;
    MapLimit();
    FarBitsNonzero(smallmap, idx);
    var left := FarBits(smallmap, idx);
    LowestMarked(32, left);
    var i := TrailingZeros(LeastBit(32, left));
    FarBit(smallmap, idx, i);
    forall j: nat | idx <= j < i
      ensures !BitAt(smallmap, j)
    {
      FarBit(smallmap, idx, j);
    }
  }

  lemma MarkedLarge(mem: Mem, smallmap: nat, treemap: nat, bins: map<int, int>, sb: seq<seq<int>>, trie: Trie,
      home: map<int, Pos>, a: int)
    requires StoreOk(mem, smallmap, treemap, bins, sb, trie, home) && a in bins && treemap == 0
    ensures bins[a] < MIN_LARGE
  {
    hide BitAt, Placed, SmallOk;
    if bins[a] >= MIN_LARGE {
      var p := home[a];
      assert Shaped(bins, trie, p);
      RootThere(bins, trie, home, p);
      ZeroBit(p.bin);
    }
  }

  /** A bin with a node has a root. */
  lemma {:induction false} RootThere(bins: map<int, int>, trie: Trie, home: map<int, Pos>, p: Pos)
    requires ForestOk(bins, trie, home) && p in trie
    ensures p.bin < 32 && Pos(p.bin, []) in trie
    decreases |p.path|
  {
    assert Shaped(bins, trie, p);
    if p.path != [] { RootThere(bins, trie, home, Up(p)); }
  }
}
