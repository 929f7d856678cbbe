/** The word store together with the bins of free chunks threaded through it. */
module Stores {
  import opened Bits
  import opened Sizes
  import opened Rings
  import opened Heads
  import opened Tries
  import opened SmallBins
  import opened TrieInsert
  import opened TrieRemove
  import opened TrieUnlink
  import opened TrieSearch

  /** Where the links of a binned chunk end: small chunks have two link words, tree chunks six. */
  function LinkEnd(size: int): int { if size < MIN_LARGE then 32 else NODE_END }

  /** Words of the allocator that the bins own: small-bin headers and tree-bin slots. */
  predicate BinWord(a: int) { -1024 <= a < -496 || -256 <= a < 0 }

  /** A word inside the links of some binned chunk. */
  ghost predicate LinkWord(bins: map<int, int>, a: int)
  {
    exists q :: q in bins && q + PREV <= a < q + LinkEnd(bins[q])
  }

  /** Bin operations write nothing but headers, slots and links of binned chunks. */
  ghost predicate OnlyLinks(mem: Mem, mem': Mem, bins: map<int, int>)
  {
    && mem'.Keys == mem.Keys
    && forall a :: !BinWord(a) && !LinkWord(bins, a) ==> Get(mem', a) == Get(mem, a)
  }

  /** All words the bins use are addressable. */
  ghost predicate Addressable(mem: Mem, bins: map<int, int>)
  {
    && (forall i :: 0 <= i < 32 ==> Header(i) + PREV in mem && Header(i) + NEXT in mem && Slot(i) in mem)
    && (forall p :: p in bins ==> p + HEAD in mem && p + PREV in mem && p + NEXT in mem)
    && (forall p :: p in bins && bins[p] >= MIN_LARGE ==>
          p + CHILD0 in mem && p + CHILD1 in mem && p + PARENT in mem && p + INDEX in mem)
  }

  /** The head of a binned chunk records its size. */
  ghost predicate Headed(mem: Mem, bins: map<int, int>)
  {
    forall p :: p in bins ==> SizeOf(Get(mem, p + HEAD)) == bins[p]
  }

  /** A bin is marked in its map exactly when it is not empty. */
  ghost predicate Marked(smallmap: nat, treemap: nat, sb: seq<seq<int>>, trie: Trie)
  {
    && |sb| == 32 && smallmap < MAP_LIMIT && treemap < MAP_LIMIT
    && (forall i: nat :: i < 32 ==> (BitAt(smallmap, i) <==> sb[i] != []))
    && (forall i: nat :: i < 32 ==> (BitAt(treemap, i) <==> Pos(i, []) in trie))
  }

  ghost predicate StoreOk(mem: Mem, smallmap: nat, treemap: nat, bins: map<int, int>, sb: seq<seq<int>>, trie: Trie,
      home: map<int, Pos>)
  {
    && BinsOk(bins) && Addressable(mem, bins) && Headed(mem, bins)
    && SmallOk(mem, bins, sb) && TrieOk(mem, bins, trie, home) && Marked(smallmap, treemap, sb, trie)
  }

  // ---------------------------------------------------------------- framing between the kinds of bins

  /** Two memories agree on what the small bins use. */
  ghost predicate SameSmall(mem: Mem, mem': Mem, bins: map<int, int>)
  {
    && (forall i :: 0 <= i < 32 ==> Get(mem', Header(i) + PREV) == Get(mem, Header(i) + PREV))
    && (forall i :: 0 <= i < 32 ==> Get(mem', Header(i) + NEXT) == Get(mem, Header(i) + NEXT))
    && (forall p :: p in bins && bins[p] < MIN_LARGE ==>
          Get(mem', p + PREV) == Get(mem, p + PREV) && Get(mem', p + NEXT) == Get(mem, p + NEXT))
  }

  lemma SmallKept(mem: Mem, mem': Mem, bins: map<int, int>, bins': map<int, int>, sb: seq<seq<int>>)
    requires SmallOk(mem, bins, sb) && SameSmall(mem, mem', bins)
    requires forall p :: p in bins && bins[p] < MIN_LARGE ==> p in bins' && bins'[p] == bins[p]
    requires forall p :: p in bins' && bins'[p] < MIN_LARGE ==> p in bins && bins'[p] == bins[p]
    ensures SmallOk(mem', bins', sb)
  {
    forall i | 0 <= i < 32
      ensures SmallBin(mem', bins', i, sb[i])
    {
      assert SmallBin(mem, bins, i, sb[i]);
      SmallFrame(mem, mem', bins, bins', i, sb[i]);
    }
  }

  /** Two memories agree on what the tree bins use. */
  ghost predicate SameLarge(mem: Mem, mem': Mem, bins: map<int, int>)
  {
    && (forall i :: 0 <= i < 32 ==> Get(mem', Slot(i)) == Get(mem, Slot(i)))
    && (forall p :: p in bins && bins[p] >= MIN_LARGE ==> WordsSame(mem, mem', p))
  }

  lemma LargeShaped(bins: map<int, int>, bins': map<int, int>, trie: Trie, p: Pos)
    requires p in trie && Shaped(bins, trie, p)
    requires forall a :: a in bins && bins[a] >= MIN_LARGE ==> a in bins' && bins'[a] == bins[a]
    ensures Shaped(bins', trie, p)
  {
  }

  lemma LargePlaced(mem: Mem, mem': Mem, bins: map<int, int>, trie: Trie, p: Pos)
    requires p in trie && Shaped(bins, trie, p) && Placed(mem, trie, p) && SameLarge(mem, mem', bins)
    ensures Placed(mem', trie, p)
  {
    forall k | 0 <= k < |trie[p]|
      ensures WordsSame(mem, mem', trie[p][k])
    {
      MemberSize(bins, trie, p, k);
    }
    PlacedFrame(mem, mem', trie, trie, p);
  }

  lemma LargeForest(bins: map<int, int>, bins': map<int, int>, trie: Trie, home: map<int, Pos>)
    requires ForestOk(bins, trie, home)
    requires forall a :: a in bins && bins[a] >= MIN_LARGE ==> a in bins' && bins'[a] == bins[a]
    requires forall a :: a in bins' && bins'[a] >= MIN_LARGE ==> a in bins && bins[a] == bins'[a]
    ensures ForestOk(bins', trie, home)
  {
    forall p | p in trie
      ensures Shaped(bins', trie, p) && bins'[trie[p][0]] == bins[trie[p][0]]
    {
      assert Shaped(bins, trie, p);
      LargeShaped(bins, bins', trie, p);
    }
  }

  lemma LargeKept(mem: Mem, mem': Mem, bins: map<int, int>, bins': map<int, int>, trie: Trie, home: map<int, Pos>)
    requires TrieOk(mem, bins, trie, home) && SameLarge(mem, mem', bins)
    requires forall a :: a in bins && bins[a] >= MIN_LARGE ==> a in bins' && bins'[a] == bins[a]
    requires forall a :: a in bins' && bins'[a] >= MIN_LARGE ==> a in bins && bins[a] == bins'[a]
    ensures TrieOk(mem', bins', trie, home)
  {
    LargeForest(bins, bins', trie, home);
    forall p | p in trie
      ensures Placed(mem', trie, p)
    {
      assert Shaped(bins, trie, p) && Placed(mem, trie, p);
      LargePlaced(mem, mem', bins, trie, p);
    }
  }

  lemma PokeApart(mem: Mem, bins: map<int, int>, a: int, v: int)
    requires !BinWord(a) && !LinkWord(bins, a)
    ensures SameSmall(mem, mem[a := v], bins) && SameLarge(mem, mem[a := v], bins)
  {
    forall p | p in bins
      ensures a < p + PREV || a >= p + LinkEnd(bins[p])
    {
    }
  }

  /** A write outside headers, slots and links, that keeps the size in the head of a binned chunk, concerns no bin. */
  lemma PokeKeeps(mem: Mem, smallmap: nat, treemap: nat, bins: map<int, int>, sb: seq<seq<int>>, trie: Trie,
      home: map<int, Pos>, a: int, v: int)
    requires StoreOk(mem, smallmap, treemap, bins, sb, trie, home)
    requires a in mem && !BinWord(a) && !LinkWord(bins, a)
    requires a - HEAD in bins ==> SizeOf(v) == bins[a - HEAD]
    ensures StoreOk(mem[a := v], smallmap, treemap, bins, sb, trie, home)
  {
    var mem' := mem[a := v];
    assert mem'.Keys == mem.Keys;
    PokeApart(mem, bins, a, v);
    SmallKept(mem, mem', bins, bins, sb);
    LargeKept(mem, mem', bins, bins, trie, home);
  }

  // ---------------------------------------------------------------- memory that comes and goes

  /** A word of some binned chunk. */
  ghost predicate BinnedWord(bins: map<int, int>, a: int)
  {
    exists q :: q in bins && q <= a < q + bins[q]
  }

  /** The allocator's own words and all words of binned chunks are carried over. */
  ghost predicate Carried(mem: Mem, mem': Mem, bins: map<int, int>)
  {
    forall a :: a in mem && (a < 0 || BinnedWord(bins, a)) ==> a in mem' && mem'[a] == mem[a]
  }

  lemma CarriedAt(mem: Mem, mem': Mem, bins: map<int, int>, p: int, a: int)
    requires Carried(mem, mem', bins) && p in bins && p <= a < p + bins[p] && a in mem
    ensures a in mem' && Get(mem', a) == Get(mem, a)
  {
    assert BinnedWord(bins, a);
  }

  lemma CarriedChunk(mem: Mem, mem': Mem, bins: map<int, int>, p: int)
    requires BinsOk(bins) && Addressable(mem, bins) && Carried(mem, mem', bins) && p in bins
    ensures p + HEAD in mem' && p + PREV in mem' && p + NEXT in mem' && Get(mem', p + HEAD) == Get(mem, p + HEAD)
    ensures Get(mem', p + PREV) == Get(mem, p + PREV) && Get(mem', p + NEXT) == Get(mem, p + NEXT)
    ensures bins[p] >= MIN_LARGE ==>
      && WordsSame(mem, mem', p) && p + CHILD0 in mem' && p + CHILD1 in mem' && p + PARENT in mem'
      && p + INDEX in mem'
  {
    CarriedAt(mem, mem', bins, p, p + HEAD);
    CarriedAt(mem, mem', bins, p, p + PREV);
    CarriedAt(mem, mem', bins, p, p + NEXT);
    if bins[p] >= MIN_LARGE {
      CarriedAt(mem, mem', bins, p, p + CHILD0);
      CarriedAt(mem, mem', bins, p, p + CHILD1);
      CarriedAt(mem, mem', bins, p, p + PARENT);
      CarriedAt(mem, mem', bins, p, p + INDEX);
    }
  }

  /** The bins do not mind other memory coming or going. */
  lemma CarriedKeeps(mem: Mem, mem': Mem, smallmap: nat, treemap: nat, bins: map<int, int>, sb: seq<seq<int>>,
      trie: Trie, home: map<int, Pos>)
    requires StoreOk(mem, smallmap, treemap, bins, sb, trie, home) && Carried(mem, mem', bins)
    ensures StoreOk(mem', smallmap, treemap, bins, sb, trie, home)
  {
    hide Carried, WordsSame, SmallOk, TrieOk;
    forall p | p in bins
      ensures p + HEAD in mem' && p + PREV in mem' && p + NEXT in mem' && Get(mem', p + HEAD) == Get(mem, p + HEAD)
      ensures Get(mem', p + PREV) == Get(mem, p + PREV) && Get(mem', p + NEXT) == Get(mem, p + NEXT)
      ensures bins[p] >= MIN_LARGE ==>
        && WordsSame(mem, mem', p) && p + CHILD0 in mem' && p + CHILD1 in mem' && p + PARENT in mem'
        && p + INDEX in mem'
    {
      CarriedChunk(mem, mem', bins, p);
    }
    CarriedOwn(mem, mem', bins);
    SmallKept(mem, mem', bins, bins, sb);
    LargeKept(mem, mem', bins, bins, trie, home);
  }

  lemma CarriedOwn(mem: Mem, mem': Mem, bins: map<int, int>)
    requires Addressable(mem, bins) && Carried(mem, mem', bins)
    ensures forall i :: 0 <= i < 32 ==> Header(i) + PREV in mem' && Header(i) + NEXT in mem' && Slot(i) in mem'
    ensures forall i :: 0 <= i < 32 ==> Get(mem', Header(i) + PREV) == Get(mem, Header(i) + PREV)
    ensures forall i :: 0 <= i < 32 ==> Get(mem', Header(i) + NEXT) == Get(mem, Header(i) + NEXT)
    ensures forall i :: 0 <= i < 32 ==> Get(mem', Slot(i)) == Get(mem, Slot(i))
  {
  }

  // ---------------------------------------------------------------- insertion

  /** A free chunk whose head is written and that may enter a bin. */
  ghost predicate Binnable(mem: Mem, bins: map<int, int>, c: int, size: int)
  {
    && c !in bins && BinsOk(bins[c := size]) && SizeOf(Get(mem, c + HEAD)) == size
    && c + HEAD in mem && c + PREV in mem && c + NEXT in mem
    && (size >= MIN_LARGE ==> c + CHILD0 in mem && c + CHILD1 in mem && c + PARENT in mem && c + INDEX in mem)
  }

  lemma BinnableFacts(mem: Mem, bins: map<int, int>, c: int, size: int)
    requires Binnable(mem, bins, c, size)
    ensures c > 0 && c % 16 == 0 && MIN_CHUNK <= size < WORD && size % 16 == 0 && BinsOk(bins)
  {
    assert c in bins[c := size];
    forall p | p in bins
      ensures p > 0 && p % 16 == 0 && MIN_CHUNK <= bins[p] < WORD && bins[p] % 16 == 0
    {
      assert p in bins[c := size];
    }
    forall p, q | p in bins && q in bins && p < q
      ensures p + bins[p] <= q
    {
      assert p in bins[c := size] && q in bins[c := size];
    }
  }

  /** A binned chunk and one about to be binned, or two binned ones, do not overlap. */
  lemma BinApart(bins: map<int, int>, p: int, q: int)
    requires BinsOk(bins) && p in bins && q in bins && p != q
    ensures p + bins[p] <= q || q + bins[q] <= p
  {
  }

  lemma AppendApart(mem: Mem, mem': Mem, bins: map<int, int>, sb: seq<seq<int>>, c: int, size: int, p: int)
    requires Binnable(mem, bins, c, size) && 0 <= size < MIN_LARGE && SmallOk(mem, bins, sb)
    requires AppendWritten(mem, mem', size / 8, sb[size / 8], c)
    requires p in bins
    ensures Get(mem', p + HEAD) == Get(mem, p + HEAD)
    ensures bins[p] >= MIN_LARGE ==> WordsSame(mem, mem', p)
  {
    BinnableFacts(mem, bins, c, size);
    var i := size / 8;
    var l := sb[i];
    assert SmallBin(mem, bins, i, l);
    var f := if l == [] then Header(i) else l[|l| - 1];
    assert f < 0 || (f in bins && bins[f] == size);
    BinApart(bins[c := size], p, c);
    if f in bins && f != p { BinApart(bins, p, f); }
    assert f % 16 == 0 by { if l != [] { assert Anchored(i, l)[|l|] == f; } }
    assert p > 0 && p % 16 == 0;
  }

  lemma AppendHeaders(mem: Mem, mem': Mem, bins: map<int, int>, sb: seq<seq<int>>, c: int, size: int)
    requires Binnable(mem, bins, c, size) && 0 <= size < MIN_LARGE && SmallOk(mem, bins, sb)
    requires AppendWritten(mem, mem', size / 8, sb[size / 8], c)
    ensures forall i :: 0 <= i < 32 ==> Get(mem', Slot(i)) == Get(mem, Slot(i))
    ensures forall a :: !BinWord(a) && !LinkWord(bins[c := size], a) ==> Get(mem', a) == Get(mem, a)
    ensures Get(mem', c + HEAD) == Get(mem, c + HEAD)
  {
    BinnableFacts(mem, bins, c, size);
    var i := size / 8;
    var l := sb[i];
    var bins' := bins[c := size];
    assert SmallBin(mem, bins, i, l);
    var f := if l == [] then Header(i) else l[|l| - 1];
    assert f < 0 || (f in bins && bins[f] == size && f > 0);
    assert f % 16 == 0 by { if l != [] { assert Anchored(i, l)[|l|] == f; } }
    if f > 0 { BinApart(bins', f, c); }
    forall a | !BinWord(a) && !LinkWord(bins', a)
      ensures Get(mem', a) == Get(mem, a)
    {
      assert c in bins' && bins'[c] == size;
      assert f > 0 ==> f in bins' && bins'[f] == size;
    }
  }

  /** Putting a small chunk into its bin. */
  lemma SmallInserted(mem: Mem, mem': Mem, smallmap: nat, smallmap': nat, treemap: nat, bins: map<int, int>,
      sb: seq<seq<int>>, trie: Trie, home: map<int, Pos>, c: int, size: int)
    requires StoreOk(mem, smallmap, treemap, bins, sb, trie, home) && Binnable(mem, bins, c, size)
    requires 0 <= size < MIN_LARGE
    requires mem'.Keys == mem.Keys && AppendWritten(mem, mem', size / 8, sb[size / 8], c)
    requires smallmap' == (if sb[size / 8] == [] then MarkBit(smallmap, size / 8) else smallmap)
    ensures StoreOk(mem', smallmap', treemap, bins[c := size], sb[size / 8 := sb[size / 8] + [c]], trie, home)
    ensures OnlyLinks(mem, mem', bins[c := size])
  {
    BinnableFacts(mem, bins, c, size);
    var i := size / 8;
    assert size == 8 * i;
    AppendAll(mem, mem', bins, sb, i, c);
    SmallMarked(smallmap, treemap, sb, trie, i, c);
    SmallLargeKept(mem, mem', bins, sb, trie, home, c, size);
  }

  lemma SmallLargeKept(mem: Mem, mem': Mem, bins: map<int, int>, sb: seq<seq<int>>, trie: Trie, home: map<int, Pos>,
      c: int, size: int)
    requires Binnable(mem, bins, c, size) && 0 <= size < MIN_LARGE && SmallOk(mem, bins, sb)
    requires TrieOk(mem, bins, trie, home)
    requires mem'.Keys == mem.Keys && AppendWritten(mem, mem', size / 8, sb[size / 8], c) && Headed(mem, bins)
    ensures TrieOk(mem', bins[c := size], trie, home) && OnlyLinks(mem, mem', bins[c := size])
    ensures Headed(mem', bins[c := size])
  {
    AppendHeaders(mem, mem', bins, sb, c, size);
    forall p | p in bins
      ensures Get(mem', p + HEAD) == Get(mem, p + HEAD)
      ensures bins[p] >= MIN_LARGE ==> WordsSame(mem, mem', p)
    {
      AppendApart(mem, mem', bins, sb, c, size, p);
    }
    LargeKept(mem, mem', bins, bins[c := size], trie, home);
  }

  lemma SmallMarked(smallmap: nat, treemap: nat, sb: seq<seq<int>>, trie: Trie, i: nat, c: int)
    requires Marked(smallmap, treemap, sb, trie) && i < 32
    ensures Marked(if sb[i] == [] then MarkBit(smallmap, i) else smallmap, treemap, sb[i := sb[i] + [c]], trie)
  {
    MarkSets(smallmap, i);
  }

  // ---------------------------------------------------------------- writes of the tree bins

  /** A tree-bin slot or a link word of a tree chunk of `bins`. */
  ghost predicate TreeWord(bins: map<int, int>, w: int)
  {
    -256 <= w < 0 || exists q :: q in bins && bins[q] >= MIN_LARGE && q + PREV <= w < q + NODE_END
  }

  /** The writes are confined to slots and tree chunks of `bins`. */
  ghost predicate TreeWrites(mem: Mem, mem': Mem, bins: map<int, int>)
  {
    forall a {:trigger Get(mem', a)} :: TreeWord(bins, a) || Get(mem', a) == Get(mem, a)
  }

  lemma TreeWritesFrom(mem: Mem, mem': Mem, touched: set<int>, bins: map<int, int>)
    requires SameExcept(mem, mem', touched) && forall w :: w in touched ==> TreeWord(bins, w)
    ensures TreeWrites(mem, mem', bins)
  {
  }

  lemma TreeWritesTrans(mem: Mem, mem1: Mem, mem2: Mem, bins: map<int, int>)
    requires TreeWrites(mem, mem1, bins) && TreeWrites(mem1, mem2, bins)
    ensures TreeWrites(mem, mem2, bins)
  {
    forall a
      ensures TreeWord(bins, a) || Get(mem2, a) == Get(mem, a)
    {
      assert TreeWord(bins, a) || Get(mem1, a) == Get(mem, a);
    }
  }

  /** Writes of the tree bins miss heads and small bins. */
  lemma TreeMisses(bins: map<int, int>, p: int)
    requires BinsOk(bins) && p in bins
    ensures !TreeWord(bins, p + HEAD)
    ensures bins[p] < MIN_LARGE ==> !TreeWord(bins, p + PREV) && !TreeWord(bins, p + NEXT)
  {
  }

  lemma TreeKeeps(mem: Mem, mem': Mem, bins: map<int, int>)
    requires BinsOk(bins) && mem'.Keys == mem.Keys && TreeWrites(mem, mem', bins)
    ensures OnlyLinks(mem, mem', bins) && SameSmall(mem, mem', bins)
    ensures forall p :: p in bins ==> Get(mem', p + HEAD) == Get(mem, p + HEAD)
  {
    forall p | p in bins
      ensures Get(mem', p + HEAD) == Get(mem, p + HEAD)
      ensures bins[p] < MIN_LARGE ==>
        && Get(mem', p + PREV) == Get(mem, p + PREV) && Get(mem', p + NEXT) == Get(mem, p + NEXT)
    {
      TreeMisses(bins, p);
    }
    forall i | 0 <= i < 32
      ensures Get(mem', Header(i) + PREV) == Get(mem, Header(i) + PREV)
      ensures Get(mem', Header(i) + NEXT) == Get(mem, Header(i) + NEXT)
    {
      assert forall q :: q in bins ==> q > 0;
    }
  }

  // ---------------------------------------------------------------- insertion into a tree

  ghost predicate SubBins(bins: map<int, int>, all: map<int, int>)
  {
    forall p :: p in bins ==> p in all && all[p] == bins[p]
  }

  /** Writes of the tree bins leave the small bins and the heads in order. */
  lemma TreeRest(mem: Mem, mem': Mem, all: map<int, int>, bins: map<int, int>, bins': map<int, int>, sb: seq<seq<int>>)
    requires BinsOk(all) && mem'.Keys == mem.Keys && TreeWrites(mem, mem', all)
    requires SubBins(bins, all) && SubBins(bins', all)
    requires forall p :: p in all && all[p] < MIN_LARGE ==> p in bins && p in bins'
    requires SmallOk(mem, bins, sb) && Headed(mem, bins') && Addressable(mem, bins')
    ensures SmallOk(mem', bins', sb) && Headed(mem', bins') && Addressable(mem', bins')
  {
    TreeKeeps(mem, mem', all);
    assert SameSmall(mem, mem', bins);
    SmallKept(mem, mem', bins, bins', sb);
  }

  lemma BinnableJoins(mem: Mem, bins: map<int, int>, c: int, size: int)
    requires Binnable(mem, bins, c, size) && Headed(mem, bins) && Addressable(mem, bins)
    ensures Headed(mem, bins[c := size]) && Addressable(mem, bins[c := size]) && SubBins(bins, bins[c := size])
  {
  }

  /** The chunk is in the forest; the rest of the store is as before. */
  lemma LargeInserted(mem: Mem, mem': Mem, smallmap: nat, treemap: nat, treemap': nat, bins: map<int, int>,
      sb: seq<seq<int>>,
                      trie: Trie, trie': Trie, home: map<int, Pos>, home': map<int, Pos>, c: int, size: int)
    requires StoreOk(mem, smallmap, treemap, bins, sb, trie, home) && Binnable(mem, bins, c, size) && size >= MIN_LARGE
    requires mem'.Keys == mem.Keys && TreeWrites(mem, mem', bins[c := size])
    requires TrieOk(mem', bins[c := size], trie', home') && Marked(smallmap, treemap', sb, trie')
    ensures StoreOk(mem', smallmap, treemap', bins[c := size], sb, trie', home')
    ensures OnlyLinks(mem, mem', bins[c := size])
  {
    var bins' := bins[c := size];
    BinnableJoins(mem, bins, c, size);
    TreeRest(mem, mem', bins', bins, bins', sb);
    TreeKeeps(mem, mem', bins');
  }

  lemma LeafTreeWrites(mem: Mem, mem': Mem, bins: map<int, int>, trie: Trie, pos: Pos, c: int, size: int)
    requires LeafWritten(mem, mem', trie, pos, c) && size >= MIN_LARGE && pos.bin < 32 && c !in bins
    requires pos.path != [] ==> Up(pos) in trie && Shaped(bins, trie, Up(pos))
    ensures TreeWrites(mem, mem', bins[c := size])
  {
    var bins' := bins[c := size];
    assert c in bins' && bins'[c] >= MIN_LARGE;
    var w := PointerTo(trie, pos);
    if pos.path != [] {
      var q := At(trie, Up(pos));
      assert q in bins' && bins'[q] >= MIN_LARGE && q + PREV <= w < q + NODE_END;
    }
    TreeWritesFrom(mem, mem', {w} + LinkWords(c), bins');
  }

  lemma JoinTreeWrites(mem: Mem, mem': Mem, bins: map<int, int>, trie: Trie, pos: Pos, c: int, size: int)
    requires pos in trie && Shaped(bins, trie, pos) && JoinWritten(mem, mem', trie, pos, c) && size >= MIN_LARGE
    requires c !in bins
    ensures TreeWrites(mem, mem', bins[c := size])
  {
    var bins' := bins[c := size];
    var r := trie[pos];
    assert c in bins' && bins'[c] >= MIN_LARGE;
    MemberSize(bins, trie, pos, 0);
    MemberSize(bins, trie, pos, |r| - 1);
    assert r[0] in bins' && bins'[r[0]] >= MIN_LARGE && r[|r| - 1] in bins' && bins'[r[|r| - 1]] >= MIN_LARGE;
    TreeWritesFrom(mem, mem', {r[0] + PREV, r[|r| - 1] + NEXT} + LinkWords(c), bins');
  }

  // ---------------------------------------------------------------- removal

  lemma CutEnds(mem: Mem, bins: map<int, int>, sb: seq<seq<int>>, i: int, k: int)
    requires SmallOk(mem, bins, sb) && 0 <= i < 32 && 0 <= k < |sb[i]| && BinsOk(bins)
    ensures var r := Anchored(i, sb[i]);
            && (r[k] < 0 ==> r[k] == Header(i)) && (r[k] > 0 ==> r[k] in bins && bins[r[k]] == 8 * i)
            && r[k] != 0 && r[k] % 16 == 0
            && (var b := r[After(r, k + 1)];
                (b < 0 ==> b == Header(i)) && (b > 0 ==> b in bins && bins[b] == 8 * i) && b != 0 && b % 16 == 0)
    ensures i * 8 < MIN_LARGE && sb[i][k] in bins
  {
    assert SmallBin(mem, bins, i, sb[i]);
    var r := Anchored(i, sb[i]);
    assert forall x :: 0 < x < |r| ==> r[x] == sb[i][x - 1];
  }

  lemma CutApart(mem: Mem, mem': Mem, bins: map<int, int>, sb: seq<seq<int>>, i: int, k: int, p: int)
    requires SmallOk(mem, bins, sb) && BinsOk(bins) && 0 <= i < 32 && 0 <= k < |sb[i]|
    requires CutWritten(mem, mem', i, sb[i], k)
    requires p in bins
    ensures Get(mem', p + HEAD) == Get(mem, p + HEAD)
    ensures bins[p] >= MIN_LARGE ==> WordsSame(mem, mem', p)
  {
    CutEnds(mem, bins, sb, i, k);
    var r := Anchored(i, sb[i]);
    var f, b := r[k], r[After(r, k + 1)];
    if f in bins && f != p { BinApart(bins, p, f); }
    if b in bins && b != p { BinApart(bins, p, b); }
    assert p > 0 && p % 16 == 0;
  }

  lemma CutOnlyLinks(mem: Mem, mem': Mem, bins: map<int, int>, sb: seq<seq<int>>, i: int, k: int)
    requires SmallOk(mem, bins, sb) && BinsOk(bins) && 0 <= i < 32 && 0 <= k < |sb[i]|
    requires CutWritten(mem, mem', i, sb[i], k)
    ensures forall j :: 0 <= j < 32 ==> Get(mem', Slot(j)) == Get(mem, Slot(j))
    ensures forall a :: !BinWord(a) && !LinkWord(bins, a) ==> Get(mem', a) == Get(mem, a)
  {
    CutEnds(mem, bins, sb, i, k);
    var r := Anchored(i, sb[i]);
    var f, b := r[k], r[After(r, k + 1)];
    forall a | !BinWord(a) && !LinkWord(bins, a)
      ensures Get(mem', a) == Get(mem, a)
    {
      assert f > 0 ==> f in bins && f + NEXT < f + LinkEnd(bins[f]);
      assert b > 0 ==> b in bins && b + PREV < b + LinkEnd(bins[b]);
    }
  }

  lemma SmallLargeKeptCut(mem: Mem, mem': Mem, bins: map<int, int>, sb: seq<seq<int>>, trie: Trie,
      home: map<int, Pos>, i: int, k: int)
    requires SmallOk(mem, bins, sb) && BinsOk(bins) && TrieOk(mem, bins, trie, home) && Headed(mem, bins)
    requires 0 <= i < 32 && 0 <= k < |sb[i]| && CutWritten(mem, mem', i, sb[i], k) && mem'.Keys == mem.Keys
    ensures sb[i][k] in bins && bins[sb[i][k]] == 8 * i
    ensures TrieOk(mem', bins - {sb[i][k]}, trie, home) && OnlyLinks(mem, mem', bins) && Headed(mem', bins - {sb[i][k]})
  {
    assert SmallBin(mem, bins, i, sb[i]);
    CutOnlyLinks(mem, mem', bins, sb, i, k);
    forall p | p in bins
      ensures Get(mem', p + HEAD) == Get(mem, p + HEAD)
      ensures bins[p] >= MIN_LARGE ==> WordsSame(mem, mem', p)
    {
      CutApart(mem, mem', bins, sb, i, k, p);
    }
    LargeKept(mem, mem', bins, bins - {sb[i][k]}, trie, home);
  }

  /** Taking a small chunk out of its bin. */
  lemma SmallRemoved(mem: Mem, mem': Mem, smallmap: nat, smallmap': nat, treemap: nat, bins: map<int, int>,
      sb: seq<seq<int>>, trie: Trie, home: map<int, Pos>, i: nat, k: int)
    requires StoreOk(mem, smallmap, treemap, bins, sb, trie, home) && i < 32 && 0 <= k < |sb[i]|
    requires mem'.Keys == mem.Keys && CutWritten(mem, mem', i, sb[i], k)
    requires smallmap' == (if |sb[i]| == 1 then ClearBit(smallmap, i) else smallmap)
    ensures StoreOk(mem', smallmap', treemap, bins - {sb[i][k]}, sb[i := Without(sb[i], k)], trie, home)
    ensures OnlyLinks(mem, mem', bins)
  {
    CutAll(mem, mem', bins, sb, i, k);
    SmallLargeKeptCut(mem, mem', bins, sb, trie, home, i, k);
    ClearClears(smallmap, i);
    assert forall j :: 0 <= j < 32 && j != i ==> sb[i := Without(sb[i], k)][j] == sb[j];
  }

  /** The chunk has left the forest; the rest of the store is as before. */
  lemma LargeRemoved(mem: Mem, mem': Mem, smallmap: nat, treemap: nat, treemap': nat, bins: map<int, int>,
      sb: seq<seq<int>>,
                     trie: Trie, trie': Trie, home: map<int, Pos>, home': map<int, Pos>, c: int)
    requires StoreOk(mem, smallmap, treemap, bins, sb, trie, home) && c in bins && bins[c] >= MIN_LARGE
    requires mem'.Keys == mem.Keys && TreeWrites(mem, mem', bins)
    requires TrieOk(mem', bins - {c}, trie', home') && Marked(smallmap, treemap', sb, trie')
    ensures StoreOk(mem', smallmap, treemap', bins - {c}, sb, trie', home')
    ensures OnlyLinks(mem, mem', bins)
  {
    TreeRest(mem, mem', bins, bins, bins - {c}, sb);
    TreeKeeps(mem, mem', bins);
  }

  lemma DropTreeWrites(mem: Mem, mem': Mem, bins: map<int, int>, trie: Trie, p: Pos, k: int)
    requires p in trie && Shaped(bins, trie, p) && 0 <= k < |trie[p]| && DropWritten(mem, mem', trie[p], k)
    ensures TreeWrites(mem, mem', bins)
  {
    var r := trie[p];
    var f, b := r[Before(r, k)], r[After(r, k)];
    MemberSize(bins, trie, p, Before(r, k));
    MemberSize(bins, trie, p, After(r, k));
    assert f + PREV <= f + NEXT < f + NODE_END && b + PREV <= b + PREV < b + NODE_END;
    TreeWritesFrom(mem, mem', {f + NEXT, b + PREV}, bins);
  }

  lemma PointerTreeWord(bins: map<int, int>, trie: Trie, p: Pos)
    requires p.bin < 32 && (p.path != [] ==> Up(p) in trie && Shaped(bins, trie, Up(p)))
    ensures TreeWord(bins, PointerTo(trie, p))
  {
    if p.path != [] {
      var q, w := At(trie, Up(p)), PointerTo(trie, p);
      assert q in bins && bins[q] >= MIN_LARGE && q + PREV <= w < q + NODE_END;
    }
  }

  lemma DetachTreeWrites(mem: Mem, mem': Mem, bins: map<int, int>, trie: Trie, p: Pos)
    requires DetachWritten(mem, mem', trie, p)
    requires p.bin < 32 && (p.path != [] ==> Up(p) in trie && Shaped(bins, trie, Up(p)))
    ensures TreeWrites(mem, mem', bins)
  {
    PointerTreeWord(bins, trie, p);
    TreeWritesFrom(mem, mem', {PointerTo(trie, p)}, bins);
  }

  lemma KidTreeWord(bins: map<int, int>, trie: Trie, trie': Trie, q: Pos)
    requires SubTrie(trie', trie) && AllShaped(bins, trie) && At(trie', q) != NULL
    ensures TreeWord(bins, At(trie', q) + PARENT)
  {
    assert Shaped(bins, trie, q);
    var a := At(trie', q);
    assert a in bins && bins[a] >= MIN_LARGE && a + PREV <= a + PARENT < a + NODE_END;
  }

  lemma HandoverTreeWrites(mem: Mem, mem': Mem, bins: map<int, int>, trie: Trie, trie': Trie, p: Pos, n: int)
    requires HandoverWritten(mem, mem', trie', p, n) && SubTrie(trie', trie) && AllShaped(bins, trie)
    requires n in bins && bins[n] >= MIN_LARGE && p.bin < 32 && (p.path != [] ==> Up(p) in trie')
    ensures TreeWrites(mem, mem', bins)
  {
    if p.path != [] { assert Shaped(bins, trie, Up(p)); }
    PointerIn(bins, trie, trie', p);
    if At(trie', Kid(p, false)) != NULL { KidTreeWord(bins, trie, trie', Kid(p, false)); }
    if At(trie', Kid(p, true)) != NULL { KidTreeWord(bins, trie, trie', Kid(p, true)); }
    assert n + PREV <= n + PARENT < n + NODE_END && n + PREV <= n + CHILD0 < n + NODE_END
        && n + PREV <= n + CHILD1 < n + NODE_END;
    TreeWritesFrom(mem, mem', HandoverWords(trie', p, n), bins);
  }

  lemma PointerIn(bins: map<int, int>, trie: Trie, trie': Trie, p: Pos)
    requires SubTrie(trie', trie) && p.bin < 32 && (p.path != [] ==> Up(p) in trie' && Shaped(bins, trie, Up(p)))
    ensures TreeWord(bins, PointerTo(trie', p))
  {
    if p.path != [] {
      var q, w := At(trie', Up(p)), PointerTo(trie', p);
      assert q in bins && bins[q] >= MIN_LARGE && q + PREV <= w < q + NODE_END;
    }
  }
}
