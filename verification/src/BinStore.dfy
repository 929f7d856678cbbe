/** The bins in action: the insert, unlink and search procedures of the allocator on word memory. */
module BinStores {
  import opened Bits
  import opened Sizes
  import opened Rings
  import opened Heads
  import opened Tries
  import opened SmallBins
  import opened TrieInsert
  import opened TrieRemove
  import opened TrieUnlink
  import opened TrieSearch
  import opened Stores
  import opened StoreSteps

  /** Memory, the two bin maps, and as ghost state what the bins hold. */
  class Store {
    var mem: Mem
    var smallmap: nat
    var treemap: nat
    ghost var bins: map<int, int>
    ghost var sb: seq<seq<int>>
    ghost var trie: Trie
    ghost var home: map<int, Pos>

    ghost predicate Valid()
      reads this
    {
      StoreOk(mem, smallmap, treemap, bins, sb, trie, home)
    }

    /** Of the binned chunks of its size, the one at `p` is the one given out: the last of a small bin, a tree node. */
    ghost predicate Chooses(p: int)
      reads this
    {
      p in bins && bins[p] >= 0
      && if bins[p] >= MIN_LARGE then HeadsRing(trie, p)
         else var l := SmallBinAt(sb, bins[p] / 8); l != [] && p == l[|l| - 1]
    }

    /** The allocator's own words, all zero. */
    constructor ()
      ensures Valid() && bins == map[] && smallmap == 0 && treemap == 0
      ensures forall a :: a in mem <==> -1024 <= a < 0 && a % 8 == 0
      ensures forall a :: Get(mem, a) == 0
    {
      mem := map a | -1024 <= a < 0 && a % 8 == 0 :: 0;
      smallmap, treemap := 0, 0;
      bins, sb, trie, home := map[], seq(32, _ => []), map[], map[];
      new;
      NoBits();
      EmptyOk(mem);
    }

    /** `init_bins`: every small bin becomes an empty ring. */
    method InitBins()
      requires Valid() && bins == map[] && smallmap == 0 && treemap == 0
      modifies this`mem
      ensures Valid() && OnlyLinks(old(mem), mem, bins)
      ensures forall i :: 0 <= i < 32 ==> Ring(mem, [Header(i)])
    {
      hide StoreOk;
      ghost var m0 := mem;
      var i := 0;
      StoreWords(mem, smallmap, treemap, bins, sb, trie, home);
      while i < 32
        invariant 0 <= i <= 32 && mem.Keys == m0.Keys
        invariant forall a :: a < -1024 || a >= -1024 + 16 * i + 16 ==> Get(mem, a) == Get(m0, a)
        invariant forall j :: 0 <= j < i ==>
            Get(mem, Header(j) + NEXT) == Header(j) && Get(mem, Header(j) + PREV) == Header(j)
      {
        var bin := Header(i);
        Write(bin + NEXT, bin);
        Write(bin + PREV, bin);
        i := i + 1;
      }
      EmptyKept(m0, mem, smallmap, treemap, bins, sb, trie, home);
      forall j | 0 <= j < 32
        ensures Ring(mem, [Header(j)])
      {
        assert Linked(mem, [Header(j)], 0);
      }
    }

    /** Writing an addressable word. */
    method Write(a: int, v: int)
      requires a in mem
      modifies this`mem
      ensures mem == old(mem)[a := v]
    {
      mem := mem[a := v];
    }

    /** Writing a word that no bin uses; the size in the head of a binned chunk must stay. */
    method Poke(a: int, v: int)
      requires Valid() && a in mem && !BinWord(a) && !LinkWord(bins, a)
      requires a - HEAD in bins ==> SizeOf(v) == bins[a - HEAD]
      modifies this`mem
      ensures Valid() && mem == old(mem)[a := v]
    {
      PokeKeeps(mem, smallmap, treemap, bins, sb, trie, home, a, v);
      mem := mem[a := v];
    }

    /** The system adds memory or takes some away that no bin uses. */
    method Remap(mem': Mem)
      requires Valid() && Carried(mem, mem', bins)
      modifies this`mem
      ensures Valid() && mem == mem'
    {
      CarriedKeeps(mem, mem', smallmap, treemap, bins, sb, trie, home);
      mem := mem';
    }

    // -------------------------------------------------------------- small bins

    /** `insert_small_chunk` */
    method InsertSmall(chunk: int, size: int)
      requires Valid() && Binnable(mem, bins, chunk, size) && 0 <= size < MIN_LARGE
      modifies this`mem, this`smallmap, this`bins, this`sb
      ensures Valid() && bins == old(bins)[chunk := size] && OnlyLinks(old(mem), mem, bins)
      ensures |old(sb)| == 32 && sb == old(sb)[size / 8 := old(sb)[size / 8] + [chunk]]
    {
      hide StoreOk, AppendWritten, OnlyLinks, Binnable, LinkWord;
      var idx := SmallIndex(size);
      var head := Header(idx);
      var f := head;
      ghost var m0, map0, l := mem, smallmap, SmallBinAt(sb, idx);
      SmallReady(mem, smallmap, treemap, bins, sb, trie, home, chunk, size);
      if And(smallmap, Pow2(idx)) == 0 {
        smallmap := MarkBit(smallmap, idx);
      } else {
        f := mem[head + PREV];
      }
      Write(head + PREV, chunk);
      Write(f + NEXT, chunk);
      Write(chunk + PREV, f);
      Write(chunk + NEXT, head);
      AppendWrites(m0, mem, idx, l, f, chunk);
      SmallInserted(m0, mem, map0, smallmap, treemap, bins, sb, trie, home, chunk, size);
      bins := bins[chunk := size];
      sb := sb[idx := l + [chunk]];
    }

    /** `unlink_small_chunk` */
    method UnlinkSmall(chunk: int, size: int)
      requires Valid() && chunk in bins && bins[chunk] == size && 0 <= size < MIN_LARGE
      modifies this`mem, this`smallmap, this`bins, this`sb
      ensures Valid() && bins == old(bins) - {chunk} && OnlyLinks(old(mem), mem, old(bins))
      ensures |old(sb)| == 32 && Struck(old(sb)[size / 8], chunk, SmallBinAt(sb, size / 8))
      ensures sb == old(sb)[size / 8 := SmallBinAt(sb, size / 8)]
    {
      hide StoreOk, CutWritten, OnlyLinks;
      ghost var m0, map0 := mem, smallmap;
      ghost var k := SmallMember(mem, smallmap, treemap, bins, sb, trie, home, chunk, size);
      var f := mem[chunk + PREV];
      var b := mem[chunk + NEXT];
      var idx := SmallIndex(size);
      if b == f {
        smallmap := ClearBit(smallmap, idx);
      } else {
        Write(f + NEXT, b);
        Write(b + PREV, f);
      }
      CutWrites(m0, mem, idx, SmallBinAt(sb, idx), k, f, b);
      SmallRemoved(m0, mem, map0, smallmap, treemap, bins, sb, trie, home, idx, k);
      bins := bins - {chunk};
      sb := sb[idx := Without(SmallBinAt(sb, idx), k)];
    }

    /** Taking the chunk that the header's `prev` link leads to: `(*b).prev` and `unlink_first_small_chunk`. */
    method TakeSmall(idx: nat) returns (p: int)
      requires Valid() && idx < 32 && BitAt(smallmap, idx)
      modifies this`mem, this`smallmap, this`bins, this`sb
      ensures Valid() && p in old(bins) && old(bins)[p] == 8 * idx && bins == old(bins) - {p}
      ensures OnlyLinks(old(mem), mem, old(bins))
      ensures |old(sb)| == 32 && old(sb)[idx] != [] && old(sb)[idx] == old(sb)[idx][..|old(sb)[idx]| - 1] + [p]
      ensures old(Chooses(p))
      ensures sb == old(sb)[idx := old(sb)[idx][..|old(sb)[idx]| - 1]]
    {
      hide StoreOk, CutWritten, OnlyLinks;
      ghost var m0, map0, l := mem, smallmap, SmallBinAt(sb, idx);
      SmallFirst(mem, smallmap, treemap, bins, sb, trie, home, idx);
      var head := Header(idx);
      p := mem[head + PREV];
      var ptr := mem[p + PREV];
      if head == ptr {
        smallmap := ClearBit(smallmap, idx);
      } else {
        Write(ptr + NEXT, head);
        Write(head + PREV, ptr);
      }
      CutWrites(m0, mem, idx, l, |l| - 1, ptr, head);
      SmallRemoved(m0, mem, map0, smallmap, treemap, bins, sb, trie, home, idx, |l| - 1);
      bins := bins - {p};
      assert Without(l, |l| - 1) == l[..|l| - 1];
      sb := sb[idx := Without(l, |l| - 1)];
    }

    // -------------------------------------------------------------- tree bins

    /** The walk of `insert_large_chunk`: down the bits of `size` until its size or a vacant child is met. */
    method Descend(size: int) returns (t: int, same: bool, turn: bool, ghost pos: Pos)
      requires Valid() && MIN_LARGE <= size < WORD && BitAt(treemap, TreeIndex(size))
      ensures pos in trie && t == At(trie, pos) && t > 0
      ensures same ==> SizeAt(bins, trie, pos) == size
      ensures !same ==> VacantAt(bins, trie, Kid(pos, turn), size)
    {
      hide StoreOk, TreeIndex, Descending, BitAt, Shl, VacantAt, TopBit, LeftShift, Pow2, SizeOf;
      var idx := TreeIndex(size);
      pos := Pos(idx, []);
      DescendStart(mem, smallmap, treemap, bins, sb, trie, home, size);
      t := mem[Slot(idx)];
      var k: nat := Shl(64, size, LeftShift(idx));
      same, turn := false, false;
      while true
        invariant Descending(bins, trie, size, pos, k) && pos in trie && t == At(trie, pos) && t > 0
        invariant pos.bin < 32 && |pos.path| <= TopBit(pos.bin) + 1
        decreases TopBit(pos.bin) + 1 - |pos.path|
      {
        NodeRead(mem, smallmap, treemap, bins, sb, trie, home, pos);
        if SizeOf(mem[t + HEAD]) != size {
          DescendStep(mem, smallmap, treemap, bins, sb, trie, home, size, pos, k);
          turn := BitAt(k, 63);
          k := (2 * k) % Pow2(64);
          var c := mem[t + ChildWord(turn)];
          if c != NULL {
            t := c;
            pos := Kid(pos, turn);
          } else {
            return;
          }
        } else {
          same := true;
          return;
        }
      }
    }

    /** The first writes of `insert_large_chunk`: the chunk gets its bin index and no children. */
    method Blank(chunk: int, size: int)
      requires Valid() && Binnable(mem, bins, chunk, size) && size >= MIN_LARGE
      modifies this`mem
      ensures Valid() && TreeIndex(size) < 32 && Blanked(old(mem), mem, chunk, TreeIndex(size))
    {
      hide StoreOk, Binnable, TreeIndex;
      LargeReady(mem, smallmap, treemap, bins, sb, trie, home, chunk, size);
      var idx := TreeIndex(size);
      Poke(chunk + INDEX, idx);
      Poke(chunk + CHILD0, NULL);
      Poke(chunk + CHILD1, NULL);
    }

    /** The links of the chunk are blank, everything else is as it was in `m0`. */
    ghost predicate Entering(m0: Mem, chunk: int, size: int)
      reads this
    {
      && Valid() && Binnable(m0, bins, chunk, size) && size >= MIN_LARGE && TreeIndex(size) < 32
      && Blanked(m0, mem, chunk, TreeIndex(size)) && Slot(TreeIndex(size)) in mem
      && chunk + PREV in mem && chunk + NEXT in mem && chunk + PARENT in mem
    }

    /** The chunk becomes the root of its bin. */
    method EnterRoot(chunk: int, size: int, idx: int, ghost m0: Mem)
      requires Entering(m0, chunk, size) && idx == TreeIndex(size) && !BitAt(treemap, idx)
      modifies this`mem, this`treemap, this`bins, this`trie, this`home
      ensures Valid() && bins == old(bins)[chunk := size] && OnlyLinks(m0, mem, bins)
      ensures Planted(old(bins), old(trie), chunk, size, trie)
    {
      hide StoreOk, OnlyLinks, Binnable, Blanked, TreeIndex, BitAt, Planted, VacantAt;
      ghost var m1, map0 := mem, treemap;
      BinnableFacts(m0, bins, chunk, size);
      RootVacant(mem, smallmap, treemap, bins, sb, trie, home, size);
      NodePlanted(bins, trie, Pos(idx, []), chunk, size);
      var h := Slot(idx);
      treemap := MarkBit(treemap, idx);
      Write(h, chunk);
      Write(chunk + PARENT, h);
      Write(chunk + NEXT, chunk);
      Write(chunk + PREV, chunk);
      RootInserted(m0, m1, mem, smallmap, map0, bins, sb, trie, home, chunk, size);
      trie, home, bins := trie[Pos(idx, []) := [chunk]], home[chunk := Pos(idx, [])], bins[chunk := size];
    }

    /** The chunk becomes a child of the node `t`. */
    method EnterKid(chunk: int, size: int, t: int, turn: bool, ghost pos: Pos, ghost m0: Mem)
      requires Entering(m0, chunk, size) && pos in trie && t == At(trie, pos)
      requires VacantAt(bins, trie, Kid(pos, turn), size)
      modifies this`mem, this`bins, this`trie, this`home
      ensures Valid() && bins == old(bins)[chunk := size] && OnlyLinks(m0, mem, bins)
      ensures Planted(old(bins), old(trie), chunk, size, trie)
    {
      hide StoreOk, OnlyLinks, Binnable, Blanked, TreeIndex, VacantAt, Planted;
      ghost var m1 := mem;
      NodeRead(mem, smallmap, treemap, bins, sb, trie, home, pos);
      Write(t + ChildWord(turn), chunk);
      Write(chunk + PARENT, t);
      Write(chunk + NEXT, chunk);
      Write(chunk + PREV, chunk);
      KidInserted(m0, m1, mem, smallmap, treemap, bins, sb, trie, home, chunk, size, pos, turn);
      NodePlanted(bins, trie, Kid(pos, turn), chunk, size);
      trie, home, bins := trie[Kid(pos, turn) := [chunk]], home[chunk := Kid(pos, turn)], bins[chunk := size];
    }

    /** The chunk joins the ring of the node `t`, which has its size. */
    method EnterRing(chunk: int, size: int, t: int, ghost pos: Pos, ghost m0: Mem)
      requires Entering(m0, chunk, size) && pos in trie && t == At(trie, pos) && t > 0
      requires SizeAt(bins, trie, pos) == size
      modifies this`mem, this`bins, this`trie, this`home
      ensures Valid() && bins == old(bins)[chunk := size] && OnlyLinks(m0, mem, bins)
      ensures Planted(old(bins), old(trie), chunk, size, trie)
    {
      hide StoreOk, OnlyLinks, Binnable, Blanked, TreeIndex, Planted;
      ghost var m1 := mem;
      RingRead(mem, smallmap, treemap, bins, sb, trie, home, pos);
      var f := mem[t + PREV];
      Write(f + NEXT, chunk);
      Write(t + PREV, chunk);
      Write(chunk + PREV, f);
      Write(chunk + NEXT, t);
      Write(chunk + PARENT, NULL);
      RingInserted(m0, m1, mem, smallmap, treemap, bins, sb, trie, home, chunk, size, pos);
      RingPlanted(bins, trie, pos, chunk, size);
      trie, home, bins := trie[pos := RingOf(trie, pos) + [chunk]], home[chunk := pos], bins[chunk := size];
    }

    /** `insert_large_chunk` */
    method InsertLarge(chunk: int, size: int)
      requires Valid() && Binnable(mem, bins, chunk, size) && size >= MIN_LARGE
      modifies this`mem, this`treemap, this`bins, this`trie, this`home
      ensures Valid() && bins == old(bins)[chunk := size] && OnlyLinks(old(mem), mem, bins)
      ensures Planted(old(bins), old(trie), chunk, size, trie)
    {
      hide StoreOk, OnlyLinks, Binnable, Blanked, TreeIndex, Descending, BitAt, Shl, VacantAt, And, SizeAt, At, Planted;
      ghost var m0 := mem;
      LargeWords(mem, smallmap, treemap, bins, sb, trie, home, chunk, size);
      var idx := TreeIndex(size);
      Blank(chunk, size);
      BlankedWords(m0, mem, chunk, idx);
      if And(treemap, Pow2(idx)) == 0 {
        EnterRoot(chunk, size, idx, m0);
      } else {
        var t, same, turn;
        ghost var pos;
        t, same, turn, pos := Descend(size);
        if !same {
          EnterKid(chunk, size, t, turn, pos, m0);
        } else {
          EnterRing(chunk, size, t, pos, m0);
        }
      }
    }

    /** The inner walk of `unlink_large_chunk`: from `chunk`, right child first, down to a leaf; `rp` is the word that
        points to it. */
    method DeepLeaf(chunk: int, ghost p: Pos) returns (rp: int, ghost leaf: Pos)
      requires Valid() && p in trie && chunk == At(trie, p) && !IsLeaf(trie, p)
      ensures IsLeaf(trie, leaf) && Below(leaf, p) && rp == PointerTo(trie, leaf) && rp in mem
      ensures mem[rp] == At(trie, leaf) > 0 && RightFirst(trie, p, leaf)
    {
      hide StoreOk, At, PointerTo, Below, RightFirst;
      NodeRead(mem, smallmap, treemap, bins, sb, trie, home, p);
      rp := chunk + CHILD1;
      leaf := Kid(p, true);
      if mem[rp] == NULL {
        rp := chunk + CHILD0;
        leaf := Kid(p, false);
      }
      KidPointer(trie, p, Last(leaf));
      KidBelow(p, p, Last(leaf));
      RightFirstKid(trie, p, p, Last(leaf));
      while true
        invariant leaf in trie && Below(leaf, p) && RightFirst(trie, p, leaf)
        invariant rp == PointerTo(trie, leaf) && rp in mem
        invariant mem[rp] == At(trie, leaf)
        decreases Room(leaf)
      {
        NodeRead(mem, smallmap, treemap, bins, sb, trie, home, leaf);
        var cp := mem[rp] + CHILD1;
        ghost var next := Kid(leaf, true);
        if mem[cp] == NULL {
          cp := mem[rp] + CHILD0;
          next := Kid(leaf, false);
        }
        if mem[cp] == NULL { break; }
        KidPointer(trie, leaf, Last(next));
        KidBelow(leaf, p, Last(next));
        RightFirstKid(trie, p, leaf, Last(next));
        RoomShrinks(mem, smallmap, treemap, bins, sb, trie, home, leaf, next);
        rp := cp;
        leaf := next;
      }
      NodeRead(mem, smallmap, treemap, bins, sb, trie, home, leaf);
    }

    /** In `unlink_large_chunk`: the word that points to `chunk`, in its slot or its parent, gets `r`. */
    method Repoint(chunk: int, xp: int, r: int, ghost forest: Trie, ghost p: Pos)
      requires PointerReady(mem, forest, p, chunk, xp) && treemap < MAP_LIMIT
      modifies this`mem, this`treemap
      ensures PointerTo(forest, p) in old(mem) && mem == old(mem)[PointerTo(forest, p) := r]
      ensures treemap == if p.path == [] && r == NULL then ClearBit(old(treemap), p.bin) else old(treemap)
    {
      var h := Slot(mem[chunk + INDEX]);
      if chunk == mem[h] {
        Write(h, r);
        if r == NULL { treemap := ClearBit(treemap, mem[chunk + INDEX]); }
      } else {
        if mem[xp + CHILD0] == chunk {
          Write(xp + CHILD0, r);
        } else {
          Write(xp + CHILD1, r);
        }
      }
    }

    /** The last part of `unlink_large_chunk`: `r`, possibly null, takes the tree links of `chunk`. */
    method Relink(chunk: int, xp: int, r: int, ghost forest: Trie, ghost p: Pos)
      requires PointerReady(mem, forest, p, chunk, xp) && (r != NULL ==> LinksReady(mem, forest, p, chunk, xp, r))
      requires treemap < MAP_LIMIT
      modifies this`mem, this`treemap
      ensures mem.Keys == old(mem).Keys
      ensures r != NULL ==> HandoverWritten(old(mem), mem, forest, p, r)
      ensures r == NULL ==> DetachWritten(old(mem), mem, forest, p)
      ensures treemap == if p.path == [] && r == NULL then ClearBit(old(treemap), p.bin) else old(treemap)
    {
      hide PointerReady, LinksReady, HandoverWritten;
      ghost var m0 := mem;
      Repoint(chunk, xp, r, forest, p);
      if r != NULL {
        TakeLinks(chunk, xp, r, m0, forest, p);
      }
    }

    /** `r` gets the parent and the children of `chunk`, and they get `r`. */
    method TakeLinks(chunk: int, xp: int, r: int, ghost m0: Mem, ghost forest: Trie, ghost p: Pos)
      requires PointerReady(m0, forest, p, chunk, xp) && LinksReady(m0, forest, p, chunk, xp, r) && r != NULL
      requires PointerTo(forest, p) in m0 && mem == m0[PointerTo(forest, p) := r]
      modifies this`mem
      ensures mem.Keys == m0.Keys && HandoverWritten(m0, mem, forest, p, r)
    {
      hide PointerReady, HandoverWritten, LinksReady, At, ParentOf, PointerTo;
      LinksRead(m0, mem, forest, p, chunk, xp, r);
      Write(r + PARENT, xp);
      var c0 := mem[chunk + CHILD0];
      TakeChild(r, c0, CHILD0);
      LinksReadOn(m0, mem, forest, p, chunk, xp, r);
      var c1 := mem[chunk + CHILD1];
      TakeChild(r, c1, CHILD1);
      RelinkHandover(m0, mem, forest, p, chunk, xp, r);
    }

    method TakeChild(r: int, c: int, w: int)
      requires r + w in mem && (c != NULL ==> c + PARENT in mem)
      modifies this`mem
      ensures mem == if c == NULL then old(mem) else old(mem)[r + w := c][c + PARENT := r]
      ensures mem.Keys == old(mem).Keys
    {
      if c != NULL {
        Write(r + w, c);
        Write(c + PARENT, r);
      }
    }

    /** `unlink_large_chunk` for a chunk with others of its size: it leaves the ring; if it was the tree node,
        the next of the ring takes its place. */
    method UnlinkRinged(chunk: int, ghost p: Pos, ghost k: int)
      requires Valid() && MemberAt(mem, bins, trie, p, k, chunk) && |RingOf(trie, p)| >= 2
      modifies this`mem, this`treemap, this`bins, this`trie, this`home
      ensures Valid() && bins == old(bins) - {chunk} && OnlyLinks(old(mem), mem, old(bins))
      ensures Pulled(old(trie), chunk, trie)
    {
      hide StoreOk, OnlyLinks, DropWritten, HandoverWritten, PointerReady, LinksReady, Without;
      ghost var m0, map0 := mem, treemap;
      var xp := mem[chunk + PARENT];
      var f := mem[chunk + PREV];
      var r := mem[chunk + NEXT];
      Write(f + NEXT, r);
      Write(r + PREV, f);
      DropImage(m0, mem, smallmap, treemap, bins, sb, trie, home, p, k, chunk);
      ghost var m1 := mem;
      if xp == NULL {
        FollowerRemoved(m0, mem, smallmap, treemap, bins, sb, trie, home, p, k, chunk);
      } else {
        HeadReady(m0, mem, smallmap, treemap, bins, sb, trie, home, p, chunk);
        Relink(chunk, xp, r, trie, p);
        HeadRemoved(m0, m1, mem, smallmap, treemap, bins, sb, trie, home, p, chunk);
      }
      assert PulledAt(trie, p, k, chunk, trie[p := Without(RingOf(trie, p), k)]);
      trie, home, bins := trie[p := Without(RingOf(trie, p), k)], home - {chunk}, bins - {chunk};
    }

    /** `unlink_large_chunk` for the only chunk of its size: a leaf below it takes its place, if there is one. */
    method UnlinkLone(chunk: int, ghost p: Pos)
      requires Valid() && MemberAt(mem, bins, trie, p, 0, chunk) && |RingOf(trie, p)| == 1
      modifies this`mem, this`treemap, this`bins, this`trie, this`home
      ensures Valid() && bins == old(bins) - {chunk} && OnlyLinks(old(mem), mem, old(bins))
      ensures Pulled(old(trie), chunk, trie)
    {
      hide StoreOk, OnlyLinks, DetachWritten, HandoverWritten, PointerReady, LinksReady, Below, At, PointerTo;
      hide RightFirst;
      ghost var m0, map0 := mem, treemap;
      NodeRead(mem, smallmap, treemap, bins, sb, trie, home, p);
      LoneRead(mem, smallmap, treemap, bins, sb, trie, home, p, chunk);
      var xp := mem[chunk + PARENT];
      if mem[chunk + CHILD1] == NULL && mem[chunk + CHILD0] == NULL {
        LeafReady(mem, smallmap, treemap, bins, sb, trie, home, p, chunk);
        Relink(chunk, xp, NULL, trie, p);
        LeafRemoved(m0, mem, smallmap, map0, treemap, bins, sb, trie, home, p, chunk);
        assert PulledAt(trie, p, 0, chunk, trie - {p});
        trie, home, bins := trie - {p}, home - {chunk}, bins - {chunk};
      } else {
        var rp;
        ghost var leaf;
        rp, leaf := DeepLeaf(chunk, p);
        var r := mem[rp];
        Write(rp, NULL);
        ghost var m1 := mem;
        RaiseReady(m0, m1, smallmap, treemap, bins, sb, trie, home, p, chunk, leaf);
        Relink(chunk, xp, r, trie - {leaf}, p);
        RaiseRemoved(m0, m1, mem, smallmap, treemap, bins, sb, trie, home, p, chunk, leaf);
        assert PulledAt(trie, p, 0, chunk, (trie - {leaf})[p := RingOf(trie, leaf)]);
        trie, home, bins := (trie - {leaf})[p := RingOf(trie, leaf)], Rehome(home, chunk, leaf, p), bins - {chunk};
      }
    }

    /** `unlink_large_chunk` */
    method UnlinkLarge(chunk: int)
      requires Valid() && chunk in bins && bins[chunk] >= MIN_LARGE
      modifies this`mem, this`treemap, this`bins, this`trie, this`home
      ensures Valid() && bins == old(bins) - {chunk} && OnlyLinks(old(mem), mem, old(bins))
      ensures Pulled(old(trie), chunk, trie)
    {
      hide StoreOk, OnlyLinks;
      ghost var p, k := MemberRead(mem, smallmap, treemap, bins, sb, trie, home, chunk);
      if mem[chunk + NEXT] != chunk {
        UnlinkRinged(chunk, p, k);
      } else {
        UnlinkLone(chunk, p);
      }
    }

    // -------------------------------------------------------------- best fit

    /** The first loop of `tmalloc_large`: follow the bits of `size` from the root of its bin, remembering the
        best chunk seen and the deepest right subtree not taken. */
    method SearchPath(size: int) returns (v: int, rsize: int, t: int, ghost vp: Spot, ghost s: Spot)
      requires Valid() && MIN_LARGE <= size < WORD && BitAt(treemap, TreeIndex(size))
      ensures Winner(bins, trie, size, TreeIndex(size), v, rsize, vp)
      ensures Remaining(bins, trie, size, TreeIndex(size), rsize, t, s)
    {
      hide StoreOk, TreeIndex, BitAt, Shl, Walking, Searching, Winner, AtSpot, Remaining, Seeking, ForksOff, TopBit;
      hide LeftShift, Pow2, SizeOf, NextRst;
      ghost var bin := TreeIndex(size);
      ghost var pos := Pos(bin, []);
      ghost var rs := Nowhere;
      v, rsize, vp := NULL, WORD - size, Nowhere;
      SeekStart(mem, smallmap, treemap, bins, sb, trie, home, size);
      t := mem[Slot(TreeIndex(size))];
      var sizebits: nat := Shl(64, size, LeftShift(TreeIndex(size)));
      var rst := NULL;
      while true
        invariant bin < 32 && pos in trie && pos.bin == bin && t == At(trie, pos) && rst == AtSpot(trie, rs)
        invariant Winner(bins, trie, size, bin, v, rsize, vp) && rsize > 0
        invariant Seeking(bins, trie, size, rsize, pos, rs, sizebits)
        invariant |pos.path| <= TopBit(bin) + 1
        decreases TopBit(bin) + 1 - |pos.path|
      {
        NodeRead(mem, smallmap, treemap, bins, sb, trie, home, pos);
        ghost var rsize0 := rsize;
        var csize := SizeOf(mem[t + HEAD]);
        SeekBetter(bins, trie, size, bin, v, rsize, vp, pos);
        if csize >= size && csize - size < rsize {
          v, vp := t, There(pos);
          rsize := csize - size;
          if rsize == 0 {
            s := There(pos);
            ExactRemaining(bins, trie, size, bin, t, pos);
            return;
          }
        }
        SeekStep(mem, smallmap, treemap, bins, sb, trie, home, size, rsize0, pos, rs, sizebits);
        var turn := BitAt(sizebits, 63);
        var rt := mem[t + CHILD1];
        t := mem[t + ChildWord(turn)];
        if rt != NULL && rt != t { rst := rt; }
        rs := NextRst(trie, pos, turn, rs);
        if t == NULL {
          t := rst;
          s := rs;
          return;
        }
        sizebits := (2 * sizebits) % Pow2(64);
        pos := Kid(pos, turn);
      }
    }

    /** The last loop of `tmalloc_large`: down the leftmost path of a tree or subtree. */
    method LeftmostPath(t0: int, size: int, v0: int, rsize0: int, ghost bin: nat, ghost vp0: Spot, ghost s0: Spot)
      returns (v: int, rsize: int, ghost vp: Spot)
      requires Valid() && Winner(bins, trie, size, bin, v0, rsize0, vp0)
      requires Remaining(bins, trie, size, bin, rsize0, t0, s0)
      ensures Winner(bins, trie, size, bin, v, rsize, vp) && Remaining(bins, trie, size, bin, rsize, NULL, Nowhere)
      ensures v0 != NULL ==> v != NULL
    {
      hide StoreOk, Winner, Remaining, Spots, Room;
      v, rsize, vp := v0, rsize0, vp0;
      var t := t0;
      ghost var s := s0;
      RemainingRead(mem, smallmap, treemap, bins, sb, trie, home, size, bin, rsize, t, s);
      while t != NULL
        invariant Winner(bins, trie, size, bin, v, rsize, vp) && Remaining(bins, trie, size, bin, rsize, t, s)
        invariant t != NULL ==> s.There? && s.pos in trie && t == At(trie, s.pos)
        invariant t == NULL ==> s == Nowhere
        invariant v0 != NULL ==> v != NULL
        decreases Spots(s)
      {
        ghost var pos := s.pos;
        NodeRead(mem, smallmap, treemap, bins, sb, trie, home, pos);
        var csize := SizeOf(mem[t + HEAD]);
        LeftRead(mem, smallmap, treemap, bins, sb, trie, home, size, bin, v, rsize, vp, t, pos);
        if csize >= size && csize - size < rsize {
          rsize := csize - size;
          v, vp := t, There(pos);
        }
        t := if mem[t + CHILD0] == NULL then mem[t + CHILD1] else mem[t + CHILD0];
        s := LeftmostKid(trie, pos);
        RemainingRead(mem, smallmap, treemap, bins, sb, trie, home, size, bin, rsize, t, s);
      }
    }

    /** The search of `tmalloc_large`: a best fit among all tree-binned chunks, or null if none fits. */
    method SearchLarge(size: int) returns (v: int, rsize: int)
      requires Valid() && MIN_LARGE <= size < WORD
      ensures v == NULL ==> NoFit(bins, size)
      ensures v != NULL ==> BestFit(bins, size, v) && rsize == bins[v] - size && Chooses(v)
    {
      hide StoreOk, TreeIndex, BitAt, Winner, Remaining, NoFit, BestFit, LeftBits, LeastBit, And, TrailingZeros;
      hide EmptyBelow;
      var idx := TreeIndex(size);
      ghost var bin, vp, s := idx, Nowhere, Nowhere;
      v, rsize := NULL, WORD - size;
      BinStart(mem, smallmap, treemap, bins, sb, trie, home, size);
      var t := mem[Slot(idx)];
      if t != NULL {
        v, rsize, t, vp, s := SearchPath(size);
      }
      if t == NULL && v == NULL {
        BinExhausted(mem, smallmap, treemap, bins, sb, trie, home, size, rsize, vp, s);
        var leftbits := And(LeftBits(32, Pow2(idx)), treemap);
        if leftbits != 0 {
          NextBin(mem, smallmap, treemap, bins, sb, trie, home, size);
          var i := TrailingZeros(LeastBit(32, leftbits));
          t := mem[Slot(i)];
          bin, vp, s := i, Nowhere, There(Pos(i, []));
          RootRead(mem, smallmap, treemap, bins, sb, trie, home, i);
        } else {
          NoNextBin(mem, smallmap, treemap, bins, sb, trie, home, size);
          return;
        }
      }
      ghost var v0, r0, vp0 := v, rsize, vp;
      v, rsize, vp := LeftmostPath(t, size, v, rsize, bin, vp, s);
      LargeFound(mem, smallmap, treemap, bins, sb, trie, home, size, bin, v0, r0, vp0, t, s, v, rsize, vp);
    }

    /** The search of `tmalloc_small`: the smallest tree-binned chunk, down the leftmost path of the lowest tree. */
    method SearchSmallest(size: int) returns (v: int, rsize: int)
      requires Valid() && 0 <= size < MIN_LARGE && treemap != 0
      ensures BestFit(bins, size, v) && rsize == bins[v] - size && Chooses(v)
    {
      hide StoreOk, BitAt, Winner, Remaining, LeastBit, TrailingZeros, BestFit, Spots, SizeAt, Pow2;
      LowestBin(mem, smallmap, treemap, bins, sb, trie, home, size);
      var i := TrailingZeros(LeastBit(32, treemap));
      v := mem[Slot(i)];
      var t := v;
      ghost var pos, vp := Pos(i, []), There(Pos(i, []));
      NodeRead(mem, smallmap, treemap, bins, sb, trie, home, pos);
      rsize := SizeOf(mem[t + HEAD]) - size;
      while true
        invariant pos in trie && t == At(trie, pos)
        invariant v != NULL && Winner(bins, trie, size, i, v, rsize, vp)
        invariant Remaining(bins, trie, size, i, rsize, AtSpot(trie, LeftmostKid(trie, pos)), LeftmostKid(trie, pos))
        decreases Room(pos)
      {
        NodeRead(mem, smallmap, treemap, bins, sb, trie, home, pos);
        t := if mem[t + CHILD0] == NULL then mem[t + CHILD1] else mem[t + CHILD0];
        ghost var s := LeftmostKid(trie, pos);
        RemainingRead(mem, smallmap, treemap, bins, sb, trie, home, size, i, rsize, t, s);
        if t == NULL { break; }
        ghost var kid := s.pos;
        NodeRead(mem, smallmap, treemap, bins, sb, trie, home, kid);
        LeftRead(mem, smallmap, treemap, bins, sb, trie, home, size, i, v, rsize, vp, t, kid);
        KidRoom(mem, smallmap, treemap, bins, sb, trie, home, pos, kid);
        assert MIN_LARGE <= SizeAt(bins, trie, kid);
        var trem := SizeOf(mem[t + HEAD]) - size;
        if trem < rsize {
          rsize := trem;
          v, vp := t, There(kid);
        }
        pos := kid;
      }
      SmallestFound(mem, smallmap, treemap, bins, sb, trie, home, size, i, v, rsize, vp);
    }

    // -------------------------------------------------------------- either kind

    /** `insert_chunk` */
    method Insert(chunk: int, size: int)
      requires Valid() && Binnable(mem, bins, chunk, size)
      modifies this
      ensures Valid() && bins == old(bins)[chunk := size] && OnlyLinks(old(mem), mem, bins)
    {
      BinnableFacts(mem, bins, chunk, size);
      hide StoreOk, OnlyLinks, Binnable;
      if IsSmall(size) {
        InsertSmall(chunk, size);
      } else {
        InsertLarge(chunk, size);
      }
    }

    /** `unlink_chunk` */
    method Unlink(chunk: int, size: int)
      requires Valid() && chunk in bins && bins[chunk] == size >= 0
      modifies this
      ensures Valid() && bins == old(bins) - {chunk} && OnlyLinks(old(mem), mem, old(bins))
    {
      hide StoreOk, OnlyLinks;
      if IsSmall(size) {
        UnlinkSmall(chunk, size);
      } else {
        UnlinkLarge(chunk);
      }
    }
  }
}
