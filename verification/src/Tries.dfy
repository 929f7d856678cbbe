/** The tree bins: bitwise tries keyed on chunk size whose nodes are free chunks, with chunks of equal
    size ringed behind the node. The ghost view is a map from trie positions to rings. */
module Tries {
  import opened Bits
  import opened Sizes
  import opened Rings

  const HEAD: int := 8
  const CHILD0: int := 32
  const CHILD1: int := 40
  const PARENT: int := 48
  const INDEX: int := 56
  const NODE_END: int := 64

  /** The address of `treebins[i]`; the allocator's own words lie below address zero. */
  function Slot(i: int): int { -256 + 8 * i }

  function ChildWord(c: bool): int { if c then CHILD1 else CHILD0 }

  /** A place in the forest: a bin and the turns taken from its root. */
  datatype Pos = Pos(bin: nat, path: seq<bool>)

  type Trie = map<Pos, seq<int>>

  function Kid(p: Pos, c: bool): Pos { Pos(p.bin, p.path + [c]) }

  function Up(p: Pos): Pos
    requires p.path != []
  {
    Pos(p.bin, p.path[..|p.path| - 1])
  }

  function Last(p: Pos): bool
    requires p.path != []
  {
    p.path[|p.path| - 1]
  }

  /** The chunk that is the tree node at `p`, or null. */
  function At(trie: Trie, p: Pos): int
  {
    if p in trie && |trie[p]| > 0 then trie[p][0] else NULL
  }

  /** What the `parent` field of the node at `p` holds. */
  function ParentOf(trie: Trie, p: Pos): int
  {
    if p.path == [] then Slot(p.bin) else At(trie, Up(p))
  }

  /** The word that points to the node at `p`. */
  function PointerTo(trie: Trie, p: Pos): int
  {
    if p.path == [] then Slot(p.bin) else At(trie, Up(p)) + ChildWord(Last(p))
  }

  /** The binned chunks by address: aligned, of legal size, pairwise disjoint. */
  ghost predicate BinsOk(bins: map<int, int>)
  {
    && (forall p :: p in bins ==> p > 0 && p % 16 == 0 && MIN_CHUNK <= bins[p] < WORD && bins[p] % 16 == 0)
    && (forall p, q :: p in bins && q in bins && p < q ==> p + bins[p] <= q)
  }

  /** Ring, sizes and order at one position: every chunk of the ring has the one size of the node, and that
      size selects this bin and follows the path of turns from the root. */
  ghost predicate Shaped(bins: map<int, int>, trie: Trie, p: Pos)
    requires p in trie
  {
    var r := trie[p];
    && |r| > 0 && p.bin < 32
    && Spaced(r)
    && r[0] in bins && (forall k :: 0 <= k < |r| ==> r[k] in bins && bins[r[k]] == bins[r[0]])
    && (MIN_LARGE <= bins[r[0]] < WORD && TreeIndex(bins[r[0]]) == p.bin && OnPath(bins[r[0]], TopBit(p.bin), p.path))
    && (p.path != [] ==> Up(p) in trie)
  }

  ghost predicate WordsSame(mem: Mem, mem': Mem, a: int)
  {
    && Get(mem', a + PREV) == Get(mem, a + PREV) && Get(mem', a + NEXT) == Get(mem, a + NEXT)
    && Get(mem', a + CHILD0) == Get(mem, a + CHILD0) && Get(mem', a + CHILD1) == Get(mem, a + CHILD1)
    && Get(mem', a + PARENT) == Get(mem, a + PARENT) && Get(mem', a + INDEX) == Get(mem, a + INDEX)
  }

  /** Writes that miss the link words of `a` leave them alone. */
  lemma WordsUntouched(mem: Mem, mem': Mem, touched: set<int>, a: int)
    requires SameExcept(mem, mem', touched)
    requires forall w :: w in touched ==> w < a + PREV || w >= a + NODE_END
    ensures WordsSame(mem, mem', a)
  {
    assert a + PREV !in touched && a + NEXT !in touched && a + CHILD0 !in touched;
    assert a + CHILD1 !in touched && a + PARENT !in touched && a + INDEX !in touched;
  }

  /** Ring members behind the node carry null tree links; that is how they are told apart. */
  ghost predicate Follower(mem: Mem, a: int)
  {
    Get(mem, a + PARENT) == NULL && Get(mem, a + CHILD0) == NULL && Get(mem, a + CHILD1) == NULL
  }

  /** The memory image of one position. */
  ghost predicate Placed(mem: Mem, trie: Trie, p: Pos)
    requires p in trie
  {
    var r := trie[p];
    && Ring(mem, r)
    && (forall k :: 0 <= k < |r| ==> Get(mem, r[k] + INDEX) == p.bin)
    && (forall k :: 0 < k < |r| ==> Follower(mem, r[k]))
    && Get(mem, r[0] + CHILD0) == At(trie, Kid(p, false))
    && Get(mem, r[0] + CHILD1) == At(trie, Kid(p, true))
    && Get(mem, r[0] + PARENT) == ParentOf(trie, p)
  }

  ghost predicate Homed(bins: map<int, int>, trie: Trie, home: map<int, Pos>)
  {
    && (forall a :: a in bins && bins[a] >= MIN_LARGE ==> a in home && home[a] in trie && a in trie[home[a]])
    && (forall p, k :: p in trie && 0 <= k < |trie[p]| ==> trie[p][k] in home && home[trie[p][k]] == p)
  }

  ghost predicate UniqueSizes(bins: map<int, int>, trie: Trie)
    requires forall p :: p in trie ==> |trie[p]| > 0 && trie[p][0] in bins
  {
    forall p, q :: p in trie && q in trie && bins[trie[p][0]] == bins[trie[q][0]] ==> p == q
  }

  ghost predicate Slots(mem: Mem, trie: Trie)
  {
    forall i :: 0 <= i < 32 ==> Get(mem, Slot(i)) == At(trie, Pos(i, []))
  }

  /** The forest without its memory image. */
  ghost predicate ForestOk(bins: map<int, int>, trie: Trie, home: map<int, Pos>)
  {
    && (forall p {:trigger Shaped(bins, trie, p)} :: p in trie ==> Shaped(bins, trie, p))
    && (forall p :: p in trie ==> |trie[p]| > 0 && trie[p][0] in bins)
    && Homed(bins, trie, home)
    && UniqueSizes(bins, trie)
  }

  ghost predicate TrieOk(mem: Mem, bins: map<int, int>, trie: Trie, home: map<int, Pos>)
  {
    && ForestOk(bins, trie, home)
    && (forall p {:trigger Placed(mem, trie, p)} :: p in trie ==> Placed(mem, trie, p))
    && Slots(mem, trie)
  }

  lemma KidUp(p: Pos, c: bool)
    ensures Kid(p, c).path != [] && Up(Kid(p, c)) == p && Last(Kid(p, c)) == c
  {
  }

  lemma UpKid(p: Pos)
    requires p.path != []
    ensures Kid(Up(p), Last(p)) == p
  {
    assert p.path == p.path[..|p.path| - 1] + [p.path[|p.path| - 1]];
  }

  /** The link words of the chunks at `a` and `b` do not overlap. */
  ghost predicate Away(a: int, b: int) { a + NODE_END <= b || b + NODE_END <= a }

  /** Every member of the ring lies in system memory and away from `b`. */
  ghost predicate Clear(r: seq<int>, b: int)
  {
    forall k :: 0 <= k < |r| ==> r[k] > 0 && Away(r[k], b)
  }

  lemma LargeApart(bins: map<int, int>, a: int, b: int)
    requires BinsOk(bins) && a in bins && b in bins && a != b
    requires bins[a] >= MIN_LARGE && bins[b] >= MIN_LARGE
    ensures a > 0 && b > 0 && Away(a, b)
  {
  }

  lemma MemberSize(bins: map<int, int>, trie: Trie, p: Pos, k: int)
    requires p in trie && Shaped(bins, trie, p) && 0 <= k < |trie[p]|
    ensures trie[p][k] in bins && MIN_LARGE <= bins[trie[p][k]] < WORD
  {
  }

  /** Members of different positions are different chunks far apart. */
  lemma OtherClear(bins: map<int, int>, trie: Trie, home: map<int, Pos>, p: Pos, q: Pos, j: int)
    requires BinsOk(bins) && Homed(bins, trie, home)
    requires p in trie && q in trie && p != q && 0 <= j < |trie[q]|
    requires Shaped(bins, trie, p) && Shaped(bins, trie, q)
    ensures Clear(trie[p], trie[q][j])
  {
    MemberSize(bins, trie, q, j);
    forall k | 0 <= k < |trie[p]|
      ensures trie[p][k] > 0 && Away(trie[p][k], trie[q][j])
    {
      MemberSize(bins, trie, p, k);
      assert home[trie[p][k]] == p && home[trie[q][j]] == q;
      LargeApart(bins, trie[p][k], trie[q][j]);
    }
  }

  /** Different members of a ring lie apart. */
  ghost predicate Scattered(r: seq<int>)
  {
    forall j, k :: 0 <= j < k < |r| ==> Away(r[j], r[k])
  }

  lemma RingScattered(bins: map<int, int>, trie: Trie, p: Pos)
    requires BinsOk(bins) && p in trie && Shaped(bins, trie, p)
    ensures Scattered(trie[p]) && trie[p][0] > 0 && trie[p][|trie[p]| - 1] > 0
  {
    forall j, k | 0 <= j < k < |trie[p]|
      ensures Away(trie[p][j], trie[p][k])
    {
      MemberSize(bins, trie, p, j);
      MemberSize(bins, trie, p, k);
      LargeApart(bins, trie[p][j], trie[p][k]);
    }
  }

  /** A position whose ring did not change keeps its memory image if the node's tree links follow the new forest. */
  lemma PlacedParts(mem: Mem, mem': Mem, trie: Trie, trie': Trie, p: Pos)
    requires p in trie && p in trie' && trie'[p] == trie[p]
    requires Placed(mem, trie, p)
    requires forall k :: 0 < k < |trie[p]| ==> WordsSame(mem, mem', trie[p][k])
    requires var n := trie[p][0];
             && Get(mem', n + PREV) == Get(mem, n + PREV) && Get(mem', n + NEXT) == Get(mem, n + NEXT)
             && Get(mem', n + INDEX) == Get(mem, n + INDEX)
             && Get(mem', n + CHILD0) == At(trie', Kid(p, false)) && Get(mem', n + CHILD1) == At(trie', Kid(p, true))
             && Get(mem', n + PARENT) == ParentOf(trie', p)
    ensures Placed(mem', trie', p)
  {
    var r := trie[p];
    assert forall k :: 0 < k < |r| ==> WordsSame(mem, mem', r[k]);
    RingFrame(mem, mem', r);
    forall k | 0 < k < |r|
      ensures Follower(mem', r[k])
    {
      assert Follower(mem, r[k]) && WordsSame(mem, mem', r[k]);
    }
  }

  /** A position whose ring, neighbours and words did not change keeps its memory image. */
  lemma PlacedFrame(mem: Mem, mem': Mem, trie: Trie, trie': Trie, p: Pos)
    requires p in trie && p in trie' && trie'[p] == trie[p]
    requires Placed(mem, trie, p)
    requires forall k :: 0 <= k < |trie[p]| ==> WordsSame(mem, mem', trie[p][k])
    requires At(trie', Kid(p, false)) == At(trie, Kid(p, false))
    requires At(trie', Kid(p, true)) == At(trie, Kid(p, true))
    requires ParentOf(trie', p) == ParentOf(trie, p)
    ensures Placed(mem', trie', p)
  {
    assert WordsSame(mem, mem', trie[p][0]);
    PlacedParts(mem, mem', trie, trie', p);
  }

  /** Every written word is one of the allocator's own or a link word of one of the chunks `chunks`. */
  ghost predicate Within(touched: set<int>, chunks: set<int>)
  {
    forall w :: w in touched ==> w < 0 || exists b :: b in chunks && b + PREV <= w < b + NODE_END
  }

  /** Writes within other chunks leave a position in place as long as its neighbours stay. */
  lemma OthersFrame(mem: Mem, mem': Mem, trie: Trie, trie': Trie, p: Pos, touched: set<int>, chunks: set<int>)
    requires p in trie && p in trie' && trie'[p] == trie[p] && Placed(mem, trie, p)
    requires SameExcept(mem, mem', touched) && Within(touched, chunks)
    requires forall b :: b in chunks ==> Clear(trie[p], b)
    requires forall k :: 0 <= k < |trie[p]| ==> trie[p][k] > 0
    requires At(trie', Kid(p, false)) == At(trie, Kid(p, false))
    requires At(trie', Kid(p, true)) == At(trie, Kid(p, true))
    requires ParentOf(trie', p) == ParentOf(trie, p)
    ensures Placed(mem', trie', p)
  {
    forall k | 0 <= k < |trie[p]|
      ensures WordsSame(mem, mem', trie[p][k])
    {
      ClearWords(mem, mem', trie[p], k, touched, chunks);
    }
    PlacedFrame(mem, mem', trie, trie', p);
  }

  lemma ClearWords(mem: Mem, mem': Mem, r: seq<int>, k: int, touched: set<int>, chunks: set<int>)
    requires SameExcept(mem, mem', touched) && Within(touched, chunks)
    requires 0 <= k < |r| && r[k] > 0
    requires forall b :: b in chunks ==> Away(r[k], b)
    ensures WordsSame(mem, mem', r[k])
  {
    forall w | w in touched
      ensures w < r[k] + PREV || w >= r[k] + NODE_END
    {
      if w >= 0 {
        var b :| b in chunks && b + PREV <= w < b + NODE_END;
        assert Away(r[k], b);
      }
    }
    WordsUntouched(mem, mem', touched, r[k]);
  }

  /** Followers of the ring lie away from every chunk of `chunks`. */
  ghost predicate FollowersAway(r: seq<int>, chunks: set<int>)
  {
    forall k, b :: 0 < k < |r| && b in chunks ==> r[k] > 0 && Away(r[k], b)
  }

  /** A position whose followers were not written and whose node got the tree links of the new forest. */
  lemma Relinked(mem: Mem, mem': Mem, trie: Trie, trie': Trie, p: Pos, touched: set<int>, chunks: set<int>)
    requires p in trie && p in trie' && trie'[p] == trie[p] && Placed(mem, trie, p)
    requires SameExcept(mem, mem', touched) && Within(touched, chunks)
    requires FollowersAway(trie[p], chunks) && forall k :: 0 < k < |trie[p]| ==> trie[p][k] > 0
    requires var n := trie[p][0]; n + PREV !in touched && n + NEXT !in touched && n + INDEX !in touched
    requires var n := trie[p][0];
             && Get(mem', n + CHILD0) == At(trie', Kid(p, false)) && Get(mem', n + CHILD1) == At(trie', Kid(p, true))
             && Get(mem', n + PARENT) == ParentOf(trie', p)
    ensures Placed(mem', trie', p)
  {
    forall k | 0 < k < |trie[p]|
      ensures WordsSame(mem, mem', trie[p][k])
    {
      assert forall b :: b in chunks ==> Away(trie[p][k], b);
      ClearWords(mem, mem', trie[p], k, touched, chunks);
    }
    PlacedParts(mem, mem', trie, trie', p);
  }
}
