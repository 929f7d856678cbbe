/** Best fit in the tree bins: why one search path plus one leftmost path is enough. */
module TrieSearch {
  import opened Bits
  import opened Sizes
  import opened Rings
  import opened Tries

  function SizeAt(bins: map<int, int>, trie: Trie, p: Pos): int
  {
    if p in trie && |trie[p]| > 0 && trie[p][0] in bins then bins[trie[p][0]] else 0
  }

  /** `q` is at `p` or below it. */
  ghost predicate Under(q: Pos, p: Pos) { q.bin == p.bin && p.path <= q.path }

  /** Positions exist up to the root. */
  lemma {:induction false} Ancestors(bins: map<int, int>, trie: Trie, home: map<int, Pos>, q: Pos, k: nat)
    requires ForestOk(bins, trie, home) && q in trie && k <= |q.path|
    ensures Pos(q.bin, q.path[..k]) in trie
    decreases |q.path|
  {
    if k == |q.path| {
      assert q.path[..k] == q.path;
    } else {
      assert Shaped(bins, trie, q);
      Ancestors(bins, trie, home, Up(q), k);
      assert Up(q).path[..k] == q.path[..k];
    }
  }

  /** Below a vacant child there is nothing. */
  lemma NothingUnder(bins: map<int, int>, trie: Trie, home: map<int, Pos>, p: Pos, q: Pos)
    requires ForestOk(bins, trie, home) && p !in trie && q in trie
    ensures !Under(q, p)
  {
    if Under(q, p) {
      assert q.path[..|p.path|] == p.path;
      Ancestors(bins, trie, home, q, |p.path|);
    }
  }

  lemma NodeFacts(bins: map<int, int>, trie: Trie, home: map<int, Pos>, q: Pos)
    requires ForestOk(bins, trie, home) && q in trie
    ensures q.bin < 32 && MIN_LARGE <= SizeAt(bins, trie, q) < WORD && TreeIndex(SizeAt(bins, trie, q)) == q.bin
    ensures OnPath(SizeAt(bins, trie, q), TopBit(q.bin), q.path)
  {
    assert Shaped(bins, trie, q);
  }

  lemma OnPrefix(s: nat, t: nat, path: seq<bool>, shorter: seq<bool>)
    requires OnPath(s, t, path) && shorter <= path
    ensures OnPath(s, t, shorter)
  {
    forall k | 0 <= k < |shorter|
      ensures shorter[k] == BitAt(s, t - k)
    {
      assert shorter[k] == path[k];
    }
  }

  /** A word-sized size of bin `bin` on the left of a fork is below one on the right. */
  lemma Fork(a: nat, b: nat, bin: nat, path: seq<bool>, pa: seq<bool>, pb: seq<bool>)
    requires MIN_LARGE <= a < WORD && MIN_LARGE <= b < WORD && bin < 32 && TreeIndex(a) == bin && TreeIndex(b) == bin
    requires OnPath(a, TopBit(bin), pa) && path + [false] <= pa
    requires OnPath(b, TopBit(bin), pb) && path + [true] <= pb
    ensures a < b
  {
    SameBinPrefix(a, b);
    OnPrefix(a, TopBit(bin), pa, path + [false]);
    OnPrefix(b, TopBit(bin), pb, path + [true]);
    LeftBelowRight(a, b, TopBit(bin), path);
  }

  /** A request of bin `bin` searching for a fit. */
  ghost predicate Request(size: int, bin: nat) { MIN_LARGE <= size < WORD && bin < 32 && TreeIndex(size) == bin }

  datatype Spot = Nowhere | There(pos: Pos)

  function AtSpot(trie: Trie, s: Spot): int { if s.Nowhere? then NULL else At(trie, s.pos) }

  /** Everything under `s` that remains to be looked at, together with what is beaten by the node at `s`. */
  ghost predicate Pending(bins: map<int, int>, trie: Trie, s: Spot, q: Pos)
  {
    s.There? && s.pos.bin == q.bin && (Under(q, s.pos) || SizeAt(bins, trie, q) > SizeAt(bins, trie, s.pos))
  }

  /** While searching: a chunk of the bin that fits is no better than the best seen, or is at or below the
      current node, or is pending at the deepest right subtree not taken. */
  ghost predicate Searched(bins: map<int, int>, trie: Trie, size: int, best: int, p: Spot, rst: Spot, q: Pos)
  {
    SizeAt(bins, trie, q) >= size ==>
      SizeAt(bins, trie, q) >= best || (p.There? && Under(q, p.pos)) || Pending(bins, trie, rst, q)
  }

  ghost predicate Searching(bins: map<int, int>, trie: Trie, size: int, bin: nat, best: int, p: Spot, rst: Spot)
  {
    forall q {:trigger Searched(bins, trie, size, best, p, rst, q)} ::
      q in trie && q.bin == bin ==> Searched(bins, trie, size, best, p, rst, q)
  }

  /** The remembered right subtree forks off the search path, on the side of larger sizes. */
  ghost predicate ForksOff(trie: Trie, bin: nat, path: seq<bool>, rst: Spot)
  {
    rst.There? ==>
      && rst.pos in trie && rst.pos.bin == bin && rst.pos.path != [] && Last(rst.pos)
      && Up(rst.pos).path + [false] <= path
  }

  /** The position of the search. */
  ghost predicate Walking(trie: Trie, size: int, p: Pos, rst: Spot)
  {
    && Request(size, p.bin) && p in trie && OnPath(size, TopBit(p.bin), p.path)
    && ForksOff(trie, p.bin, p.path, rst)
  }

  function Better(best: int, csize: int, size: int): int
  {
    if csize >= size && csize < best then csize else best
  }

  lemma NextStep(s: nat, t: nat, path: seq<bool>)
    requires OnPath(s, t, path) && |path| <= t
    ensures OnPath(s, t, path + [BitAt(s, t - |path|)])
  {
  }

  /** The next remembered subtree: the right child if the turn is left and it exists. */
  function NextRst(trie: Trie, p: Pos, turn: bool, rst: Spot): Spot
  {
    if !turn && Kid(p, true) in trie then There(Kid(p, true)) else rst
  }

  lemma StepForks(trie: Trie, p: Pos, turn: bool, rst: Spot)
    requires ForksOff(trie, p.bin, p.path, rst)
    ensures ForksOff(trie, p.bin, p.path + [turn], NextRst(trie, p, turn, rst))
  {
    KidUp(p, true);
    if NextRst(trie, p, turn, rst) == rst && rst.There? {
      assert Up(rst.pos).path + [false] <= p.path <= p.path + [turn];
    }
  }

  /** One turn of the search: what is at `p` is seen, the side not taken is too small or remembered. */
  lemma StepOne(bins: map<int, int>, trie: Trie, home: map<int, Pos>, size: int, best: int, p: Pos, rst: Spot,
      turn: bool, q: Pos)
    requires ForestOk(bins, trie, home) && Walking(trie, size, p, rst)
    requires |p.path| <= TopBit(p.bin) && turn == BitAt(size, TopBit(p.bin) - |p.path|)
    requires q in trie && q.bin == p.bin && Under(q, p)
    ensures Searched(bins, trie, size, Better(best, SizeAt(bins, trie, p), size), There(Kid(p, turn)),
                NextRst(trie, p, turn, rst), q)
  {
    hide ForestOk, TreeIndex, TopBit, OnPath;
    NodeFacts(bins, trie, home, q);
    NextStep(size, TopBit(p.bin), p.path);
    if q.path != p.path && SizeAt(bins, trie, q) >= size {
      var x := q.path[|p.path|];
      assert p.path + [x] <= q.path;
      if x != turn {
        if turn {
          Fork(SizeAt(bins, trie, q), size, p.bin, p.path, q.path, p.path + [turn]);
        } else {
          Ancestors(bins, trie, home, q, |p.path| + 1);
          assert q.path[..|p.path| + 1] == p.path + [true];
        }
      }
    } else if q.path == p.path {
      assert q == p;
    }
  }

  /** What was pending at the old right subtree is beaten by the new one. */
  lemma StepPending(bins: map<int, int>, trie: Trie, home: map<int, Pos>, size: int, p: Pos, rst: Spot, turn: bool,
      q: Pos)
    requires ForestOk(bins, trie, home) && Walking(trie, size, p, rst)
    requires q in trie && q.bin == p.bin && Pending(bins, trie, rst, q)
    ensures Pending(bins, trie, NextRst(trie, p, turn, rst), q)
  {
    if NextRst(trie, p, turn, rst) != rst {
      var k := Kid(p, true);
      var up := Up(rst.pos).path;
      NodeFacts(bins, trie, home, k);
      NodeFacts(bins, trie, home, q);
      NodeFacts(bins, trie, home, rst.pos);
      UpKid(rst.pos);
      assert up + [false] <= p.path <= k.path;
      assert rst.pos.path == up + [true];
      Fork(SizeAt(bins, trie, k), SizeAt(bins, trie, rst.pos), p.bin, up, k.path, rst.pos.path);
      if Under(q, rst.pos) {
        Fork(SizeAt(bins, trie, k), SizeAt(bins, trie, q), p.bin, up, k.path, q.path);
      }
    }
  }

  /** One turn of the search keeps the search invariant. */
  lemma SearchStep(bins: map<int, int>, trie: Trie, home: map<int, Pos>, size: int, best: int, p: Pos, rst: Spot,
      turn: bool)
    requires ForestOk(bins, trie, home) && Walking(trie, size, p, rst)
    requires Searching(bins, trie, size, p.bin, best, There(p), rst)
    requires |p.path| <= TopBit(p.bin) && turn == BitAt(size, TopBit(p.bin) - |p.path|)
    ensures Searching(bins, trie, size, p.bin, Better(best, SizeAt(bins, trie, p), size), There(Kid(p, turn)),
        NextRst(trie, p, turn, rst))
    ensures OnPath(size, TopBit(p.bin), Kid(p, turn).path)
    ensures ForksOff(trie, p.bin, Kid(p, turn).path, NextRst(trie, p, turn, rst))
  {
    NextStep(size, TopBit(p.bin), p.path);
    StepForks(trie, p, turn, rst);
    var better := Better(best, SizeAt(bins, trie, p), size);
    forall q | q in trie && q.bin == p.bin
      ensures Searched(bins, trie, size, better, There(Kid(p, turn)), NextRst(trie, p, turn, rst), q)
    {
      assert Searched(bins, trie, size, best, There(p), rst, q);
      if Under(q, p) {
        StepOne(bins, trie, home, size, best, p, rst, turn, q);
      } else if Pending(bins, trie, rst, q) {
        StepPending(bins, trie, home, size, p, rst, turn, q);
      }
    }
  }

  /** The search ends below the last node: only the remembered subtree is left. */
  lemma SearchEnds(bins: map<int, int>, trie: Trie, home: map<int, Pos>, size: int, best: int, p: Pos, rst: Spot)
    requires ForestOk(bins, trie, home) && p !in trie
    requires Searching(bins, trie, size, p.bin, best, There(p), rst)
    ensures Searching(bins, trie, size, p.bin, best, Nowhere, rst)
  {
    forall q | q in trie && q.bin == p.bin
      ensures Searched(bins, trie, size, best, Nowhere, rst, q)
    {
      assert Searched(bins, trie, size, best, There(p), rst, q);
      NothingUnder(bins, trie, home, p, q);
    }
  }

  // ---------------------------------------------------------------- the leftmost path

  /** Everything at or below `s` is large enough. */
  ghost predicate Fits(bins: map<int, int>, trie: Trie, size: int, s: Spot)
  {
    s.There? ==> forall q :: q in trie && Under(q, s.pos) ==> SizeAt(bins, trie, q) >= size
  }

  lemma RstFits(bins: map<int, int>, trie: Trie, home: map<int, Pos>, size: int, bin: nat, path: seq<bool>, rst: Spot)
    requires ForestOk(bins, trie, home) && Request(size, bin) && OnPath(size, TopBit(bin), path)
    requires ForksOff(trie, bin, path, rst)
    ensures Fits(bins, trie, size, rst)
  {
    if rst.There? {
      var up := Up(rst.pos).path;
      UpKid(rst.pos);
      forall q | q in trie && Under(q, rst.pos)
        ensures SizeAt(bins, trie, q) >= size
      {
        NodeFacts(bins, trie, home, q);
        assert up + [true] <= q.path;
        Fork(size, SizeAt(bins, trie, q), bin, up, path, q.path);
      }
    }
  }

  /** `leftmost_child` */
  function LeftmostKid(trie: Trie, p: Pos): Spot
  {
    if Kid(p, false) in trie then There(Kid(p, false))
    else if Kid(p, true) in trie then There(Kid(p, true))
    else Nowhere
  }

  lemma LeftmostOne(bins: map<int, int>, trie: Trie, home: map<int, Pos>, p: Pos, q: Pos)
    requires ForestOk(bins, trie, home) && p in trie && q in trie && Under(q, p) && q != p
    ensures Pending(bins, trie, LeftmostKid(trie, p), q)
  {
    var x := q.path[|p.path|];
    assert p.path + [x] <= q.path;
    Ancestors(bins, trie, home, q, |p.path| + 1);
    assert q.path[..|p.path| + 1] == p.path + [x];
    if x && Kid(p, false) in trie {
      NodeFacts(bins, trie, home, q);
      NodeFacts(bins, trie, home, Kid(p, false));
      Fork(SizeAt(bins, trie, Kid(p, false)), SizeAt(bins, trie, q), p.bin, p.path, Kid(p, false).path, q.path);
    }
  }

  /** One step down the leftmost path: whatever is skipped is beaten by the node stepped to. */
  lemma LeftmostStep(bins: map<int, int>, trie: Trie, home: map<int, Pos>, size: int, best: int, p: Pos)
    requires ForestOk(bins, trie, home) && p in trie
    requires Searching(bins, trie, size, p.bin, best, Nowhere, There(p))
    requires best <= size || Fits(bins, trie, size, There(p))
    ensures Searching(bins, trie, size, p.bin, Better(best, SizeAt(bins, trie, p), size), Nowhere, LeftmostKid(trie, p))
    ensures Better(best, SizeAt(bins, trie, p), size) <= size || Fits(bins, trie, size, LeftmostKid(trie, p))
  {
    var better := Better(best, SizeAt(bins, trie, p), size);
    forall q | q in trie && q.bin == p.bin
      ensures Searched(bins, trie, size, better, Nowhere, LeftmostKid(trie, p), q)
    {
      assert Searched(bins, trie, size, best, Nowhere, There(p), q);
      if Under(q, p) && q != p { LeftmostOne(bins, trie, home, p, q); }
      assert Under(p, p);
    }
  }

  // ---------------------------------------------------------------- over all bins

  /** `v` is a best fit for `size` among all tree-binned chunks. */
  ghost predicate BestFit(bins: map<int, int>, size: int, v: int)
  {
    && v in bins && MIN_LARGE <= bins[v] && bins[v] >= size
    && (forall a :: a in bins && bins[a] >= MIN_LARGE && bins[a] >= size ==> bins[v] <= bins[a])
  }

  ghost predicate NoFit(bins: map<int, int>, size: int)
  {
    forall a :: a in bins && bins[a] >= MIN_LARGE ==> bins[a] < size
  }

  /** A larger chunk sits in the same bin or a later one. */
  lemma LaterBin(bins: map<int, int>, trie: Trie, home: map<int, Pos>, size: int, q: Pos)
    requires ForestOk(bins, trie, home) && q in trie && MIN_LARGE <= size
    ensures SizeAt(bins, trie, q) >= size ==> q.bin >= TreeIndex(size)
    ensures SizeAt(bins, trie, q) <= size ==> q.bin <= TreeIndex(size)
  {
    NodeFacts(bins, trie, home, q);
    if SizeAt(bins, trie, q) >= size { TreeIndexMono(size, SizeAt(bins, trie, q)); }
    if SizeAt(bins, trie, q) <= size { TreeIndexMono(SizeAt(bins, trie, q), size); }
  }

  /** Every tree-binned chunk has a position, and the size of the node there. */
  lemma HomeSize(bins: map<int, int>, trie: Trie, home: map<int, Pos>, a: int)
    requires ForestOk(bins, trie, home) && a in bins && bins[a] >= MIN_LARGE
    ensures home[a] in trie && SizeAt(bins, trie, home[a]) == bins[a]
  {
    assert Shaped(bins, trie, home[a]);
  }

  /** The best of one bin is the best of all, if no earlier bin fits. */
  lemma BestOfBin(bins: map<int, int>, trie: Trie, home: map<int, Pos>, size: int, p: Pos)
    requires ForestOk(bins, trie, home) && p in trie && SizeAt(bins, trie, p) >= size
    requires Searching(bins, trie, size, p.bin, SizeAt(bins, trie, p), Nowhere, Nowhere)
    requires forall q :: q in trie && q.bin < p.bin ==> SizeAt(bins, trie, q) < size
    ensures BestFit(bins, size, trie[p][0])
  {
    NodeFacts(bins, trie, home, p);
    assert Shaped(bins, trie, p);
    forall a | a in bins && bins[a] >= MIN_LARGE && bins[a] >= size
      ensures SizeAt(bins, trie, p) <= bins[a]
    {
      HomeSize(bins, trie, home, a);
      var q := home[a];
      assert Searched(bins, trie, size, SizeAt(bins, trie, p), Nowhere, Nowhere, q) || q.bin != p.bin;
      LaterBin(bins, trie, home, SizeAt(bins, trie, p), q);
    }
  }

  lemma NothingFits(bins: map<int, int>, trie: Trie, home: map<int, Pos>, size: int)
    requires ForestOk(bins, trie, home)
    requires forall q :: q in trie ==> SizeAt(bins, trie, q) < size
    ensures NoFit(bins, size)
  {
    forall a | a in bins && bins[a] >= MIN_LARGE
      ensures bins[a] < size
    {
      HomeSize(bins, trie, home, a);
    }
  }
}
