/** Removal from a tree bin, `unlink_large_chunk`, on the ghost forest: a follower leaves its ring; a node
    gives its place to the next of its ring, or to a leaf below it, or to nobody. */
module TrieRemove {
  import opened Bits
  import opened Sizes
  import opened Rings
  import opened Tries

  // ---------------------------------------------------------------- detaching a leaf

  ghost predicate IsLeaf(trie: Trie, p: Pos)
  {
    p in trie && Kid(p, false) !in trie && Kid(p, true) !in trie
  }

  /** A ring that hangs nowhere: followers behind a head without children. */
  ghost predicate Detached(mem: Mem, r: seq<int>, bin: int)
  {
    && Ring(mem, r)
    && (forall k :: 0 <= k < |r| ==> Get(mem, r[k] + INDEX) == bin)
    && (forall k :: 0 < k < |r| ==> Follower(mem, r[k]))
    && Get(mem, r[0] + CHILD0) == NULL && Get(mem, r[0] + CHILD1) == NULL
  }

  ghost predicate DetachWritten(mem: Mem, mem': Mem, trie: Trie, leaf: Pos)
  {
    && SameExcept(mem, mem', {PointerTo(trie, leaf)})
    && Get(mem', PointerTo(trie, leaf)) == NULL
  }

  lemma DetachOthers(mem: Mem, mem': Mem, trie: Trie, leaf: Pos, q: Pos)
    requires IsLeaf(trie, leaf) && leaf.bin < 32 && DetachWritten(mem, mem', trie, leaf)
    requires q in trie && q != leaf && Placed(mem, trie, q) && forall k :: 0 <= k < |trie[q]| ==> trie[q][k] > 0
    requires leaf.path != [] ==> q != Up(leaf) && Clear(trie[q], At(trie, Up(leaf)))
    ensures Placed(mem', trie - {leaf}, q)
  {
    var trie' := trie - {leaf};
    var w := PointerTo(trie, leaf);
    KidUp(q, false);
    KidUp(q, true);
    if q.path != [] { UpKid(q); }
    var chunks := if leaf.path == [] then {} else {At(trie, Up(leaf))};
    assert w < 0 || (At(trie, Up(leaf)) in chunks && At(trie, Up(leaf)) + PREV <= w < At(trie, Up(leaf)) + NODE_END);
    OthersFrame(mem, mem', trie, trie', q, {w}, chunks);
  }

  lemma DetachParent(mem: Mem, mem': Mem, trie: Trie, leaf: Pos)
    requires IsLeaf(trie, leaf) && DetachWritten(mem, mem', trie, leaf)
    requires leaf.path != [] && Up(leaf) in trie && Placed(mem, trie, Up(leaf)) && Scattered(trie[Up(leaf)])
    ensures Placed(mem', trie - {leaf}, Up(leaf))
  {
    var q := Up(leaf);
    var r := trie[q];
    UpKid(leaf);
    KidUp(q, !Last(leaf));
    forall k | 0 < k < |r|
      ensures WordsSame(mem, mem', r[k])
    {
      assert Away(r[0], r[k]);
      WordsUntouched(mem, mem', {PointerTo(trie, leaf)}, r[k]);
    }
    if q.path != [] { UpKid(q); }
    PlacedParts(mem, mem', trie, trie - {leaf}, q);
  }

  lemma DetachSelf(mem: Mem, mem': Mem, trie: Trie, leaf: Pos)
    requires IsLeaf(trie, leaf) && leaf.bin < 32 && DetachWritten(mem, mem', trie, leaf)
    requires Placed(mem, trie, leaf) && forall k :: 0 <= k < |trie[leaf]| ==> trie[leaf][k] > 0
    requires leaf.path != [] ==> Clear(trie[leaf], At(trie, Up(leaf)))
    ensures Detached(mem', trie[leaf], leaf.bin)
  {
    var r := trie[leaf];
    forall k | 0 <= k < |r|
      ensures WordsSame(mem, mem', r[k])
    {
      WordsUntouched(mem, mem', {PointerTo(trie, leaf)}, r[k]);
    }
    RingFrame(mem, mem', r);
    assert WordsSame(mem, mem', r[0]);
    forall k | 0 < k < |r|
      ensures Follower(mem', r[k])
    {
      assert Follower(mem, r[k]) && WordsSame(mem, mem', r[k]);
    }
  }

  lemma DetachSlots(mem: Mem, mem': Mem, trie: Trie, leaf: Pos)
    requires IsLeaf(trie, leaf) && leaf.bin < 32 && DetachWritten(mem, mem', trie, leaf) && Slots(mem, trie)
    requires leaf.path != [] ==> At(trie, Up(leaf)) > 0
    ensures Slots(mem', trie - {leaf})
  {
  }

  /** Nulling the pointer to a leaf leaves every other position in place. */
  lemma DetachNode(mem: Mem, mem': Mem, bins: map<int, int>, trie: Trie, home: map<int, Pos>, leaf: Pos, q: Pos)
    requires BinsOk(bins) && Homed(bins, trie, home)
    requires IsLeaf(trie, leaf) && leaf.bin < 32 && DetachWritten(mem, mem', trie, leaf)
    requires leaf.path != [] ==> Up(leaf) in trie && Shaped(bins, trie, Up(leaf))
    requires q in trie && q != leaf && Placed(mem, trie, q) && Shaped(bins, trie, q)
    ensures Placed(mem', trie - {leaf}, q)
  {
    RingPositive(bins, trie, q);
    if leaf.path != [] && q == Up(leaf) {
      RingScattered(bins, trie, q);
      DetachParent(mem, mem', trie, leaf);
    } else {
      if leaf.path != [] { OtherClear(bins, trie, home, q, Up(leaf), 0); }
      DetachOthers(mem, mem', trie, leaf, q);
    }
  }

  lemma RingPositive(bins: map<int, int>, trie: Trie, p: Pos)
    requires BinsOk(bins) && p in trie && Shaped(bins, trie, p)
    ensures forall k :: 0 <= k < |trie[p]| ==> trie[p][k] > 0
  {
  }

  // ---------------------------------------------------------------- handing over a place

  function KidParents(trie: Trie, p: Pos): set<int>
  {
    (if At(trie, Kid(p, false)) == NULL then {} else {At(trie, Kid(p, false)) + PARENT})
    + (if At(trie, Kid(p, true)) == NULL then {} else {At(trie, Kid(p, true)) + PARENT})
  }

  function HandoverWords(trie: Trie, p: Pos, n: int): set<int>
  {
    {PointerTo(trie, p), n + PARENT, n + CHILD0, n + CHILD1} + KidParents(trie, p)
  }

  /** The chunks whose words a handover writes. */
  function Involved(trie: Trie, p: Pos, n: int): set<int>
  {
    {n} + (if p.path == [] then {} else {At(trie, Up(p))})
    + (if At(trie, Kid(p, false)) == NULL then {} else {At(trie, Kid(p, false))})
    + (if At(trie, Kid(p, true)) == NULL then {} else {At(trie, Kid(p, true))})
  }

  /** Chunk `n` takes the tree links of position `p`. */
  ghost predicate HandoverWritten(mem: Mem, mem': Mem, trie: Trie, p: Pos, n: int)
  {
    && SameExcept(mem, mem', HandoverWords(trie, p, n))
    && Get(mem', PointerTo(trie, p)) == n
    && Get(mem', n + PARENT) == ParentOf(trie, p)
    && Get(mem', n + CHILD0) == At(trie, Kid(p, false)) && Get(mem', n + CHILD1) == At(trie, Kid(p, true))
    && (At(trie, Kid(p, false)) != NULL ==> Get(mem', At(trie, Kid(p, false)) + PARENT) == n)
    && (At(trie, Kid(p, true)) != NULL ==> Get(mem', At(trie, Kid(p, true)) + PARENT) == n)
  }

  lemma HandoverWithin(trie: Trie, p: Pos, n: int)
    requires p.bin < 32
    ensures Within(HandoverWords(trie, p, n), Involved(trie, p, n))
  {
    var chunks := Involved(trie, p, n);
    forall w | w in HandoverWords(trie, p, n)
      ensures w < 0 || exists b :: b in chunks && b + PREV <= w < b + NODE_END
    {
      if w == n + PARENT || w == n + CHILD0 || w == n + CHILD1 {
        assert n in chunks && n + PREV <= w < n + NODE_END;
      } else if w == PointerTo(trie, p) {
        if p.path != [] {
          assert At(trie, Up(p)) in chunks && At(trie, Up(p)) + PREV <= w < At(trie, Up(p)) + NODE_END;
        }
      } else if At(trie, Kid(p, false)) != NULL && w == At(trie, Kid(p, false)) + PARENT {
        assert At(trie, Kid(p, false)) in chunks;
      } else {
        assert At(trie, Kid(p, true)) in chunks;
        assert At(trie, Kid(p, true)) + PREV <= w < At(trie, Kid(p, true)) + NODE_END;
      }
    }
  }

  lemma HandoverOthers(mem: Mem, mem': Mem, trie: Trie, p: Pos, r: seq<int>, q: Pos)
    requires p in trie && |r| > 0 && p.bin < 32 && HandoverWritten(mem, mem', trie, p, r[0])
    requires q in trie && q != p && Placed(mem, trie, q) && forall k :: 0 <= k < |trie[q]| ==> trie[q][k] > 0
    requires p.path != [] ==> q != Up(p)
    requires q.path != [] ==> Up(q) != p
    requires forall b :: b in Involved(trie, p, r[0]) ==> Clear(trie[q], b)
    ensures Placed(mem', trie[p := r], q)
  {
    HandoverWithin(trie, p, r[0]);
    KidUp(q, false);
    KidUp(q, true);
    OthersFrame(mem, mem', trie, trie[p := r], q, HandoverWords(trie, p, r[0]), Involved(trie, p, r[0]));
  }

  lemma HandoverUp(mem: Mem, mem': Mem, trie: Trie, p: Pos, r: seq<int>)
    requires p in trie && |r| > 0 && p.bin < 32 && HandoverWritten(mem, mem', trie, p, r[0])
    requires p.path != [] && Up(p) in trie && Placed(mem, trie, Up(p))
    requires FollowersAway(trie[Up(p)], Involved(trie, p, r[0]))
    requires forall k :: 0 <= k < |trie[Up(p)]| ==> trie[Up(p)][k] > 0
    requires forall b :: b in Involved(trie, p, r[0]) && b != At(trie, Up(p)) ==> Away(At(trie, Up(p)), b)
    requires r[0] != At(trie, Up(p)) && At(trie, Kid(p, false)) != At(trie, Up(p))
    requires At(trie, Kid(p, true)) != At(trie, Up(p))
    ensures Placed(mem', trie[p := r], Up(p))
  {
    var q := Up(p);
    var u := At(trie, q);
    HandoverWithin(trie, p, r[0]);
    UpKid(p);
    KidUp(q, !Last(p));
    KidUp(p, false);
    KidUp(p, true);
    assert u in Involved(trie, p, r[0]);
    HandoverMisses(trie, p, r[0], u);
    Relinked(mem, mem', trie, trie[p := r], q, HandoverWords(trie, p, r[0]), Involved(trie, p, r[0]));
  }

  /** In the node above, only the word that points down to `p` is written. */
  lemma HandoverMisses(trie: Trie, p: Pos, n: int, u: int)
    requires p.path != [] && u == At(trie, Up(p)) && u > 0 && p.bin < 32
    requires forall b :: b in Involved(trie, p, n) && b != u ==> Away(u, b)
    requires n != u && At(trie, Kid(p, false)) != u && At(trie, Kid(p, true)) != u
    ensures var ws := HandoverWords(trie, p, n);
            && u + PREV !in ws && u + NEXT !in ws && u + INDEX !in ws && u + PARENT !in ws
            && u + ChildWord(!Last(p)) !in ws
  {
    assert n in Involved(trie, p, n);
  }

  lemma HandoverKid(mem: Mem, mem': Mem, trie: Trie, p: Pos, r: seq<int>, x: bool)
    requires p in trie && |r| > 0 && p.bin < 32 && HandoverWritten(mem, mem', trie, p, r[0])
    requires Kid(p, x) in trie && Placed(mem, trie, Kid(p, x))
    requires FollowersAway(trie[Kid(p, x)], Involved(trie, p, r[0]))
    requires forall k :: 0 <= k < |trie[Kid(p, x)]| ==> trie[Kid(p, x)][k] > 0
    requires forall b :: b in Involved(trie, p, r[0]) && b != At(trie, Kid(p, x)) ==> Away(At(trie, Kid(p, x)), b)
    requires r[0] != At(trie, Kid(p, x)) && At(trie, Kid(p, !x)) != At(trie, Kid(p, x))
    requires p.path != [] ==> At(trie, Up(p)) != At(trie, Kid(p, x))
    ensures Placed(mem', trie[p := r], Kid(p, x))
  {
    hide Linked, Follower;
    var q := Kid(p, x);
    HandoverWithin(trie, p, r[0]);
    KidUp(p, x);
    KidUp(q, false);
    KidUp(q, true);
    HandoverMissesKid(trie, p, r[0], x);
    Relinked(mem, mem', trie, trie[p := r], q, HandoverWords(trie, p, r[0]), Involved(trie, p, r[0]));
  }

  /** In a node below, only the parent word is written. */
  lemma HandoverMissesKid(trie: Trie, p: Pos, n: int, x: bool)
    requires p.bin < 32 && At(trie, Kid(p, x)) > 0
    requires forall b :: b in Involved(trie, p, n) && b != At(trie, Kid(p, x)) ==> Away(At(trie, Kid(p, x)), b)
    requires n != At(trie, Kid(p, x)) && At(trie, Kid(p, !x)) != At(trie, Kid(p, x))
    requires p.path != [] ==> At(trie, Up(p)) != At(trie, Kid(p, x))
    ensures var ws, u := HandoverWords(trie, p, n), At(trie, Kid(p, x));
            u + PREV !in ws && u + NEXT !in ws && u + INDEX !in ws && u + CHILD0 !in ws && u + CHILD1 !in ws
  {
    assert n in Involved(trie, p, n);
    if x { assert !x == false; } else { assert !x == true; }
  }

  /** Chunk `b` is the head of the ring or away from it; the followers are away from it either way. */
  ghost predicate OwnSees(r: seq<int>, b: int)
    requires |r| > 0
  {
    && (b != r[0] ==> Away(r[0], b))
    && (forall k :: 0 < k < |r| ==> r[k] > 0 && Away(r[k], b))
  }

  /** The ring that takes the place lies away from the other chunks involved. */
  ghost predicate SelfSees(trie: Trie, p: Pos, r: seq<int>)
    requires |r| > 0
  {
    && (forall b {:trigger OwnSees(r, b)} :: b in Involved(trie, p, r[0]) ==> OwnSees(r, b))
    && At(trie, Kid(p, false)) != r[0] && At(trie, Kid(p, true)) != r[0] && (p.path != [] ==> At(trie, Up(p)) != r[0])
  }

  lemma SelfFollowers(trie: Trie, p: Pos, r: seq<int>)
    requires |r| > 0 && SelfSees(trie, p, r)
    ensures FollowersAway(r, Involved(trie, p, r[0]))
    ensures forall b :: b in Involved(trie, p, r[0]) && b != r[0] ==> Away(r[0], b)
  {
    forall b | b in Involved(trie, p, r[0])
      ensures b != r[0] ==> Away(r[0], b)
      ensures forall k :: 0 < k < |r| ==> r[k] > 0 && Away(r[k], b)
    {
      assert OwnSees(r, b);
    }
  }

  lemma HandoverSelf(mem: Mem, mem': Mem, trie: Trie, p: Pos, r: seq<int>)
    requires p in trie && |r| > 0 && p.bin < 32 && HandoverWritten(mem, mem', trie, p, r[0])
    requires Detached(mem, r, p.bin) && forall k :: 0 <= k < |r| ==> r[k] > 0
    requires SelfSees(trie, p, r)
    ensures Placed(mem', trie[p := r], p)
  {
    SelfFollowers(trie, p, r);
    HandoverWithin(trie, p, r[0]);
    HandoverMissesSelf(trie, p, r[0]);
    HandoverKidsKept(trie, p, r);
    PlaceDetached(mem, mem', trie[p := r], p, HandoverWords(trie, p, r[0]), Involved(trie, p, r[0]));
  }

  lemma HandoverKidsKept(trie: Trie, p: Pos, r: seq<int>)
    ensures var trie' := trie[p := r];
            && At(trie', Kid(p, false)) == At(trie, Kid(p, false)) && At(trie', Kid(p, true)) == At(trie, Kid(p, true))
            && ParentOf(trie', p) == ParentOf(trie, p)
  {
    KidUp(p, false);
    KidUp(p, true);
  }

  lemma HandoverMissesSelf(trie: Trie, p: Pos, n: int)
    requires p.bin < 32 && n > 0
    requires forall b :: b in Involved(trie, p, n) && b != n ==> Away(n, b)
    requires At(trie, Kid(p, false)) != n && At(trie, Kid(p, true)) != n && (p.path != [] ==> At(trie, Up(p)) != n)
    ensures var ws := HandoverWords(trie, p, n); n + PREV !in ws && n + NEXT !in ws && n + INDEX !in ws
  {
    var chunks := Involved(trie, p, n);
    assert p.path != [] ==> At(trie, Up(p)) in chunks;
    assert At(trie, Kid(p, false)) != NULL ==> At(trie, Kid(p, false)) in chunks;
    assert At(trie, Kid(p, true)) != NULL ==> At(trie, Kid(p, true)) in chunks;
  }

  /** A detached ring whose head got the tree links of position `p` is in place there. */
  lemma PlaceDetached(mem: Mem, mem': Mem, trie': Trie, p: Pos, touched: set<int>, chunks: set<int>)
    requires p in trie' && Detached(mem, trie'[p], p.bin) && forall k :: 0 < k < |trie'[p]| ==> trie'[p][k] > 0
    requires SameExcept(mem, mem', touched) && Within(touched, chunks) && FollowersAway(trie'[p], chunks)
    requires var n := trie'[p][0]; n + PREV !in touched && n + NEXT !in touched && n + INDEX !in touched
    requires var n := trie'[p][0];
             && Get(mem', n + CHILD0) == At(trie', Kid(p, false)) && Get(mem', n + CHILD1) == At(trie', Kid(p, true))
             && Get(mem', n + PARENT) == ParentOf(trie', p)
    ensures Placed(mem', trie', p)
  {
    var r := trie'[p];
    forall k | 0 < k < |r|
      ensures WordsSame(mem, mem', r[k])
    {
      assert forall b :: b in chunks ==> Away(r[k], b);
      ClearWords(mem, mem', r, k, touched, chunks);
    }
    RingFrame(mem, mem', r);
    forall k | 0 < k < |r|
      ensures Follower(mem', r[k])
    {
      assert Follower(mem, r[k]) && WordsSame(mem, mem', r[k]);
    }
  }

  lemma HandoverSlots(mem: Mem, mem': Mem, trie: Trie, p: Pos, r: seq<int>)
    requires p in trie && |r| > 0 && p.bin < 32 && HandoverWritten(mem, mem', trie, p, r[0]) && Slots(mem, trie)
    requires r[0] > 0 && At(trie, Kid(p, false)) >= 0 && At(trie, Kid(p, true)) >= 0
    requires p.path != [] ==> At(trie, Up(p)) > 0
    ensures Slots(mem', trie[p := r])
  {
    forall i | 0 <= i < 32
      ensures Get(mem', Slot(i)) == At(trie[p := r], Pos(i, []))
    {
    }
  }

  // ---------------------------------------------------------------- who takes the place

  /** The forest at handover time is part of the original one. */
  ghost predicate SubTrie(trie': Trie, trie: Trie)
  {
    forall q :: q in trie' ==> q in trie && trie'[q] == trie[q]
  }

  ghost predicate AllShaped(bins: map<int, int>, trie: Trie)
  {
    forall q {:trigger Shaped(bins, trie, q)} :: q in trie ==> Shaped(bins, trie, q)
  }

  /** Chunk `b` is the node at `q`, or `q` is clear of it; its followers are clear of it either way. */
  ghost predicate Sees(trie: Trie, trie': Trie, q: Pos, b: int)
    requires q in trie
  {
    && (forall k :: 0 < k < |trie[q]| ==> trie[q][k] > 0 && Away(trie[q][k], b))
    && (b != At(trie', q) ==> Clear(trie[q], b))
  }

  lemma NodeSeen(bins: map<int, int>, trie: Trie, home: map<int, Pos>, trie': Trie, q: Pos, s: Pos)
    requires BinsOk(bins) && Homed(bins, trie, home) && AllShaped(bins, trie) && SubTrie(trie', trie)
    requires q in trie' && At(trie', s) != NULL
    ensures Sees(trie, trie', q, At(trie', s)) && At(trie', s) > 0
    ensures q != s ==> At(trie', s) != At(trie', q)
  {
    assert Shaped(bins, trie, q) && Shaped(bins, trie, s);
    RingPositive(bins, trie, s);
    RingPositive(bins, trie, q);
    if q != s {
      OtherClear(bins, trie, home, q, s, 0);
      assert Away(trie[q][0], trie[s][0]);
    } else {
      RingScattered(bins, trie, q);
    }
  }

  lemma MemberSeen(bins: map<int, int>, trie: Trie, home: map<int, Pos>, trie': Trie, q: Pos, s: Pos, j: int)
    requires BinsOk(bins) && Homed(bins, trie, home) && AllShaped(bins, trie) && SubTrie(trie', trie)
    requires q in trie' && s in trie && 0 <= j < |trie[s]| && q != s
    ensures Sees(trie, trie', q, trie[s][j]) && trie[s][j] != At(trie', q)
  {
    assert Shaped(bins, trie, q) && Shaped(bins, trie, s);
    OtherClear(bins, trie, home, q, s, j);
    assert Away(trie[q][0], trie[s][j]);
  }

  /** How a position other than `p` sees the chunks of a handover at `p` to `n`. */
  ghost predicate SeesInvolved(trie: Trie, trie': Trie, p: Pos, n: int, q: Pos)
    requires q in trie
  {
    && (forall b {:trigger Sees(trie, trie', q, b)} :: b in Involved(trie', p, n) ==> Sees(trie, trie', q, b))
    && n != At(trie', q)
    && (At(trie', Kid(p, false)) == At(trie', q) != NULL ==> q == Kid(p, false))
    && (At(trie', Kid(p, true)) == At(trie', q) != NULL ==> q == Kid(p, true))
    && (p.path != [] && At(trie', Up(p)) == At(trie', q) != NULL ==> q == Up(p))
  }

  lemma InvolvedSeen(bins: map<int, int>, trie: Trie, home: map<int, Pos>, trie': Trie, p: Pos, s: Pos, j: int, q: Pos)
    requires BinsOk(bins) && Homed(bins, trie, home) && AllShaped(bins, trie) && SubTrie(trie', trie)
    requires s in trie && 0 <= j < |trie[s]| && q in trie' && q != s
    requires p.path != [] ==> At(trie', Up(p)) != NULL
    ensures SeesInvolved(trie, trie', p, trie[s][j], q)
  {
    MemberSeen(bins, trie, home, trie', q, s, j);
    if p.path != [] { NodeSeen(bins, trie, home, trie', q, Up(p)); }
    if At(trie', Kid(p, false)) != NULL { NodeSeen(bins, trie, home, trie', q, Kid(p, false)); }
    if At(trie', Kid(p, true)) != NULL { NodeSeen(bins, trie, home, trie', q, Kid(p, true)); }
  }

  ghost predicate Handover(mem: Mem, mem': Mem, trie: Trie, trie': Trie, p: Pos, r: seq<int>, q: Pos)
  {
    && SubTrie(trie', trie) && p in trie' && |r| > 0 && p.bin < 32 && HandoverWritten(mem, mem', trie', p, r[0])
    && q in trie' && q != p && Placed(mem, trie', q) && (forall k :: 0 <= k < |trie[q]| ==> trie[q][k] > 0)
    && SeesInvolved(trie, trie', p, r[0], q)
    && (p.path != [] ==> At(trie', Up(p)) != NULL)
  }

  lemma HandoverFollowers(trie: Trie, trie': Trie, p: Pos, n: int, q: Pos)
    requires q in trie && SeesInvolved(trie, trie', p, n, q)
    ensures FollowersAway(trie[q], Involved(trie', p, n))
    ensures forall b :: b in Involved(trie', p, n) && b != At(trie', q) ==> Clear(trie[q], b)
  {
    forall b | b in Involved(trie', p, n)
      ensures b != At(trie', q) ==> Clear(trie[q], b)
      ensures forall k :: 0 < k < |trie[q]| ==> trie[q][k] > 0 && Away(trie[q][k], b)
    {
      assert Sees(trie, trie', q, b);
    }
  }

  lemma HandoverNodeUp(mem: Mem, mem': Mem, trie: Trie, trie': Trie, p: Pos, r: seq<int>)
    requires p.path != [] && Handover(mem, mem', trie, trie', p, r, Up(p))
    ensures Placed(mem', trie'[p := r], Up(p))
  {
    HandoverFollowers(trie, trie', p, r[0], Up(p));
    KidUp(p, false);
    KidUp(p, true);
    HandoverUp(mem, mem', trie', p, r);
  }

  lemma HandoverNodeKid(mem: Mem, mem': Mem, trie: Trie, trie': Trie, p: Pos, r: seq<int>, x: bool)
    requires Handover(mem, mem', trie, trie', p, r, Kid(p, x))
    ensures Placed(mem', trie'[p := r], Kid(p, x))
  {
    HandoverFollowers(trie, trie', p, r[0], Kid(p, x));
    if x { assert Kid(p, !x) == Kid(p, false); } else { assert Kid(p, !x) == Kid(p, true); }
    KidUp(p, x);
    KidUp(p, !x);
    HandoverKid(mem, mem', trie', p, r, x);
  }

  lemma HandoverNodeOther(mem: Mem, mem': Mem, trie: Trie, trie': Trie, p: Pos, r: seq<int>, q: Pos)
    requires Handover(mem, mem', trie, trie', p, r, q)
    requires q != Kid(p, false) && q != Kid(p, true) && (p.path != [] ==> q != Up(p))
    ensures Placed(mem', trie'[p := r], q)
  {
    HandoverFollowers(trie, trie', p, r[0], q);
    if q.path != [] { UpKid(q); }
    HandoverOthers(mem, mem', trie', p, r, q);
  }

  /** After a handover every position other than `p` is in place. */
  lemma HandoverNode(mem: Mem, mem': Mem, trie: Trie, trie': Trie, p: Pos, r: seq<int>, q: Pos)
    requires Handover(mem, mem', trie, trie', p, r, q)
    ensures Placed(mem', trie'[p := r], q)
  {
    if p.path != [] && q == Up(p) {
      HandoverNodeUp(mem, mem', trie, trie', p, r);
    } else if q == Kid(p, false) {
      HandoverNodeKid(mem, mem', trie, trie', p, r, false);
    } else if q == Kid(p, true) {
      HandoverNodeKid(mem, mem', trie, trie', p, r, true);
    } else {
      HandoverNodeOther(mem, mem', trie, trie', p, r, q);
    }
  }
}
