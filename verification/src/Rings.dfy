/** Memory words and the circular doubly linked lists that the allocator threads through free chunks. */
module Rings {

  /** Word-addressed memory: the words the program may touch and what they hold. */
  type Mem = map<int, int>

  /** Reading a word; words outside the memory read as zero here, and no operation reads them. */
  function Get(mem: Mem, a: int): int { if a in mem then mem[a] else 0 }

  const NULL: int := 0
  const PREV: int := 16
  const NEXT: int := 24

  /** Distinct addresses, all on the allocator's alignment, so that no two members share a word. */
  ghost predicate Spaced(r: seq<int>)
  {
    && (forall k :: 0 <= k < |r| ==> r[k] % 16 == 0)
    && (forall j, k :: 0 <= j < k < |r| ==> r[j] != r[k])
  }

  ghost predicate Linked(mem: Mem, r: seq<int>, k: int)
    requires 0 <= k < |r|
  {
    && Get(mem, r[k] + NEXT) == r[if k + 1 == |r| then 0 else k + 1]
    && Get(mem, r[k] + PREV) == r[if k == 0 then |r| - 1 else k - 1]
  }

  /** `r` lists, in order of the `next` links, a closed ring with matching `prev` links. */
  ghost predicate Ring(mem: Mem, r: seq<int>)
  {
    |r| > 0 && forall k {:trigger Linked(mem, r, k)} :: 0 <= k < |r| ==> Linked(mem, r, k)
  }

  function Without(r: seq<int>, k: int): seq<int>
    requires 0 <= k < |r|
  {
    r[..k] + r[k + 1..]
  }

  /** The two memories agree everywhere except possibly on `touched`. */
  ghost predicate SameExcept(mem: Mem, mem': Mem, touched: set<int>)
  {
    forall a :: a !in touched ==> Get(mem', a) == Get(mem, a)
  }

  lemma RingFrame(mem: Mem, mem': Mem, r: seq<int>)
    requires Ring(mem, r)
    requires forall k :: 0 <= k < |r| ==> Get(mem', r[k] + PREV) == Get(mem, r[k] + PREV)
    requires forall k :: 0 <= k < |r| ==> Get(mem', r[k] + NEXT) == Get(mem, r[k] + NEXT)
    ensures Ring(mem', r)
  {
    forall k | 0 <= k < |r|
      ensures Linked(mem', r, k)
    {
      assert Linked(mem, r, k);
    }
  }

  /** Linking `x` between the last member and the first. A ring of one needs no valid links before. */
  lemma RingAppend(mem: Mem, mem': Mem, r: seq<int>, x: int)
    requires |r| > 0 && (|r| == 1 || Ring(mem, r))
    requires Spaced(r + [x])
    requires forall k :: 0 < k < |r| ==> Get(mem', r[k] + PREV) == Get(mem, r[k] + PREV)
    requires forall k :: 0 <= k < |r| - 1 ==> Get(mem', r[k] + NEXT) == Get(mem, r[k] + NEXT)
    requires Get(mem', r[0] + PREV) == x && Get(mem', r[|r| - 1] + NEXT) == x
    requires Get(mem', x + PREV) == r[|r| - 1] && Get(mem', x + NEXT) == r[0]
    ensures Ring(mem', r + [x])
  {
    var n := r + [x];
    forall k | 0 <= k < |n|
      ensures Linked(mem', n, k)
    {
      if k < |r| && |r| > 1 { assert Linked(mem, r, k); }
    }
  }

  function Before(r: seq<int>, k: int): int { if k == 0 then |r| - 1 else k - 1 }

  function After(r: seq<int>, k: int): int { if k + 1 == |r| then 0 else k + 1 }

  /** Memory after the neighbours of the member at `k` are joined to each other. */
  ghost predicate Bypassed(mem: Mem, mem': Mem, r: seq<int>, k: int)
    requires |r| >= 2 && 0 <= k < |r|
  {
    && (forall i :: 0 <= i < |r| && i != After(r, k) && i != k ==> Get(mem', r[i] + PREV) == Get(mem, r[i] + PREV))
    && (forall i :: 0 <= i < |r| && i != Before(r, k) && i != k ==> Get(mem', r[i] + NEXT) == Get(mem, r[i] + NEXT))
    && Get(mem', r[Before(r, k)] + NEXT) == r[After(r, k)]
    && Get(mem', r[After(r, k)] + PREV) == r[Before(r, k)]
  }

  lemma RingRemoveNext(mem: Mem, mem': Mem, r: seq<int>, k: int, j: int)
    requires Ring(mem, r) && |r| >= 2 && 0 <= k < |r| && Bypassed(mem, mem', r, k) && 0 <= j < |r| - 1
    ensures var n := Without(r, k); Get(mem', n[j] + NEXT) == n[if j + 1 == |n| then 0 else j + 1]
  {
    var i := if j < k then j else j + 1;
    assert Linked(mem, r, i);
  }

  lemma RingRemovePrev(mem: Mem, mem': Mem, r: seq<int>, k: int, j: int)
    requires Ring(mem, r) && |r| >= 2 && 0 <= k < |r| && Bypassed(mem, mem', r, k) && 0 <= j < |r| - 1
    ensures var n := Without(r, k); Get(mem', n[j] + PREV) == n[if j == 0 then |n| - 1 else j - 1]
  {
    var i := if j < k then j else j + 1;
    assert Linked(mem, r, i);
  }

  /** Unlinking the member at `k`: its neighbours are joined to each other. */
  lemma RingRemove(mem: Mem, mem': Mem, r: seq<int>, k: int)
    requires Ring(mem, r) && |r| >= 2 && 0 <= k < |r| && Bypassed(mem, mem', r, k)
    ensures Ring(mem', Without(r, k))
  {
    hide Bypassed, Ring;
    var n := Without(r, k);
    forall j | 0 <= j < |n|
      ensures Linked(mem', n, j)
    {
      RingRemoveNext(mem, mem', r, k, j);
      RingRemovePrev(mem, mem', r, k, j);
    }
    RingFrom(mem', n);
  }

  lemma RingFrom(mem: Mem, r: seq<int>)
    requires |r| > 0 && forall k {:trigger Linked(mem, r, k)} :: 0 <= k < |r| ==> Linked(mem, r, k)
    ensures Ring(mem, r)
  {
  }

  /** The two neighbours coincide exactly in a ring of two. */
  lemma NeighboursEqual(mem: Mem, r: seq<int>, k: int)
    requires Ring(mem, r) && Spaced(r) && |r| >= 2 && 0 <= k < |r|
    ensures Linked(mem, r, k)
    ensures Get(mem, r[k] + PREV) == Get(mem, r[k] + NEXT) <==> |r| == 2
    ensures Get(mem, r[k] + NEXT) != r[k] && Get(mem, r[k] + PREV) != r[k]
  {
    assert Linked(mem, r, k);
  }
}
