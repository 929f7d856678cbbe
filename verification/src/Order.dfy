/** Releases in bulk and releases one by one end in the same heap. */
module Orders {
  import opened Sizes
  import opened Rings
  import opened Tries
  import opened Tags
  import opened Heaps
  import opened HeapOps
  import opened Bulk
  import opened Canon
  import opened Outcomes
  import opened Allocators

  /** Two allocators in the same state: one merges and disposes of all pointers at once, the other takes the same
      pointers
      one by one in any order. Their chunks then lie alike, up to which free chunk is the victim. */
  method BulkAsSingly(d: Dlmalloc, e: Dlmalloc, ptrs: array<int>, s: seq<int>)
    requires d.Ready() && e.Ready()
    requires d != e && d.store != e.store && d.Now() == e.Now()
    requires Doomed(ptrs[..], d.ch) && multiset(s) == multiset(ptrs[..])
    modifies d, d.store, e, e.store, ptrs
    ensures d.Ready() && e.Ready() && d.Now() == e.Now() && d.store.bins == e.store.bins
    ensures Holdings(d.ch) == old(Holdings(d.ch)) - Targets(s) == Holdings(e.ch)
  {
    hide Holdings, Doomed, Targets, SameVictim, FramedView, Binned;
    ghost var s0, held, m0, v0 := ptrs[..], Holdings(d.ch), d.store.mem, d.Now();
    DoomedSame(s0, s, d.ch);
    d.BulkDispose(ptrs);
    e.DisposeEach(s);
    SameTargets(s0, s);
    OneOutcome(m0, v0, d.store.mem, d.store.bins, d.Now(), e.store.mem, e.store.bins, e.Now());
  }

  /** Whether all of them may be released does not depend on their order. */
  lemma DoomedSame(s1: seq<int>, s2: seq<int>, ch: Tiling)
    requires Doomed(s1, ch) && multiset(s1) == multiset(s2)
    ensures Doomed(s2, ch)
  {
    forall k | 0 <= k < |s2| && s2[k] != NULL
      ensures s2[k] - MEM_OFFSET in Holdings(ch)
    {
      assert s2[k] in multiset(s2);
      assert s2[k] in s1;
    }
    forall j, k | 0 <= j < k < |s2| && s2[j] != NULL
      ensures s2[j] != s2[k]
    {
      Once(s1, s2[j]);
      if s2[j] == s2[k] { Twice(s2, j, k); }
    }
  }

  lemma {:induction false} Once(s: seq<int>, x: int)
    requires x != NULL && forall j, k :: 0 <= j < k < |s| && s[j] != NULL ==> s[j] != s[k]
    ensures multiset(s)[x] <= 1
  {
    if s != [] {
      var front, last := s[..|s| - 1], s[|s| - 1];
      assert s == front + [last];
      Once(front, x);
      if last == x { assert x !in front && x !in multiset(front); }
    }
  }

  lemma Twice(s: seq<int>, j: int, k: int)
    requires 0 <= j < k < |s| && s[j] == s[k]
    ensures multiset(s)[s[j]] >= 2
  {
    assert s == s[..k] + s[k..];
    assert s[j] in s[..k] && s[k] in s[k..];
    assert s[j] in multiset(s[..k]) && s[k] in multiset(s[k..]);
  }
}
