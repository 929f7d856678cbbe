/** Copying and freeing page tables in place (kernel/src/memory/page_table.rs). */
module PageTables {
  import opened Paging

  // ---------------------------------------------------------------- the copy, slot by slot

  /** The slots below `n` of `target` copy those of `source`; the tables made for it are the frames taken from the
      free set, and nothing else changed. */
  ghost predicate Copied(p0: Phys, free0: set<int>, source: int, phys: Phys, free: set<int>, target: int, level: nat,
      n: nat)
  {
    && free <= free0 && phys.Keys == p0.Keys
    && target in phys && |phys[target]| == SLOTS
    && Agree(p0, phys, p0.Keys - {target} - (free0 - free))
    && SameTo(p0, source, phys, target, level, n)
    && WholeTo(phys, target, level, n)
    && ProperTo(phys, target, level, n)
    && Below(phys, target, level, n) == free0 - free
    && |free| + CountTo(p0, source, level, n) == |free0|
  }

  ghost predicate SameTo(p1: Phys, t1: int, p2: Phys, t2: int, level: nat, n: nat)
  {
    forall i :: 0 <= i < n ==> SameEntry(p1, Slot(p1, t1, i), p2, Slot(p2, t2, i), level)
  }

  ghost predicate WholeTo(phys: Phys, t: int, level: nat, n: nat)
  {
    forall i :: 0 <= i < n && Branch(Slot(phys, t, i), level) ==> Whole(phys, Slot(phys, t, i).addr, level - 1)
  }

  ghost predicate FramesOk(phys: Phys, free: set<int>)
  {
    0 !in free && forall f :: f in free ==> f in phys && |phys[f]| == SLOTS
  }

  /** What a copy starts from. */
  ghost predicate Ready(p0: Phys, free0: set<int>, source: int, target: int, level: nat)
  {
    && level > 0 && FramesOk(p0, free0)
    && Whole(p0, source, level) && Tables(p0, source, level) !! (free0 + {target})
    && target in p0 && |p0[target]| == SLOTS && target !in free0
  }

  /** The first slots keep their meaning as long as their tables are left alone. */
  lemma {:induction false} PrefixFrame(phys: Phys, phys': Phys, t: int, level: nat, n: nat)
    requires WholeTo(phys, t, level, n)
    requires Agree(phys, phys', Below(phys, t, level, n))
    requires forall i :: 0 <= i < n ==> Slot(phys', t, i) == Slot(phys, t, i)
    ensures WholeTo(phys', t, level, n) && Below(phys', t, level, n) == Below(phys, t, level, n)
    ensures ProperTo(phys, t, level, n) ==> ProperTo(phys', t, level, n)
    decreases n
  {
    if n > 0 {
      PrefixFrame(phys, phys', t, level, n - 1);
      var e := Slot(phys, t, n - 1);
      assert Slot(phys', t, n - 1) == e;
      if Branch(e, level) {
        assert Tables(phys, e.addr, level - 1) <= Below(phys, t, level, n);
        TablesFrame(phys, phys', e.addr, level - 1);
      }
    }
  }

  lemma SamePrefixFrame(p0: Phys, source: int, phys: Phys, phys': Phys, t: int, level: nat, n: nat)
    requires SameTo(p0, source, phys, t, level, n) && WholeTo(phys, t, level, n)
    requires Agree(phys, phys', Below(phys, t, level, n))
    requires forall i :: 0 <= i < n ==> Slot(phys', t, i) == Slot(phys, t, i)
    ensures SameTo(p0, source, phys', t, level, n)
  {
    forall i | 0 <= i < n
      ensures SameEntry(p0, Slot(p0, source, i), phys', Slot(phys', t, i), level)
    {
      var e1, e2 := Slot(p0, source, i), Slot(phys, t, i);
      assert SameEntry(p0, e1, phys, e2, level);
      if Branch(e1, level) {
        UnderBelow(phys, t, level, i, n);
        SameTreeFrame(p0, e1.addr, phys, phys', e2.addr, level - 1);
      }
    }
  }

  /** Source tables are untouched while the copy is under way. */
  lemma SourceKept(p0: Phys, free0: set<int>, source: int, phys: Phys, free: set<int>, target: int, level: nat, n: nat)
    requires Ready(p0, free0, source, target, level) && Copied(p0, free0, source, phys, free, target, level, n)
    ensures Agree(p0, phys, Tables(p0, source, level))
    ensures Whole(phys, source, level) && Tables(phys, source, level) == Tables(p0, source, level)
    ensures Count(phys, source, level) == Count(p0, source, level)
    ensures FramesOk(phys, free) && target !in free
  {
    TablesKnown(p0, source, level);
    TablesFrame(p0, phys, source, level);
    CountFrame(p0, phys, source, level);
  }

  lemma {:induction false} TablesKnown(phys: Phys, t: int, level: nat)
    requires level > 0 && Whole(phys, t, level)
    ensures Tables(phys, t, level) <= phys.Keys
    decreases level, 1, 0
  {
    BelowKnown(phys, t, level, SLOTS);
  }

  lemma {:induction false} BelowKnown(phys: Phys, t: int, level: nat, n: nat)
    requires level > 0 && n <= SLOTS && Whole(phys, t, level)
    ensures Below(phys, t, level, n) <= phys.Keys
    decreases level, 0, n
  {
    if n > 0 {
      BelowKnown(phys, t, level, n - 1);
      var e := Slot(phys, t, n - 1);
      if Branch(e, level) { TablesKnown(phys, e.addr, level - 1); }
    }
  }

  /** Writing one entry of the target. */
  function Put(phys: Phys, t: int, i: int, e: Entry): Phys
    requires t in phys && 0 <= i < |phys[t]|
  {
    phys[t := phys[t][i := e]]
  }

  lemma NextSlot(p0: Phys, source: int, phys: Phys, target: int, level: nat, n: nat)
    requires SameTo(p0, source, phys, target, level, n) && WholeTo(phys, target, level, n)
    requires ProperTo(phys, target, level, n)
    requires SameEntry(p0, Slot(p0, source, n), phys, Slot(phys, target, n), level)
    requires Branch(Slot(phys, target, n), level) ==>
      && Whole(phys, Slot(phys, target, n).addr, level - 1) && Proper(phys, Slot(phys, target, n).addr, level - 1)
      && Under(phys, Slot(phys, target, n), level) !! ({target} + Below(phys, target, level, n))
    ensures SameTo(p0, source, phys, target, level, n + 1) && WholeTo(phys, target, level, n + 1)
    ensures ProperTo(phys, target, level, n + 1)
    ensures Below(phys, target, level, n + 1) ==
      Below(phys, target, level, n) + Under(phys, Slot(phys, target, n), level)
  {
    hide Slot, Branch, SameEntry, Whole, Proper, Under;
  }

  lemma StepLeaf(p0: Phys, free0: set<int>, source: int, phys: Phys, free: set<int>, target: int, level: nat, n: nat)
    requires Ready(p0, free0, source, target, level) && Copied(p0, free0, source, phys, free, target, level, n)
    requires n < SLOTS
    requires !Branch(Slot(p0, source, n), level)
    ensures Copied(p0, free0, source, Put(phys, target, n, Slot(p0, source, n)), free, target, level, n + 1)
  {
    hide SameTo, WholeTo, ProperTo, Below, Whole, Tables, CountTo;
    var e := Slot(p0, source, n);
    var phys' := Put(phys, target, n, e);
    assert Agree(phys, phys', Below(phys, target, level, n)) by { hide Ready; assert target !in Below(phys, target,
        level, n); }
    assert forall i :: 0 <= i < n ==> Slot(phys', target, i) == Slot(phys, target, i);
    PrefixFrame(phys, phys', target, level, n);
    SamePrefixFrame(p0, source, phys, phys', target, level, n);
    assert Slot(phys', target, n) == e;
    NextSlot(p0, source, phys', target, level, n);
    LeafCounts(p0, source, level, n);
  }

  lemma LeafCounts(p0: Phys, source: int, level: nat, n: nat)
    requires !Branch(Slot(p0, source, n), level)
    ensures CountTo(p0, source, level, n + 1) == CountTo(p0, source, level, n)
  {
  }

  /** The state after a branch slot was copied: `phys1` has the new entry, `phys2` also the subtree under `f`. */
  ghost predicate Branched(p0: Phys, free0: set<int>, source: int, phys: Phys, free: set<int>, target: int,
      level: nat, n: nat,
                           f: int, phys1: Phys, phys2: Phys, free2: set<int>)
  {
    && Ready(p0, free0, source, target, level) && Copied(p0, free0, source, phys, free, target, level, n) && n < SLOTS
    && f in free && Branch(Slot(p0, source, n), level)
    && phys1 == Put(phys, target, n, Entry(f, Slot(p0, source, n).flags))
    && Copied(phys1, free - {f}, Slot(p0, source, n).addr, phys2, free2, f, level - 1, SLOTS)
  }

  lemma BranchFrame(p0: Phys, free0: set<int>, source: int, phys: Phys, free: set<int>, target: int, level: nat, n: nat,
                    f: int, phys1: Phys, phys2: Phys, free2: set<int>)
    requires Branched(p0, free0, source, phys, free, target, level, n, f, phys1, phys2, free2)
    ensures free2 <= free0 && phys2.Keys == p0.Keys && target in phys2 && |phys2[target]| == SLOTS
    ensures Agree(p0, phys2, p0.Keys - {target} - (free0 - free2))
    ensures Agree(phys, phys2, Below(phys, target, level, n))
    ensures forall i :: 0 <= i < n ==> Slot(phys2, target, i) == Slot(phys, target, i)
    ensures Slot(phys2, target, n) == Entry(f, Slot(p0, source, n).flags)
  {
    hide SameTo, WholeTo, ProperTo, Whole, Tables;
    assert target in phys2 && phys2[target] == phys1[target];
    forall x | x in p0.Keys - {target} - (free0 - free2)
      ensures x in p0 && x in phys2 && phys2[x] == p0[x]
    {
      assert x in p0.Keys - {target} - (free0 - free);
      assert x in phys1.Keys - {f} - ((free - {f}) - free2);
    }
    forall x | x in Below(phys, target, level, n)
      ensures x in phys && x in phys2 && phys2[x] == phys[x]
    {
      assert x in free0 - free;
      assert x in phys1.Keys - {f} - ((free - {f}) - free2);
    }
  }

  lemma BranchSource(p0: Phys, free0: set<int>, source: int, phys: Phys, free: set<int>, target: int, level: nat,
      n: nat,
                     f: int, phys1: Phys, phys2: Phys, free2: set<int>)
    requires Branched(p0, free0, source, phys, free, target, level, n, f, phys1, phys2, free2)
    ensures Whole(p0, Slot(p0, source, n).addr, level - 1)
    ensures Agree(p0, phys1, Tables(p0, Slot(p0, source, n).addr, level - 1))
  {
    hide SameTo, WholeTo, ProperTo;
    SourceKept(p0, free0, source, phys, free, target, level, n);
    UnderBelow(p0, source, level, n, SLOTS);
  }

  lemma BranchTree(p0: Phys, free0: set<int>, source: int, phys: Phys, free: set<int>, target: int, level: nat, n: nat,
                   f: int, phys1: Phys, phys2: Phys, free2: set<int>)
    requires Branched(p0, free0, source, phys, free, target, level, n, f, phys1, phys2, free2)
    ensures Whole(phys2, f, level - 1) && Proper(phys2, f, level - 1)
    ensures Tables(phys2, f, level - 1) == {f} + (free - {f} - free2)
    ensures SameTree(p0, Slot(p0, source, n).addr, phys2, f, level - 1)
  {
    var e := Slot(p0, source, n);
    BranchSource(p0, free0, source, phys, free, target, level, n, f, phys1, phys2, free2);
    hide Ready, Branch;
    assert SameTree(phys1, e.addr, phys2, f, level - 1);
    SameSourceFrame(p0, phys1, e.addr, phys2, f, level - 1);
  }

  lemma BranchCount(p0: Phys, free0: set<int>, source: int, phys: Phys, free: set<int>, target: int, level: nat, n: nat,
                    f: int, phys1: Phys, phys2: Phys, free2: set<int>)
    requires Branched(p0, free0, source, phys, free, target, level, n, f, phys1, phys2, free2)
    ensures |free2| + CountTo(p0, source, level, n + 1) == |free0|
  {
    var e := Slot(p0, source, n);
    BranchSource(p0, free0, source, phys, free, target, level, n, f, phys1, phys2, free2);
    hide Ready, SameTo, WholeTo, ProperTo, Agree, Whole, Tables, Below;
    CountFrame(p0, phys1, e.addr, level - 1);
    assert |free - {f}| == |free| - 1;
  }

  lemma StepBranch(p0: Phys, free0: set<int>, source: int, phys: Phys, free: set<int>, target: int, level: nat, n: nat,
                   f: int, phys1: Phys, phys2: Phys, free2: set<int>)
    requires Branched(p0, free0, source, phys, free, target, level, n, f, phys1, phys2, free2)
    ensures Copied(p0, free0, source, phys2, free2, target, level, n + 1)
  {
    hide Branched, Copied, Whole, Proper, ProperTo, Below, Under, Tables, SameTree, SameEntry, SameTo, WholeTo, Agree;
    hide CountTo, Slot, Branch;
    BranchFrame(p0, free0, source, phys, free, target, level, n, f, phys1, phys2, free2);
    BranchTree(p0, free0, source, phys, free, target, level, n, f, phys1, phys2, free2);
    BranchCount(p0, free0, source, phys, free, target, level, n, f, phys1, phys2, free2);
    BranchParts(p0, free0, source, phys, free, target, level, n, f, phys1, phys2, free2);
    PrefixFrame(phys, phys2, target, level, n);
    SamePrefixFrame(p0, source, phys, phys2, target, level, n);
    BranchSlot(p0, source, phys2, target, level, n, f);
    TakenSets(free0, free, free2, f, target);
    NextSlot(p0, source, phys2, target, level, n);
    CopiedAll(p0, free0, source, phys2, free2, target, level, n + 1);
  }

  /** The frames taken so far, the new table and those taken under it. */
  lemma TakenSets(free0: set<int>, free: set<int>, free2: set<int>, f: int, target: int)
    requires f in free && free <= free0 && free2 <= free - {f} && target !in free0
    ensures (free0 - free) + ({f} + (free - {f} - free2)) == free0 - free2
    ensures ({f} + (free - {f} - free2)) !! ({target} + (free0 - free))
  {
  }

  lemma CopiedAll(p0: Phys, free0: set<int>, source: int, phys: Phys, free: set<int>, target: int, level: nat, n: nat)
    requires free <= free0 && phys.Keys == p0.Keys && target in phys && |phys[target]| == SLOTS
    requires Agree(p0, phys, p0.Keys - {target} - (free0 - free))
    requires SameTo(p0, source, phys, target, level, n) && WholeTo(phys, target, level, n)
    requires ProperTo(phys, target, level, n)
    requires Below(phys, target, level, n) == free0 - free && |free| + CountTo(p0, source, level, n) == |free0|
    ensures Copied(p0, free0, source, phys, free, target, level, n)
  {
  }

  lemma BranchParts(p0: Phys, free0: set<int>, source: int, phys: Phys, free: set<int>, target: int, level: nat, n: nat,
                    f: int, phys1: Phys, phys2: Phys, free2: set<int>)
    requires Branched(p0, free0, source, phys, free, target, level, n, f, phys1, phys2, free2)
    ensures SameTo(p0, source, phys, target, level, n) && WholeTo(phys, target, level, n)
    ensures ProperTo(phys, target, level, n)
    ensures Below(phys, target, level, n) == free0 - free && free2 <= free - {f} && f in free && free <= free0
    ensures target !in free0
    ensures Branch(Slot(p0, source, n), level) && Branch(Entry(f, Slot(p0, source, n).flags), level)
  {
    hide Whole, ProperTo, Below, Tables, SameTo, WholeTo, Agree, CountTo;
    BranchMade(p0, free0, source, target, level, n, f);
  }

  lemma BranchSlot(p0: Phys, source: int, phys2: Phys, target: int, level: nat, n: nat, f: int)
    requires Branch(Slot(p0, source, n), level) && Branch(Entry(f, Slot(p0, source, n).flags), level)
    requires Slot(phys2, target, n) == Entry(f, Slot(p0, source, n).flags)
    requires SameTree(p0, Slot(p0, source, n).addr, phys2, f, level - 1)
    ensures SameEntry(p0, Slot(p0, source, n), phys2, Slot(phys2, target, n), level)
    ensures Under(phys2, Slot(phys2, target, n), level) == Tables(phys2, f, level - 1)
  {
    hide SameTree, Tables, Slot;
  }

  /** Frame zero is never handed out, so the entry for a new table does not read as unused. */
  lemma BranchMade(p0: Phys, free0: set<int>, source: int, target: int, level: nat, n: nat, f: int)
    requires Ready(p0, free0, source, target, level) && f in free0 && Branch(Slot(p0, source, n), level)
    ensures Branch(Entry(f, Slot(p0, source, n).flags), level) && target !in free0
  {
  }

  lemma NothingCopied(p0: Phys, free0: set<int>, source: int, target: int, level: nat)
    requires Ready(p0, free0, source, target, level)
    ensures Copied(p0, free0, source, p0, free0, target, level, 0)
  {
    hide Whole, Tables;
  }

  lemma SlotKept(p0: Phys, phys: Phys, source: int, level: nat, n: nat)
    requires level > 0 && Agree(p0, phys, Tables(p0, source, level))
    ensures Slot(phys, source, n) == Slot(p0, source, n)
  {
    assert source in Tables(p0, source, level);
  }

  lemma CountSplit(p0: Phys, source: int, level: nat, n: nat)
    requires Branch(Slot(p0, source, n), level)
    ensures CountTo(p0, source, level, n + 1)
         == CountTo(p0, source, level, n) + 1 + CountTo(p0, Slot(p0, source, n).addr, level - 1, SLOTS)
  {
    assert CountAt(p0, Slot(p0, source, n), level) == Count(p0, Slot(p0, source, n).addr, level - 1);
  }

  /** The subtree can be copied into the new frame. */
  lemma ChildReady(p0: Phys, free0: set<int>, source: int, phys: Phys, free: set<int>, target: int, level: nat,
      n: nat, f: int)
    requires Ready(p0, free0, source, target, level) && Copied(p0, free0, source, phys, free, target, level, n)
    requires n < SLOTS
    requires f in free && Branch(Slot(p0, source, n), level)
    ensures Ready(Put(phys, target, n, Entry(f, Slot(p0, source, n).flags)), free - {f}, Slot(p0, source, n).addr, f,
        level - 1)
    ensures CountTo(Put(phys, target, n, Entry(f, Slot(p0, source, n).flags)), Slot(p0, source, n).addr, level - 1,
        SLOTS)
         == CountTo(p0, Slot(p0, source, n).addr, level - 1, SLOTS)
    ensures |free - {f}| == |free| - 1
  {
    var e := Slot(p0, source, n);
    var phys1 := Put(phys, target, n, Entry(f, e.flags));
    SourceKept(p0, free0, source, phys, free, target, level, n);
    UnderBelow(p0, source, level, n, SLOTS);
    assert Agree(p0, phys1, Tables(p0, e.addr, level - 1));
    assert Whole(p0, e.addr, level - 1);
    TablesFrame(p0, phys1, e.addr, level - 1);
    CountFrame(p0, phys1, e.addr, level - 1);
    hide Whole, Tables, SameTo, WholeTo, ProperTo, Agree;
    assert target !in free;
  }

  /** A finished copy. */
  lemma CopyDone(p0: Phys, free0: set<int>, source: int, phys: Phys, free: set<int>, target: int, level: nat)
    requires level > 0 && Copied(p0, free0, source, phys, free, target, level, SLOTS)
    ensures SameTree(p0, source, phys, target, level) && Whole(phys, target, level) && Proper(phys, target, level)
    ensures Tables(phys, target, level) == {target} + (free0 - free)
    ensures free <= free0 && Agree(p0, phys, p0.Keys - Tables(phys, target, level))
  {
    assert p0.Keys - Tables(phys, target, level) == p0.Keys - {target} - (free0 - free);
  }

  // ---------------------------------------------------------------- freeing

  lemma {:induction false} RootApart(phys: Phys, t: int, level: nat, n: nat)
    requires level > 0 && ProperTo(phys, t, level, n)
    ensures t !in Below(phys, t, level, n)
    decreases n
  {
    if n > 0 { RootApart(phys, t, level, n - 1); }
  }

  ghost function Distinct(pages: multiset<int>): set<int> { set f | f in pages }

  /** The first `n` slots of `t` have been given back. */
  ghost predicate FreedTo(phys: Phys, t: int, level: nat, n: nat, free0: set<int>, given0: multiset<int>,
                          free: set<int>, given: multiset<int>)
  {
    && free == free0 + Below(phys, t, level, n) + Distinct(PagesTo(phys, t, level, n))
    && (ProperTo(phys, t, level, n) ==>
        given == given0 + multiset(Below(phys, t, level, n)) + PagesTo(phys, t, level, n))
  }

  lemma NothingFreed(phys: Phys, t: int, level: nat, free0: set<int>, given0: multiset<int>)
    ensures FreedTo(phys, t, level, 0, free0, given0, free0, given0)
  {
    assert Distinct(multiset{}) == {};
  }

  lemma ChildWhole(phys: Phys, t: int, level: nat, n: nat)
    requires Whole(phys, t, level) && n < SLOTS && Branch(Slot(phys, t, n), level)
    ensures Whole(phys, Slot(phys, t, n).addr, level - 1)
  {
  }

  lemma FreedStep(phys: Phys, t: int, level: nat, n: nat, free0: set<int>, given0: multiset<int>,
                  free: set<int>, given: multiset<int>, free': set<int>, given': multiset<int>)
    requires FreedTo(phys, t, level, n, free0, given0, free, given)
    requires free' == free + Under(phys, Slot(phys, t, n), level) + Distinct(PagesAt(phys, Slot(phys, t, n), level))
    requires (Branch(Slot(phys, t, n), level) ==> Proper(phys, Slot(phys, t, n).addr, level - 1)) ==>
      given' == given + multiset(Under(phys, Slot(phys, t, n), level)) + PagesAt(phys, Slot(phys, t, n), level)
    ensures FreedTo(phys, t, level, n + 1, free0, given0, free', given')
  {
    var e := Slot(phys, t, n);
    NextParts(phys, t, level, n);
    DistinctSum(PagesTo(phys, t, level, n), PagesAt(phys, e, level));
    hide Proper, Under, PagesAt, PagesTo, Below, ProperTo, Distinct, Slot, Branch;
    if ProperTo(phys, t, level, n + 1) {
      MultisetUnion(Below(phys, t, level, n), Under(phys, e, level));
    }
  }

  lemma NextParts(phys: Phys, t: int, level: nat, n: nat)
    ensures PagesTo(phys, t, level, n + 1) == PagesTo(phys, t, level, n) + PagesAt(phys, Slot(phys, t, n), level)
    ensures Below(phys, t, level, n + 1) == Below(phys, t, level, n) + Under(phys, Slot(phys, t, n), level)
    ensures ProperTo(phys, t, level, n + 1) ==>
      && ProperTo(phys, t, level, n) && Below(phys, t, level, n) !! Under(phys, Slot(phys, t, n), level)
      && (Branch(Slot(phys, t, n), level) ==> Proper(phys, Slot(phys, t, n).addr, level - 1))
  {
    hide Proper, PagesAt;
  }

  lemma DistinctSum(a: multiset<int>, b: multiset<int>)
    ensures Distinct(a + b) == Distinct(a) + Distinct(b)
  {
  }

  lemma FreedAll(phys: Phys, t: int, level: nat, free0: set<int>, given0: multiset<int>, free: set<int>,
      given: multiset<int>)
    requires level > 0 && FreedTo(phys, t, level, SLOTS, free0, given0, free, given)
    ensures free + {t} == free0 + Tables(phys, t, level) + Distinct(Pages(phys, t, level))
    ensures Proper(phys, t, level) ==>
      given + multiset{t} == given0 + multiset(Tables(phys, t, level)) + Pages(phys, t, level)
  {
    hide ProperTo, Below, PagesTo;
    if Proper(phys, t, level) {
      RootApart(phys, t, level, SLOTS);
      MultisetUnion({t}, Below(phys, t, level, SLOTS));
    }
  }

  lemma MultisetUnion(a: set<int>, b: set<int>)
    requires a !! b
    ensures multiset(a + b) == multiset(a) + multiset(b)
  {
  }

  // ---------------------------------------------------------------- consequences

  lemma CountRoot(p0: Phys, source: int)
    ensures Count(p0, source, 4) == 1 + CountTo(p0, source, 4, SLOTS)
  {
  }

  lemma CopyMeans(p0: Phys, source: int, phys: Phys, copy: int)
    requires Whole(p0, source, 4) && Agree(p0, phys, Tables(p0, source, 4)) && SameTree(p0, source, phys, copy, 4)
    ensures forall va :: Indices(va, 4) ==>
      Walk(phys, copy, 4, va) == Walk(phys, source, 4, va) == Walk(p0, source, 4, va)
  {
    forall va | Indices(va, 4)
      ensures Walk(phys, copy, 4, va) == Walk(phys, source, 4, va) == Walk(p0, source, 4, va)
    {
      SameWalk(p0, source, phys, copy, 4, va);
      WalkFrame(p0, phys, source, 4, va);
    }
  }

  /** Whatever is later done to the tables of a copy, the source translates as before. */
  lemma Isolation(phys: Phys, phys': Phys, source: int, copy: int, va: seq<int>)
    requires Whole(phys, source, 4) && Tables(phys, source, 4) !! Tables(phys, copy, 4)
    requires Agree(phys, phys', phys.Keys - Tables(phys, copy, 4))
    requires Indices(va, 4)
    ensures Walk(phys', source, 4, va) == Walk(phys, source, 4, va)
  {
    TablesKnown(phys, source, 4);
    WalkFrame(phys, phys', source, 4, va);
  }

  /** A table whose only used slot, the first, leads to frame `a`. */
  function Row(a: int): seq<Entry>
  {
    seq(SLOTS, i => if i == 0 then Entry(a, Flags(true, true, true, false, 0)) else UNUSED)
  }

  /** A chain of four tables in frames 1 to 4 that maps frame 5 as a user page. */
  function Chain(): Phys { map[1 := Row(2), 2 := Row(3), 3 := Row(4), 4 := Row(5)] }

  /** A source with a user page outside the free set meets everything a copy needs, however many frames are free:
      freeing
      the copy then gives away a page the source still maps. */
  lemma UserPageGivenAway(phys: Phys, free: set<int>)
    requires FramesOk(phys, free) && (forall f :: f in free ==> f > 5)
    requires Agree(Chain(), phys, Chain().Keys)
    ensures Whole(phys, 1, 4) && Tables(phys, 1, 4) !! free && Count(phys, 1, 4) == 4
    ensures 5 in Pages(phys, 1, 4) && 5 !in free
  {
    hide Whole, Tables, Walk, Reaches, Pages, Count;
    ChainCount(4);
    ChainWhole(4);
    ChainKeys();
    TablesKnown(Chain(), 1, 4);
    hide Chain;
    TablesFrame(Chain(), phys, 1, 4);
    CountFrame(Chain(), phys, 1, 4);
    ChainWalk();
    WalkFrame(Chain(), phys, 1, 4, [0, 0, 0, 0]);
    AddressPage(phys, 1, 4, [0, 0, 0, 0], 5);
  }

  /** One table at each level. */
  lemma {:induction false} ChainCount(level: nat)
    requires 0 < level <= 4
    ensures Count(Chain(), 5 - level, level) == level
  {
    ChainRow(level, SLOTS);
    if level > 1 { ChainCount(level - 1); }
  }

  lemma {:induction false} ChainRow(level: nat, n: nat)
    requires 0 < level <= 4 && 0 < n <= SLOTS
    ensures CountTo(Chain(), 5 - level, level, n) == if level > 1 then Count(Chain(), 6 - level, level - 1) else 0
    decreases n
  {
    ChainSlot(level, n - 1);
    if n > 1 { ChainRow(level, n - 1); }
  }

  lemma ChainSlot(level: nat, i: nat)
    requires 0 < level <= 4 && i < SLOTS
    ensures var e := Slot(Chain(), 5 - level, i);
      && (Branch(e, level) <==> i == 0 && level > 1)
      && (i == 0 ==> e.addr == 6 - level)
  {
  }

  lemma ChainKeys()
    ensures Chain().Keys == {1, 2, 3, 4}
  {
  }

  lemma {:induction false} ChainWhole(level: nat)
    requires level <= 4
    ensures Whole(Chain(), 5 - level, level)
  {
    if level > 0 { ChainWhole(level - 1); }
  }

  /** A walk collects the flags of every level. */
  lemma ChainWalk()
    ensures var u := Flags(true, true, true, false, 0); Walk(Chain(), 1, 4, [0, 0, 0, 0]) == Hit(5, 1, [u, u, u, u])
    ensures Reaches(Walk(Chain(), 1, 4, [0, 0, 0, 0]), 5)
  {
    var c, u := Chain(), Flags(true, true, true, false, 0);
    assert Slot(c, 1, 0) == Entry(2, u) && Slot(c, 2, 0) == Entry(3, u);
    assert Slot(c, 3, 0) == Entry(4, u) && Slot(c, 4, 0) == Entry(5, u);
    hide Slot, Chain;
    assert Walk(c, 4, 1, [0]) == Hit(5, 1, [u]);
    assert [0, 0][1..] == [0] && [0, 0, 0][1..] == [0, 0] && [0, 0, 0, 0][1..] == [0, 0, 0];
    assert Walk(c, 3, 2, [0, 0]) == Hit(5, 1, [u] + [u]);
    assert Walk(c, 2, 3, [0, 0, 0]) == Hit(5, 1, [u] + [u, u]);
    assert Walk(c, 1, 4, [0, 0, 0, 0]) == Hit(5, 1, [u] + [u, u, u]);
  }

  lemma NonEmpty(s: set<int>)
    ensures s == {} || exists x :: x in s
  {
    if forall x :: x !in s { assert s == {}; }
  }

  /** Physical memory with its frame allocator: an allocation takes any frame of the free set, whatever it holds. */
  class Memory {
    var phys: Phys
    var free: set<int>
    /** Every frame ever given back, as often as it was. */
    ghost var given: multiset<int>

    method NewFromAllocate() returns (f: int, ok: bool)
      modifies this`free
      ensures ok <==> old(free) != {}
      ensures if ok then f in old(free) && free == old(free) - {f} else free == old(free)
    {
      if |free| == 0 { return 0, false; }
      NonEmpty(free);
      f :| f in free;
      free := free - {f};
      ok := true;
    }

    /** Fills `target` with a copy of `source`; fails only if the free frames do not suffice. */
    method NewFromRecursion(source: int, target: int, level: nat) returns (ok: bool)
      requires Ready(phys, free, source, target, level)
      modifies this`phys, this`free
      ensures ok ==> Copied(old(phys), old(free), source, phys, free, target, level, SLOTS)
      ensures ok <==> CountTo(old(phys), source, level, SLOTS) <= |old(free)|
      decreases level
    {
      hide Whole, Tables, Proper, ProperTo, Below, SameTo, WholeTo, CountTo, Count, Agree;
      ghost var p0, free0 := phys, free;
      NothingCopied(p0, free0, source, target, level);
      var n := 0;
      while n < SLOTS
        invariant 0 <= n <= SLOTS
        invariant Copied(p0, free0, source, phys, free, target, level, n)
      {
        SourceKept(p0, free0, source, phys, free, target, level, n);
        SlotKept(p0, phys, source, level, n);
        CountMono(p0, source, level, n + 1, SLOTS);
        var e := Slot(phys, source, n);
        if level == 1 || e == UNUSED || e.flags.huge {
          StepLeaf(p0, free0, source, phys, free, target, level, n);
          phys := Put(phys, target, n, e);
        } else {
          ok := CopyBranch(p0, free0, source, target, level, n);
          if !ok { return false; }
        }
        n := n + 1;
      }
      return true;
    }

    method CopyBranch(ghost p0: Phys, ghost free0: set<int>, source: int, target: int, level: nat,
        n: nat) returns (ok: bool)
      requires Ready(p0, free0, source, target, level) && Copied(p0, free0, source, phys, free, target, level, n)
      requires n < SLOTS
      requires Slot(phys, source, n) == Slot(p0, source, n) && Branch(Slot(p0, source, n), level)
      modifies this`phys, this`free
      ensures ok ==> Copied(p0, free0, source, phys, free, target, level, n + 1)
      ensures ok <==> CountTo(p0, source, level, n + 1) <= |free0|
      decreases level, 0
    {
      hide Whole, Tables, Proper, ProperTo, Below, SameTo, WholeTo, CountTo, Count, Agree;
      var e := Slot(phys, source, n);
      ghost var phys0, free1 := phys, free;
      CountSplit(p0, source, level, n);
      var f;
      f, ok := NewFromAllocate();
      if !ok { return; }
      phys := Put(phys, target, n, Entry(f, e.flags));
      ghost var phys1 := phys;
      ChildReady(p0, free0, source, phys0, free1, target, level, n, f);
      ok := NewFromRecursion(e.addr, f, level - 1);
      if ok { StepBranch(p0, free0, source, phys0, free1, target, level, n, f, phys1, phys, free); }
    }

    /** The address of a fresh table tree that means what `source` means; no result exactly if the free frames are fewer
        than the tables of the source. */
    method DeepCopy(source: int) returns (copy: int, ok: bool)
      requires FramesOk(phys, free) && Whole(phys, source, 4) && Tables(phys, source, 4) !! free
      modifies this`phys, this`free
      ensures ok <==> Count(old(phys), source, 4) <= |old(free)|
      ensures ok ==> Whole(phys, copy, 4) && Proper(phys, copy, 4)
      ensures ok ==> free <= old(free) && Tables(phys, copy, 4) == old(free) - free
      ensures ok ==> Agree(old(phys), phys, old(phys).Keys - Tables(phys, copy, 4))
      ensures ok ==> Tables(phys, source, 4) == Tables(old(phys), source, 4)
      ensures ok ==> SameTree(old(phys), source, phys, copy, 4)
      ensures ok ==> forall va :: Indices(va, 4) ==>
        Walk(phys, copy, 4, va) == Walk(phys, source, 4, va) == Walk(old(phys), source, 4, va)
    {
      hide Whole, Tables, Proper, CountTo, Below, Agree, SameTree, Walk;
      ghost var p0, free0 := phys, free;
      CountRoot(p0, source);
      copy, ok := NewFromAllocate();
      if !ok { return; }
      ghost var free1 := free;
      assert |free1| == |free0| - 1;
      assert Ready(phys, free, source, copy, 4);
      ok := NewFromRecursion(source, copy, 4);
      if ok {
        SourceKept(p0, free1, source, phys, free, copy, 4, SLOTS);
        CopyDone(p0, free1, source, phys, free, copy, 4);
        CopyMeans(p0, source, phys, copy);
      }
    }

    /** Gives back the tables under `t`, each once if none serves twice, and the frames behind its user pages. */
    method FreePagesRecursion(t: int, level: nat)
      requires Whole(phys, t, level)
      modifies this`free, this`given
      ensures free == old(free) + Tables(phys, t, level) + Distinct(Pages(phys, t, level))
      ensures Proper(phys, t, level) ==> given == old(given) + multiset(Tables(phys, t, level)) + Pages(phys, t, level)
      decreases level
    {
      if level == 0 {
        Deallocate(t);
        return;
      }
      hide Whole, Tables, Proper, ProperTo, Below, Pages, PagesTo, Distinct, Under, PagesAt, FreedTo;
      ghost var free0, given0 := free, given;
      NothingFreed(phys, t, level, free0, given0);
      var n := 0;
      while n < SLOTS
        invariant 0 <= n <= SLOTS
        invariant FreedTo(phys, t, level, n, free0, given0, free, given)
      {
        ghost var free1, given1 := free, given;
        FreeEntry(t, level, n);
        FreedStep(phys, t, level, n, free0, given0, free1, given1, free, given);
        n := n + 1;
      }
      FreedAll(phys, t, level, free0, given0, free, given);
      Deallocate(t);
    }

    /** What one entry of a table leads to is given back. */
    method FreeEntry(t: int, level: nat, n: nat)
      requires level > 0 && Whole(phys, t, level) && n < SLOTS
      modifies this`free, this`given
      ensures free ==
        old(free) + Under(phys, Slot(phys, t, n), level) + Distinct(PagesAt(phys, Slot(phys, t, n), level))
      ensures (Branch(Slot(phys, t, n), level) ==> Proper(phys, Slot(phys, t, n).addr, level - 1)) ==>
        given == old(given) + multiset(Under(phys, Slot(phys, t, n), level)) + PagesAt(phys, Slot(phys, t, n), level)
      decreases level, 0
    {
      hide Whole, Tables, Proper, Pages;
      var e := Slot(phys, t, n);
      assert Distinct(multiset{}) == {};
      if e == UNUSED { return; }
      if level == 1 || e.flags.huge {
        if e.flags.present && e.flags.writable && e.flags.user {
          // the frame of an entry is known if it is present and not huge
          if e.flags.present && !e.flags.huge {
            Deallocate(e.addr);
            assert Distinct(multiset{e.addr}) == {e.addr};
          }
        }
      } else {
        ChildWhole(phys, t, level, n);
        FreePagesRecursion(e.addr, level - 1);
      }
    }

    method FreeUserPageTable(t: int)
      requires Whole(phys, t, 4)
      modifies this`free, this`given
      ensures free == old(free) + Tables(phys, t, 4) + Distinct(Pages(phys, t, 4))
      ensures Proper(phys, t, 4) ==> given == old(given) + multiset(Tables(phys, t, 4)) + Pages(phys, t, 4)
    {
      FreePagesRecursion(t, 4);
    }

    /** A copy made and freed again: the free set gains exactly the user pages of the source, so it is restored if and
        only if those were free already, in particular if there are none. */
    method CopyThenFree(source: int) returns (ok: bool)
      requires FramesOk(phys, free) && Whole(phys, source, 4) && Tables(phys, source, 4) !! free
      modifies this
      ensures ok <==> Count(old(phys), source, 4) <= |old(free)|
      ensures ok ==> free == old(free) + Distinct(Pages(old(phys), source, 4))
      ensures ok ==> (free == old(free) <==> Distinct(Pages(old(phys), source, 4)) <= old(free))
    {
      hide Whole, Tables, Proper, Count, Agree, SameTree, Walk, Pages, Distinct;
      ghost var p0 := phys;
      var copy;
      copy, ok := DeepCopy(source);
      if ok {
        SamePages(p0, source, phys, copy, 4);
        FreeUserPageTable(copy);
      }
    }

    method Deallocate(f: int)
      modifies this`free, this`given
      ensures free == old(free) + {f} && given == old(given) + multiset{f}
    {
      free, given := free + {f}, given + multiset{f};
    }
  }
}
