/** Four-level page tables in physical memory: what they mean, which frames they take, how they are copied and freed. */
module Paging {

  const SLOTS: nat := 512

  datatype Flags = Flags(present: bool, writable: bool, user: bool, huge: bool, other: bv64)

  datatype Entry = Entry(addr: int, flags: Flags)

  const UNUSED: Entry := Entry(0, Flags(false, false, false, false, 0))

  const ADDRESS: bv64 := 0x000f_ffff_ffff_f000

  /** The entry that the 64 bits `raw` stand for: bits 0, 1, 2 and 7 are the flags PRESENT, WRITABLE, USER_ACCESSIBLE
      and HUGE_PAGE, bits 12 to 51 the address. */
  function Decode(raw: bv64): Entry
  {
    Entry((raw & ADDRESS) as int,
      Flags(raw & 1 != 0, raw & 2 != 0, raw & 4 != 0, raw & 128 != 0, raw & !ADDRESS & !0x87))
  }

  /** Physical memory as far as it holds page tables: frame address to entries. */
  type Phys = map<int, seq<Entry>>

  function Slot(phys: Phys, t: int, i: int): Entry
  {
    if t in phys && 0 <= i < |phys[t]| then phys[t][i] else UNUSED
  }

  /** The entry leads to a table of the next level. */
  predicate Branch(e: Entry, level: nat) { level > 1 && e != UNUSED && !e.flags.huge }

  // ---------------------------------------------------------------- what a table means

  /** The outcome of a table walk: the flags passed on the way and, if it did not end at an unused entry, the
      address and level of the last entry. */
  datatype Walked = Miss(path: seq<Flags>) | Hit(addr: int, level: nat, path: seq<Flags>)

  function Passing(flags: Flags, w: Walked): Walked
  {
    match w
    case Miss(path) => Miss([flags] + path)
    case Hit(addr, level, path) => Hit(addr, level, [flags] + path)
  }

  /** The walk for the virtual address whose table indices are `va`, highest level first. */
  function Walk(phys: Phys, t: int, level: nat, va: seq<int>): Walked
    requires |va| == level
    decreases level
  {
    if level == 0 then Miss([])
    else
      var e := Slot(phys, t, va[0]);
      if e == UNUSED then Miss([])
      else if Branch(e, level) then Passing(e.flags, Walk(phys, e.addr, level - 1, va[1..]))
      else Hit(e.addr, level, [e.flags])
  }

  // ---------------------------------------------------------------- the frames of a table

  /** The frames of all tables under `t`, itself included. */
  ghost function Tables(phys: Phys, t: int, level: nat): set<int>
    decreases level, 2, 0
  {
    if level == 0 then {t} else {t} + Below(phys, t, level, SLOTS)
  }

  /** The frames under the first `n` slots of `t`. */
  ghost function Below(phys: Phys, t: int, level: nat, n: nat): set<int>
    decreases level, 1, n
  {
    if n == 0 then {} else Below(phys, t, level, n - 1) + Under(phys, Slot(phys, t, n - 1), level)
  }

  ghost function Under(phys: Phys, e: Entry, level: nat): set<int>
    decreases level, 0, 0
  {
    if Branch(e, level) then Tables(phys, e.addr, level - 1) else {}
  }

  /** Every table of the tree is there in full. */
  ghost predicate Whole(phys: Phys, t: int, level: nat)
    decreases level
  {
    level > 0 ==>
      && t in phys && |phys[t]| == SLOTS
      && forall i :: 0 <= i < SLOTS && Branch(Slot(phys, t, i), level) ==> Whole(phys, Slot(phys, t, i).addr, level - 1)
  }

  /** No frame serves twice in the tree. */
  ghost predicate Proper(phys: Phys, t: int, level: nat)
    decreases level, 2, 0
  {
    level == 0 || ProperTo(phys, t, level, SLOTS)
  }

  ghost predicate ProperTo(phys: Phys, t: int, level: nat, n: nat)
    decreases level, 1, n
  {
    n == 0 ||
      (&& ProperTo(phys, t, level, n - 1)
       && (Branch(Slot(phys, t, n - 1), level) ==>
             && Proper(phys, Slot(phys, t, n - 1).addr, level - 1)
             && Under(phys, Slot(phys, t, n - 1), level) !! ({t} + Below(phys, t, level, n - 1))))
  }

  /** The frames in `s` hold the same entries. */
  ghost predicate Agree(phys: Phys, phys': Phys, s: set<int>)
  {
    forall f :: f in s ==> f in phys && f in phys' && phys'[f] == phys[f]
  }

  lemma {:induction false} UnderBelow(phys: Phys, t: int, level: nat, i: nat, n: nat)
    requires i < n
    ensures Under(phys, Slot(phys, t, i), level) <= Below(phys, t, level, n)
    decreases n
  {
    if i < n - 1 { UnderBelow(phys, t, level, i, n - 1); }
  }

  /** Tables depend only on their own frames. */
  lemma {:induction false} TablesFrame(phys: Phys, phys': Phys, t: int, level: nat)
    requires Whole(phys, t, level) && Agree(phys, phys', Tables(phys, t, level))
    ensures Whole(phys', t, level) && Tables(phys', t, level) == Tables(phys, t, level)
    ensures (Proper(phys, t, level) ==> Proper(phys', t, level))
    decreases level, 1, 0
  {
    if level > 0 {
      BelowFrame(phys, phys', t, level, SLOTS);
      forall i | 0 <= i < SLOTS && Branch(Slot(phys', t, i), level)
        ensures Whole(phys', Slot(phys', t, i).addr, level - 1)
      {
        UnderBelow(phys, t, level, i, SLOTS);
        TablesFrame(phys, phys', Slot(phys, t, i).addr, level - 1);
      }
    }
  }

  lemma {:induction false} BelowFrame(phys: Phys, phys': Phys, t: int, level: nat, n: nat)
    requires level > 0 && n <= SLOTS && Whole(phys, t, level) && Agree(phys, phys', Tables(phys, t, level))
    ensures Below(phys', t, level, n) == Below(phys, t, level, n)
    ensures (ProperTo(phys, t, level, n) ==> ProperTo(phys', t, level, n))
    decreases level, 0, n
  {
    if n > 0 {
      BelowFrame(phys, phys', t, level, n - 1);
      assert Slot(phys', t, n - 1) == Slot(phys, t, n - 1);
      UnderBelow(phys, t, level, n - 1, SLOTS);
      if Branch(Slot(phys, t, n - 1), level) { TablesFrame(phys, phys', Slot(phys, t, n - 1).addr, level - 1); }
    }
  }

  /** Walks depend only on the frames of the tree. */
  lemma {:induction false} WalkFrame(phys: Phys, phys': Phys, t: int, level: nat, va: seq<int>)
    requires Whole(phys, t, level) && Agree(phys, phys', Tables(phys, t, level))
    requires |va| == level && forall k :: 0 <= k < |va| ==> 0 <= va[k] < SLOTS
    ensures Walk(phys', t, level, va) == Walk(phys, t, level, va)
    decreases level
  {
    if level > 0 {
      var e := Slot(phys, t, va[0]);
      assert Slot(phys', t, va[0]) == e;
      if Branch(e, level) {
        UnderBelow(phys, t, level, va[0], SLOTS);
        WalkFrame(phys, phys', e.addr, level - 1, va[1..]);
      }
    }
  }

  // ---------------------------------------------------------------- trees that mean the same

  /** The two trees agree slot by slot: leaves and unused entries are equal, branches have equal flags. */
  ghost predicate SameTree(p1: Phys, t1: int, p2: Phys, t2: int, level: nat)
    decreases level, 1
  {
    level > 0 ==> forall i :: 0 <= i < SLOTS ==> SameEntry(p1, Slot(p1, t1, i), p2, Slot(p2, t2, i), level)
  }

  ghost predicate SameEntry(p1: Phys, e1: Entry, p2: Phys, e2: Entry, level: nat)
    decreases level, 0
  {
    if Branch(e1, level) then e2.flags == e1.flags && Branch(e2, level) && SameTree(p1, e1.addr, p2, e2.addr, level - 1)
    else e2 == e1
  }

  /** Trees that agree translate every virtual address alike, with the same flags all the way. */
  lemma {:induction false} SameWalk(p1: Phys, t1: int, p2: Phys, t2: int, level: nat, va: seq<int>)
    requires SameTree(p1, t1, p2, t2, level)
    requires |va| == level && forall k :: 0 <= k < |va| ==> 0 <= va[k] < SLOTS
    ensures Walk(p2, t2, level, va) == Walk(p1, t1, level, va)
    decreases level
  {
    if level > 0 {
      var e1, e2 := Slot(p1, t1, va[0]), Slot(p2, t2, va[0]);
      assert SameEntry(p1, e1, p2, e2, level);
      if Branch(e1, level) { SameWalk(p1, e1.addr, p2, e2.addr, level - 1, va[1..]); }
    }
  }

  /** Agreement survives changes elsewhere. */
  lemma {:induction false} SameTreeFrame(p1: Phys, t1: int, p2: Phys, p2': Phys, t2: int, level: nat)
    requires SameTree(p1, t1, p2, t2, level) && Whole(p2, t2, level) && Agree(p2, p2', Tables(p2, t2, level))
    ensures SameTree(p1, t1, p2', t2, level)
    decreases level
  {
    if level > 0 {
      forall i | 0 <= i < SLOTS
        ensures SameEntry(p1, Slot(p1, t1, i), p2', Slot(p2', t2, i), level)
      {
        var e1, e2 := Slot(p1, t1, i), Slot(p2, t2, i);
        assert SameEntry(p1, e1, p2, e2, level);
        assert Slot(p2', t2, i) == e2;
        if Branch(e1, level) {
          UnderBelow(p2, t2, level, i, SLOTS);
          SameTreeFrame(p1, e1.addr, p2, p2', e2.addr, level - 1);
        }
      }
    }
  }

  lemma {:induction false} SameSourceFrame(p1: Phys, p1': Phys, t1: int, p2: Phys, t2: int, level: nat)
    requires SameTree(p1', t1, p2, t2, level) && Whole(p1, t1, level) && Agree(p1, p1', Tables(p1, t1, level))
    ensures SameTree(p1, t1, p2, t2, level)
    decreases level
  {
    if level > 0 {
      forall i | 0 <= i < SLOTS
        ensures SameEntry(p1, Slot(p1, t1, i), p2, Slot(p2, t2, i), level)
      {
        var e1, e2 := Slot(p1, t1, i), Slot(p2, t2, i);
        assert Slot(p1', t1, i) == e1;
        assert SameEntry(p1', e1, p2, e2, level);
        if Branch(e1, level) {
          UnderBelow(p1, t1, level, i, SLOTS);
          SameSourceFrame(p1, p1', e1.addr, p2, e2.addr, level - 1);
        }
      }
    }
  }

  // ---------------------------------------------------------------- counting tables

  /** The number of tables met when walking the whole tree. */
  ghost function Count(phys: Phys, t: int, level: nat): nat
    decreases level, 2, 0
  {
    if level == 0 then 1 else 1 + CountTo(phys, t, level, SLOTS)
  }

  ghost function CountTo(phys: Phys, t: int, level: nat, n: nat): nat
    decreases level, 1, n
  {
    if n == 0 then 0 else CountTo(phys, t, level, n - 1) + CountAt(phys, Slot(phys, t, n - 1), level)
  }

  ghost function CountAt(phys: Phys, e: Entry, level: nat): nat
    decreases level, 0, 0
  {
    if Branch(e, level) then Count(phys, e.addr, level - 1) else 0
  }

  lemma {:induction false} CountMono(phys: Phys, t: int, level: nat, n: nat, m: nat)
    requires n <= m
    ensures CountTo(phys, t, level, n) <= CountTo(phys, t, level, m)
    decreases m
  {
    if n < m { CountMono(phys, t, level, n, m - 1); }
  }

  lemma {:induction false} CountFrame(phys: Phys, phys': Phys, t: int, level: nat)
    requires Whole(phys, t, level) && Agree(phys, phys', Tables(phys, t, level))
    ensures Count(phys', t, level) == Count(phys, t, level)
    decreases level, 1, 0
  {
    if level > 0 { CountToFrame(phys, phys', t, level, SLOTS); }
  }

  lemma {:induction false} CountToFrame(phys: Phys, phys': Phys, t: int, level: nat, n: nat)
    requires level > 0 && n <= SLOTS && Whole(phys, t, level) && Agree(phys, phys', Tables(phys, t, level))
    ensures CountTo(phys', t, level, n) == CountTo(phys, t, level, n)
    decreases level, 0, n
  {
    if n > 0 {
      CountToFrame(phys, phys', t, level, n - 1);
      assert Slot(phys', t, n - 1) == Slot(phys, t, n - 1);
      UnderBelow(phys, t, level, n - 1, SLOTS);
      if Branch(Slot(phys, t, n - 1), level) { CountFrame(phys, phys', Slot(phys, t, n - 1).addr, level - 1); }
    }
  }

  /** Where no frame serves twice the count is the number of frames. */
  lemma {:induction false} CountIsCard(phys: Phys, t: int, level: nat)
    requires Proper(phys, t, level)
    ensures Count(phys, t, level) == |Tables(phys, t, level)|
    decreases level, 1, 0
  {
    if level > 0 {
      CountToIsCard(phys, t, level, SLOTS);
      assert |{t} + Below(phys, t, level, SLOTS)| == 1 + |Below(phys, t, level, SLOTS)|;
    }
  }

  lemma {:induction false} CountToIsCard(phys: Phys, t: int, level: nat, n: nat)
    requires level > 0 && ProperTo(phys, t, level, n)
    ensures CountTo(phys, t, level, n) == |Below(phys, t, level, n)| && t !in Below(phys, t, level, n)
    decreases level, 0, n
  {
    if n > 0 {
      CountToIsCard(phys, t, level, n - 1);
      var e := Slot(phys, t, n - 1);
      if Branch(e, level) {
        CountIsCard(phys, e.addr, level - 1);
        var a, b := Below(phys, t, level, n - 1), Under(phys, e, level);
        assert a !! b;
        assert |a + b| == |a| + |b|;
      }
    }
  }

  // ---------------------------------------------------------------- user pages

  /** A 4 KiB leaf mapped for user code or data; a set bit 7 hides the frame from the walk. */
  predicate UserPage(flags: Flags) { flags.present && flags.writable && flags.user && !flags.huge }

  /** In terms of bits: unused is zero, a user page has the bits of the `UserCode` mapping and not bit 7, and a table of
      the next level follows where neither the level nor bit 7 says otherwise. */
  lemma DecodedBits(raw: bv64, level: nat)
    ensures Decode(raw) == UNUSED <==> raw == 0
    ensures UserPage(Decode(raw).flags) <==> raw & 0x87 == 0x07
    ensures Branch(Decode(raw), level) <==> level > 1 && raw != 0 && raw & 0x80 == 0
  {
    ZeroAddress(raw);
    AllParts(raw);
    UserBits(raw);
  }

  lemma ZeroAddress(raw: bv64)
    ensures (raw & ADDRESS) as int == 0 <==> raw & ADDRESS == 0
  {
  }

  lemma AllParts(raw: bv64)
    ensures raw == 0 <==>
      && raw & ADDRESS == 0 && raw & 1 == 0 && raw & 2 == 0 && raw & 4 == 0 && raw & 128 == 0
      && raw & !ADDRESS & !0x87 == 0
  {
    ThreeParts(raw);
    LowBits(raw);
    if raw & ADDRESS == 0 && raw & 0x87 == 0 && raw & !ADDRESS & !0x87 == 0 {
      assert raw == (0 as bv64) | 0 | 0;
    }
  }

  lemma ThreeParts(raw: bv64)
    ensures raw == (raw & ADDRESS) | (raw & 0x87) | (raw & !ADDRESS & !0x87)
  {
  }

  lemma LowBits(raw: bv64)
    ensures raw & 0x87 == 0 <==> raw & 1 == 0 && raw & 2 == 0 && raw & 4 == 0 && raw & 128 == 0
  {
  }

  lemma UserBits(raw: bv64)
    ensures raw & 0x87 == 0x07 <==> raw & 1 != 0 && raw & 2 != 0 && raw & 4 != 0 && raw & 128 == 0
  {
  }

  /** The frames behind the user pages of the tree, as often as they are mapped. */
  ghost function Pages(phys: Phys, t: int, level: nat): multiset<int>
    decreases level, 2, 0
  {
    if level == 0 then multiset{} else PagesTo(phys, t, level, SLOTS)
  }

  ghost function PagesTo(phys: Phys, t: int, level: nat, n: nat): multiset<int>
    decreases level, 1, n
  {
    if n == 0 then multiset{} else PagesTo(phys, t, level, n - 1) + PagesAt(phys, Slot(phys, t, n - 1), level)
  }

  ghost function PagesAt(phys: Phys, e: Entry, level: nat): multiset<int>
    decreases level, 0, 0
  {
    if Branch(e, level) then Pages(phys, e.addr, level - 1)
    else if level == 1 && e != UNUSED && UserPage(e.flags) then multiset{e.addr}
    else multiset{}
  }

  /** Trees that agree map the same user pages equally often. */
  lemma {:induction false} SamePages(p1: Phys, t1: int, p2: Phys, t2: int, level: nat)
    requires SameTree(p1, t1, p2, t2, level)
    ensures Pages(p2, t2, level) == Pages(p1, t1, level)
    decreases level, 1, 0
  {
    if level > 0 { SamePagesTo(p1, t1, p2, t2, level, SLOTS); }
  }

  lemma {:induction false} SamePagesTo(p1: Phys, t1: int, p2: Phys, t2: int, level: nat, n: nat)
    requires level > 0 && n <= SLOTS && SameTree(p1, t1, p2, t2, level)
    ensures PagesTo(p2, t2, level, n) == PagesTo(p1, t1, level, n)
    decreases level, 0, n
  {
    if n > 0 {
      SamePagesTo(p1, t1, p2, t2, level, n - 1);
      var e1, e2 := Slot(p1, t1, n - 1), Slot(p2, t2, n - 1);
      assert SameEntry(p1, e1, p2, e2, level);
      if Branch(e1, level) { SamePages(p1, e1.addr, p2, e2.addr, level - 1); }
    }
  }

  /** The walk ends at a user page in frame `f`. */
  predicate Reaches(w: Walked, f: int)
  {
    w.Hit? && w.addr == f && w.level == 1 && |w.path| > 0 && UserPage(w.path[|w.path| - 1])
  }

  ghost predicate Indices(va: seq<int>,
      level: nat) { |va| == level && forall k :: 0 <= k < |va| ==> 0 <= va[k] < SLOTS }

  /** The frames behind user pages are exactly those some virtual address reaches as a user page. */
  lemma {:induction false} PagesAreReached(phys: Phys, t: int, level: nat, f: int)
    ensures f in Pages(phys, t, level) <==> exists va :: Indices(va, level) && Reaches(Walk(phys, t, level, va), f)
    decreases level
  {
    if f in Pages(phys, t, level) { var _ := PageAddress(phys, t, level, SLOTS, f); }
    forall va | Indices(va, level) && Reaches(Walk(phys, t, level, va), f)
      ensures f in Pages(phys, t, level)
    {
      AddressPage(phys, t, level, va, f);
    }
  }

  lemma {:induction false} AddressPage(phys: Phys, t: int, level: nat, va: seq<int>, f: int)
    requires Indices(va, level) && Reaches(Walk(phys, t, level, va), f)
    ensures f in Pages(phys, t, level)
    decreases level
  {
    var e := Slot(phys, t, va[0]);
    if Branch(e, level) {
      var w := Walk(phys, e.addr, level - 1, va[1..]);
      PassingReaches(e.flags, w, f);
      AddressPage(phys, e.addr, level - 1, va[1..], f);
    }
    PagesAtBelow(phys, t, level, va[0], SLOTS, f);
  }

  lemma PassingReaches(flags: Flags, w: Walked, f: int)
    requires w.Hit? ==> |w.path| > 0
    ensures Reaches(Passing(flags, w), f) <==> Reaches(w, f)
  {
    if w.Hit? { assert ([flags] + w.path)[|w.path|] == w.path[|w.path| - 1]; }
  }

  lemma {:induction false} PagesAtBelow(phys: Phys, t: int, level: nat, i: nat, n: nat, f: int)
    requires i < n && f in PagesAt(phys, Slot(phys, t, i), level)
    ensures f in PagesTo(phys, t, level, n)
    decreases n
  {
    if i < n - 1 { PagesAtBelow(phys, t, level, i, n - 1, f); }
  }

  lemma {:induction false} PageAddress(phys: Phys, t: int, level: nat, n: nat, f: int) returns (va: seq<int>)
    requires n <= SLOTS && f in PagesTo(phys, t, level, n) && level > 0
    ensures Indices(va, level) && Reaches(Walk(phys, t, level, va), f)
    decreases level, n
  {
    var e := Slot(phys, t, n - 1);
    if f in PagesTo(phys, t, level, n - 1) {
      va := PageAddress(phys, t, level, n - 1, f);
    } else if Branch(e, level) {
      assert f in PagesAt(phys, e, level) && f in Pages(phys, e.addr, level - 1);
      var rest := PageAddress(phys, e.addr, level - 1, SLOTS, f);
      va := [n - 1] + rest;
      assert va[1..] == rest;
      PassingReaches(e.flags, Walk(phys, e.addr, level - 1, rest), f);
    } else {
      va := [n - 1];
    }
  }
}
