/** Size arithmetic of the allocator on a 64-bit target: alignment, request padding, the largest
    honoured request, and the index of the tree bin that a chunk size selects. */
module Sizes {
  import opened Bits

  const ALIGN: int := 16            // malloc_alignment
  const OVERHEAD: int := 8          // chunk_overhead
  const MIN_CHUNK: int := 32        // min_chunk_size
  const MEM_OFFSET: int := 16       // payload address minus chunk address
  const MIN_REQUEST: int := 23      // min_request
  const MAX_SMALL_REQUEST: int := 232
  const MIN_LARGE: int := 256
  const GRANULARITY: int := 0x1_0000
  const TRIM_THRESHOLD: int := 0x20_0000
  const RELEASE_RATE: int := 4095
  const SEGMENT_CHUNK: int := 48    // pad_request(size_of::<Segment>())
  const TOP_FOOT: int := 80         // top_foot_size
  const WORD: int := 0x1_0000_0000_0000_0000

  /** Rounding up to a multiple of `alignment`; for a power of two, `(a + (alignment - 1)) & !(alignment - 1)`. */
  function AlignUp(a: nat, alignment: nat): (r: nat)
    requires alignment > 0
    ensures r % alignment == 0
    ensures a <= r < a + alignment
    ensures a % alignment == 0 ==> r == a
  {
    var q := (a + (alignment - 1)) / alignment;
    RoundUp(a, alignment, q);
    q * alignment
  }

  lemma RoundUp(a: nat, al: nat, q: nat)
    requires al > 0 && q == (a + (al - 1)) / al
    ensures a <= q * al < a + al
    ensures (q * al) % al == 0
    ensures a % al == 0 ==> q * al == a
  {
    var r := (a + (al - 1)) % al;
    assert a + (al - 1) == q * al + r;
    ModUnique(q * al, al, q, 0);
    if a % al == 0 {
      ModUnique(a + (al - 1), al, a / al, al - 1);
    }
  }

  lemma Times(a: int, m: int, k: int)
    requires m > 0 && a == m * k
    ensures a % m == 0 && a / m == k
  {
    ModUnique(a, m, k, 0);
  }

  /** Sums and differences of multiples of 16. */
  lemma Mod16(a: int, b: int)
    requires a % 16 == 0 && b % 16 == 0
    ensures (a + b) % 16 == 0 && (a - b) % 16 == 0 && a % 8 == 0 && (a + 8) % 8 == 0 && (a - b) % 8 == 0
    ensures (a + b) % 8 == 0
  {
    var i, j := a / 16, b / 16;
    assert a == 16 * i && b == 16 * j;
    Times(a + b, 16, i + j);
    Times(a - b, 16, i - j);
    Times(a, 8, 2 * i);
    Times(a + 8, 8, 2 * i + 1);
    Times(a - b, 8, 2 * i - 2 * j);
    Times(a + b, 8, 2 * i + 2 * j);
  }

  function PadRequest(amt: nat): (r: nat)
    ensures r % 16 == 0 && amt + OVERHEAD <= r < amt + OVERHEAD + 16
  {
    AlignUp(amt + OVERHEAD, ALIGN)
  }

  /** The chunk size that serves a request. */
  function Request2Size(req: nat): (r: nat)
    ensures r % 16 == 0 && r >= MIN_CHUNK
    ensures req + OVERHEAD <= r
    ensures r == MIN_CHUNK || r < req + OVERHEAD + 16
    ensures req <= MAX_SMALL_REQUEST ==> r <= 240
    ensures req > MAX_SMALL_REQUEST ==> r >= MIN_LARGE && r == PadRequest(req)
  {
    if req < MIN_REQUEST then MIN_CHUNK else PadRequest(req)
  }

  /** `max_request`, computed in 64-bit words exactly as written. */
  function MaxRequestWord(): bv64
  {
    var minSysAllocSpace: bv64 := ((!(0 as bv64) - (0x1_0000 + 80 + 16) + 1) & !(16 as bv64)) - 8 + 1;
    var other: bv64 := (!(32 as bv64) + 1) << 2;
    if other < minSysAllocSpace then other else minSysAllocSpace
  }

  const MAX_REQUEST: int := WORD - 65639

  lemma MaxRequestValue()
    ensures MaxRequestWord() == 0xFFFF_FFFF_FFFE_FF99
    ensures MAX_REQUEST == 0xFFFF_FFFF_FFFE_FF99
  {
  }

  /** The word-sized sum that `align_up` forms inside `sys_alloc` for a request of `size` bytes. */
  function SysAllocSum(size: nat): nat
  {
    PadRequest(size) + TOP_FOOT + ALIGN + (GRANULARITY - 1)
  }

  /** `max_request` is the exact overflow bound: a request stays within 64 bits on its whole way
      into the system request if and only if it is below `max_request`. */
  lemma MaxRequestIsExact(size: nat)
    ensures SysAllocSum(size) < WORD <==> size < MAX_REQUEST
    ensures size < MAX_REQUEST ==> size + OVERHEAD + (ALIGN - 1) < WORD
  {
    var r := PadRequest(size);
    if size < MAX_REQUEST {
      assert r <= WORD - 65632;
    } else {
      assert r >= WORD - 65631;
    }
  }

  // ---------------------------------------------------------------- small bins

  predicate IsSmall(size: nat) { size < MIN_LARGE }

  function SmallIndex(size: nat): nat { size / 8 }

  // ---------------------------------------------------------------- tree bins

  function Log2(x: nat): nat
    requires x > 0
  {
    if x == 1 then 0 else 1 + Log2(x / 2)
  }

  function TreeIndex(size: nat): nat
  {
    var x := Shr(size, 8);
    if x == 0 then 0
    else if x > 0xffff then 31
    else
      var k := Log2(x);
      2 * k + Shr(size, k + 7) % 2
  }

  function MinSize(i: nat): nat
  {
    Pow2(i / 2 + 8) + (i % 2) * Pow2(i / 2 + 7)
  }

  /** `leftshift_for_tree_index` */
  function LeftShift(i: nat): nat
    requires i < 32
  {
    if i == 31 then 0 else 63 - (i / 2 + 6)
  }

  /** The highest bit on which two sizes of bin `i` can differ. */
  function TopBit(i: nat): nat
    requires i < 32
  {
    63 - LeftShift(i)
  }

  lemma DoubleFactor(v: int, p: int)
    ensures v * (2 * p) == 2 * (v * p)
  {
  }

  lemma {:induction false} ShrRange(s: nat, n: nat)
    ensures Shr(s, n) * Pow2(n) <= s < (Shr(s, n) + 1) * Pow2(n)
    decreases n
  {
    if n > 0 {
      ShrRange(s / 2, n - 1);
      var v := Shr(s / 2, n - 1);
      DoubleFactor(v, Pow2(n - 1));
      DoubleFactor(v + 1, Pow2(n - 1));
    } else {
      assert Pow2(0) == 1;
      assert Shr(s, 0) * 1 == s;
    }
  }

  lemma {:induction false} ShrShr(s: nat, m: nat, n: nat)
    ensures Shr(Shr(s, m), n) == Shr(s, m + n)
    decreases m
  {
    if m > 0 { ShrShr(s / 2, m - 1, n); }
  }

  /** Dropping one place fewer appends the next bit. */
  lemma ShrStep(s: nat, n: nat)
    ensures Shr(s, n) == 2 * Shr(s, n + 1) + (if BitAt(s, n) then 1 else 0)
  {
    ShrShr(s, n, 1);
    assert Shr(Shr(s, n), 1) == Shr(s, n) / 2;
    ShrBit(s, n, 0);
  }

  lemma {:induction false} ShrMono(a: nat, b: nat, n: nat)
    requires a <= b
    ensures Shr(a, n) <= Shr(b, n)
    decreases n
  {
    if n > 0 { ShrMono(a / 2, b / 2, n - 1); }
  }

  lemma {:induction false} Log2Range(x: nat)
    requires x > 0
    ensures Shr(x, Log2(x)) == 1
    ensures Pow2(Log2(x)) <= x < 2 * Pow2(Log2(x))
  {
    if x > 1 { Log2Range(x / 2); }
  }

  lemma {:induction false} PowMono(a: nat, b: nat)
    requires a <= b
    ensures Pow2(a) <= Pow2(b)
  {
    if a < b { PowMono(a, b - 1); }
  }

  lemma Pow16()
    ensures Pow2(8) == 0x100 && Pow2(16) == 0x1_0000
  {
    assert Pow2(8) == 0x100;
    PowAdd(8, 8);
  }

  lemma Log2Below16(x: nat)
    requires 0 < x <= 0xffff
    ensures Log2(x) <= 15
  {
    Log2Range(x);
    Pow16();
    if Log2(x) >= 16 { PowMono(16, Log2(x)); }
  }

  /** For a chunk below the last bin, the bits above the discriminating ones spell the bin index. */
  lemma TreeIndexPrefix(size: nat)
    requires MIN_LARGE <= size
    ensures TreeIndex(size) < 32
    ensures Shr(size, 8) <= 0xffff ==> Shr(size, TreeIndex(size) / 2 + 7) == 2 + TreeIndex(size) % 2
  {
    var x := Shr(size, 8);
    ShrRange(size, 8);
    assert Pow2(8) == 256;
    if x <= 0xffff {
      var k := Log2(x);
      Log2Below16(x);
      Log2Range(x);
      ShrShr(size, 8, k);
      ShrStep(size, k + 7);
      ShrBit(size, k + 7, 0);
      var i := TreeIndex(size);
      assert i / 2 == k;
    }
  }

  lemma {:induction false} MinSizeStep(i: nat)
    ensures MinSize(i) == (2 + i % 2) * Pow2(i / 2 + 7)
    ensures MinSize(i) + Pow2(i / 2 + 7) == MinSize(i + 1)
  {
    assert Pow2(i / 2 + 8) == 2 * Pow2(i / 2 + 7);
    assert Pow2(i / 2 + 9) == 4 * Pow2(i / 2 + 7);
    if i % 2 == 0 {
      assert (i + 1) / 2 == i / 2;
    } else {
      assert (i + 1) / 2 == i / 2 + 1;
    }
  }

  lemma {:induction false} MinSizeMono(i: nat, j: nat)
    requires i <= j
    ensures MinSize(i) <= MinSize(j)
  {
    if i < j {
      MinSizeStep(j - 1);
      MinSizeMono(i, j - 1);
    }
  }

  /** Bin `i < 31` holds exactly the sizes from `MinSize(i)` up to, not including, `MinSize(i + 1)`;
      bin 31 holds everything from `MinSize(31)` up. */
  lemma TreeIndexRange(size: nat)
    requires MIN_LARGE <= size
    ensures TreeIndex(size) < 32
    ensures MinSize(TreeIndex(size)) <= size
    ensures TreeIndex(size) < 31 ==> size < MinSize(TreeIndex(size) + 1)
  {
    var i := TreeIndex(size);
    TreeIndexPrefix(size);
    if Shr(size, 8) <= 0xffff {
      ShrRange(size, i / 2 + 7);
      MinSizeStep(i);
      assert (3 + i % 2) * Pow2(i / 2 + 7) == (2 + i % 2) * Pow2(i / 2 + 7) + Pow2(i / 2 + 7);
    } else {
      ShrRange(size, 8);
      MinSizeOfLast();
      assert Pow2(8) == 256;
    }
  }

  lemma MinSizeOfLast()
    ensures MinSize(31) == 0xC0_0000
  {
    assert Pow2(10) == 0x400;
    PowAdd(10, 12);
    assert Pow2(12) == 0x1000;
    assert Pow2(22) == 0x40_0000;
  }

  lemma TreeIndexIff(size: nat, i: nat)
    requires MIN_LARGE <= size && i < 31
    ensures TreeIndex(size) == i <==> MinSize(i) <= size < MinSize(i + 1)
  {
    TreeIndexRange(size);
    var j := TreeIndex(size);
    if j < i { MinSizeMono(j + 1, i); }
    if j > i { MinSizeMono(i + 1, j); }
  }

  /** Larger chunks never select a lower bin. */
  lemma TreeIndexMono(a: nat, b: nat)
    requires MIN_LARGE <= a <= b
    ensures TreeIndex(a) <= TreeIndex(b)
  {
    TreeIndexRange(a);
    TreeIndexRange(b);
    if TreeIndex(b) < TreeIndex(a) { MinSizeMono(TreeIndex(b) + 1, TreeIndex(a)); }
  }

  lemma PowWord()
    ensures Pow2(64) == WORD
  {
    Pow16();
    PowAdd(16, 16);
    PowAdd(32, 32);
  }

  lemma WordShift(s: nat)
    requires s < WORD
    ensures Shr(s, 64) == 0
  {
    PowWord();
    ShrUnique(s, 64, 0);
  }

  /** Two word-sized sizes of one bin agree on every bit above `TopBit`. */
  lemma SameBinPrefix(a: nat, b: nat)
    requires MIN_LARGE <= a < WORD && MIN_LARGE <= b < WORD
    requires TreeIndex(a) == TreeIndex(b)
    ensures TreeIndex(a) < 32
    ensures Shr(a, TopBit(TreeIndex(a)) + 1) == Shr(b, TopBit(TreeIndex(a)) + 1)
  {
    TreeIndexPrefix(a);
    TreeIndexPrefix(b);
    if TreeIndex(a) == 31 {
      WordShift(a);
      WordShift(b);
    }
  }

  /** `leftshift_for_tree_index` is right and tight: the sizes of a bin below the last share all higher bits,
      and the bin does hold two sizes that differ on the bit it moves to the sign position. */
  lemma LeftShiftIsTight(i: nat)
    requires i < 31
    ensures TreeIndex(MinSize(i)) == i && !BitAt(MinSize(i), TopBit(i))
    ensures TreeIndex(MinSize(i) + Pow2(TopBit(i))) == i && BitAt(MinSize(i) + Pow2(TopBit(i)), TopBit(i))
  {
    hide MinSize, TreeIndex, Pow2, BitAt;
    BinExtremes(i, i / 2 + 6);
    BinExtremeBits(i, i / 2 + 6);
  }

  lemma BinExtremes(i: nat, t: nat)
    requires i < 31 && t == i / 2 + 6
    ensures TreeIndex(MinSize(i)) == i && TreeIndex(MinSize(i) + Pow2(t)) == i
  {
    hide MinSize, TreeIndex, Pow2;
    BinWidth(i);
    TreeIndexIff(MinSize(i), i);
    TreeIndexIff(MinSize(i) + Pow2(t), i);
  }

  lemma BinExtremeBits(i: nat, t: nat)
    requires t == i / 2 + 6
    ensures !BitAt(MinSize(i), t) && BitAt(MinSize(i) + Pow2(t), t)
  {
    hide MinSize, Pow2, BitAt;
    BinWidth(i);
    BitOfMultiple(MinSize(i), t, 4 + 2 * (i % 2));
    BitOfMultiple(MinSize(i) + Pow2(t), t, 5 + 2 * (i % 2));
  }

  lemma BinWidth(i: nat)
    ensures MinSize(i) >= 256
    ensures MinSize(i) == (4 + 2 * (i % 2)) * Pow2(i / 2 + 6)
    ensures MinSize(i) + Pow2(i / 2 + 6) == (5 + 2 * (i % 2)) * Pow2(i / 2 + 6)
    ensures MinSize(i) + 2 * Pow2(i / 2 + 6) == MinSize(i + 1)
  {
    var h := Pow2(i / 2 + 6);
    assert Pow2(i / 2 + 7) == 2 * h;
    MinSizeStep(i);
    MinSizeMono(0, i);
    assert MinSize(0) == 256 by { Pow16(); }
    if i % 2 == 0 {
      assert MinSize(i) == 2 * (2 * h);
    } else {
      assert MinSize(i) == 3 * (2 * h);
    }
  }

  lemma BitOfMultiple(s: nat, t: nat, v: nat)
    requires s == v * Pow2(t)
    ensures BitAt(s, t) <==> v % 2 == 1
  {
    assert (v + 1) * Pow2(t) == v * Pow2(t) + Pow2(t);
    ShrUnique(s, t, v);
    ShrBit(s, t, 0);
  }

  lemma ShrUnique(s: nat, n: nat, v: nat)
    requires v * Pow2(n) <= s < (v + 1) * Pow2(n)
    ensures Shr(s, n) == v
  {
    ShrRange(s, n);
    var u := Shr(s, n);
    MulMono(u + 1, v, Pow2(n));
    MulMono(v + 1, u, Pow2(n));
  }

  lemma MulMono(u: int, v: int, p: nat)
    ensures u <= v ==> u * p <= v * p
  {
    if u <= v { assert v * p - u * p == (v - u) * p; }
  }

  lemma ShlAppend(m: nat, i: nat)
    ensures Shl(64, m, i + 1) == (2 * Shl(64, m, i)) % Pow2(64)
    decreases i
  {
    if i > 0 { ShlAppend((2 * m) % Pow2(64), i - 1); }
  }

  // ---------------------------------------------------------------- trie paths

  /** Size `s` follows the path `path` below the root of a tree whose first discriminating bit is `t`. */
  predicate OnPath(s: nat, t: nat, path: seq<bool>)
  {
    |path| <= t + 1 && forall k :: 0 <= k < |path| ==> path[k] == BitAt(s, t - k)
  }

  lemma {:induction false} SharedPath(a: nat, b: nat, t: nat, path: seq<bool>)
    requires Shr(a, t + 1) == Shr(b, t + 1)
    requires OnPath(a, t, path) && OnPath(b, t, path)
    ensures Shr(a, t + 1 - |path|) == Shr(b, t + 1 - |path|)
    decreases |path|
  {
    if |path| > 0 {
      var k := |path| - 1;
      SharedPath(a, b, t, path[..k]);
      assert path[k] == BitAt(a, t - k) == BitAt(b, t - k);
      ShrStep(a, t - k);
      ShrStep(b, t - k);
    }
  }

  /** Everything in the left subtree of a node is smaller than everything in the right one. */
  lemma LeftBelowRight(a: nat, b: nat, t: nat, path: seq<bool>)
    requires Shr(a, t + 1) == Shr(b, t + 1)
    requires OnPath(a, t, path + [false]) && OnPath(b, t, path + [true])
    ensures a < b
  {
    var k := |path|;
    var l, r := path + [false], path + [true];
    assert l[k] == BitAt(a, t - k) && r[k] == BitAt(b, t - k);
    PathPrefix(a, t, path, false);
    PathPrefix(b, t, path, true);
    SharedPath(a, b, t, path);
    ShrStep(a, t - k);
    ShrStep(b, t - k);
    if a >= b { ShrMono(b, a, t - k); }
  }

  lemma PathPrefix(s: nat, t: nat, path: seq<bool>, c: bool)
    requires OnPath(s, t, path + [c])
    ensures OnPath(s, t, path)
  {
    forall k | 0 <= k < |path|
      ensures path[k] == BitAt(s, t - k)
    {
      assert (path + [c])[k] == path[k];
    }
  }

  /** A full path determines the size. */
  lemma FullPath(a: nat, b: nat, t: nat, path: seq<bool>)
    requires Shr(a, t + 1) == Shr(b, t + 1)
    requires OnPath(a, t, path) && OnPath(b, t, path) && |path| == t + 1
    ensures a == b
  {
    SharedPath(a, b, t, path);
  }
}
