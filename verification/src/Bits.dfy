/** Machine words as natural numbers: powers of two, single bits, and the bin-map helpers
    (`left_bits`, `least_bit`, `trailing_zeros`) with what they say about single bits. */
module Bits {

  function Pow2(n: nat): (r: nat)
    ensures r > 0
  {
    if n == 0 then 1 else 2 * Pow2(n - 1)
  }

  predicate BitAt(m: nat, i: nat)
    decreases i
  {
    if i == 0 then m % 2 == 1 else BitAt(m / 2, i - 1)
  }

  /** Bitwise conjunction. */
  function And(a: nat, b: nat): nat
  {
    if a == 0 then 0 else (a % 2) * (b % 2) + 2 * And(a / 2, b / 2)
  }

  /** Bitwise disjunction. */
  function Or(a: nat, b: nat): nat
    decreases a + b
  {
    if a == 0 then b
    else if b == 0 then a
    else (if a % 2 == 1 || b % 2 == 1 then 1 else 0) + 2 * Or(a / 2, b / 2)
  }

  /** Bitwise complement of a `w`-bit word. */
  function Not(w: nat, x: nat): nat
    requires x < Pow2(w)
  {
    Pow2(w) - 1 - x
  }

  /** Two's complement of a `w`-bit word, `!x + 1` with wrap-around. */
  function Neg(w: nat, x: nat): (r: nat)
    requires x < Pow2(w)
    ensures r < Pow2(w)
  {
    if x == 0 then 0 else Pow2(w) - x
  }

  /** `m >> i`. */
  function Shr(m: nat, i: nat): nat
    decreases i
  {
    if i == 0 then m else Shr(m / 2, i - 1)
  }

  /** `m << i` on a `w`-bit word: bits pushed past the top are lost. */
  function Shl(w: nat, m: nat, i: nat): (r: nat)
    ensures i > 0 || m < Pow2(w) ==> r < Pow2(w)
    decreases i
  {
    if i == 0 then m else Shl(w, (2 * m) % Pow2(w), i - 1)
  }

  function LeftBits(w: nat, x: nat): nat
  {
    Or((2 * x) % Pow2(w), Neg(w, (2 * x) % Pow2(w)))
  }

  function LeastBit(w: nat, x: nat): nat
    requires x < Pow2(w)
  {
    And(x, Neg(w, x))
  }

  function TrailingZeros(x: nat): nat
    requires x > 0
  {
    if x % 2 == 1 then 0 else 1 + TrailingZeros(x / 2)
  }

  lemma {:induction false} PowBit(i: nat, j: nat)
    ensures BitAt(Pow2(i), j) <==> i == j
    decreases j
  {
    if j > 0 {
      if i > 0 { PowBit(i - 1, j - 1); } else { ZeroBit(j - 1); }
    }
  }

  lemma {:induction false} ZeroBit(j: nat)
    ensures !BitAt(0, j)
  {
    if j > 0 { ZeroBit(j - 1); }
  }

  lemma {:induction false} AndBit(a: nat, b: nat, j: nat)
    ensures BitAt(And(a, b), j) <==> BitAt(a, j) && BitAt(b, j)
    decreases j
  {
    if a == 0 {
      ZeroBit(j);
    } else if j > 0 {
      AndBit(a / 2, b / 2, j - 1);
    }
  }

  lemma {:induction false} OrBit(a: nat, b: nat, j: nat)
    ensures BitAt(Or(a, b), j) <==> BitAt(a, j) || BitAt(b, j)
    decreases j
  {
    if a == 0 || b == 0 {
      ZeroBit(j);
    } else if j > 0 {
      OrBit(a / 2, b / 2, j - 1);
    }
  }

  lemma {:induction false} NotBit(w: nat, x: nat, j: nat)
    requires x < Pow2(w)
    ensures BitAt(Not(w, x), j) <==> j < w && !BitAt(x, j)
    decreases j
  {
    if w == 0 {
      ZeroBit(j);
    } else if j > 0 {
      NotBit(w - 1, x / 2, j - 1);
      assert Not(w, x) / 2 == Not(w - 1, x / 2);
    }
  }

  lemma {:induction false} OrBound(w: nat, a: nat, b: nat)
    requires a < Pow2(w) && b < Pow2(w)
    ensures Or(a, b) < Pow2(w)
  {
    if a > 0 && b > 0 { OrBound(w - 1, a / 2, b / 2); }
  }

  lemma {:induction false} AndBound(a: nat, b: nat)
    ensures And(a, b) <= a
  {
    if a > 0 { AndBound(a / 2, b / 2); }
  }

  lemma {:induction false} PowLess(i: nat, w: nat)
    requires i < w
    ensures 2 * Pow2(i) <= Pow2(w)
  {
    if i + 1 < w { PowLess(i, w - 1); }
  }

  /** Marking bin `i` (`map |= 1 << i`) sets that bit only; clearing it (`map &= !(1 << i)`) clears that bit only. */
  lemma MarkAndClear(w: nat, m: nat, i: nat, j: nat)
    requires i < w && m < Pow2(w)
    ensures Pow2(i) < Pow2(w)
    ensures BitAt(Or(m, Pow2(i)), j) <==> BitAt(m, j) || i == j
    ensures BitAt(And(m, Not(w, Pow2(i))), j) <==> j < w && BitAt(m, j) && i != j
    ensures Or(m, Pow2(i)) < Pow2(w) && And(m, Not(w, Pow2(i))) < Pow2(w)
  {
    PowLess(i, w);
    OrBit(m, Pow2(i), j);
    AndBit(m, Not(w, Pow2(i)), j);
    NotBit(w, Pow2(i), j);
    PowBit(i, j);
    OrBound(w, m, Pow2(i));
    AndBound(m, Not(w, Pow2(i)));
  }

  /** Testing `map & (1 << i) != 0` reads bit `i`. */
  lemma {:induction false} TestBit(m: nat, i: nat)
    ensures And(m, Pow2(i)) != 0 <==> BitAt(m, i)
    decreases i
  {
    if m == 0 {
      ZeroBit(i);
    } else if i == 0 {
      AndZero(m / 2);
    } else {
      TestBit(m / 2, i - 1);
    }
  }

  lemma {:induction false} AndZero(m: nat)
    ensures And(m, 0) == 0
  {
    if m > 0 { AndZero(m / 2); }
  }

  lemma {:induction false} ShrBit(m: nat, i: nat, j: nat)
    ensures BitAt(Shr(m, i), j) <==> BitAt(m, i + j)
    decreases i
  {
    if i > 0 { ShrBit(m / 2, i - 1, j); }
  }

  lemma {:induction false} ModBit(w: nat, x: nat, j: nat)
    requires j < w
    ensures BitAt(x % Pow2(w), j) <==> BitAt(x, j)
    decreases j
  {
    HalfMod(x, Pow2(w - 1));
    if j > 0 { ModBit(w - 1, x / 2, j - 1); }
  }

  lemma HalfMod(x: nat, p: nat)
    requires p > 0
    ensures (x % (2 * p)) / 2 == (x / 2) % p
    ensures (x % (2 * p)) % 2 == x % 2
  {
    var q := x / (2 * p);
    var r := x % (2 * p);
    assert x == 2 * p * q + r;
    assert x / 2 == p * q + r / 2 by { assert 2 * p * q == 2 * (p * q); }
    ModUnique(x / 2, p, q, r / 2);
    assert x % 2 == r % 2 by { assert 2 * p * q == 2 * (p * q); }
  }

  lemma MulStep(p: int, d: int)
    requires p > 0
    ensures d >= 1 ==> p * d >= p
    ensures d <= -1 ==> p * d <= -p
  {
  }

  lemma ModUnique(x: int, p: int, q: int, r: int)
    requires p > 0 && 0 <= r < p && x == p * q + r
    ensures x % p == r && x / p == q
  {
    var d := x / p - q;
    assert p * d + (x % p - r) == 0 by { assert x == p * (x / p) + x % p; }
    MulStep(p, d);
  }

  lemma {:induction false} ShlBit(w: nat, m: nat, i: nat, j: nat)
    requires j < w
    ensures BitAt(Shl(w, m, i), j) <==> j >= i && BitAt(m, j - i)
    decreases i
  {
    if i > 0 {
      ShlBit(w, (2 * m) % Pow2(w), i - 1, j);
      if j >= i - 1 {
        var k := j - (i - 1);
        ModBit(w, 2 * m, k);
      }
    }
  }

  lemma {:induction false} NegBits(w: nat, x: nat, j: nat)
    requires 0 < x < Pow2(w)
    ensures TrailingZeros(x) < w
    ensures BitAt(Neg(w, x), j) <==> j < w && (j == TrailingZeros(x) || (j > TrailingZeros(x) && !BitAt(x, j)))
    decreases w
  {
    if x % 2 == 1 {
      if j > 0 {
        assert Neg(w, x) / 2 == Not(w - 1, x / 2);
        NotBit(w - 1, x / 2, j - 1);
      }
    } else {
      NegBits(w - 1, x / 2, if j > 0 then j - 1 else 0);
      assert Neg(w, x) / 2 == Neg(w - 1, x / 2);
    }
  }

  /** `trailing_zeros` is the index of the lowest set bit. */
  lemma {:induction false} TrailingZerosLowest(x: nat)
    requires x > 0
    ensures BitAt(x, TrailingZeros(x))
    ensures forall j: nat :: j < TrailingZeros(x) ==> !BitAt(x, j)
  {
    if x % 2 == 0 { TrailingZerosLowest(x / 2); }
  }

  lemma {:induction false} TrailingZerosUnique(x: nat, n: nat)
    requires BitAt(x, n)
    requires forall j: nat :: j < n ==> !BitAt(x, j)
    ensures x > 0 && TrailingZeros(x) == n
  {
    if x == 0 {
      ZeroBit(n);
    } else {
      TrailingZerosLowest(x);
    }
  }

  /** The index the allocator extracts from a non-zero map, `trailing_zeros(least_bit(x))`, is the lowest marked bin. */
  lemma LowestMarked(w: nat, x: nat)
    requires 0 < x < Pow2(w)
    ensures LeastBit(w, x) > 0
    ensures TrailingZeros(LeastBit(w, x)) < w
    ensures BitAt(x, TrailingZeros(LeastBit(w, x)))
    ensures forall j: nat :: j < TrailingZeros(LeastBit(w, x)) ==> !BitAt(x, j)
  {
    var n := TrailingZeros(x);
    TrailingZerosLowest(x);
    NegBits(w, x, n);
    AndBit(x, Neg(w, x), n);
    forall j: nat | j < n
      ensures !BitAt(LeastBit(w, x), j)
    {
      AndBit(x, Neg(w, x), j);
    }
    TrailingZerosUnique(LeastBit(w, x), n);
  }

  /** `left_bits(1 << i)` selects exactly the bits above `i`. */
  lemma LeftBitsAbove(w: nat, i: nat, j: nat)
    requires i < w && j < w
    ensures BitAt(LeftBits(w, Pow2(i)), j) <==> j > i
  {
    var y := (2 * Pow2(i)) % Pow2(w);
    DoubleMod(w, i);
    OrBit(y, Neg(w, y), j);
    if i + 1 == w {
      ZeroBit(j);
    } else {
      PowBit(i + 1, j);
      PowTrailing(i + 1);
      NegBits(w, y, j);
    }
  }

  lemma DoubleMod(w: nat, i: nat)
    requires i < w
    ensures (2 * Pow2(i)) % Pow2(w) == if i + 1 == w then 0 else Pow2(i + 1)
    ensures i + 1 < w ==> Pow2(i + 1) < Pow2(w)
  {
    if i + 1 == w {
      assert Pow2(w) == 2 * Pow2(i);
      ModUnique(2 * Pow2(i), Pow2(w), 1, 0);
    } else {
      PowLess(i + 1, w);
      ModUnique(2 * Pow2(i), Pow2(w), 0, Pow2(i + 1));
    }
  }

  lemma {:induction false} PowTrailing(i: nat)
    ensures TrailingZeros(Pow2(i)) == i
  {
    if i > 0 { PowTrailing(i - 1); }
  }

  /** A non-zero word has a set bit below its width. */
  lemma NonzeroBit(w: nat, x: nat)
    requires 0 < x < Pow2(w)
    ensures TrailingZeros(x) < w && BitAt(x, TrailingZeros(x))
  {
    NegBits(w, x, 0);
    TrailingZerosLowest(x);
  }

  lemma {:induction false} PowAdd(a: nat, b: nat)
    ensures Pow2(a + b) == Pow2(a) * Pow2(b)
  {
    if a > 0 {
      PowAdd(a - 1, b);
      assert Pow2(a) * Pow2(b) == 2 * (Pow2(a - 1) * Pow2(b));
    }
  }

  // ---------------------------------------------------------------- maps of 32 bins

  const MAP_LIMIT: nat := 0x1_0000_0000

  lemma MapLimit()
    ensures Pow2(32) == MAP_LIMIT
  {
    assert Pow2(8) == 0x100;
    PowAdd(8, 8);
    PowAdd(16, 16);
  }

  /** `map |= 1 << i` */
  function MarkBit(m: nat, i: nat): nat
  {
    Or(m, Pow2(i))
  }

  /** `map &= !(1 << i)` */
  function ClearBit(m: nat, i: nat): nat
    requires i < 32
  {
    PowLess(i, 32);
    And(m, Not(32, Pow2(i)))
  }

  lemma MarkSets(m: nat, i: nat)
    requires i < 32 && m < MAP_LIMIT
    ensures MarkBit(m, i) < MAP_LIMIT
    ensures forall j: nat :: j < 32 ==> (BitAt(MarkBit(m, i), j) <==> BitAt(m, j) || i == j)
  {
    MapLimit();
    MarkAndClear(32, m, i, i);
    forall j: nat | j < 32
      ensures BitAt(MarkBit(m, i), j) <==> BitAt(m, j) || i == j
    {
      MarkAndClear(32, m, i, j);
    }
  }

  lemma ClearClears(m: nat, i: nat)
    requires i < 32 && m < MAP_LIMIT
    ensures ClearBit(m, i) < MAP_LIMIT
    ensures forall j: nat :: j < 32 ==> (BitAt(ClearBit(m, i), j) <==> BitAt(m, j) && i != j)
  {
    MapLimit();
    MarkAndClear(32, m, i, i);
    forall j: nat | j < 32
      ensures BitAt(ClearBit(m, i), j) <==> BitAt(m, j) && i != j
    {
      MarkAndClear(32, m, i, j);
    }
  }
}
