/** The head word of a chunk: its size with two in-use bits in the low order. */
module Heads {
  import opened Bits

  const PINUSE: int := 1
  const CINUSE: int := 2
  const FENCE: int := 11   // fencepost_head

  /** `head & !FLAG_BITS` */
  function SizeOf(h: int): int { h - h % 8 }

  predicate Pinuse(h: int) { h % 8 == 1 || h % 8 == 3 || h % 8 == 5 || h % 8 == 7 }

  predicate Cinuse(h: int) { h % 8 == 2 || h % 8 == 3 || h % 8 == 6 || h % 8 == 7 }

  /** `head & INUSE != PINUSE` */
  predicate InUse(h: int) { Cinuse(h) || !Pinuse(h) }

  /** `head & INUSE == 0`, the mark of a directly mapped chunk. */
  predicate Mmapped(h: int) { !Cinuse(h) && !Pinuse(h) }

  /** `head | PINUSE` */
  function SetP(h: int): int { if Pinuse(h) then h else h + PINUSE }

  /** `head & !PINUSE` */
  function ClearP(h: int): int { if Pinuse(h) then h - PINUSE else h }

  /** `(head & PINUSE) | size | CINUSE` */
  function KeepP(h: int, size: int): int { (if Pinuse(h) then PINUSE else 0) + size + CINUSE }

  /** The arithmetic above is the bit arithmetic of the source on 64-bit words. */
  lemma HeadBits(h: nat)
    requires h < Pow2(64)
    ensures SizeOf(h) == And(h, Pow2(64) - 8)
    ensures (Pinuse(h) <==> And(h, 1) != 0) && (Cinuse(h) <==> And(h, 2) != 0)
    ensures (InUse(h) <==> And(h, 3) != 1) && (Mmapped(h) <==> And(h, 3) == 0)
  {
    hide And, Pow2;
    Halves(h);
    ThreeBits(h);
    Masked(h);
  }

  lemma AndStep(a: nat, b: nat)
    ensures And(a, b) == (a % 2) * (b % 2) + 2 * And(a / 2, b / 2)
  {
  }

  /** The last bits of a word. */
  lemma Halves(h: nat)
    ensures And(h, 1) == h % 2 && And(h, 2) == 2 * (h / 2 % 2) && And(h, 3) == h % 2 + 2 * (h / 2 % 2)
  {
    hide And;
    AndStep(h, 1);
    AndStep(h, 2);
    AndStep(h, 3);
    AndStep(h / 2, 1);
    AndZero(h / 2);
    AndZero(h / 2 / 2);
  }

  lemma ThreeBits(h: nat)
    ensures h % 8 == h % 2 + 2 * (h / 2 % 2) + 4 * (h / 4 % 2)
  {
    Eighth(h);
    assert h / 2 == 2 * (h / 4) + h / 2 % 2;
    assert h / 4 == 2 * (h / 8) + h / 4 % 2;
  }

  lemma Masked(h: nat)
    requires h < Pow2(64)
    ensures And(h, Pow2(64) - 8) == h - h % 8
  {
    hide And;
    PowAdd(61, 3);
    assert Pow2(3) == 8;
    var m := Pow2(61) - 1;
    hide Pow2;
    Eighth(h);
    AllOnes(61, h / 8);
    AndStep(h, 8 * m);
    AndStep(h / 2, 4 * m);
    AndStep(h / 4, 2 * m);
  }

  lemma Eighth(h: nat)
    ensures h / 2 / 2 == h / 4 && h / 4 / 2 == h / 8 && 8 * (h / 8) == h - h % 8
  {
  }

  lemma {:induction false} AllOnes(n: nat, x: nat)
    requires x < Pow2(n)
    ensures And(x, Pow2(n) - 1) == x
  {
    if n > 0 { AllOnes(n - 1, x / 2); }
  }

  /** Joining the flags to a size is adding them: `SetP`, `ClearP` and `KeepP` are the bit operations named. */
  lemma JoinedBits(h: nat, size: nat)
    requires size % 8 == 0
    ensures SetP(h) == Or(h, 1) && ClearP(h) == h - And(h, 1) && KeepP(h, size) == Or(Or(And(h, 1), size), 2)
  {
    Halves(h);
    OrOne(h);
    var b := And(h, 1);
    OrParts(size, b);
  }

  lemma OrNone(x: nat)
    ensures Or(x, 0) == x && Or(0, x) == x
  {
    if x > 0 { OrNone(x / 2); }
  }

  lemma OrOne(h: nat)
    ensures Or(h, 1) == (if h % 2 == 1 then h else h + 1)
  {
    OrNone(h / 2);
  }

  lemma OrParts(size: nat, b: nat)
    requires size % 8 == 0 && b < 2
    ensures Or(Or(b, size), 2) == b + size + 2
  {
    hide Or;
    OrNone(size / 2);
    OrNone(size / 2 / 2);
    OrStep(b, size);
    OrStep(b + size, 2);
    OrStep(size / 2, 1);
    assert (b + size) / 2 == size / 2 && size / 2 % 2 == 0 && b / 2 == 0;
  }

  lemma OrStep(a: nat, b: nat)
    ensures Or(a, b) == (if a % 2 == 1 || b % 2 == 1 then 1 else 0) + 2 * Or(a / 2, b / 2)
  {
  }

  lemma Low(q: int, r: int)
    requires 0 <= r < 8
    ensures (8 * q + r) % 8 == r
  {
  }

  lemma Parts(size: int, c: bool, p: bool)
    requires size % 8 == 0
    ensures var h := size + (if c then CINUSE else 0) + (if p then PINUSE else 0);
            SizeOf(h) == size && Cinuse(h) == c && Pinuse(h) == p
  {
    Low(size / 8, (if c then CINUSE else 0) + (if p then PINUSE else 0));
  }

  lemma Flags(h: int)
    ensures SizeOf(SetP(h)) == SizeOf(h) && Cinuse(SetP(h)) == Cinuse(h) && Pinuse(SetP(h))
    ensures SizeOf(ClearP(h)) == SizeOf(h) && Cinuse(ClearP(h)) == Cinuse(h) && !Pinuse(ClearP(h))
  {
    var q, r := h / 8, h % 8;
    if Pinuse(h) { Low(q, r - 1); } else { Low(q, r + 1); }
  }
}
