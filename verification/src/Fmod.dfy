/** The remainder of two binary128 numbers by shift and subtract, on two 64-bit limbs. */
module Fmod {
  import opened Bits

  const W: int := 0x1_0000_0000_0000_0000      // one limb
  const SIGN: int := 0x8000_0000_0000_0000
  const UNIT: int := 0x1_0000_0000_0000        // the implicit bit in the high limb
  const INF: int := 0x7fff_0000_0000_0000      // the high limb of infinity
  const EMIN: int := -16382                    // the exponent of the smallest normal number

  /** A number as its two limbs: sign, 15 exponent bits and 112 fraction bits. */
  datatype Quad = Quad(h: int, l: int)

  /** The invalid-operation outcome, or a number. */
  datatype Outcome = Invalid | Value(q: Quad)

  predicate Limbs(x: Quad) { 0 <= x.h < W && 0 <= x.l < W }

  function SignOf(x: Quad): int { if x.h >= SIGN then SIGN else 0 }

  /** The high limb without the sign. */
  function High(x: Quad): int { x.h - SignOf(x) }

  predicate Finite(x: Quad) { High(x) < INF }

  predicate NaN(x: Quad) { High(x) > INF || (High(x) == INF && x.l != 0) }

  predicate IsZero(x: Quad) { High(x) == 0 && x.l == 0 }

  function Two(h: int, l: int): int { h * W + l }

  /** The magnitude as a multiple of the smallest subnormal, from the high limb without the sign and the low limb:
      the fraction if the exponent field is zero, else the fraction with the implicit bit, scaled. */
  function Magnitude(h: int, l: int): int
    requires 0 <= h
  {
    var e, f := h / UNIT, Two(h % UNIT, l);
    if e == 0 then f else (UNIT * W + f) * Pow2(e - 1)
  }

  function Mag(x: Quad): int
    requires Limbs(x)
  {
    Magnitude(High(x), x.l)
  }

  /** The law that fixes the magnitudes: zero is zero, and from one pattern of words to the next a number grows by one
      unit in its last place, which doubles with each step of the exponent field from two on. */
  lemma Spacing(h: nat, l: nat)
    requires l < W
    ensures Magnitude(0, 0) == 0
    ensures var e := h / UNIT;
      (if l + 1 < W then Magnitude(h, l + 1) else Magnitude(h + 1, 0))
      == Magnitude(h, l) + (if e == 0 then 1 else Pow2(e - 1))
  {
    var e, r := h / UNIT, h % UNIT;
    if l + 1 < W {
      if e > 0 { OneMore(UNIT * W + Two(r, l), Pow2(e - 1)); }
    } else if r + 1 < UNIT {
      Within(h);
      if e > 0 { OneMore(UNIT * W + Two(r, l), Pow2(e - 1)); }
    } else {
      Carries(h);
      if e > 0 {
        assert Pow2(e) == 2 * Pow2(e - 1);
        OneMore(UNIT * W + Two(r, l), Pow2(e - 1));
      }
    }
  }

  lemma OneMore(a: int, c: int)
    ensures (a + 1) * c == a * c + c
  {
  }

  lemma Within(h: nat)
    requires h % UNIT + 1 < UNIT
    ensures (h + 1) / UNIT == h / UNIT && (h + 1) % UNIT == h % UNIT + 1
  {
    ModUnique(h + 1, UNIT, h / UNIT, h % UNIT + 1);
  }

  lemma Carries(h: nat)
    requires h % UNIT + 1 == UNIT
    ensures (h + 1) / UNIT == h / UNIT + 1 && (h + 1) % UNIT == 0
  {
    ModUnique(h + 1, UNIT, h / UNIT + 1, 0);
  }

  // ---------------------------------------------------------------- powers of two

  lemma Powers()
    ensures Pow2(0) == 1 && Pow2(15) == 0x8000 && Pow2(48) == UNIT && Pow2(63) == SIGN && Pow2(64) == W
    ensures Pow2(112) == UNIT * W && Pow2(113) == 2 * (UNIT * W)
  {
    assert Pow2(8) == 0x100 && Pow2(7) == 0x80;
    PowAdd(8, 7);
    PowAdd(8, 8);
    PowAdd(16, 16);
    PowAdd(16, 32);
    PowAdd(48, 15);
    PowAdd(32, 32);
    PowAdd(48, 64);
    PowAdd(1, 112);
  }

  lemma {:induction false} PowMono(a: nat, b: nat)
    requires a <= b
    ensures Pow2(a) <= Pow2(b)
    decreases b
  {
    if a < b { PowMono(a, b - 1); }
  }

  lemma MulLess(a: int, b: int, c: int)
    requires c > 0
    ensures a < b <==> a * c < b * c
    ensures a <= b <==> a * c <= b * c
    ensures a == b <==> a * c == b * c
  {
    if a < b { assert (b - a) * c > 0; assert (b - a) * c == b * c - a * c; }
    if a > b { assert (a - b) * c > 0; assert (a - b) * c == a * c - b * c; }
  }

  /** Scaling both operands scales the remainder. */
  lemma ModScale(a: int, b: int, c: int)
    requires b > 0 && c > 0 && a >= 0
    ensures b * c > 0 && (a * c) % (b * c) == (a % b) * c
  {
    var q, r := a / b, a % b;
    assert b * c > 0 by { MulLess(0, b, c); }
    assert a * c == (b * c) * q + r * c by { ScaleSum(a, b, c, q, r); }
    MulLess(r, b, c);
    MulLess(-1, r, c);
    ModUnique(a * c, b * c, q, r * c);
  }

  lemma ScaleSum(a: int, b: int, c: int, q: int, r: int)
    requires a == b * q + r
    ensures a * c == (b * c) * q + r * c
  {
    assert (b * q) * c == (b * c) * q;
    assert a * c == (b * q) * c + r * c;
  }

  // ---------------------------------------------------------------- magnitudes are ordered as limbs

  /** A larger pair of limbs is a larger magnitude. */
  lemma MagnitudeMono(h: int, l: int, h': int, l': int)
    requires 0 <= h < SIGN && 0 <= l < W && 0 <= h' < SIGN && 0 <= l' < W && Two(h, l) < Two(h', l')
    ensures Magnitude(h, l) < Magnitude(h', l')
  {
    var e, e' := h / UNIT, h' / UNIT;
    var f, f' := Two(h % UNIT, l), Two(h' % UNIT, l');
    FieldOrder(h, l, h', l');
    MagnitudeRange(h, l);
    MagnitudeRange(h', l');
    if e < e' {
      if e > 0 { PowMono(e + 112, e' + 111); } else { PowMono(112, e' + 111); Powers(); }
    } else if e > 0 {
      MulLess(UNIT * W + f, UNIT * W + f', Pow2(e - 1));
    }
  }

  lemma FieldOrder(h: int, l: int, h': int, l': int)
    requires 0 <= h && 0 <= l < W && 0 <= h' && 0 <= l' < W && Two(h, l) < Two(h', l')
    ensures h / UNIT < h' / UNIT || (h / UNIT == h' / UNIT && Two(h % UNIT, l) < Two(h' % UNIT, l'))
  {
    var e, e' := h / UNIT, h' / UNIT;
    assert h == e * UNIT + h % UNIT && h' == e' * UNIT + h' % UNIT;
    assert h <= h';
  }

  /** A normal number of exponent field `e` has its leading bit at `e + 111`. */
  lemma MagnitudeRange(h: int, l: int)
    requires 0 <= h && 0 <= l < W
    ensures var e := h / UNIT;
            if e == 0 then 0 <= Magnitude(h, l) < Pow2(112)
            else Pow2(e + 111) <= Magnitude(h, l) < Pow2(e + 112)
  {
    hide Pow2;
    var e, f := h / UNIT, Two(h % UNIT, l);
    Powers();
    assert 0 <= f < UNIT * W;
    if e > 0 {
      PowAdd(112, e - 1);
      PowAdd(113, e - 1);
      MulLess(UNIT * W, UNIT * W + f + 1, Pow2(e - 1));
      MulLess(UNIT * W + f, 2 * (UNIT * W), Pow2(e - 1));
    }
  }

  // ---------------------------------------------------------------- exponents

  /** `ix` is the binary exponent of the magnitude `m`. */
  ghost predicate IsExponent(m: int, ix: int)
  {
    ix + 16494 >= 0 && Pow2(ix + 16494) <= m < Pow2(ix + 16495)
  }

  /** The loops that find the exponent of a subnormal number and the field of a normal one. */
  method Ilogb(h: int, l: int) returns (ix: int)
    requires 0 <= h < SIGN && 0 <= l < W && Two(h, l) > 0
    ensures IsExponent(Magnitude(h, l), ix)
    ensures h < UNIT <==> ix < EMIN
    ensures h >= UNIT ==> ix == h / UNIT - 16383
  {
    hide Pow2, Magnitude;
    if h < UNIT {
      Subnormal(h, l);
      if h == 0 {
        ix := -16431;
        var i := l;
        ghost var k := 0;
        assert l * Pow2(0) == l by { Powers(); }
        while 0 < i < SIGN
          invariant 0 <= k && ix == -16431 - k && i == l * Pow2(k) && 0 < i < W
          decreases W - i
        {
          Doubling(l, k);
          i := 2 * i % W;
          ix := ix - 1;
          k := k + 1;
        }
        LowExponent(l, k);
      } else {
        ix := EMIN;
        var i := h * 0x8000 % W;
        ghost var k := 0;
        assert i == h * 0x8000 * Pow2(0) by { Powers(); }
        while 0 < i < SIGN
          invariant 0 <= k && ix == EMIN - k && i == h * 0x8000 * Pow2(k) && 0 < i < W
          decreases W - i
        {
          Doubling(h * 0x8000, k);
          i := 2 * i % W;
          ix := ix - 1;
          k := k + 1;
        }
        HighExponent(h, l, k);
      }
    } else {
      ix := h / UNIT - 0x3fff;
      MagnitudeRange(h, l);
    }
  }

  lemma Subnormal(h: int, l: int)
    requires 0 <= h < UNIT
    ensures Magnitude(h, l) == Two(h, l) && h / UNIT == 0
  {
  }

  lemma Doubling(a: int, k: nat)
    ensures a * Pow2(k + 1) == 2 * (a * Pow2(k))
  {
    assert Pow2(k + 1) == 2 * Pow2(k);
    assert a * (2 * Pow2(k)) == 2 * (a * Pow2(k));
  }

  lemma LowExponent(l: int, k: nat)
    requires SIGN <= l * Pow2(k) < W && l > 0
    ensures k <= 63 && IsExponent(l, -16431 - k)
  {
    hide Pow2;
    Powers();
    if k > 63 { MulLess(1, l + 1, Pow2(k)); PowMono(64, k); }
    PowAdd(63 - k, k);
    PowAdd(64 - k, k);
    MulLess(Pow2(63 - k), l, Pow2(k));
    MulLess(l, Pow2(64 - k), Pow2(k));
  }

  lemma HighExponent(h: int, l: int, k: nat)
    requires SIGN <= h * 0x8000 * Pow2(k) < W && h > 0 && 0 <= l < W
    ensures 0 < k <= 48 || h >= UNIT
    ensures k <= 48 && IsExponent(Two(h, l), EMIN - k)
  {
    hide Pow2;
    Powers();
    PowAdd(15, k);
    assert h * 0x8000 * Pow2(k) == h * Pow2(15 + k);
    if k > 48 { MulLess(1, h + 1, Pow2(15 + k)); PowMono(64, 15 + k); }
    PowAdd(48 - k, 15 + k);
    PowAdd(49 - k, 15 + k);
    MulLess(Pow2(48 - k), h, Pow2(15 + k));
    MulLess(h, Pow2(49 - k), Pow2(15 + k));
    PowAdd(48 - k, 64);
    PowAdd(49 - k, 64);
    if k == 0 { assert Pow2(48) == UNIT; }
  }

  // ---------------------------------------------------------------- the 113-bit significand

  /** `v` is the significand of the magnitude `m` with exponent `ix`: 113 bits, and `m` is `v` scaled. */
  ghost predicate Significand(m: int, ix: int, v: int)
  {
    ix + 16494 >= 0 && Pow2(112) <= v < Pow2(113) && m * Pow2(112) == v * Pow2(ix + 16494)
  }

  /** `a << n | b`, where `b` has only the low `n` bits. */
  lemma {:induction false} OrShifted(a: nat, n: nat, b: nat)
    requires b < Pow2(n)
    ensures Or(a * Pow2(n), b) == a * Pow2(n) + b
    decreases n
  {
    if n == 0 {
      assert Pow2(0) == 1 && b == 0;
      assert Or(a, 0) == a;
    } else if a == 0 {
      assert Or(0, b) == b;
    } else if b == 0 {
    } else {
      var p := a * Pow2(n - 1);
      assert a * Pow2(n) == 2 * p by { Doubling(a, n - 1); }
      MulLess(0, a, Pow2(n - 1));
      OrShifted(a, n - 1, b / 2);
      assert (2 * p) / 2 == p && (2 * p) % 2 == 0;
    }
  }

  /** A limb shifted left by the factor `p`: what leaves it at the top and what stays. */
  lemma SplitLimb(l: int, p: int, q: int)
    requires p > 0 && q > 0 && p * q == W && 0 <= l < W
    ensures 0 <= l / q < p && l * p == W * (l / q) + (l % q) * p && (l * p) % W == (l % q) * p
  {
    var u, r := l / q, l % q;
    assert l == q * u + r;
    LimbSum(l, p, q, u, r);
    MulLess(r, q, p);
    MulLess(-1, r, p);
    assert q * p == p * q;
    ModUnique(l * p, W, u, r * p);
    if u >= p { MulLess(p, u + 1, q); }
  }

  lemma LimbSum(l: int, p: int, q: int, u: int, r: int)
    requires l == q * u + r
    ensures l * p == (p * q) * u + r * p
  {
    assert (q * u) * p == (p * q) * u;
  }

  /** The high limb of a shifted pair. */
  lemma ShiftedPair(h: int, l: int, n: nat)
    requires 0 <= h && 0 <= l < W && 0 < n < 64
    ensures var hi, lo := h * Pow2(n) + l / Pow2(64 - n), l * Pow2(n) % W;
            && Two(hi, lo) == Two(h, l) * Pow2(n) && 0 <= l / Pow2(64 - n) < Pow2(n)
            && 0 <= lo < W && 0 <= h * Pow2(n) && 0 <= hi
  {
    hide Pow2, Two;
    assert Pow2(n) * Pow2(64 - n) == W by { Powers(); PowAdd(n, 64 - n); }
    SplitLimb(l, Pow2(n), Pow2(64 - n));
    Product(h, Pow2(n));
    PairScale(h, l, Pow2(n), l / Pow2(64 - n), l * Pow2(n) % W);
  }

  lemma Product(a: int, b: int)
    requires a >= 0 && b >= 0
    ensures a * b >= 0
  {
  }

  lemma PairScale(h: int, l: int, p: int, u: int, rp: int)
    requires l * p == W * u + rp
    ensures Two(h * p + u, rp) == Two(h, l) * p
  {
    assert (h * p + u) * W + rp == h * p * W + (u * W + rp);
    assert (h * W + l) * p == h * W * p + l * p;
    assert h * p * W == h * W * p;
  }

  /** Setting the implicit bit, or shifting a subnormal number to where that bit is set. */
  method Normalize(h0: int, l0: int, ix: int) returns (h: int, l: int)
    requires 0 <= h0 < SIGN && 0 <= l0 < W && IsExponent(Magnitude(h0, l0), ix)
    requires (h0 < UNIT <==> ix < EMIN) && (h0 >= UNIT ==> ix == h0 / UNIT - 16383)
    ensures 0 <= h && 0 <= l < W && Significand(Magnitude(h0, l0), ix, Two(h, l))
  {
    hide Pow2, Magnitude, Significand, IsExponent, Or, Two;
    h, l := h0, l0;
    if ix >= EMIN {
      h := UNIT + h % UNIT;
      NormalSignificand(h0, l0, ix);
    } else {
      Subnormal(h0, l0);
      SubnormalShift(h0, l0, ix);
      var n := EMIN - ix;
      if n <= 63 {
        ShiftedPair(h, l, n);
        OrShifted(h, n, l / Pow2(64 - n));
        h := Or(h * Pow2(n), l / Pow2(64 - n));
        l := l * Pow2(n) % W;
      } else {
        WholeLimb(h0, l0, n);
        h := l * Pow2(n - 64);
        l := 0;
      }
    }
  }

  lemma NormalSignificand(h: int, l: int, ix: int)
    requires UNIT <= h < SIGN && 0 <= l < W && ix == h / UNIT - 16383
    ensures Significand(Magnitude(h, l), ix, Two(UNIT + h % UNIT, l))
  {
    hide Pow2;
    var e, v := h / UNIT, Two(UNIT + h % UNIT, l);
    Powers();
    PowAdd(112, e - 1);
    assert e >= 1;
    assert (v * Pow2(e - 1)) * Pow2(112) == v * (Pow2(112) * Pow2(e - 1)) by { MulAssoc(v, Pow2(e - 1), Pow2(112)); }
  }

  lemma MulAssoc(a: int, b: int, c: int)
    ensures (a * b) * c == a * (c * b)
  {
  }

  /** A subnormal number shifted until its leading bit is bit 112. */
  lemma SubnormalShift(h: int, l: int, ix: int)
    requires 0 <= h < UNIT && 0 <= l < W && IsExponent(Two(h, l), ix) && ix < EMIN
    ensures 0 < EMIN - ix <= 112 && Significand(Two(h, l), ix, Two(h, l) * Pow2(EMIN - ix))
    ensures EMIN - ix > 48 ==> h == 0
  {
    hide Pow2;
    var n, m := EMIN - ix, Two(h, l);
    PowAdd(112 - n, n);
    PowAdd(113 - n, n);
    MulLess(Pow2(112 - n), m, Pow2(n));
    MulLess(m, Pow2(113 - n), Pow2(n));
    assert (m * Pow2(n)) * Pow2(112 - n) == m * Pow2(112) by { MulAssoc(m, Pow2(n), Pow2(112 - n)); }
    Powers();
    if n > 48 { PowMono(113 - n, 64); }
  }

  lemma WholeLimb(h: int, l: int, n: nat)
    requires h == 0 && n >= 64 && l >= 0
    ensures Two(l * Pow2(n - 64), 0) == Two(h, l) * Pow2(n) && l * Pow2(n - 64) >= 0
  {
    hide Pow2;
    Product(l, Pow2(n - 64));
    Powers();
    PowAdd(n - 64, 64);
    MulAssoc(l, Pow2(n - 64), W);
  }

  // ---------------------------------------------------------------- shift and subtract

  /** The limb-wise difference with borrow. */
  lemma Borrow(hx: int, lx: int, hy: int, ly: int)
    requires 0 <= lx < W && 0 <= ly < W
    ensures var hz, lz := hx - hy - (if lx < ly then 1 else 0), (lx - ly) % W;
            Two(hz, lz) == Two(hx, lx) - Two(hy, ly) && 0 <= lz < W && (hz < 0 <==> Two(hx, lx) < Two(hy, ly))
  {
  }

  /** The limb-wise double. */
  lemma Carry(h: int, l: int)
    requires 0 <= l < W
    ensures Two(h + h + l / SIGN, 2 * l % W) == 2 * Two(h, l) && 0 <= 2 * l % W < W
  {
  }

  lemma DoubleMod(a: int, b: int, m: int)
    requires m > 0 && a % m == b % m
    ensures (2 * a) % m == (2 * b) % m
  {
    var q, r, u := a / m, a % m, b / m;
    assert 2 * a == m * (2 * q) + 2 * r by { TwiceSum(a, m, q, r); }
    assert 2 * b == m * (2 * u) + 2 * r by { TwiceSum(b, m, u, r); }
    ModShifted(2 * r, m, 2 * q);
    ModShifted(2 * r, m, 2 * u);
  }

  lemma TwiceSum(a: int, m: int, q: int, r: int)
    requires a == m * q + r
    ensures 2 * a == m * (2 * q) + 2 * r
  {
  }

  lemma ModShifted(r: int, m: int, q: int)
    requires m > 0
    ensures (m * q + r) % m == r % m
  {
    var u, s := r / m, r % m;
    assert m * q + r == m * (q + u) + s by { assert m * (q + u) == m * q + m * u; }
    ModUnique(m * q + r, m, q + u, s);
  }

  lemma SubMod(a: int, m: int)
    requires m > 0
    ensures (a - m) % m == a % m
  {
    ModShifted(a, m, -1);
    assert m * -1 + a == a - m;
  }

  method Subtract(hx: int, lx: int, hy: int, ly: int) returns (hz: int, lz: int)
    requires 0 <= lx < W && 0 <= ly < W
    ensures Two(hz, lz) == Two(hx, lx) - Two(hy, ly) && 0 <= lz < W
  {
    Borrow(hx, lx, hy, ly);
    hz, lz := hx - hy, (lx - ly) % W;
    if lx < ly { hz := hz - 1; }
  }

  method Twice(h: int, l: int) returns (h': int, l': int)
    requires 0 <= h && 0 <= l < W
    ensures Two(h', l') == 2 * Two(h, l) && 0 <= h' && 0 <= l' < W
  {
    Carry(h, l);
    h', l' := h + h + l / SIGN, 2 * l % W;
  }

  /** `v` is below `2 vy` and leaves the remainder of `vx * 2^k`. */
  ghost predicate Residue(vx: int, vy: int, k: nat, v: int)
  {
    0 < vy && 0 <= v < 2 * vy && v % vy == vx * Pow2(k) % vy
  }

  lemma ResidueStart(vx: int, vy: int)
    requires 0 <= vx < 2 * vy
    ensures Residue(vx, vy, 0, vx)
  {
    assert vx * Pow2(0) == vx;
  }

  lemma ResidueLow(vx: int, vy: int, k: nat, v: int)
    requires Residue(vx, vy, k, v) && v < vy
    ensures Residue(vx, vy, k + 1, 2 * v)
  {
    hide Pow2;
    Doubling(vx, k);
    DoubleMod(v, vx * Pow2(k), vy);
  }

  lemma ResidueHigh(vx: int, vy: int, k: nat, v: int)
    requires Residue(vx, vy, k, v) && v >= vy
    ensures Residue(vx, vy, k + 1, 2 * (v - vy))
  {
    hide Pow2;
    Doubling(vx, k);
    SubMod(v, vy);
    DoubleMod(v - vy, vx * Pow2(k), vy);
  }

  lemma ResidueZero(vx: int, vy: int, k: nat, v: int, n: nat)
    requires Residue(vx, vy, k, v) && v == vy && k <= n
    ensures vx * Pow2(n) % vy == 0
  {
    hide Pow2;
    SubMod(v, vy);
    SmallMod(0, vy);
    ZeroStays(vx, vy, k, n);
  }

  lemma ResidueEnd(vx: int, vy: int, n: nat, v: int)
    requires Residue(vx, vy, n, v)
    ensures vx * Pow2(n) % vy == if v < vy then v else v - vy
  {
    hide Pow2;
    SubMod(v, vy);
    if v < vy { SmallMod(v, vy); } else { SmallMod(v - vy, vy); }
  }

  /** The loop: from `vx < 2 vy` the remainder of `vx * 2^n` by `vy`. */
  method ShiftSubtract(hx0: int, lx0: int, hy: int, ly: int, n0: nat) returns (hx: int, lx: int)
    requires 0 <= hx0 && 0 <= lx0 < W && 0 <= hy && 0 <= ly < W && 0 < Two(hy, ly)
    requires 0 <= Two(hx0, lx0) < 2 * Two(hy, ly)
    ensures 0 <= hx && 0 <= lx < W && Two(hx, lx) == Two(hx0, lx0) * Pow2(n0) % Two(hy, ly)
  {
    hide Pow2, Two, Residue;
    ghost var vx, vy := Two(hx0, lx0), Two(hy, ly);
    hx, lx := hx0, lx0;
    var n := n0;
    ResidueStart(vx, vy);
    while n > 0
      invariant 0 <= n <= n0 && 0 <= hx && 0 <= lx < W && Residue(vx, vy, n0 - n, Two(hx, lx))
    {
      ghost var v := Two(hx, lx);
      var hz, lz := Subtract(hx, lx, hy, ly);
      TwoSign(hz, lz);
      if hz < 0 {
        ResidueLow(vx, vy, n0 - n, v);
        hx, lx := Twice(hx, lx);
      } else {
        if hz == 0 && lz == 0 {
          ResidueZero(vx, vy, n0 - n, v, n0);
          return 0, 0;
        }
        ResidueHigh(vx, vy, n0 - n, v);
        hx, lx := Twice(hz, lz);
      }
      n := n - 1;
    }
    ResidueEnd(vx, vy, n0, Two(hx, lx));
    var hz, lz := Subtract(hx, lx, hy, ly);
    TwoSign(hz, lz);
    if hz >= 0 {
      hx, lx := hz, lz;
    }
  }

  lemma TwoSign(h: int, l: int)
    requires 0 <= l < W
    ensures h >= 0 <==> Two(h, l) >= 0
    ensures h == 0 && l == 0 <==> Two(h, l) == 0
  {
  }

  lemma SmallMod(a: int, m: int)
    requires 0 <= a < m
    ensures a % m == a
  {
  }

  /** Once the remainder is zero it stays so. */
  lemma {:induction false} ZeroStays(vx: int, vy: int, k: nat, n: nat)
    requires vy > 0 && vx * Pow2(k) % vy == 0 && k <= n
    ensures vx * Pow2(n) % vy == 0
    decreases n - k
  {
    if k < n {
      Doubling(vx, k);
      DoubleMod(vx * Pow2(k), 0, vy);
      ZeroStays(vx, vy, k + 1, n);
    }
  }

  // ---------------------------------------------------------------- back to a number

  /** `v` at exponent `iy` stands for the magnitude `r`. */
  ghost predicate Stands(r: int, iy: int, v: int)
  {
    r > 0 && v > 0 && iy + 16494 >= 0 && r * Pow2(112) == v * Pow2(iy + 16494)
  }

  lemma StandsDouble(r: int, iy: int, v: int)
    requires Stands(r, iy, v) && v < Pow2(112)
    ensures Stands(r, iy - 1, 2 * v)
  {
    hide Pow2;
    Powers();
    MulLess(1, r, Pow2(112));
    if iy + 16494 > 0 {
      Doubling(v, iy + 16493);
      assert 2 * (v * Pow2(iy + 16493)) == (2 * v) * Pow2(iy + 16493);
    }
  }

  lemma HighLimb(h: int, l: int)
    requires 0 <= h && 0 <= l < W
    ensures h < UNIT <==> Two(h, l) < Pow2(112)
    ensures h < 2 * UNIT <==> Two(h, l) < Pow2(113)
  {
    hide Pow2;
    Powers();
  }

  /** Shifting left until the leading bit is bit 112. */
  method Renormalize(h0: int, l0: int, iy0: int, ghost r: int) returns (h: int, l: int, iy: int)
    requires 0 <= h0 && 0 <= l0 < W && Stands(r, iy0, Two(h0, l0)) && Two(h0, l0) < Pow2(113)
    ensures UNIT <= h < 2 * UNIT && 0 <= l < W && Stands(r, iy, Two(h, l)) && iy <= iy0
  {
    hide Pow2, Two, Stands;
    h, l, iy := h0, l0, iy0;
    HighLimb(h, l);
    while h < UNIT
      invariant 0 <= h < 2 * UNIT && 0 <= l < W && Stands(r, iy, Two(h, l)) && iy <= iy0
      decreases iy + 16494
    {
      HighLimb(h, l);
      StandsDouble(r, iy, Two(h, l));
      StandsExponent(r, iy, Two(h, l));
      StandsExponent(r, iy - 1, 2 * Two(h, l));
      assert 2 * Pow2(112) == Pow2(113) by { Powers(); }
      h, l := Twice(h, l);
      iy := iy - 1;
      HighLimb(h, l);
    }
  }

  lemma StandsExponent(r: int, iy: int, v: int)
    requires Stands(r, iy, v)
    ensures iy + 16494 >= 0
  {
  }

  /** The shift right of a pair by up to 63 places. */
  lemma ShiftedDown(h: int, l: int, n: nat, r: int)
    requires UNIT <= h < 2 * UNIT && 0 <= l < W && 0 < n < 64 && Two(h, l) == r * Pow2(n)
    ensures var hi, lo := h / Pow2(n), l / Pow2(n) + h * Pow2(64 - n) % W;
            Two(hi, lo) == r && 0 <= lo < W && 0 <= l / Pow2(n) < Pow2(64 - n)
    ensures h * Pow2(64 - n) % W == (h % Pow2(n)) * Pow2(64 - n) && 0 <= h / Pow2(n) && (n > 48 ==> h / Pow2(n) == 0)
  {
    hide Pow2, Two;
    var p, q := Pow2(n), Pow2(64 - n);
    assert p * q == W by { Powers(); PowAdd(n, 64 - n); }
    var u, s := h / p, h % p;
    SplitDown(h, l, p, q, r);
    HighModulus(h, p, q);
    if n > 48 { Powers(); PowMono(49, n); Doubling(1, 48); SmallQuotient(h, p); }
  }

  lemma SmallQuotient(h: int, p: int)
    requires 0 <= h < p
    ensures h / p == 0
  {
  }

  lemma HighModulus(h: int, p: int, q: int)
    requires p > 0 && q > 0 && p * q == W && h >= 0
    ensures h * q % W == (h % p) * q
  {
    ModScale(h, p, q);
  }

  lemma SplitDown(h: int, l: int, p: int, q: int, r: int)
    requires p > 0 && q > 0 && p * q == W && 0 <= h && 0 <= l < W && Two(h, l) == r * p
    ensures Two(h / p, l / p + (h % p) * q) == r && 0 <= l / p + (h % p) * q < W && 0 <= l / p < q
  {
    var u, s, d, t := h / p, h % p, l / p, l % p;
    assert h == p * u + s && l == p * d + t;
    LowPart(l, p, q, d, t);
    assert Two(h, l) == p * (u * W + s * q + d) + t by { DownSum(h, l, p, q, u, s, d, t); }
    ExactQuotient(r, p, u * W + s * q + d, t);
    LimbRange(s, d, p, q);
  }

  lemma LimbRange(s: int, d: int, p: int, q: int)
    requires 0 <= s < p && 0 <= d < q && p * q == W
    ensures 0 <= d + s * q < W
  {
    Product(s, q);
    MulLess(s + 1, p, q);
    assert (s + 1) * q == s * q + q;
  }

  lemma LowPart(l: int, p: int, q: int, d: int, t: int)
    requires p > 0 && q > 0 && p * q == W && 0 <= l < W && l == p * d + t && 0 <= t < p
    ensures 0 <= d < q
  {
    MulLess(d, -1, p);
    MulLess(q, d, p);
  }

  lemma DownSum(h: int, l: int, p: int, q: int, u: int, s: int, d: int, t: int)
    requires h == p * u + s && l == p * d + t && p * q == W
    ensures Two(h, l) == p * (u * W + s * q + d) + t
  {
    assert h * W == p * u * W + s * W;
    assert s * W == p * (s * q) by { assert s * (p * q) == p * (s * q); }
    assert p * (u * W + s * q + d) == p * u * W + p * (s * q) + p * d;
  }

  lemma ExactQuotient(r: int, p: int, a: int, t: int)
    requires p > 0 && r * p == p * a + t && 0 <= t < p
    ensures r == a && t == 0
  {
    ModUnique(r * p, p, a, t);
    ModUnique(r * p, p, r, 0);
  }

  /** The number so packed has magnitude `r`, and its exponent field is within range. */
  ghost predicate Packed(h: int, l: int, r: int, iy: int)
  {
    0 <= h && 0 <= l < W && Magnitude(h, l) == r && h < (Max(iy, EMIN) + 16384) * UNIT
  }

  function Max(a: int, b: int): int { if a < b then b else a }

  /** Joining the significand with its exponent; below the normal range it is shifted down without losing a bit. */
  method Pack(h0: int, l0: int, iy: int, ghost r: int) returns (h: int, l: int)
    requires UNIT <= h0 < 2 * UNIT && 0 <= l0 < W && Stands(r, iy, Two(h0, l0))
    ensures Packed(h, l, r, iy)
  {
    hide Pow2, Two, Stands, Or, Magnitude, Packed;
    h, l := h0, l0;
    if iy >= EMIN {
      NormalPacked(h0, l0, iy, r);
      OrShifted(iy + 16383, 48, h - UNIT);
      assert (iy + 16383) * UNIT + (h - UNIT) == Or((iy + 16383) * Pow2(48), h - UNIT) by { Powers(); }
      h := Or((iy + 16383) * Pow2(48), h - UNIT);
    } else {
      SubnormalPacked(h0, l0, iy, r);
      var n := EMIN - iy;
      if n <= 63 {
        ShiftedDown(h0, l0, n, r);
        OrShifted(h % Pow2(n), 64 - n, l / Pow2(n));
        l := Or(h * Pow2(64 - n) % W, l / Pow2(n));
        h := if n <= 48 then h / Pow2(n) else 0;
        SubnormalDone(h, l, iy, r);
      } else {
        DownLimb(h0, l0, n, r);
        l := h / Pow2(n - 64);
        h := 0;
        SubnormalDone(h, l, iy, r);
      }
    }
  }

  lemma NormalPacked(h: int, l: int, iy: int, r: int)
    requires UNIT <= h < 2 * UNIT && 0 <= l < W && Stands(r, iy, Two(h, l)) && iy >= EMIN
    ensures 0 <= h - UNIT < Pow2(48) && Packed((iy + 16383) * UNIT + (h - UNIT), l, r, iy)
  {
    hide Pow2;
    Powers();
    var e, v := iy + 16383, Two(h, l);
    var packed := e * UNIT + (h - UNIT);
    ModUnique(packed, UNIT, e, h - UNIT);
    PowAdd(112, e - 1);
    MulAssoc(v, Pow2(e - 1), Pow2(112));
    MulLess(r, v * Pow2(e - 1), Pow2(112));
  }

  /** What a result below the normal range looks like before it is shifted down. */
  lemma SubnormalPacked(h: int, l: int, iy: int, r: int)
    requires UNIT <= h < 2 * UNIT && 0 <= l < W && Stands(r, iy, Two(h, l)) && iy < EMIN
    ensures 0 < EMIN - iy <= 112 && Two(h, l) == r * Pow2(EMIN - iy) && 0 < r < Pow2(112)
  {
    hide Pow2;
    var n, v := EMIN - iy, Two(h, l);
    PowAdd(112 - n, n);
    MulAssoc(r, Pow2(n), Pow2(112 - n));
    MulLess(r * Pow2(n), v, Pow2(112 - n));
    HighLimb(h, l);
    PowAdd(113 - n, n);
    MulLess(r, Pow2(113 - n), Pow2(n));
    PowMono(113 - n, 112);
  }

  lemma SubnormalDone(h: int, l: int, iy: int, r: int)
    requires 0 <= h && 0 <= l < W && Two(h, l) == r < Pow2(112) && iy < EMIN
    ensures Packed(h, l, r, iy)
  {
    hide Pow2;
    HighLimb(h, l);
    Subnormal(h, l);
  }

  /** The shift right of a pair by 64 places or more. */
  lemma DownLimb(h: int, l: int, n: nat, r: int)
    requires UNIT <= h < 2 * UNIT && 0 <= l < W && 64 <= n <= 112 && Two(h, l) == r * Pow2(n)
    ensures Two(0, h / Pow2(n - 64)) == r && 0 <= h / Pow2(n - 64) < W
  {
    hide Pow2;
    Powers();
    PowAdd(n - 64, 64);
    var p := Pow2(n - 64);
    assert r * (p * W) == (r * p) * W;
    ExactQuotient(r * p, W, h, l);
    ModUnique(h, p, r, 0);
    MulLess(r, 0, p);
    MulLess(r, h + 1, p);
  }

  // ---------------------------------------------------------------- fmodl

  /** `fmodl`: invalid for a zero divisor, a NaN or an infinite dividend; else the dividend for an infinite divisor,
      and otherwise the exact remainder with the sign of the dividend. */
  method Fmodl(x: Quad, y: Quad) returns (r: Outcome)
    requires Limbs(x) && Limbs(y)
    ensures r.Invalid? <==> IsZero(y) || !Finite(x) || NaN(y)
    ensures r.Value? && !Finite(y) ==> r.q == x
    ensures r.Value? && Finite(y) ==>
      && Limbs(r.q) && SignOf(r.q) == SignOf(x) && Mag(y) > 0 && Mag(r.q) == Mag(x) % Mag(y)
  {
    hide Pow2, Magnitude, IsExponent, Significand, Stands, Packed;
    var sx := SignOf(x);
    var hx, lx := High(x), x.l;
    var hy, ly := High(y), y.l;
    if (hy == 0 && ly == 0) || hx >= INF || hy > INF || (hy == INF && ly != 0) {
      return Invalid;
    }
    MagnitudePositive(hy, ly);
    if hx <= hy {
      if hx < hy || lx < ly {
        MagnitudeMono(hx, lx, hy, ly);
        MagnitudeSign(hx, lx);
        SmallMod(Magnitude(hx, lx), Magnitude(hy, ly));
        return Value(x);
      }
      if lx == ly {
        ZeroMagnitude(Magnitude(hx, lx));
        return Value(Quad(sx, 0));
      }
    }
    ghost var mx, my := Magnitude(hx, lx), Magnitude(hy, ly);
    MagnitudeMono(hy, ly, hx, lx);
    var ix := Ilogb(hx, lx);
    var iy := Ilogb(hy, ly);
    ExponentOrder(mx, ix, my, iy);
    hx, lx := Normalize(hx, lx, ix);
    hy, ly := Normalize(hy, ly, iy);
    ghost var vx, vy := Two(hx, lx), Two(hy, ly);
    SignificandRange(mx, ix, vx);
    SignificandRange(my, iy, vy);
    hx, lx := ShiftSubtract(hx, lx, hy, ly, ix - iy);
    RemainderStands(mx, ix, vx, my, iy, vy);
    TwoSign(hx, lx);
    if hx == 0 && lx == 0 {
      ZeroMagnitude(1);
      return Value(Quad(sx, 0));
    }
    ghost var m := mx % my;
    var iz;
    hx, lx, iz := Renormalize(hx, lx, iy, m);
    hx, lx := Pack(hx, lx, iz, m);
    PackedHigh(hx, lx, m, iz, iy);
    r := Value(Quad(hx + sx, lx));
  }

  lemma MagnitudePositive(h: int, l: int)
    requires 0 <= h < SIGN && 0 <= l < W && (h != 0 || l != 0)
    ensures Magnitude(h, l) > 0 && Two(h, l) > 0
  {
    MagnitudeMono(0, 0, h, l);
    ZeroMagnitude(1);
  }

  lemma ZeroMagnitude(m: int)
    ensures Magnitude(0, 0) == 0 && (m > 0 ==> m % m == 0)
  {
  }

  lemma MagnitudeSign(h: int, l: int)
    requires 0 <= h < SIGN && 0 <= l < W
    ensures Magnitude(h, l) >= 0
  {
    MagnitudeRange(h, l);
  }

  lemma ExponentOrder(mx: int, ix: int, my: int, iy: int)
    requires IsExponent(mx, ix) && IsExponent(my, iy) && my < mx
    ensures iy <= ix
  {
    hide Pow2;
    if ix < iy { PowMono(ix + 16495, iy + 16494); }
  }

  lemma SignificandRange(m: int, ix: int, v: int)
    requires Significand(m, ix, v)
    ensures UNIT * W <= v < 2 * (UNIT * W)
  {
    hide Pow2;
    Powers();
  }

  /** The remainder of the shifted significands is the remainder of the numbers. */
  lemma RemainderStands(mx: int, ix: int, vx: int, my: int, iy: int, vy: int)
    requires Significand(mx, ix, vx) && Significand(my, iy, vy) && iy <= ix && mx > 0 && my > 0 && vy > 0
    ensures var r := vx * Pow2(ix - iy) % vy;
            (r == 0 <==> mx % my == 0) && (r > 0 ==> Stands(mx % my, iy, r)) && 0 <= r < Pow2(113)
  {
    hide Pow2;
    var n, s := ix - iy, iy + 16494;
    PowAdd(n, s);
    var a := vx * Pow2(n);
    assert mx * Pow2(112) == a * Pow2(s) by { MulAssoc(vx, Pow2(n),
        Pow2(s)); assert vx * (Pow2(s) * Pow2(n)) == vx * (Pow2(n) * Pow2(s)); }
    MulLess(0, vx, Pow2(n));
    ModScale(mx, my, Pow2(112));
    ModScale(a, vy, Pow2(s));
    MulLess(0, mx % my, Pow2(112));
    MulLess(0, a % vy, Pow2(s));
  }

  lemma PackedHigh(h: int, l: int, r: int, iz: int, iy: int)
    requires Packed(h, l, r, iz) && iz <= iy && iy < 16384
    ensures 0 <= h < SIGN && 0 <= l < W && Magnitude(h, l) == r
  {
  }
}
