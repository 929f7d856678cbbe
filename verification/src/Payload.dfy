/** The program's own words: writing them does not disturb the heap, and copying them byte by byte. */
module Payloads {
  import opened Bits
  import opened Sizes
  import opened Rings
  import opened Heads
  import opened Tries
  import opened Stores
  import opened Tags
  import opened Heaps
  import opened Retags
  import opened HeapOps
  import opened Coalescing
  import opened Regions
  import opened Growth
  import opened Releases
  import opened SystemSteps

  /** A word of the payload of the chunk at `q`, which ends with the foot word of its successor. */
  ghost predicate PayloadWord(ch: Tiling, q: int, a: int)
  {
    q in ch && ch[q].kind.Live? && q + MEM_OFFSET <= a < q + ch[q].size + 8 && a % 8 == 0
  }

  /** The only tag word in a payload is the foot of the next chunk, which is not in force. */
  lemma PayloadTag(mem: Mem, ch: Tiling, q: int, a: int, p: int)
    requires Tiled(mem, ch) && PayloadWord(ch, q, a) && p in ch
    ensures a != p + HEAD && (a == p ==> p == q + ch[q].size)
  {
    OnGrid(mem, ch, p);
    OnGrid(mem, ch, q);
    if p != q { Apart(ch, p, q); }
    hide Tiled;
    Mod16(q, ch[q].size);
    Sixteen(p, q);
    Sixteen(q + ch[q].size, p);
  }

  lemma OnGrid(mem: Mem, ch: Tiling, p: int)
    requires Tiled(mem, ch) && p in ch
    ensures p % 16 == 0 && ch[p].size % 16 == 0 && ch[p].size > 0
  {
    hide SizeOf, Cinuse, Pinuse, NextOk, PrevFree, HeadOf;
    assert Tagged(mem, ch, p);
  }

  lemma Sixteen(a: int, b: int)
    requires a % 16 == 0 && b % 16 == 0
    ensures a < b ==> a + 16 <= b
  {
  }

  lemma PayloadTagged(mem: Mem, ch: Tiling, q: int, a: int, x: int, p: int)
    requires Tiled(mem, ch) && PayloadWord(ch, q, a) && p in ch
    ensures Tagged(mem[a := x], ch, p)
  {
    hide SizeOf, Cinuse, Pinuse;
    var mem' := mem[a := x];
    assert Tagged(mem, ch, p) && Tagged(mem, ch, q);
    PayloadTag(mem, ch, q, a, p);
    if !Tail(ch[p].kind) {
      var n := p + ch[p].size;
      PayloadTag(mem, ch, q, a, n);
      if n == q + ch[q].size && p != q { Apart(ch, p, q); }
    }
    if !Pinuse(HeadOf(mem, p)) && !ch[p].kind.Foot? {
      assert Tagged(mem, ch, p - Get(mem, p));
    }
  }

  lemma PayloadTiled(mem: Mem, ch: Tiling, q: int, a: int, x: int)
    requires Tiled(mem, ch) && PayloadWord(ch, q, a)
    ensures Tiled(mem[a := x], ch)
  {
    hide Tagged, PayloadWord;
    forall p | p in ch
      ensures Tagged(mem[a := x], ch, p)
    {
      PayloadTagged(mem, ch, q, a, x, p);
    }
  }

  lemma PayloadSeg(mem: Mem, v: View, q: int, a: int, x: int, i: int)
    requires FramedView(mem, v) && PayloadWord(v.ch, q, a) && 0 <= i < |v.segs| && a in mem
    ensures SegOk(mem[a := x], v.ch, v.segs, i)
  {
    hide VictimOk, Backed, SizeOf, Cinuse, Pinuse, Held;
    SegOfView(mem, v, i);
    var at := v.segs[i].at;
    assert Tagged(mem, v.ch, q);
    PayloadTag(mem, v.ch, q, a, v.segs[i].base);
    if i > 0 { Apart(v.ch, q, at - MEM_OFFSET); }
    assert mem[a := x].Keys == mem.Keys;
  }

  lemma PayloadThere(mem: Mem, v: View, q: int, a: int)
    requires FramedView(mem, v) && PayloadWord(v.ch, q, a)
    ensures a in mem && a > 0
  {
    hide SegsOk, VictimOk, SizeOf, Cinuse, Pinuse;
    assert Tagged(mem, v.ch, q) && Tagged(mem, v.ch, q + v.ch[q].size);
  }

  lemma PayloadWritable(mem: Mem, bins: map<int, int>, v: View, q: int, a: int)
    requires FramedView(mem, v) && BinsIn(bins, v.ch) && PayloadWord(v.ch, q, a)
    ensures a in mem && !BinWord(a) && !LinkWord(bins, a) && a - HEAD !in bins
  {
    hide SegsOk, VictimOk, SizeOf, Cinuse, Pinuse, Backed, Tagged, LinkWord, BinWord;
    PayloadThere(mem, v, q, a);
    PayloadNotLink(mem, v.ch, bins, q, a);
    if a - HEAD in bins { PayloadTag(mem, v.ch, q, a, a - HEAD); }
  }

  /** The program may write its payloads: the heap stays sound. */
  lemma PayloadSound(mem: Mem, bins: map<int, int>, v: View, q: int, a: int, x: int)
    requires Sound(mem, bins, v) && PayloadWord(v.ch, q, a) && a in mem
    ensures Sound(mem[a := x], bins, v)
  {
    hide Tiled, VictimOk, Binned, TopOk, OneTop, SegOk, Held, SegsApart, PayloadWord;
    var mem' := mem[a := x];
    assert mem'.Keys == mem.Keys;
    PayloadTiled(mem, v.ch, q, a, x);
    forall i | 0 <= i < |v.segs|
      ensures SegOk(mem', v.ch, v.segs, i)
    {
      PayloadSeg(mem, v, q, a, x, i);
    }
    assert Backed(mem', v.ch) && RecordWords(mem');
  }

  /** Payloads do not overlap. */
  lemma PayloadsApart(mem: Mem, ch: Tiling, p: int, q: int, a: int)
    requires Tiled(mem, ch) && PayloadWord(ch, q, a) && p in ch && ch[p].kind.Live? && p != q
    ensures !(p + MEM_OFFSET <= a < p + ch[p].size + 8)
  {
    hide SizeOf, Cinuse, Pinuse;
    assert Tagged(mem, ch, p) && Tagged(mem, ch, q);
    Apart(ch, p, q);
  }

  /** A write into the payload of `q` is seen in no other payload. */
  lemma PayloadOthers(mem: Mem, ch: Tiling, q: int, a: int, x: int)
    requires Tiled(mem, ch) && PayloadWord(ch, q, a)
    ensures SamePayloads(mem, mem[a := x], Holdings(ch) - {q})
  {
    hide Tiled, PayloadWord;
    var rest := Holdings(ch) - {q};
    forall p, b | p in rest && p + MEM_OFFSET <= b < p + rest[p].size + 8
      ensures Get(mem[a := x], b) == Get(mem, b)
    {
      assert p in ch && ch[p] == rest[p];
      PayloadsApart(mem, ch, p, q, a);
    }
  }

  // ---------------------------------------------------------------- bytes

  /** 256 to the power `j`. */
  function Base(j: nat): (r: nat)
    ensures r > 0
  {
    if j == 0 then 1 else 256 * Base(j - 1)
  }

  /** Byte `j` of a word, the lowest first. */
  function ByteOf(w: int, j: nat): int { (w / Base(j)) % 256 }

  /** Eight bytes make the word. */
  lemma EightBytes(w: nat)
    requires w < WORD
    ensures forall j: nat :: 0 <= ByteOf(w, j) < 256
    ensures w == ByteOf(w, 0) + 0x100 * ByteOf(w, 1) + 0x1_0000 * ByteOf(w, 2) + 0x100_0000 * ByteOf(w, 3)
      + 0x1_0000_0000 * ByteOf(w, 4) + 0x100_0000_0000 * ByteOf(w, 5) + 0x1_0000_0000_0000 * ByteOf(w, 6)
      + 0x100_0000_0000_0000 * ByteOf(w, 7)
  {
    LastByte(w);
    hide ByteOf, Upper;
    NextByte(w, 0);
    NextByte(w, 1);
    NextByte(w, 2);
    NextByte(w, 3);
    NextByte(w, 4);
    NextByte(w, 5);
    NextByte(w, 6);
  }

  /** What is left of a word above its low `j` bytes. */
  function Upper(w: nat, j: nat): int { w / Base(j) }

  lemma LastByte(w: nat)
    requires w < WORD
    ensures Upper(w, 0) == w && Upper(w, 7) == ByteOf(w, 7)
    ensures forall j: nat :: 0 <= ByteOf(w, j) < 256
  {
    assert Base(7) == 0x100_0000_0000_0000 by { Bases(); }
    hide Base;
    assert Base(0) == 1 by { Bases(); }
  }

  lemma NextByte(w: nat, j: nat)
    ensures Upper(w, j) == 256 * Upper(w, j + 1) + ByteOf(w, j)
  {
    var b := Base(j);
    assert Base(j + 1) == b * 256;
    hide Base;
    var q := w / b;
    var h, l, r := q / 256, q % 256, w % b;
    Scaled(b, q, h, l);
    Within(b, l, r);
    ModUnique(w, b * 256, h, b * l + r);
  }

  lemma Scaled(b: nat, q: nat, h: nat, l: nat)
    requires q == 256 * h + l
    ensures b * q == b * 256 * h + b * l
  {
    assert b * (256 * h) == b * 256 * h;
  }

  lemma Within(b: nat, l: nat, r: nat)
    requires l < 256 && r < b
    ensures b * l + r < b * 256
  {
    assert b * l <= b * 255;
  }

  lemma Bases()
    ensures Base(0) == 1 && Base(1) == 0x100 && Base(2) == 0x1_0000 && Base(3) == 0x100_0000
    ensures Base(4) == 0x1_0000_0000 && Base(5) == 0x100_0000_0000 && Base(6) == 0x1_0000_0000_0000
    ensures Base(7) == 0x100_0000_0000_0000
  {
    assert Base(1) == 256 * Base(0);
    assert Base(2) == 256 * Base(1);
    assert Base(3) == 256 * Base(2);
    assert Base(4) == 256 * Base(3);
    assert Base(5) == 256 * Base(4);
    assert Base(6) == 256 * Base(5);
    assert Base(7) == 256 * Base(6);
  }

  /** The byte at a byte address. */
  function ByteAt(mem: Mem, a: int): int { ByteOf(Get(mem, a - a % 8), a % 8) }

  /** The low `r` bytes of `x` under the high bytes of `y`. */
  function Mix(x: int, y: int, r: nat): int { x % Base(r) + (y - y % Base(r)) }

  lemma {:induction false} BaseAdd(i: nat, j: nat)
    ensures Base(i + j) == Base(i) * Base(j)
  {
    if i > 0 {
      BaseAdd(i - 1, j);
      assert Base(i) * Base(j) == 256 * (Base(i - 1) * Base(j));
    }
  }

  lemma DivShift(a: int, n: int, m: int)
    requires a > 0
    ensures (a * n + m) / a == n + m / a
  {
    var q, r := m / a, m % a;
    assert m == a * q + r;
    assert a * n + m == a * (n + q) + r by { assert a * (n + q) == a * n + a * q; }
    ModUnique(a * n + m, a, n + q, r);
  }

  lemma ModShift(n: int, m: int)
    ensures (256 * n + m) % 256 == m % 256
  {
  }

  /** Adding a multiple of `Base(r)` does not change the bytes below `r`. */
  lemma LowBytes(m: int, k: int, r: nat, j: nat)
    requires j < r
    ensures ByteOf(Base(r) * k + m, j) == ByteOf(m, j)
  {
    var a, c := Base(j), Base(r - j - 1);
    BaseAdd(j, r - j);
    assert Base(r - j) == 256 * c;
    assert Base(r) * k == a * (256 * (c * k)) by { MulChain(a, c, k); }
    DivShift(a, 256 * (c * k), m);
    ModShift(c * k, m / a);
  }

  lemma MulChain(a: int, c: int, k: int)
    ensures (a * (256 * c)) * k == a * (256 * (c * k))
  {
  }

  lemma MixLow(x: int, y: int, r: nat, j: nat)
    requires j < r
    ensures ByteOf(Mix(x, y, r), j) == ByteOf(x, j)
  {
    var b := Base(r);
    LowBytes(x % b, x / b, r, j);
    LowBytes(x % b, y / b, r, j);
    assert x == b * (x / b) + x % b;
    assert Mix(x, y, r) == b * (y / b) + x % b;
  }

  lemma ByteSplit(a: int, i: nat)
    requires a % 8 == 0
    ensures (a + i) % 8 == i % 8 && (a + i) - (a + i) % 8 == a + 8 * (i / 8)
  {
  }

  /** Equal words make equal bytes. */
  lemma CopiedByte(m0: Mem, m1: Mem, src: int, dst: int, i: nat)
    requires src % 8 == 0 && dst % 8 == 0 && Get(m1, dst + 8 * (i / 8)) == Get(m0, src + 8 * (i / 8))
    ensures ByteAt(m1, dst + i) == ByteAt(m0, src + i)
  {
    ByteSplit(src, i);
    ByteSplit(dst, i);
  }

  lemma MixedByte(m0: Mem, m1: Mem, src: int, dst: int, n: nat, i: nat, y: int)
    requires src % 8 == 0 && dst % 8 == 0 && i < n && i / 8 == n / 8
    requires Get(m1, dst + 8 * (n / 8)) == Mix(Get(m0, src + 8 * (n / 8)), y, n % 8)
    ensures ByteAt(m1, dst + i) == ByteAt(m0, src + i)
  {
    ByteSplit(src, i);
    ByteSplit(dst, i);
    MixLow(Get(m0, src + 8 * (n / 8)), y, n % 8, i % 8);
  }

  /** A prefix of words is a prefix of bytes. */
  lemma PrefixBytes(mem: Mem, mem': Mem, p: int, size: int, i: nat)
    requires PrefixKept(mem, mem', p, size) && p % 8 == 0 && size % 8 == 0 && i < size - 8
    ensures ByteSame(mem, p + MEM_OFFSET, mem', p + MEM_OFFSET, i)
  {
    hide ByteOf;
    PrefixWord(p, size, i);
    ByteSplit(p + MEM_OFFSET, i);
  }

  /** The word of a byte of a payload lies in the payload. */
  lemma PrefixWord(p: int, size: int, i: nat)
    requires p % 8 == 0 && size % 8 == 0 && i < size - 8
    ensures (p + MEM_OFFSET) % 8 == 0 && (p + MEM_OFFSET + 8 * (i / 8)) % 8 == 0 && 8 * (i / 8) <= size - 16
  {
  }

  // ---------------------------------------------------------------- copying

  /** The chunk at `p` is in use and has room for `n` bytes. */
  ghost predicate CopyRoom(ch: Tiling, p: int, n: int)
  {
    p in ch && ch[p].kind.Live? && n <= ch[p].size - OVERHEAD
  }

  lemma CopyAligned(mem: Mem, bins: map<int, int>, v: View, a: int, n: int)
    requires Sound(mem, bins, v) && CopyRoom(v.ch, a - MEM_OFFSET, n)
    ensures a % 8 == 0
  {
    hide SegsOk, Binned, VictimOk, Backed;
    LiveSize(mem, v, a - MEM_OFFSET);
    Mod16(a - MEM_OFFSET, MEM_OFFSET);
  }

  lemma CopyTarget(ch: Tiling, dst: int, n: int, i: int)
    requires CopyRoom(ch, dst - MEM_OFFSET, n) && 0 <= i < n && i % 8 == 0 && dst % 8 == 0
    ensures PayloadWord(ch, dst - MEM_OFFSET, dst + i)
  {
  }

  /** A source word is there and still holds what it held. */
  lemma CopySource(m0: Mem, m1: Mem, bins: map<int, int>, v: View, src: int, dst: int, n: int, i: int)
    requires Sound(m1, bins, v) && CopyRoom(v.ch, src - MEM_OFFSET, n) && 0 <= i < n && i % 8 == 0 && src % 8 == 0
    requires src != dst
    requires m0 == m1 || SamePayloads(m0, m1, Holdings(v.ch) - {dst - MEM_OFFSET})
    ensures src + i in m1 && m1[src + i] == Get(m0, src + i)
  {
    hide SegsOk, Binned, VictimOk, Tiled, Backed;
    CopyTarget(v.ch, src, n, i);
    PayloadThere(m1, v, src - MEM_OFFSET, src + i);
    var rest := Holdings(v.ch) - {dst - MEM_OFFSET};
    assert src - MEM_OFFSET in rest && rest[src - MEM_OFFSET] == v.ch[src - MEM_OFFSET];
    assert Get(m1, src + i) == Get(m0, src + i);
  }

  ghost predicate ByteSame(m0: Mem, src: int, m1: Mem, dst: int, i: nat)
  {
    ByteAt(m1, dst + i) == ByteAt(m0, src + i)
  }

  /** The `n` bytes from `dst` on are those that were at `src`. */
  ghost predicate SameBytes(m0: Mem, src: int, m1: Mem, dst: int, n: int)
  {
    forall i: nat :: i < n ==> ByteSame(m0, src, m1, dst, i)
  }

  ghost predicate WordCopied(m0: Mem, m1: Mem, src: int, dst: int, k: nat)
  {
    Get(m1, dst + 8 * k) == Get(m0, src + 8 * k)
  }

  /** The whole words among the `n` bytes from `dst` on are those that were at `src`. */
  ghost predicate SameWords(m0: Mem, src: int, m1: Mem, dst: int, n: int)
  {
    forall k: nat :: 8 * k + 8 <= n ==> WordCopied(m0, m1, src, dst, k)
  }

  lemma WordsTrans(m0: Mem, a: int, m1: Mem, b: int, m2: Mem, c: int, n: int)
    requires SameWords(m0, a, m1, b, n) && SameWords(m1, b, m2, c, n)
    ensures SameWords(m0, a, m2, c, n)
  {
    forall k: nat | 8 * k + 8 <= n
      ensures WordCopied(m0, m2, a, c, k)
    {
      assert WordCopied(m0, m1, a, b, k) && WordCopied(m1, m2, b, c, k);
    }
  }

  lemma WordsExtend(m0: Mem, m1: Mem, m2: Mem, src: int, dst: int, i: int)
    requires 0 <= i && i % 8 == 0 && m2 == m1[dst + i := Get(m0, src + i)]
    requires forall k: nat :: k < i / 8 ==> WordCopied(m0, m1, src, dst, k)
    ensures forall k: nat :: k < (i + 8) / 8 ==> WordCopied(m0, m2, src, dst, k)
  {
    assert i == 8 * (i / 8) && (i + 8) / 8 == i / 8 + 1;
    forall k: nat | k < (i + 8) / 8
      ensures WordCopied(m0, m2, src, dst, k)
    {
      assert k < i / 8 ==> WordCopied(m0, m1, src, dst, k);
    }
  }

  lemma WordsKept(m0: Mem, m1: Mem, m2: Mem, src: int, dst: int, i: int)
    requires 0 <= i && i % 8 == 0 && m2 == m1[dst + i := Get(m2, dst + i)]
    requires forall k: nat :: k < i / 8 ==> WordCopied(m0, m1, src, dst, k)
    ensures forall k: nat :: k < i / 8 ==> WordCopied(m0, m2, src, dst, k)
  {
    forall k: nat | k < i / 8
      ensures WordCopied(m0, m2, src, dst, k)
    {
      assert WordCopied(m0, m1, src, dst, k);
    }
  }

  // ---------------------------------------------------------------- realloc as a whole

  function Min(a: int, b: int): int { if a < b then a else b }

  /** What `realloc` promises: one chunk exchanged for another of at least the new size, the first bytes kept, nothing
      else touched. */
  ghost predicate Moved(mem: Mem, ch: Tiling, mem': Mem, ch': Tiling, p: int, q: int, s: int, bytes: int)
  {
    && p in Holdings(ch) && Holdings(ch') == (Holdings(ch) - {p})[q := Ck(s, Live)] && q !in Holdings(ch) - {p}
    && SamePayloads(mem, mem', Holdings(ch) - {p})
    && SameBytes(mem, p + MEM_OFFSET, mem', q + MEM_OFFSET, Min(Holdings(ch)[p].size - OVERHEAD, bytes))
    && SameWords(mem, p + MEM_OFFSET, mem', q + MEM_OFFSET, Min(Holdings(ch)[p].size - OVERHEAD, bytes))
  }

  lemma PrefixWords(mem: Mem, mem': Mem, p: int, size: int, n: int)
    requires PrefixKept(mem, mem', p, size) && n <= size - 8
    ensures SameWords(mem, p + MEM_OFFSET, mem', p + MEM_OFFSET, n)
  {
    forall k: nat | 8 * k + 8 <= n
      ensures WordCopied(mem, mem', p + MEM_OFFSET, p + MEM_OFFSET, k)
    {
      assert Get(mem', p + MEM_OFFSET + 8 * k) == Get(mem, p + MEM_OFFSET + 8 * k);
    }
  }

  lemma PrefixSame(mem: Mem, mem': Mem, p: int, size: int, n: int)
    requires PrefixKept(mem, mem', p, size) && p % 8 == 0 && size % 8 == 0 && n <= size - 8
    ensures SameBytes(mem, p + MEM_OFFSET, mem', p + MEM_OFFSET, n)
    ensures SameWords(mem, p + MEM_OFFSET, mem', p + MEM_OFFSET, n)
  {
    var a := p + MEM_OFFSET;
    PrefixWords(mem, mem', p, size, n);
    hide SameWords;
    forall i: nat | i < n
      ensures ByteSame(mem, a, mem', a, i)
    {
      PrefixBytes(mem, mem', p, size, i);
      assert ByteSame(mem, a, mem', a, i);
    }
  }

  lemma RegrownMoved(mem: Mem, ch: Tiling, mem': Mem, ch': Tiling, p: int, s: int, bytes: int)
    requires Regrown(mem, ch, mem', ch', p, s) && ch[p].kind.Live? && p % 8 == 0 && ch[p].size % 8 == 0 && s % 8 == 0
    requires bytes + OVERHEAD <= s
    ensures Moved(mem, ch, mem', ch', p, p, s, bytes)
  {
    hide PrefixKept, SamePayloads, SameBytes, SameWords;
    var hs := Holdings(ch);
    assert (hs - {p})[p := Ck(s, Live)] == hs[p := Ck(s, Live)];
    PrefixSame(mem, mem', p, Min(s, ch[p].size), Min(ch[p].size - OVERHEAD, bytes));
  }

  /** Bytes of a payload whose words are the same. */
  lemma PayloadBytes(m0: Mem, m1: Mem, hs: Tiling, p: int, n: int)
    requires SamePayloads(m0, m1, hs) && p in hs && p % 8 == 0 && hs[p].size % 8 == 0 && n <= hs[p].size - OVERHEAD
    ensures SameBytes(m0, p + MEM_OFFSET, m1, p + MEM_OFFSET, n)
    ensures SameWords(m0, p + MEM_OFFSET, m1, p + MEM_OFFSET, n)
  {
    assert PrefixKept(m0, m1, p, hs[p].size);
    PrefixSame(m0, m1, p, hs[p].size, n);
  }

  lemma BytesTrans(m0: Mem, a: int, m1: Mem, b: int, m2: Mem, c: int, n: int)
    requires SameBytes(m0, a, m1, b, n) && SameBytes(m1, b, m2, c, n)
    ensures SameBytes(m0, a, m2, c, n)
  {
    forall i: nat | i < n
      ensures ByteSame(m0, a, m2, c, i)
    {
      assert ByteSame(m0, a, m1, b, i) && ByteSame(m1, b, m2, c, i);
    }
  }

  /** A grant, a copy and a release make a move. */
  lemma GrantCopyRelease(m0: Mem, c0: Tiling, m1: Mem, c1: Tiling, m2: Mem, m3: Mem, c3: Tiling, p: int, q: int,
      s: int, bytes: int)
    requires p in Holdings(c0) && Granted(m0, c0, m1, c1, q, s) && Released(m2, c1, m3, c3, p)
    requires SamePayloads(m1, m2, Holdings(c1) - {q})
    requires SameBytes(m1, p + MEM_OFFSET, m2, q + MEM_OFFSET, Min(Holdings(c0)[p].size - OVERHEAD, bytes))
    requires SameWords(m1, p + MEM_OFFSET, m2, q + MEM_OFFSET, Min(Holdings(c0)[p].size - OVERHEAD, bytes))
    requires p % 8 == 0 && q % 8 == 0 && Holdings(c0)[p].size % 8 == 0 && s % 8 == 0 && bytes + OVERHEAD <= s
    ensures Moved(m0, c0, m3, c3, p, q, s, bytes)
  {
    hide SameBytes, SameWords, PrefixKept;
    var hs, n := Holdings(c0), Min(Holdings(c0)[p].size - OVERHEAD, bytes);
    assert q != p;
    assert Holdings(c3) == (hs - {p})[q := Ck(s, Live)];
    GrantKeeps(m0, m1, m2, m3, hs, Holdings(c1), Holdings(c3), p, q);
    PayloadBytes(m0, m1, hs, p, n);
    PayloadBytes(m2, m3, Holdings(c3), q, n);
    BytesTrans(m0, p + MEM_OFFSET, m1, p + MEM_OFFSET, m2, q + MEM_OFFSET, n);
    BytesTrans(m0, p + MEM_OFFSET, m2, q + MEM_OFFSET, m3, q + MEM_OFFSET, n);
    WordsTrans(m0, p + MEM_OFFSET, m1, p + MEM_OFFSET, m2, q + MEM_OFFSET, n);
    WordsTrans(m0, p + MEM_OFFSET, m2, q + MEM_OFFSET, m3, q + MEM_OFFSET, n);
  }

  lemma GrantKeeps(m0: Mem, m1: Mem, m2: Mem, m3: Mem, hs: Tiling, hs1: Tiling, hs3: Tiling, p: int, q: int)
    requires SamePayloads(m0, m1, hs) && SamePayloads(m1, m2, hs1 - {q}) && SamePayloads(m2, m3, hs3) && q !in hs
    requires forall r :: r in hs ==> r in hs1 && hs1[r] == hs[r]
    requires forall r :: r in hs && r != p ==> r in hs3 && hs3[r] == hs[r]
    ensures SamePayloads(m0, m3, hs - {p})
  {
    var rest := hs - {p};
    forall r, a | r in rest && r + MEM_OFFSET <= a < r + rest[r].size + 8
      ensures Get(m3, a) == Get(m0, a)
    {
      assert hs[r] == rest[r] && hs3[r] == rest[r];
      assert (hs1 - {q})[r] == rest[r];
      assert Get(m1, a) == Get(m0, a);
      assert Get(m2, a) == Get(m1, a);
    }
  }

  lemma ResizedAligned(m0: Mem, c0: Tiling, mem: Mem, bins: map<int, int>, v: View, p: int, s: int)
    requires Sound(mem, bins, v) && Regrown(m0, c0, mem, v.ch, p, s)
    ensures s % 8 == 0 && p % 8 == 0
  {
    hide FramedView, Binned;
    assert p in Holdings(v.ch) && Holdings(v.ch)[p] == Ck(s, Live);
    LiveSize(mem, v, p);
    Mod16(s, 0);
    Mod16(p, 0);
  }

  /** After a grant the old chunk is still there, and both chunks have room for the copy. */
  lemma MallocMore(m0: Mem, c0: Tiling, mem: Mem, bins: map<int, int>, v: View, p: int, q: int, s: int, bytes: int)
    requires HeapOk(mem, bins, v) && p in Holdings(c0) && Granted(m0, c0, mem, v.ch, q, s) && bytes + OVERHEAD <= s
    ensures Sound(mem, bins, v) && v.top != NULL && p != q && p in Holdings(v.ch) && p in v.ch
    ensures v.ch[p] == Holdings(c0)[p]
    ensures SizeOf(HeadOf(mem, p)) == Holdings(c0)[p].size && Holdings(c0)[p].size >= MIN_CHUNK
    ensures var n := Min(Holdings(c0)[p].size - OVERHEAD, bytes); CopyRoom(v.ch, p, n) && CopyRoom(v.ch, q, n)
    ensures p % 8 == 0 && q % 8 == 0 && Holdings(c0)[p].size % 8 == 0 && s % 8 == 0
  {
    hide FramedView, Binned, SamePayloads, Tiled, BinsIn;
    assert p in Holdings(v.ch) && q in Holdings(v.ch);
    HeldThere(mem, bins, v, p);
    HeldThere(mem, bins, v, q);
    SoundParts(mem, bins, v);
    NotMmapped(mem, v.ch, p);
    LiveSize(mem, v, p);
    LiveSize(mem, v, q);
    Mod16(p, 0);
    Mod16(q, 0);
    Mod16(s, 0);
    Mod16(v.ch[p].size, 0);
  }

  // ---------------------------------------------------------------- memalign

  predicate PowerOfTwo(n: nat)
  {
    n == 1 || (n > 0 && n % 2 == 0 && PowerOfTwo(n / 2))
  }

  lemma {:induction false} PowerMultiple(n: nat, m: nat)
    requires PowerOfTwo(n) && PowerOfTwo(m) && m <= n
    ensures n % m == 0
  {
    if m > 1 {
      PowerMultiple(n / 2, m / 2);
      var k := (n / 2) / (m / 2);
      assert n / 2 == (m / 2) * k;
      assert n == m * k;
      ModUnique(n, m, k, 0);
    }
  }

  lemma AlignmentFacts(alignment0: nat, alignment: nat)
    requires PowerOfTwo(alignment0) && alignment == if alignment0 < MIN_CHUNK then MIN_CHUNK else alignment0
    ensures alignment % 16 == 0 && alignment >= MIN_CHUNK && alignment0 > 0
  {
    assert PowerOfTwo(16) by { assert PowerOfTwo(1) && PowerOfTwo(2) && PowerOfTwo(4) && PowerOfTwo(8); }
    if alignment0 >= MIN_CHUNK { PowerMultiple(alignment0, 16); }
  }

  lemma StillAligned(a: int, alignment0: nat, alignment: nat)
    requires PowerOfTwo(alignment0) && alignment == (if alignment0 < MIN_CHUNK then MIN_CHUNK else alignment0)
    requires a % alignment == 0 && alignment0 > 0
    ensures a % alignment0 == 0
  {
    if alignment0 < MIN_CHUNK {
      assert PowerOfTwo(32) by { assert PowerOfTwo(1) && PowerOfTwo(2) && PowerOfTwo(4) && PowerOfTwo(8)
          && PowerOfTwo(16); }
      PowerMultiple(32, alignment0);
      MultipleOf(a, 32, alignment0);
    }
  }

  lemma MultipleOf(a: int, m: nat, d: nat)
    requires m > 0 && d > 0 && a % m == 0 && m % d == 0
    ensures a % d == 0
  {
    var k, j := a / m, m / d;
    assert a == m * k && m == d * j;
    assert a == d * (j * k) by { assert (d * j) * k == d * (j * k); }
    ModUnique(a, d, j * k, 0);
  }

  /** The first aligned spot that leaves room for a leader is at most `alignment + 32` bytes in. */
  lemma SpotFacts(p: int, alignment: nat, br: int, newp: int)
    requires p > 0 && p % 16 == 0 && alignment % 16 == 0 && alignment >= MIN_CHUNK && (p + MEM_OFFSET) % alignment != 0
    requires br == AlignUp(p + MEM_OFFSET, alignment) - MEM_OFFSET
    requires newp == if br - p > MIN_CHUNK then br else br + alignment
    ensures newp % 16 == 0 && (newp + MEM_OFFSET) % alignment == 0 && MIN_CHUNK < newp - p <= alignment + MIN_CHUNK
  {
    var a := AlignUp(p + MEM_OFFSET, alignment);
    MultipleOf(a, alignment, 16);
    var k := a / alignment;
    assert a == alignment * k;
    assert a + alignment == alignment * (k + 1) by { assert alignment * (k + 1) == alignment * k + alignment; }
    ModUnique(a + alignment, alignment, k + 1, 0);
    assert a != p + MEM_OFFSET;
    SpotSteps(p, br, newp, alignment);
  }

  lemma SpotSteps(p: int, br: int, newp: int, alignment: int)
    requires p % 16 == 0 && (br + MEM_OFFSET) % 16 == 0 && alignment % 16 == 0 && p < br < p + alignment
    requires alignment >= MIN_CHUNK
    requires newp == if br - p > MIN_CHUNK then br else br + alignment
    ensures newp % 16 == 0 && MIN_CHUNK < newp - p <= alignment + MIN_CHUNK
  {
    Mod16(br + MEM_OFFSET, MEM_OFFSET);
    Mod16(br, alignment);
    Mod16(br, p);
    assert br - p >= 16;
  }

  lemma MidHead(h: int, hi: int, mid: int)
    requires hi % 16 == 0 && mid % 16 == 0
    ensures SetP(KeepP(h, hi - mid)) == hi - mid + PINUSE + CINUSE
  {
    hide SizeOf, Cinuse, Pinuse;
    Mod16(hi, mid);
    Mod16(hi - mid, 0);
    KeepParts(h, hi - mid);
  }

  lemma TwoFirst(ch: Tiling, lo: int, mid: int, hi: int, k1: Kind, k2: Kind)
    requires lo < mid
    ensures lo in Two(ch, lo, mid, hi, k1, k2) && Two(ch, lo, mid, hi, k1, k2)[lo] == Ck(mid - lo, k1)
  {
  }

  /** The holdings after a chunk in use is cut in two. */
  lemma CutHoldings(c1: Tiling, p: int, newp: int, hi: int)
    requires p in c1 && c1[p].kind.Live? && Leads(c1, p, hi) && p < newp < hi && newp !in c1
    ensures Holdings(Two(c1, p, newp, hi, Live, Live)) ==
      Holdings(c1)[p := Ck(newp - p, Live)][newp := Ck(hi - newp, Live)]
  {
    var c2 := Two(c1, p, newp, hi, Live, Live);
    var hs, hs2 := Holdings(c1)[p := Ck(newp - p, Live)][newp := Ck(hi - newp, Live)], Holdings(c2);
    forall q
      ensures q in hs <==> q in hs2
      ensures q in hs ==> hs[q] == hs2[q]
    {
    }
  }

  /** Of a granted chunk, the leader was cut off and given back. */
  lemma LeaderGone(m0: Mem, c0: Tiling, m1: Mem, c1: Tiling, m2: Mem, c2: Tiling, m3: Mem, c3: Tiling, p: int,
      newp: int, hi: int)
    requires p in c1 && c1[p] == Ck(hi - p, Live) && Granted(m0, c0, m1, c1, p, hi - p) && Leads(c1, p, hi)
    requires p < newp < hi && newp !in c1
    requires Kept(m1, c1, m2, c2, p, hi) && c2 == Two(c1, p, newp, hi, Live, Live) && Released(m2, c2, m3, c3, p)
    ensures Granted(m0, c0, m3, c3, newp, hi - newp)
  {
    hide Leads, Kept, SamePayloads, Holdings, Two;
    var hs := Holdings(c0);
    CutHoldings(c1, p, newp, hi);
    NotHeld(c1, newp);
    assert Holdings(c3) == hs[newp := Ck(hi - newp, Live)];
    HeldAre(c1);
    LeaderPayloads(m0, m1, c1, m2, c2, m3, hs, Holdings(c3), p, hi);
  }

  lemma NotHeld(ch: Tiling, p: int)
    requires p !in ch
    ensures p !in Holdings(ch)
  {
  }

  lemma HeldAre(ch: Tiling)
    ensures forall q :: q in Holdings(ch) ==> q in ch && ch[q] == Holdings(ch)[q] && ch[q].kind.Live?
  {
  }

  lemma LeaderPayloads(m0: Mem, m1: Mem, c1: Tiling, m2: Mem, c2: Tiling, m3: Mem, hs: Tiling, hs3: Tiling, p: int,
      hi: int)
    requires SamePayloads(m0, m1, hs) && Kept(m1, c1, m2, c2, p, hi) && SamePayloads(m2, m3, hs3) && Leads(c1, p, hi)
    requires forall q :: q in hs ==>
      q in c1 && c1[q] == hs[q] && c1[q].kind.Live? && q != p && q in hs3 && hs3[q] == hs[q]
    ensures SamePayloads(m0, m3, hs)
  {
    forall q, a | q in hs && q + MEM_OFFSET <= a < q + hs[q].size + 8
      ensures Get(m3, a) == Get(m0, a)
    {
      assert Get(m1, a) == Get(m0, a);
      assert c1[q] == hs[q];
      assert Get(m2, a) == Get(m1, a);
      assert hs3[q] == hs[q];
    }
  }

  /** A granted chunk as the allocator sees it. */
  lemma GrantedThere(m0: Mem, c0: Tiling, mem: Mem, bins: map<int, int>, v: View, p: int, s: int)
    requires HeapOk(mem, bins, v) && Granted(m0, c0, mem, v.ch, p, s)
    ensures Sound(mem, bins, v) && v.top != NULL && p in v.ch && v.ch[p] == Ck(s, Live) && p > 0 && p % 16 == 0
    ensures SizeOf(HeadOf(mem, p)) == s
  {
    hide FramedView, Binned, Tiled, BinsIn;
    assert p in Holdings(v.ch);
    HeldThere(mem, bins, v, p);
    SoundParts(mem, bins, v);
    NotMmapped(mem, v.ch, p);
    LiveSize(mem, v, p);
  }

  lemma GrantedResized(m0: Mem, c0: Tiling, m1: Mem, c1: Tiling, m2: Mem, c2: Tiling, p: int, s: int, s': int)
    requires Granted(m0, c0, m1, c1, p, s) && Regrown(m1, c1, m2, c2, p, s')
    ensures Granted(m0, c0, m2, c2, p, s')
  {
    var hs := Holdings(c0);
    assert Holdings(c1) - {p} == hs;
    assert Holdings(c2) == hs[p := Ck(s', Live)];
    PayloadsTrans(m0, m1, m2, hs);
  }
}
