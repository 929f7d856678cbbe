/** First-fit search for consecutive frames in a packed bitmap (kernel/src/memory/frame.rs). */
module Frames {

  datatype Option<T> = None | Some(value: T)

  const FRAME_SIZE: nat := 4096

  // ---------------------------------------------------------------- packed bits

  function Mask(k: nat): bv8
    requires k < 8
  {
    if k == 0 then 1 else if k == 1 then 2 else if k == 2 then 4 else if k == 3 then 8
    else if k == 4 then 16 else if k == 5 then 32 else if k == 6 then 64 else 128
  }

  predicate GetBit(byte: bv8, k: nat)
    requires k < 8
  {
    byte & Mask(k) != 0
  }

  function SetBit(byte: bv8, k: nat, value: bool): bv8
    requires k < 8
  {
    if value then byte | Mask(k) else byte & !Mask(k)
  }

  /** Setting a bit of a byte changes that bit alone. */
  lemma SetGet(byte: bv8, k: nat, value: bool, j: nat)
    requires k < 8 && j < 8
    ensures GetBit(SetBit(byte, k, value), j) == (if j == k then value else GetBit(byte, j))
  {
    MaskApart(k, j);
    hide Mask;
    if j == k { SameMask(byte, Mask(k), value); } else { OtherMask(byte, Mask(k), Mask(j), value); }
  }

  /** Bit `k` is worth two to the `k`. */
  lemma MaskValue(k: nat)
    requires k < 8
    ensures Mask(k) as int == [1, 2, 4, 8, 16, 32, 64, 128][k]
  {
  }

  lemma MaskApart(k: nat, j: nat)
    requires k < 8 && j < 8
    ensures Mask(k) != 0 && (j != k ==> Mask(k) & Mask(j) == 0)
  {
  }

  lemma SameMask(byte: bv8, m: bv8, value: bool)
    requires m != 0
    ensures ((if value then byte | m else byte & !m) & m != 0) == value
  {
  }

  lemma OtherMask(byte: bv8, m: bv8, n: bv8, value: bool)
    requires m & n == 0
    ensures (if value then byte | m else byte & !m) & n == byte & n
  {
  }

  /** The bits held in the bytes, one after another. */
  function Unpack(bytes: seq<bv8>): (bits: seq<bool>)
    ensures |bits| == 8 * |bytes|
  {
    seq(8 * |bytes|, i requires 0 <= i < 8 * |bytes| => GetBit(bytes[i / 8], i % 8))
  }

  lemma SetUnpack(bytes: seq<bv8>, i: nat, value: bool)
    requires i < 8 * |bytes|
    ensures Unpack(bytes[i / 8 := SetBit(bytes[i / 8], i % 8, value)]) == Unpack(bytes)[i := value]
  {
    var bytes' := bytes[i / 8 := SetBit(bytes[i / 8], i % 8, value)];
    forall j | 0 <= j < 8 * |bytes|
      ensures Unpack(bytes')[j] == Unpack(bytes)[i := value][j]
    {
      if j / 8 == i / 8 { SetGet(bytes[i / 8], i % 8, value, j % 8); }
    }
  }

  // ---------------------------------------------------------------- runs of set bits

  /** A run of `cnt` set bits from `p` that ends below the bound. */
  ghost predicate RunAt(bits: seq<bool>, bound: nat, p: nat, cnt: nat)
    requires bound <= |bits|
  {
    cnt > 0 && p + cnt <= bound && forall i :: p <= i < p + cnt ==> bits[i]
  }

  ghost predicate NoRun(bits: seq<bool>, bound: nat, from: nat, to: nat, cnt: nat)
    requires bound <= |bits|
  {
    forall p: nat :: from <= p < to ==> !RunAt(bits, bound, p, cnt)
  }

  /** The bits with those from `p` on, `cnt` of them, cleared. */
  function Cleared(bits: seq<bool>, p: nat, cnt: nat): (r: seq<bool>)
    ensures |r| == |bits|
    ensures forall i :: 0 <= i < |bits| ==> r[i] == (bits[i] && !(p <= i < p + cnt))
  {
    seq(|bits|, i requires 0 <= i < |bits| => bits[i] && !(p <= i < p + cnt))
  }

  lemma ClearOne(bits: seq<bool>, p: nat, cnt: nat)
    requires p + cnt < |bits|
    ensures Cleared(bits, p, cnt)[p + cnt := false] == Cleared(bits, p, cnt + 1)
  {
  }

  /** A stretch of too few set bits holds the start of no run. */
  lemma ShortRun(bits: seq<bool>, bound: nat, from: nat, start: nat, next: nat, cnt: nat)
    requires bound <= |bits| && from <= start <= next <= bound && NoRun(bits, bound, from, start, cnt)
    requires cnt == 0 || next - start < cnt
    requires next == bound || !bits[next]
    ensures NoRun(bits, bound, from, next, cnt)
  {
    forall p: nat | from <= p < next
      ensures !RunAt(bits, bound, p, cnt)
    {
      if p >= start && cnt > 0 { assert p <= next < p + cnt; }
    }
  }

  // ---------------------------------------------------------------- the bound of the search

  /** The search finds nothing exactly if every run of the whole bitmap at or after the cursor ends past the bound. */
  lemma MissedIff(bits: seq<bool>, bound: nat, from: nat, cnt: nat)
    requires bound <= |bits|
    ensures NoRun(bits, bound, from, bound, cnt)
       <==> forall p: nat :: from <= p && RunAt(bits, |bits|, p, cnt) ==> p + cnt > bound
  {
    if NoRun(bits, bound, from, bound, cnt) {
      forall p: nat | from <= p && RunAt(bits, |bits|, p, cnt)
        ensures p + cnt > bound
      {
        if p + cnt <= bound { assert RunAt(bits, bound, p, cnt); }
      }
    } else {
      var p: nat :| from <= p < bound && RunAt(bits, bound, p, cnt);
      assert RunAt(bits, |bits|, p, cnt);
    }
  }

  /** Two bytes with the ninth frame free: a run of the bitmap, but past its length in bytes. */
  lemma FreeFrameMissed()
    ensures RunAt(Unpack([0, 1]), 16, 8, 1) && NoRun(Unpack([0, 1]), |[0 as bv8, 1]|, 0, |[0 as bv8, 1]|, 1)
  {
    var bytes: seq<bv8> := [0, 1];
    var bits := Unpack(bytes);
    assert bits[8] == GetBit(bytes[1], 0);
    assert bits[0] == GetBit(bytes[0], 0) && bits[1] == GetBit(bytes[0], 1);
    assert !bits[0] && !bits[1];
  }

  class FrameAllocator {
    const bytes: array<bv8>
    var usable: nat
    var next: nat

    /** The state `init` leaves behind, whatever it is. */
    constructor (bytes: array<bv8>, usable: nat, next: nat)
      ensures this.bytes == bytes && this.usable == usable && this.next == next
    {
      this.bytes, this.usable, this.next := bytes, usable, next;
    }

    /** The bitmap's length in bytes, which the search takes for its bound. */
    function Len(): nat { bytes.Length }

    ghost function Bitmap(): (bits: seq<bool>)
      reads bytes
      ensures |bits| == 8 * bytes.Length
    {
      Unpack(bytes[..])
    }

    method Get(i: nat) returns (bit: bool)
      requires i < 8 * bytes.Length
      ensures bit == Bitmap()[i]
    {
      bit := GetBit(bytes[i / 8], i % 8);
    }

    method Set(i: nat, value: bool)
      requires i < 8 * bytes.Length
      modifies bytes
      ensures Bitmap() == old(Bitmap())[i := value]
    {
      SetUnpack(bytes[..], i, value);
      ghost var before := bytes[..];
      bytes[i / 8] := SetBit(bytes[i / 8], i % 8, value);
      assert bytes[..] == before[i / 8 := SetBit(before[i / 8], i % 8, value)];
    }

    /** Passes over set bits until `cnt` of them are found, or they end. */
    method PassSet(from: nat, cnt: nat) returns (to: nat, found: bool)
      requires from <= bytes.Length
      ensures from <= to <= bytes.Length && forall i :: from <= i < to ==> Bitmap()[i]
      ensures found ==> cnt > 0 && to == from + cnt
      ensures !found ==> (cnt == 0 || to - from < cnt) && (to == bytes.Length || !Bitmap()[to])
    {
      to, found := from, false;
      var frames := 0;
      while to < Len()
        invariant from <= to <= bytes.Length && frames == to - from && (cnt == 0 || frames < cnt)
        invariant forall i :: from <= i < to ==> Bitmap()[i]
      {
        var bit := Get(to);
        if !bit { return; }
        to, frames := to + 1, frames + 1;
        if frames == cnt { return to, true; }
      }
    }

    /** Passes over clear bits. */
    method PassClear(from: nat) returns (to: nat)
      requires from <= bytes.Length
      ensures from <= to <= bytes.Length && (to == bytes.Length || Bitmap()[to])
      ensures forall i :: from <= i < to ==> !Bitmap()[i]
    {
      to := from;
      while to < Len()
        invariant from <= to <= bytes.Length && forall i :: from <= i < to ==> !Bitmap()[i]
      {
        var bit := Get(to);
        if bit { return; }
        to := to + 1;
      }
    }

    method Clear(p: nat, cnt: nat)
      requires p + cnt <= 8 * bytes.Length
      modifies bytes
      ensures Bitmap() == Cleared(old(Bitmap()), p, cnt)
    {
      ghost var before := Bitmap();
      var i := 0;
      assert Cleared(before, p, 0) == before;
      while i < cnt
        invariant 0 <= i <= cnt && Bitmap() == Cleared(before, p, i)
      {
        ClearOne(before, p, i);
        Set(p + i, false);
        i := i + 1;
      }
    }

    /** The first run at or after `from`, where no run starts. */
    method Seek(from: nat, cnt: nat) returns (p: nat, found: bool)
      requires from <= bytes.Length
      ensures found ==> from <= p && RunAt(Bitmap(), bytes.Length, p, cnt)
      ensures found ==> NoRun(Bitmap(), bytes.Length, from, p, cnt)
      ensures !found ==> NoRun(Bitmap(), bytes.Length, from, bytes.Length, cnt)
    {
      hide RunAt, Unpack;
      ghost var bits := Bitmap();
      var at := from;
      while at < Len()
        invariant from <= at <= bytes.Length && NoRun(bits, bytes.Length, from, at, cnt)
      {
        p := PassClear(at);
        assert bits == Bitmap();
        ClearHasNoRun(bits, Len(), from, at, p, cnt);
        at, found := PassSet(p, cnt);
        assert bits == Bitmap();
        if found {
          RunThere(bits, Len(), p, cnt);
          return;
        }
        ShortRun(bits, Len(), from, p, at, cnt);
      }
      return 0, false;
    }

    /** The address of the first run of `cnt` free frames at or after the cursor and below the bound, now taken; the
        cursor moves only if the run starts at it. No address, and nothing changed, exactly if there is none or the
        count says so. */
    method AllocateFrames(cnt: nat) returns (address: Option<nat>)
      modifies this`usable, this`next, bytes
      ensures address == None <==>
        cnt > old(usable) || cnt == 0 || NoRun(old(Bitmap()), bytes.Length, old(next), bytes.Length, cnt)
      ensures address == None ==> Bitmap() == old(Bitmap()) && usable == old(usable) && next == old(next)
      ensures address.Some? ==>
        var p := address.value / FRAME_SIZE;
        && address.value == p * FRAME_SIZE && old(next) <= p
        && RunAt(old(Bitmap()), bytes.Length, p, cnt) && NoRun(old(Bitmap()), bytes.Length, old(next), p, cnt)
        && Bitmap() == Cleared(old(Bitmap()), p, cnt)
        && usable == old(usable) - cnt
        && next == (if p == old(next) then p + cnt else old(next))
    {
      hide Unpack, Cleared;
      if cnt > usable { return None; }
      usable := usable - cnt;
      ghost var bits := Bitmap();
      var at, found := next, false;
      if next < Len() {
        at, found := PassSet(next, cnt);
        assert bits == Bitmap();
        if found {
          RunThere(bits, Len(), next, cnt);
          RunRefutes(bits, Len(), next, next, cnt);
          Clear(at - cnt, cnt);
          Exact(at - cnt);
          address := Some((at - cnt) * FRAME_SIZE);
          next := at;
          return;
        }
        ShortRun(bits, Len(), next, next, at, cnt);
      }
      if at < Len() {
        // the bit at the end of the first stretch is clear
        var p;
        p, found := Seek(at, cnt);
        Joined(bits, Len(), next, at, if found then p else Len(), cnt);
        if found {
          NotAtCursor(bits, Len(), next, at, p, cnt);
          RunRefutes(bits, Len(), next, p, cnt);
          Clear(p, cnt);
          Exact(p);
          return Some(p * FRAME_SIZE);
        }
      }
      usable := usable + cnt;
      return None;
    }
  }

  lemma Exact(p: nat)
    ensures p * FRAME_SIZE / FRAME_SIZE == p
  {
  }

  lemma RunThere(bits: seq<bool>, bound: nat, p: nat, cnt: nat)
    requires bound <= |bits| && cnt > 0 && p + cnt <= bound && forall i :: p <= i < p + cnt ==> bits[i]
    ensures RunAt(bits, bound, p, cnt)
  {
  }

  lemma RunRefutes(bits: seq<bool>, bound: nat, from: nat, p: nat, cnt: nat)
    requires bound <= |bits| && from <= p && RunAt(bits, bound, p, cnt)
    ensures !NoRun(bits, bound, from, bound, cnt) && cnt > 0
  {
  }

  lemma Joined(bits: seq<bool>, bound: nat, from: nat, mid: nat, to: nat, cnt: nat)
    requires bound <= |bits| && NoRun(bits, bound, from, mid, cnt) && NoRun(bits, bound, mid, to, cnt)
    ensures NoRun(bits, bound, from, to, cnt)
  {
  }

  /** A run found after a clear bit does not start at the cursor. */
  lemma NotAtCursor(bits: seq<bool>, bound: nat, from: nat, at: nat, p: nat, cnt: nat)
    requires bound <= |bits| && from <= at < bound && !bits[at] && at <= p && RunAt(bits, bound, p, cnt)
    ensures p != from
  {
  }

  lemma ClearHasNoRun(bits: seq<bool>, bound: nat, from: nat, at: nat, start: nat, cnt: nat)
    requires bound <= |bits| && from <= at <= start <= bound && NoRun(bits, bound, from, at, cnt)
    requires forall i :: at <= i < start ==> !bits[i]
    ensures NoRun(bits, bound, from, start, cnt)
  {
    forall p: nat | at <= p < start
      ensures !RunAt(bits, bound, p, cnt)
    {
      assert !bits[p];
    }
  }

  /** The bitmap of `FreeFrameMissed` put to the search: the free frame is not found. */
  method SearchMisses() returns (address: Option<nat>, allocator: FrameAllocator)
    ensures address == None && allocator.usable == 1
    ensures |allocator.Bitmap()| == 16 && allocator.Bitmap()[8]
  {
    var bytes := new bv8[2];
    bytes[0], bytes[1] := 0, 1;
    assert bytes[..] == [0, 1];
    allocator := new FrameAllocator(bytes, 1, 0);
    FreeFrameMissed();
    address := allocator.AllocateFrames(1);
  }
}
