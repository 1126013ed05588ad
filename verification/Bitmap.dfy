/** Allocation bitmaps: bits inside bytes, first-fit reservation, release, and the ownership of a
    reservation that has not been kept yet (src/storage/bitmap_allocator.cpp). */
module Bitmap {
  import opened Bytes

  // ---- Bits ----

  /** Bit `i` of a byte, least significant first. */
  function ByteBit(b: nat, i: nat): bool {
    if i == 0 then b % 2 == 1 else ByteBit(b / 2, i - 1)
  }

  /** The byte with bit `i` set to `v`. */
  function WithBit(b: nat, i: nat, v: bool): nat {
    if i == 0 then b / 2 * 2 + (if v then 1 else 0) else b % 2 + 2 * WithBit(b / 2, i - 1, v)
  }

  lemma {:induction false} WithBitReads(b: nat, i: nat, v: bool, j: nat)
    ensures ByteBit(WithBit(b, i, v), j) == if i == j then v else ByteBit(b, j)
  {
    if i == 0 {
      Split(if v then 1 else 0, b / 2);
    } else {
      Split(b % 2, WithBit(b / 2, i - 1, v));
      if j > 0 {
        WithBitReads(b / 2, i - 1, v, j - 1);
      }
    }
  }

  lemma Split(low: nat, high: nat)
    requires low < 2
    ensures (low + 2 * high) % 2 == low && (low + 2 * high) / 2 == high
    ensures high * 2 + low == low + 2 * high
  {}

  function Pow2(n: nat): nat {
    if n == 0 then 1 else 2 * Pow2(n - 1)
  }

  lemma {:induction false} WithBitFits(b: nat, i: nat, v: bool, n: nat)
    requires i < n && b < Pow2(n)
    ensures WithBit(b, i, v) < Pow2(n)
  {
    if i > 0 {
      WithBitFits(b / 2, i - 1, v, n - 1);
    }
  }

  /** Bytes are determined by their bits. */
  lemma {:induction false} SameBits(b: nat, c: nat, n: nat)
    requires b < Pow2(n) && c < Pow2(n) && forall i :: 0 <= i < n ==> ByteBit(b, i) == ByteBit(c, i)
    ensures b == c
  {
    if n > 0 {
      assert ByteBit(b, 0) == ByteBit(c, 0);
      forall i | 0 <= i < n - 1
        ensures ByteBit(b / 2, i) == ByteBit(c / 2, i)
      {
        assert ByteBit(b, i + 1) == ByteBit(c, i + 1);
      }
      SameBits(b / 2, c / 2, n - 1);
    }
  }

  function PutBit(b: byte, i: nat, v: bool): byte
    requires i < 8
  {
    assert Pow2(8) == 256 by { assert Pow2(4) == 16; }
    WithBitFits(b, i, v, 8);
    WithBit(b, i, v)
  }

  /** `TestBit`. */
  predicate TestBit(bitmap: seq<byte>, k: nat) {
    k / 8 < |bitmap| && ByteBit(bitmap[k / 8], k % 8)
  }

  /** `SetBit` and `ClearBit`. */
  function Put(bitmap: seq<byte>, k: nat, v: bool): (r: seq<byte>)
    requires k / 8 < |bitmap|
    ensures |r| == |bitmap|
  {
    bitmap[k / 8 := PutBit(bitmap[k / 8], k % 8, v)]
  }

  lemma PutReads(bitmap: seq<byte>, k: nat, v: bool, j: nat)
    requires k / 8 < |bitmap|
    ensures TestBit(Put(bitmap, k, v), j) == if j == k then v else TestBit(bitmap, j)
  {
    hide ByteBit, WithBit;
    if j / 8 == k / 8 {
      WithBitReads(bitmap[k / 8], k % 8, v, j % 8);
    }
  }

  /** Bitmaps of the same size are determined by their bits. */
  lemma SameBitmap(a: seq<byte>, b: seq<byte>)
    requires |a| == |b| && forall k :: 0 <= k < 8 * |a| ==> TestBit(a, k) == TestBit(b, k)
    ensures a == b
  {
    hide ByteBit;
    forall i | 0 <= i < |a|
      ensures a[i] == b[i]
    {
      forall j | 0 <= j < 8
        ensures ByteBit(a[i], j) == ByteBit(b[i], j)
      {
        assert TestBit(a, 8 * i + j) == TestBit(b, 8 * i + j);
        assert (8 * i + j) / 8 == i && (8 * i + j) % 8 == j;
      }
      assert Pow2(8) == 256 by { assert Pow2(4) == 16; }
      SameBits(a[i], b[i], 8);
    }
  }

  // ---- Allocator ----

  datatype ReserveStatus = Reserved(bit: nat) | NoSpace | BadGeometry

  datatype ReleaseStatus = Released | OutsideRange | AlreadyFree

  /** Free bits an allocator may hand out. */
  function Free(bitmap: seq<byte>, first: nat, valid: nat): set<nat> {
    set k: nat | first <= k < valid && !TestBit(bitmap, k)
  }

  /** What first fit takes: no free bit below a taken one is passed over. */
  ghost predicate TakesFirst(bitmap: seq<byte>, first: nat, taken: set<nat>) {
    forall b, k :: b in taken && first <= k < b ==> TestBit(bitmap, k) || k in taken
  }

  /** First fit is determined by how much it takes. */
  lemma FirstFitIsUnique(bitmap: seq<byte>, first: nat, valid: nat, x: set<nat>, y: set<nat>)
    requires TakesFirst(bitmap, first, x) && TakesFirst(bitmap, first, y) && |x| == |y|
    requires forall b :: b in x + y ==> b in Free(bitmap, first, valid)
    ensures x == y
  {
    hide TestBit;
    if b :| b in x && b !in y {
      forall c | c in y
        ensures c in x
      {
        assert b in Free(bitmap, first, valid) && c in Free(bitmap, first, valid);
        assert c < b || TestBit(bitmap, b) || b in y;
      }
      SameSize(y, x);
    } else {
      assert x <= y;
      SameSize(x, y);
    }
  }

  lemma SubsetSize(a: set<nat>, b: set<nat>)
    requires a <= b
    ensures |a| <= |b| && |b - a| == |b| - |a|
  {
    assert b == a + (b - a);
  }

  lemma SameSize(a: set<nat>, b: set<nat>)
    requires a <= b && |a| == |b|
    ensures a == b
  {
    assert |b - a| == 0;
  }

  class BitmapAllocator {
    var bitmap: seq<byte>
    const valid: nat
    const first: nat

    constructor (bitmap: seq<byte>, valid: nat, first: nat)
      ensures this.bitmap == bitmap && this.valid == valid && this.first == first
    {
      this.bitmap := bitmap;
      this.valid := valid;
      this.first := first;
    }

    /** `Validate`: the reserved prefix and the padding tail are all ones. */
    method Validate() returns (ok: bool)
      ensures ok <==> WellFormed(bitmap, valid, first)
    {
      if valid == 0 || first > valid || 8 * |bitmap| < valid {
        return false;
      }
      for bit := 0 to first
        invariant forall k :: 0 <= k < bit ==> TestBit(bitmap, k)
      {
        if !TestBit(bitmap, bit) {
          return false;
        }
      }
      for bit := valid to 8 * |bitmap|
        invariant forall k :: valid <= k < bit ==> TestBit(bitmap, k)
      {
        if !TestBit(bitmap, bit) {
          return false;
        }
      }
      ok := true;
    }

    /** `Reserve`: the first free bit, which becomes allocated; nothing changes when there is none. */
    method Reserve() returns (r: ReserveStatus)
      modifies this
      ensures match r
        case Reserved(bit) =>
          && bit in Free(old(bitmap), first, valid)
          && (forall k :: first <= k < bit ==> TestBit(old(bitmap), k))
          && |bitmap| == |old(bitmap)|
          && forall k: nat :: TestBit(bitmap, k) <==> TestBit(old(bitmap), k) || k == bit
        case NoSpace => bitmap == old(bitmap) && Free(bitmap, first, valid) == {}
        case BadGeometry => bitmap == old(bitmap) && (8 * |bitmap| < valid || first > valid)
      ensures 8 * |old(bitmap)| >= valid >= first ==> r != BadGeometry
    {
      hide ByteBit, WithBit;
      if 8 * |bitmap| < valid || first > valid {
        return BadGeometry;
      }
      for bit := first to valid
        invariant bitmap == old(bitmap)
        invariant forall k :: first <= k < bit ==> TestBit(bitmap, k)
      {
        if !TestBit(bitmap, bit) {
          forall k: nat
            ensures TestBit(Put(bitmap, bit, true), k) <==> TestBit(bitmap, k) || k == bit
          {
            PutReads(bitmap, bit, true, k);
          }
          bitmap := Put(bitmap, bit, true);
          return Reserved(bit);
        }
      }
      r := NoSpace;
    }

    /** `ReleaseAllocated`: a free or out-of-range bit is refused. */
    method ReleaseAllocated(bit: nat) returns (r: ReleaseStatus)
      modifies this
      ensures match r
        case Released =>
          && first <= bit < valid && TestBit(old(bitmap), bit) && |bitmap| == |old(bitmap)|
          && forall k: nat :: TestBit(bitmap, k) <==> TestBit(old(bitmap), k) && k != bit
        case OutsideRange => bitmap == old(bitmap) && !(8 * |bitmap| >= valid && first <= bit < valid)
        case AlreadyFree => bitmap == old(bitmap) && !TestBit(bitmap, bit)
      ensures first <= bit < valid <= 8 * |old(bitmap)| && TestBit(old(bitmap), bit) ==> r == Released
    {
      hide ByteBit, WithBit;
      if 8 * |bitmap| < valid || bit < first || bit >= valid {
        return OutsideRange;
      }
      if !TestBit(bitmap, bit) {
        return AlreadyFree;
      }
      forall k: nat
        ensures TestBit(Put(bitmap, bit, false), k) <==> TestBit(bitmap, k) && k != bit
      {
        PutReads(bitmap, bit, false, k);
      }
      bitmap := Put(bitmap, bit, false);
      r := Released;
    }
  }

  predicate WellFormed(bitmap: seq<byte>, valid: nat, first: nat) {
    && 0 < valid <= 8 * |bitmap| && first <= valid
    && (forall k :: 0 <= k < first ==> TestBit(bitmap, k))
    && (forall k :: valid <= k < 8 * |bitmap| ==> TestBit(bitmap, k))
  }

  // ---- Reservations ----

  /** A reservation owns the duty to give its bit back until it is kept, moved away or rolled back. */
  class BitmapReservation {
    var allocator: BitmapAllocator?
    var bit: nat

    constructor ()
      ensures allocator == null
    {
      allocator := null;
      bit := 0;
    }

    /** `KeepReserved`. */
    method KeepReserved()
      modifies this
      ensures allocator == null && bit == old(bit)
    {
      allocator := null;
    }

    /** `RollbackIfActive`: the bit is cleared at most once. */
    method Rollback()
      requires allocator != null ==> bit / 8 < |allocator.bitmap|
      modifies this, allocator
      ensures allocator == null
      ensures old(allocator) != null ==> var a := old(allocator);
        if a.first <= old(bit) < a.valid
        then forall k: nat :: TestBit(a.bitmap, k) <==> TestBit(old(a.bitmap), k) && k != old(bit)
        else a.bitmap == old(a.bitmap)
    {
      hide ByteBit, WithBit;
      if allocator != null {
        if allocator.first <= bit < allocator.valid && TestBit(allocator.bitmap, bit) {
          forall k: nat
            ensures TestBit(Put(allocator.bitmap, bit, false), k) <==> TestBit(allocator.bitmap, k) && k != bit
          {
            PutReads(allocator.bitmap, bit, false, k);
          }
          allocator.bitmap := Put(allocator.bitmap, bit, false);
        }
        allocator := null;
        bit := 0;
      }
    }
  }
}
