/** Fixed on-disk records: consecutive fields with one CRC32C field among them.
    Every codec of the source (`EncodeControl`, `DecodeInode`, ...) has this shape:
    magic and version bytes, little-endian numbers, raw identifiers, reserved zeros
    and a checksum computed with the checksum field itself set to zero. */
module RecordLayout {
  import opened Bytes
  import Crc32c

  datatype Field = Fixed(bytes: seq<byte>) | Reserved(size: nat) | Number(width: nat) | Raw(length: nat)

  datatype Value = Unit | Num(n: nat) | Text(bytes: seq<byte>)

  function Width(f: Field): nat {
    match f
    case Fixed(bytes) => |bytes|
    case Reserved(size) => size
    case Number(width) => width
    case Raw(length) => length
  }

  /** Bytes taken by the fields from index `i` on. */
  function TotalFrom(fs: seq<Field>, i: nat): nat
    decreases |fs| - i
  {
    if i >= |fs| then 0 else Width(fs[i]) + TotalFrom(fs, i + 1)
  }

  function Total(fs: seq<Field>): nat {
    TotalFrom(fs, 0)
  }

  predicate FieldFits(f: Field, v: Value) {
    match f
    case Fixed(_) => v == Unit
    case Reserved(_) => v == Unit
    case Number(width) => v.Num? && v.n < Pow256(width)
    case Raw(length) => v.Text? && |v.bytes| == length
  }

  predicate Fits(fs: seq<Field>, vs: seq<Value>) {
    |fs| == |vs| && forall i :: 0 <= i < |fs| ==> FieldFits(fs[i], vs[i])
  }

  function EncodeField(f: Field, v: Value): (r: seq<byte>)
    requires FieldFits(f, v)
    ensures |r| == Width(f)
  {
    match f
    case Fixed(bytes) => bytes
    case Reserved(size) => Zeros(size)
    case Number(width) => LeBytes(v.n, width)
    case Raw(_) => v.bytes
  }

  function DecodeField(f: Field, b: seq<byte>): (r: Option<Value>)
    requires |b| == Width(f)
    ensures r.Some? ==> FieldFits(f, r.value)
  {
    match f
    case Fixed(bytes) => if b == bytes then Some(Unit) else None
    case Reserved(_) => if AllZero(b) then Some(Unit) else None
    case Number(_) => Some(Num(LeNat(b)))
    case Raw(_) => Some(Text(b))
  }

  function EncodeFrom(fs: seq<Field>, vs: seq<Value>, i: nat): (r: seq<byte>)
    requires Fits(fs, vs)
    ensures |r| == TotalFrom(fs, i)
    decreases |fs| - i
  {
    if i >= |fs| then [] else EncodeField(fs[i], vs[i]) + EncodeFrom(fs, vs, i + 1)
  }

  /** The values of the fields from index `i` on. */
  function DecodeFrom(fs: seq<Field>, b: seq<byte>, i: nat): (r: Option<seq<Value>>)
    requires i <= |fs| && |b| == TotalFrom(fs, i)
    ensures r.Some? ==> |r.value| == |fs| - i
    ensures r.Some? ==> forall j :: i <= j < |fs| ==> FieldFits(fs[j], r.value[j - i])
    decreases |fs| - i
  {
    if i == |fs| then Some([])
    else
      var w := Width(fs[i]);
      match (DecodeField(fs[i], b[..w]), DecodeFrom(fs, b[w..], i + 1))
      case (Some(v), Some(vs)) => Some([v] + vs)
      case _ => None
  }

  function EncodeFields(fs: seq<Field>, vs: seq<Value>): (r: seq<byte>)
    requires Fits(fs, vs)
    ensures |r| == Total(fs)
  {
    EncodeFrom(fs, vs, 0)
  }

  function DecodeFields(fs: seq<Field>, b: seq<byte>): (r: Option<seq<Value>>)
    requires |b| == Total(fs)
    ensures r.Some? ==> Fits(fs, r.value)
  {
    DecodeFrom(fs, b, 0)
  }

  lemma FieldRoundTrip(f: Field, v: Value)
    requires FieldFits(f, v)
    ensures DecodeField(f, EncodeField(f, v)) == Some(v)
  {
    if f.Number? { LeNatOfBytes(v.n, f.width); }
  }

  lemma FieldCanonical(f: Field, b: seq<byte>)
    requires |b| == Width(f) && DecodeField(f, b).Some?
    ensures EncodeField(f, DecodeField(f, b).value) == b
  {
    if f.Number? { LeBytesOfNat(b); }
  }

  lemma {:induction false} FromRoundTrip(fs: seq<Field>, vs: seq<Value>, i: nat)
    requires Fits(fs, vs) && i <= |fs|
    ensures DecodeFrom(fs, EncodeFrom(fs, vs, i), i) == Some(vs[i..])
    decreases |fs| - i
  {
    if i < |fs| {
      FieldRoundTrip(fs[i], vs[i]);
      FromRoundTrip(fs, vs, i + 1);
      var b, w := EncodeFrom(fs, vs, i), Width(fs[i]);
      assert b[..w] == EncodeField(fs[i], vs[i]) && b[w..] == EncodeFrom(fs, vs, i + 1);
      assert vs[i..] == [vs[i]] + vs[i + 1..];
    }
  }

  lemma {:induction false} FromCanonical(fs: seq<Field>, vs: seq<Value>, b: seq<byte>, i: nat)
    requires Fits(fs, vs) && i <= |fs| && |b| == TotalFrom(fs, i)
    requires DecodeFrom(fs, b, i) == Some(vs[i..])
    ensures EncodeFrom(fs, vs, i) == b
    decreases |fs| - i
  {
    if i < |fs| {
      var w := Width(fs[i]);
      FieldCanonical(fs[i], b[..w]);
      assert vs[i..][0] == vs[i] && vs[i..][1..] == vs[i + 1..];
      assert DecodeFrom(fs, b[w..], i + 1) == Some(vs[i + 1..]);
      FromCanonical(fs, vs, b[w..], i + 1);
      assert b == b[..w] + b[w..];
    }
  }

  lemma FieldsRoundTrip(fs: seq<Field>, vs: seq<Value>)
    requires Fits(fs, vs)
    ensures DecodeFields(fs, EncodeFields(fs, vs)) == Some(vs)
  {
    FromRoundTrip(fs, vs, 0);
    assert vs[0..] == vs;
  }

  lemma FieldsCanonical(fs: seq<Field>, b: seq<byte>)
    requires |b| == Total(fs) && DecodeFields(fs, b).Some?
    ensures EncodeFields(fs, DecodeFields(fs, b).value) == b
  {
    var vs := DecodeFields(fs, b).value;
    assert vs[0..] == vs;
    FromCanonical(fs, vs, b, 0);
  }

  /** A record with its checksum between `head` and `tail`. */
  datatype Layout = Layout(head: seq<Field>, tail: seq<Field>)

  function Size(l: Layout): nat {
    Total(l.head) + 4 + Total(l.tail)
  }

  datatype Record = Record(head: seq<Value>, tail: seq<Value>)

  predicate RecordFits(l: Layout, r: Record) {
    Fits(l.head, r.head) && Fits(l.tail, r.tail)
  }

  /** The record's bytes with the checksum field holding `sum`. */
  function WithChecksum(l: Layout, r: Record, sum: seq<byte>): (b: seq<byte>)
    requires RecordFits(l, r) && |sum| == 4
    ensures |b| == Size(l)
  {
    EncodeFields(l.head, r.head) + sum + EncodeFields(l.tail, r.tail)
  }

  function Encode(l: Layout, r: Record): (b: seq<byte>)
    requires RecordFits(l, r)
    ensures |b| == Size(l)
  {
    WithChecksum(l, r, Crc32c.Checksum(WithChecksum(l, r, Zeros(4))))
  }

  /** The received bytes with the four checksum bytes at `k` set to zero. */
  function Cleared(b: seq<byte>, k: nat): (z: seq<byte>)
    requires k + 4 <= |b|
    ensures |z| == |b|
  {
    Splice(b, k, Zeros(4))
  }

  predicate ChecksumHolds(b: seq<byte>, k: nat)
    requires k + 4 <= |b|
  {
    b[k..k + 4] == Crc32c.Checksum(Cleared(b, k))
  }

  function Decode(l: Layout, b: seq<byte>): (r: Option<Record>)
    requires |b| == Size(l)
    ensures r.Some? ==> RecordFits(l, r.value) && ChecksumHolds(b, Total(l.head))
  {
    var k := Total(l.head);
    if !ChecksumHolds(b, k) then None
    else match (DecodeFields(l.head, b[..k]), DecodeFields(l.tail, b[k + 4..]))
      case (Some(head), Some(tail)) => Some(Record(head, tail))
      case _ => None
  }

  /** Decoding an encoding gives the record back. */
  lemma RoundTrip(l: Layout, r: Record)
    requires RecordFits(l, r)
    ensures Decode(l, Encode(l, r)) == Some(r)
  {
    hide Crc32c.Checksum, EncodeFields, DecodeFields, Splice;
    var zeroed := WithChecksum(l, r, Zeros(4));
    var b := Encode(l, r);
    var k := Total(l.head);
    assert b[..k] == EncodeFields(l.head, r.head);
    assert b[k..k + 4] == Crc32c.Checksum(zeroed);
    assert b[k + 4..] == EncodeFields(l.tail, r.tail);
    assert Cleared(b, k) == zeroed by {
      assert Cleared(b, k)[k..k + 4] == Zeros(4);
    }
    FieldsRoundTrip(l.head, r.head);
    FieldsRoundTrip(l.tail, r.tail);
  }

  /** Re-encoding any record that decodes reproduces its exact bytes. */
  lemma Canonical(l: Layout, b: seq<byte>)
    requires |b| == Size(l) && Decode(l, b).Some?
    ensures Encode(l, Decode(l, b).value) == b
  {
    hide Crc32c.Checksum, EncodeFields, DecodeFields, Splice;
    var r := Decode(l, b).value;
    var k := Total(l.head);
    FieldsCanonical(l.head, b[..k]);
    FieldsCanonical(l.tail, b[k + 4..]);
    assert b == b[..k] + b[k..k + 4] + b[k + 4..];
    assert Cleared(b, k) == WithChecksum(l, r, Zeros(4)) by {
      assert Cleared(b, k)[k..k + 4] == Zeros(4);
    }
  }

  /** Changing exactly one byte, in the checksum field or outside it, breaks the checksum. */
  lemma OneByteBreaksChecksum(good: seq<byte>, bad: seq<byte>, k: nat, p: nat)
    requires k + 4 <= |good| && ChecksumHolds(good, k)
    requires Crc32c.DifferInOneByte(good, bad, p)
    ensures !ChecksumHolds(bad, k)
  {
    hide Crc32c.Checksum, Splice;
    assert Cleared(good, k)[k..k + 4] == Cleared(bad, k)[k..k + 4];
    if k <= p < k + 4 {
      assert Cleared(good, k) == Cleared(bad, k);
      assert good[k..k + 4][p - k] != bad[k..k + 4][p - k];
    } else {
      assert good[k..k + 4] == bad[k..k + 4];
      forall i | 0 <= i < |good| && i != p
        ensures Cleared(good, k)[i] == Cleared(bad, k)[i]
      {
        if k <= i < k + 4 {
          assert Cleared(good, k)[i] == Cleared(good, k)[k..k + 4][i - k];
          assert Cleared(bad, k)[i] == Cleared(bad, k)[k..k + 4][i - k];
        }
      }
      Crc32c.ChecksumSeesOneByte(Cleared(good, k), Cleared(bad, k), p);
    }
  }
}
