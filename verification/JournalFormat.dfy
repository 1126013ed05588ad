/** The journal's on-disk records and the choice between the two control copies
    (src/journal/ondisk_journal.cpp). */
module JournalFormat {
  import opened Bytes
  import opened RecordLayout
  import Crc32c

  type Uuid = s: seq<byte> | |s| == 16 witness Zeros(16)

  const MAX_DESCRIPTOR_ENTRIES: nat := 252
  const MINIMUM_RING_BLOCKS: nat := 3

  datatype JournalControl = JournalControl(
    ringBlocks: u32, uuid: Uuid, generation: u64, head: u32, tail: u32, usedBlocks: u32,
    stateFlags: u32, nextTransactionId: u64,
    featureCompat: u64, featureRoCompat: u64, featureIncompat: u64)

  const CONTROL_HEAD: seq<Field> :=
    [Fixed([69, 85, 70, 83, 74, 67, 84, 49]), Fixed([1, 0, 0, 0]), Fixed([128, 0, 0, 0]), Fixed([0, 16, 0, 0]),
     Number(4), Raw(16), Number(8), Number(4), Number(4), Number(4), Number(4), Number(8),
     Number(8), Number(8), Number(8), Reserved(28)]
  const CONTROL_TAIL: seq<Field> := [Reserved(3968)]
  const CONTROL: Layout := Layout(CONTROL_HEAD, CONTROL_TAIL)

  lemma ControlSize()
    ensures Total(CONTROL_HEAD) == 124 && Size(CONTROL) == BLOCK_SIZE
  {
    assert TotalFrom(CONTROL_HEAD, 14) == 36;
    assert TotalFrom(CONTROL_HEAD, 12) == 52;
    assert TotalFrom(CONTROL_HEAD, 10) == 64;
    assert TotalFrom(CONTROL_HEAD, 8) == 72;
    assert TotalFrom(CONTROL_HEAD, 6) == 84;
    assert TotalFrom(CONTROL_HEAD, 4) == 104;
    assert TotalFrom(CONTROL_HEAD, 2) == 112;
  }

  /** `ValidateControlFields`. */
  predicate ValidControl(c: JournalControl) {
    && c.ringBlocks >= MINIMUM_RING_BLOCKS
    && c.head < c.ringBlocks && c.tail < c.ringBlocks && c.usedBlocks <= c.ringBlocks
    && (c.usedBlocks != 0 ==> c.usedBlocks >= MINIMUM_RING_BLOCKS)
    && c.nextTransactionId != 0
    && c.head == (c.tail + c.usedBlocks) % c.ringBlocks
    && c.stateFlags == 0 && c.featureCompat == 0 && c.featureRoCompat == 0 && c.featureIncompat == 0
  }

  function ControlValues(c: JournalControl): (r: Record)
    ensures RecordFits(CONTROL, r)
  {
    Widths();
    Record([Unit, Unit, Unit, Unit, Num(c.ringBlocks), Text(c.uuid), Num(c.generation), Num(c.head), Num(c.tail),
            Num(c.usedBlocks), Num(c.stateFlags), Num(c.nextTransactionId),
            Num(c.featureCompat), Num(c.featureRoCompat), Num(c.featureIncompat), Unit], [Unit])
  }

  function ControlOfValues(r: Record): (c: JournalControl)
    requires RecordFits(CONTROL, r)
    ensures ControlValues(c) == r
  {
    Widths();
    var v := r.head;
    var c := JournalControl(v[4].n, v[5].bytes, v[6].n, v[7].n, v[8].n, v[9].n, v[10].n, v[11].n,
                            v[12].n, v[13].n, v[14].n);
    c
  }

  function ControlBytes(c: JournalControl): Block {
    ControlSize();
    Encode(CONTROL, ControlValues(c))
  }

  /** `EncodeControl`: nothing for a control that breaks the ring geometry. */
  function EncodeControl(c: JournalControl): (r: Option<Block>)
    ensures r.Some? <==> ValidControl(c)
  {
    if ValidControl(c) then Some(ControlBytes(c)) else None
  }

  function DecodeControl(b: Block): (r: Option<JournalControl>)
    ensures r.Some? ==> ValidControl(r.value)
  {
    ControlSize();
    match Decode(CONTROL, b)
    case None => None
    case Some(record) =>
      var c := ControlOfValues(record);
      if ValidControl(c) then Some(c) else None
  }

  lemma ControlRoundTrip(c: JournalControl)
    requires ValidControl(c)
    ensures DecodeControl(ControlBytes(c)) == Some(c)
  {
    hide Encode, Decode;
    ControlSize();
    RoundTrip(CONTROL, ControlValues(c));
    var d := ControlOfValues(ControlValues(c));
    assert ControlValues(d).head == ControlValues(c).head;
    SameControlValues(c, d);
  }

  lemma SameControlValues(c: JournalControl, d: JournalControl)
    requires ControlValues(c) == ControlValues(d)
    ensures c == d
  {
    var v, w := ControlValues(c).head, ControlValues(d).head;
    assert v[4] == w[4] && v[5] == w[5] && v[6] == w[6] && v[7] == w[7] && v[8] == w[8] && v[9] == w[9];
    assert v[10] == w[10] && v[11] == w[11] && v[12] == w[12] && v[13] == w[13] && v[14] == w[14];
  }

  lemma ControlCanonical(b: Block)
    requires DecodeControl(b).Some?
    ensures EncodeControl(DecodeControl(b).value) == Some(b)
  {
    hide Encode, Decode;
    ControlSize();
    Canonical(CONTROL, b);
  }

  lemma ControlDamageIsRejected(good: Block, bad: Block, p: nat)
    requires DecodeControl(good).Some? && Crc32c.DifferInOneByte(good, bad, p)
    ensures DecodeControl(bad) == None
  {
    hide Decode;
    ControlSize();
    OneByteBreaksChecksum(good, bad, 124, p);
  }

  // ---- Descriptor ----

  datatype DescriptorEntry = DescriptorEntry(homeBlock: u32, payloadRingIndex: u32, payloadCrc: u32, flags: u32)

  datatype DescriptorRecord = DescriptorRecord(
    transactionId: u64, uuid: Uuid, blockCount: u32, flags: u32, entries: seq<DescriptorEntry>)

  const DESCRIPTOR_HEAD: seq<Field> :=
    [Fixed([69, 85, 70, 83, 74, 68, 83, 49]), Fixed([1, 0, 0, 0]), Fixed([64, 0, 0, 0]), Fixed([1, 0, 0, 0]),
     Number(4), Number(8), Raw(16), Number(4), Fixed([64, 0, 0, 0]), Number(4)]

  function DescriptorLayout(n: nat): Layout
    requires n <= MAX_DESCRIPTOR_ENTRIES
  {
    Layout(DESCRIPTOR_HEAD, [Raw(16 * n), Reserved(4032 - 16 * n)])
  }

  lemma DescriptorSize(n: nat)
    requires n <= MAX_DESCRIPTOR_ENTRIES
    ensures Total(DESCRIPTOR_HEAD) == 60 && Size(DescriptorLayout(n)) == BLOCK_SIZE
  {
    assert TotalFrom(DESCRIPTOR_HEAD, 8) == 8;
    assert TotalFrom(DESCRIPTOR_HEAD, 6) == 28;
    assert TotalFrom(DESCRIPTOR_HEAD, 4) == 40;
    assert TotalFrom(DESCRIPTOR_HEAD, 2) == 48;
    assert TotalFrom(DescriptorLayout(n).tail, 1) == 4032 - 16 * n;
  }

  function EntryBytes(e: DescriptorEntry): (r: seq<byte>)
    ensures |r| == 16
  {
    LeBytes(e.homeBlock, 4) + LeBytes(e.payloadRingIndex, 4) + LeBytes(e.payloadCrc, 4) + LeBytes(e.flags, 4)
  }

  function EntryOfBytes(b: seq<byte>): DescriptorEntry
    requires |b| == 16
  {
    Widths();
    DescriptorEntry(LeNat(b[..4]), LeNat(b[4..8]), LeNat(b[8..12]), LeNat(b[12..16]))
  }

  function EntriesBytes(es: seq<DescriptorEntry>): (r: seq<byte>)
    ensures |r| == 16 * |es|
  {
    if es == [] then [] else EntryBytes(es[0]) + EntriesBytes(es[1..])
  }

  function EntriesOfBytes(b: seq<byte>, n: nat): (r: seq<DescriptorEntry>)
    requires |b| == 16 * n
    ensures |r| == n
  {
    if n == 0 then [] else [EntryOfBytes(b[..16])] + EntriesOfBytes(b[16..], n - 1)
  }

  lemma EntryRoundTrip(e: DescriptorEntry)
    ensures EntryOfBytes(EntryBytes(e)) == e
  {
    hide LeBytes, LeNat;
    Widths();
    var b := EntryBytes(e);
    assert b[..4] == LeBytes(e.homeBlock, 4) && b[4..8] == LeBytes(e.payloadRingIndex, 4);
    assert b[8..12] == LeBytes(e.payloadCrc, 4) && b[12..16] == LeBytes(e.flags, 4);
    LeNatOfBytes(e.homeBlock, 4);
    LeNatOfBytes(e.payloadRingIndex, 4);
    LeNatOfBytes(e.payloadCrc, 4);
    LeNatOfBytes(e.flags, 4);
  }

  lemma EntryCanonical(b: seq<byte>)
    requires |b| == 16
    ensures EntryBytes(EntryOfBytes(b)) == b
  {
    LeBytesOfNat(b[..4]);
    LeBytesOfNat(b[4..8]);
    LeBytesOfNat(b[8..12]);
    LeBytesOfNat(b[12..16]);
    assert b == b[..4] + b[4..8] + b[8..12] + b[12..16];
  }

  lemma {:induction false} EntriesRoundTrip(es: seq<DescriptorEntry>)
    ensures EntriesOfBytes(EntriesBytes(es), |es|) == es
  {
    if es != [] {
      EntryRoundTrip(es[0]);
      EntriesRoundTrip(es[1..]);
      var b := EntriesBytes(es);
      assert b[..16] == EntryBytes(es[0]) && b[16..] == EntriesBytes(es[1..]);
      assert es == [es[0]] + es[1..];
    }
  }

  lemma {:induction false} EntriesCanonical(b: seq<byte>, n: nat)
    requires |b| == 16 * n
    ensures EntriesBytes(EntriesOfBytes(b, n)) == b
  {
    if n > 0 {
      EntryCanonical(b[..16]);
      EntriesCanonical(b[16..], n - 1);
      var es := EntriesOfBytes(b, n);
      assert es[0] == EntryOfBytes(b[..16]) && es[1..] == EntriesOfBytes(b[16..], n - 1);
      assert b == b[..16] + b[16..];
    }
  }

  /** `ValidateDescriptorEntries`. */
  predicate ValidEntries(es: seq<DescriptorEntry>) {
    && 0 < |es| <= MAX_DESCRIPTOR_ENTRIES
    && (forall i :: 0 <= i < |es| ==> es[i].homeBlock != 0 && es[i].flags == 0)
    && (forall i, j :: 0 <= i < j < |es| ==>
          es[i].homeBlock != es[j].homeBlock && es[i].payloadRingIndex != es[j].payloadRingIndex)
  }

  predicate ValidDescriptor(d: DescriptorRecord) {
    d.transactionId != 0 && d.flags == 0 && ValidEntries(d.entries) && d.blockCount == |d.entries| + 2
  }

  function DescriptorValues(d: DescriptorRecord): (r: Record)
    requires |d.entries| <= MAX_DESCRIPTOR_ENTRIES
    ensures RecordFits(DescriptorLayout(|d.entries|), r)
  {
    Widths();
    Record([Unit, Unit, Unit, Unit, Num(|d.entries|), Num(d.transactionId), Text(d.uuid), Num(d.blockCount), Unit,
            Num(d.flags)],
           [Text(EntriesBytes(d.entries)), Unit])
  }

  function DescriptorBytes(d: DescriptorRecord): Block {
    if |d.entries| > MAX_DESCRIPTOR_ENTRIES then Zeros(BLOCK_SIZE)
    else
      DescriptorSize(|d.entries|);
      Encode(DescriptorLayout(|d.entries|), DescriptorValues(d))
  }

  function EncodeDescriptor(d: DescriptorRecord): (r: Option<Block>)
    ensures r.Some? <==> ValidDescriptor(d)
  {
    if ValidDescriptor(d) then Some(DescriptorBytes(d)) else None
  }

  function DescriptorOfValues(r: Record, n: nat): (d: DescriptorRecord)
    requires n <= MAX_DESCRIPTOR_ENTRIES && RecordFits(DescriptorLayout(n), r)
    ensures |d.entries| == n
    ensures r.head[4].n == n ==> DescriptorValues(d) == r
  {
    Widths();
    assert FieldFits(DescriptorLayout(n).tail[0], r.tail[0]) && FieldFits(DescriptorLayout(n).tail[1], r.tail[1]);
    var v := r.head;
    EntriesCanonical(r.tail[0].bytes, n);
    DescriptorRecord(v[5].n, v[6].bytes, v[7].n, v[9].n, EntriesOfBytes(r.tail[0].bytes, n))
  }

  /** `DecodeDescriptor`: the entry count in the header fixes how many entries follow. */
  function DecodeDescriptor(b: Block): (r: Option<DescriptorRecord>)
    ensures r.Some? ==> ValidDescriptor(r.value)
  {
    DescriptorSize(0);
    match DecodeFields(DESCRIPTOR_HEAD, b[..60])
    case None => None
    case Some(head) =>
      var n := head[4].n;
      if n == 0 || n > MAX_DESCRIPTOR_ENTRIES then None
      else
        DescriptorSize(n);
        match Decode(DescriptorLayout(n), b)
        case None => None
        case Some(record) =>
          var d := DescriptorOfValues(record, n);
          if ValidDescriptor(d) then Some(d) else None
  }

  /** The CRC field of a descriptor block, which the COMMIT must repeat. */
  function DescriptorChecksum(b: Block): u32 {
    Widths();
    LeNat(b[60..64])
  }

  lemma DescriptorRoundTrip(d: DescriptorRecord)
    requires ValidDescriptor(d)
    ensures DecodeDescriptor(DescriptorBytes(d)) == Some(d)
  {
    hide Encode, Decode, DecodeFields;
    var n := |d.entries|;
    var l, r := DescriptorLayout(n), DescriptorValues(d);
    DescriptorSize(n);
    RoundTrip(l, r);
    HeadOfDecode(l, Encode(l, r));
    EntriesRoundTrip(d.entries);
  }

  /** The head fields of a decoded record are what decoding the head alone gives. */
  lemma HeadOfDecode(l: Layout, b: seq<byte>)
    requires |b| == Size(l) && Decode(l, b).Some?
    ensures DecodeFields(l.head, b[..Total(l.head)]) == Some(Decode(l, b).value.head)
  {
    hide DecodeFields;
  }

  lemma DescriptorCanonical(b: Block)
    requires DecodeDescriptor(b).Some?
    ensures EncodeDescriptor(DecodeDescriptor(b).value) == Some(b)
  {
    hide Encode, Decode, DecodeFields;
    DescriptorSize(0);
    var n := DecodeFields(DESCRIPTOR_HEAD, b[..60]).value[4].n;
    DescriptorSize(n);
    HeadOfDecode(DescriptorLayout(n), b);
    Canonical(DescriptorLayout(n), b);
  }

  lemma DescriptorDamageIsRejected(good: Block, bad: Block, p: nat)
    requires DecodeDescriptor(good).Some? && Crc32c.DifferInOneByte(good, bad, p)
    ensures DecodeDescriptor(bad) == None
  {
    hide Decode, DecodeFields;
    DescriptorSize(0);
    OneByteBreaksChecksum(good, bad, 60, p);
  }

  // ---- COMMIT ----

  datatype CommitRecord = CommitRecord(
    transactionId: u64, uuid: Uuid, entryCount: u32, blockCount: u32, descriptorRingIndex: u32, descriptorCrc: u32)

  const COMMIT_HEAD: seq<Field> :=
    [Fixed([69, 85, 70, 83, 74, 67, 77, 49]), Fixed([1, 0, 0, 0]), Fixed([64, 0, 0, 0]), Fixed([2, 0, 0, 0]),
     Number(4), Number(8), Raw(16), Number(4), Number(4), Number(4)]
  const COMMIT: Layout := Layout(COMMIT_HEAD, [Reserved(4032)])

  lemma CommitSize()
    ensures Total(COMMIT_HEAD) == 60 && Size(COMMIT) == BLOCK_SIZE
  {
    assert TotalFrom(COMMIT_HEAD, 8) == 8;
    assert TotalFrom(COMMIT_HEAD, 6) == 28;
    assert TotalFrom(COMMIT_HEAD, 4) == 40;
    assert TotalFrom(COMMIT_HEAD, 2) == 48;
  }

  predicate ValidCommit(c: CommitRecord) {
    c.transactionId != 0 && 0 < c.entryCount <= MAX_DESCRIPTOR_ENTRIES && c.blockCount == c.entryCount + 2
  }

  function CommitValues(c: CommitRecord): (r: Record)
    ensures RecordFits(COMMIT, r)
  {
    Widths();
    Record([Unit, Unit, Unit, Unit, Num(c.entryCount), Num(c.transactionId), Text(c.uuid), Num(c.blockCount),
            Num(c.descriptorRingIndex), Num(c.descriptorCrc)], [Unit])
  }

  function CommitOfValues(r: Record): (c: CommitRecord)
    requires RecordFits(COMMIT, r)
    ensures CommitValues(c) == r
  {
    Widths();
    var v := r.head;
    CommitRecord(v[5].n, v[6].bytes, v[4].n, v[7].n, v[8].n, v[9].n)
  }

  function CommitBytes(c: CommitRecord): Block {
    CommitSize();
    Encode(COMMIT, CommitValues(c))
  }

  function EncodeCommit(c: CommitRecord): (r: Option<Block>)
    ensures r.Some? <==> ValidCommit(c)
  {
    if ValidCommit(c) then Some(CommitBytes(c)) else None
  }

  function DecodeCommit(b: Block): (r: Option<CommitRecord>)
    ensures r.Some? ==> ValidCommit(r.value)
  {
    CommitSize();
    match Decode(COMMIT, b)
    case None => None
    case Some(record) =>
      var c := CommitOfValues(record);
      if ValidCommit(c) then Some(c) else None
  }

  lemma CommitRoundTrip(c: CommitRecord)
    requires ValidCommit(c)
    ensures DecodeCommit(CommitBytes(c)) == Some(c)
  {
    hide Encode, Decode;
    CommitSize();
    RoundTrip(COMMIT, CommitValues(c));
    var d := CommitOfValues(CommitValues(c));
    var v, w := CommitValues(c).head, CommitValues(d).head;
    assert v[4] == w[4] && v[5] == w[5] && v[6] == w[6] && v[7] == w[7] && v[8] == w[8] && v[9] == w[9];
  }

  lemma CommitCanonical(b: Block)
    requires DecodeCommit(b).Some?
    ensures EncodeCommit(DecodeCommit(b).value) == Some(b)
  {
    hide Encode, Decode;
    CommitSize();
    Canonical(COMMIT, b);
  }

  lemma CommitDamageIsRejected(good: Block, bad: Block, p: nat)
    requires DecodeCommit(good).Some? && Crc32c.DifferInOneByte(good, bad, p)
    ensures DecodeCommit(bad) == None
  {
    hide Decode;
    CommitSize();
    OneByteBreaksChecksum(good, bad, 60, p);
  }

  /** The first field of any record that decodes is its magic number. */
  lemma MagicOfDecode(l: Layout, b: seq<byte>)
    requires |b| == Size(l) && |l.head| > 0 && l.head[0].Fixed? && Decode(l, b).Some?
    ensures |l.head[0].bytes| <= |b| && b[..|l.head[0].bytes|] == l.head[0].bytes
  {
    var w := |l.head[0].bytes|;
    var k := Total(l.head);
    assert b[..k][..w] == b[..w];
  }

  lemma DescriptorMagic(b: Block)
    requires DecodeDescriptor(b).Some?
    ensures b[5] == 68
  {
    hide Decode, DecodeFields;
    DescriptorSize(0);
    var n := DecodeFields(DESCRIPTOR_HEAD, b[..60]).value[4].n;
    DescriptorSize(n);
    MagicOfDecode(DescriptorLayout(n), b);
    assert b[..8][5] == 68;
  }

  lemma CommitMagic(b: Block)
    requires DecodeCommit(b).Some?
    ensures b[5] == 67
  {
    hide Decode;
    CommitSize();
    MagicOfDecode(COMMIT, b);
    assert b[..8][5] == 67;
  }

  /** The fixed bytes of a COMMIT block: its magic, its version, and zeros after the header. */
  predicate CommitLike(b: Block) {
    && b[0] == 69 && b[1] == 85 && b[2] == 70 && b[4] == 74 && b[5] == 67 && b[8..12] == [1, 0, 0, 0]
    && forall k :: 64 <= k < BLOCK_SIZE ==> b[k] == 0
  }

  lemma CommitShape(b: Block)
    ensures DecodeCommit(b).Some? ==> CommitLike(b)
  {
    hide Decode, DecodeFields, CommitLike;
    CommitSize();
    if DecodeCommit(b).Some? {
      CommitParts(b);
      CommitHeadShape(b[..60]);
      CommitTailShape(b[64..]);
      CommitBytesAre(b);
    }
  }

  lemma CommitBytesAre(b: Block)
    requires b[..60][..12] == [69, 85, 70, 83, 74, 67, 77, 49] + [1, 0, 0, 0]
    requires forall k :: 0 <= k < BLOCK_SIZE - 64 ==> b[64..][k] == 0
    ensures CommitLike(b)
  {
    var h := b[..60][..12];
    assert h[0] == b[0] && h[1] == b[1] && h[2] == b[2] && h[4] == b[4] && h[5] == b[5] && h[8..] == b[8..12];
    forall k | 64 <= k < BLOCK_SIZE
      ensures b[k] == 0
    {
      assert b[64..][k - 64] == b[k];
    }
  }

  lemma CommitParts(b: Block)
    requires DecodeCommit(b).Some?
    ensures Total(COMMIT_HEAD) == 60 && Total(COMMIT.tail) == 4032
    ensures DecodeFields(COMMIT_HEAD, b[..60]).Some? && DecodeFields(COMMIT.tail, b[64..]).Some?
  {
    hide ChecksumHolds, DecodeFields;
    CommitSize();
  }

  lemma CommitHeadShape(h: seq<byte>)
    requires Total(COMMIT_HEAD) == 60 == |h| && DecodeFields(COMMIT_HEAD, h).Some?
    ensures h[..12] == [69, 85, 70, 83, 74, 67, 77, 49] + [1, 0, 0, 0]
  {
    assert DecodeField(COMMIT_HEAD[0], h[..8]).Some? && DecodeFrom(COMMIT_HEAD, h[8..], 1).Some?;
    assert DecodeField(COMMIT_HEAD[1], h[8..][..4]).Some?;
    assert h[..12] == h[..8] + h[8..][..4];
  }

  lemma CommitTailShape(t: seq<byte>)
    requires Total(COMMIT.tail) == 4032 == |t| && DecodeFields(COMMIT.tail, t).Some?
    ensures forall k :: 0 <= k < |t| ==> t[k] == 0
  {
    assert DecodeField(COMMIT.tail[0], t[..4032]).Some? && t[..4032] == t;
  }

  /** No block is both a descriptor and a COMMIT. */
  lemma DescriptorIsNotCommit(b: Block)
    requires DecodeDescriptor(b).Some?
    ensures DecodeCommit(b) == None
  {
    hide DecodeDescriptor, DecodeCommit;
    DescriptorMagic(b);
    if DecodeCommit(b).Some? {
      CommitMagic(b);
    }
  }

  /** `CommitMatchesDescriptor`. */
  predicate CommitMatches(d: DescriptorRecord, checksum: u32, ringIndex: u32, c: CommitRecord) {
    && d.transactionId == c.transactionId && d.uuid == c.uuid && |d.entries| == c.entryCount
    && d.blockCount == c.blockCount && ringIndex == c.descriptorRingIndex && checksum == c.descriptorCrc
  }

  // ---- A/B control selection ----

  datatype Copy = A | B
  datatype Comparison = Equal | FirstNewer | SecondNewer | Ambiguous

  const GENERATIONS: int := 0x1_0000_0000_0000_0000

  /** `CompareGenerations`: serial number arithmetic modulo 2^64. */
  function CompareGenerations(first: u64, second: u64): Comparison {
    if first == second then Equal
    else
      var difference := (first - second) % GENERATIONS;
      if difference == GENERATIONS / 2 then Ambiguous
      else if difference < GENERATIONS / 2 then FirstNewer else SecondNewer
  }

  function NextGeneration(g: u64): u64 {
    (g + 1) % GENERATIONS
  }

  datatype Selection = Selection(control: JournalControl, copy: Copy)

  function UsableControl(b: Block, uuid: Uuid, ringBlocks: u32): (r: Option<JournalControl>)
    ensures r.Some? ==> DecodeControl(b) == r && r.value.uuid == uuid && r.value.ringBlocks == ringBlocks
  {
    match DecodeControl(b)
    case Some(c) => if c.uuid == uuid && c.ringBlocks == ringBlocks then Some(c) else None
    case None => None
  }

  /** `SelectControl`. */
  function SelectControl(a: Block, b: Block, uuid: Uuid, ringBlocks: u32): (r: Option<Selection>)
    ensures r.Some? ==> r.value.control.uuid == uuid && r.value.control.ringBlocks == ringBlocks
    ensures r.Some? ==> ValidControl(r.value.control)
  {
    if ringBlocks < MINIMUM_RING_BLOCKS then None
    else match (UsableControl(a, uuid, ringBlocks), UsableControl(b, uuid, ringBlocks))
      case (None, None) => None
      case (Some(ca), None) => Some(Selection(ca, A))
      case (None, Some(cb)) => Some(Selection(cb, B))
      case (Some(ca), Some(cb)) =>
        match CompareGenerations(ca.generation, cb.generation)
        case Ambiguous => None
        case Equal => if ca == cb then Some(Selection(ca, A)) else None
        case FirstNewer => Some(Selection(ca, A))
        case SecondNewer => Some(Selection(cb, B))
  }

  /** Of two generations less than 2^63 apart the one that was reached later is newer, also across the wrap
      to zero; at exactly 2^63 nothing can be said. */
  lemma LaterIsNewer(g: u64, steps: nat)
    requires 0 < steps < GENERATIONS
    ensures var later := (g + steps) % GENERATIONS;
      CompareGenerations(later, g) ==
        (if steps < 0x8000_0000_0000_0000 then FirstNewer else if steps == 0x8000_0000_0000_0000 then Ambiguous else SecondNewer)
  {}

  /** The successor generation always wins, also across the wrap to zero. */
  lemma SuccessorIsNewer(g: u64)
    ensures CompareGenerations(NextGeneration(g), g) == FirstNewer
    ensures CompareGenerations(g, NextGeneration(g)) == SecondNewer
  {}
}
