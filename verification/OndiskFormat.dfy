/** Superblock and inode records (src/metadata/ondisk_format.cpp, src/metadata/ondisk_format.h). */
module OndiskFormat {
  import opened Bytes
  import opened RecordLayout
  import opened JournalFormat
  import Crc32c

  const INODE_SIZE: nat := 128
  const DIRECT_BLOCKS: nat := 12
  const POINTERS_PER_BLOCK: nat := 1024
  const MAX_FILE_BLOCKS: nat := 1036
  const MAX_FILE_SIZE: nat := 4243456
  const CONTROL_BLOCKS: nat := 2
  const BITS_PER_BLOCK: nat := 32768

  // ---- Superblock ----

  datatype Region = Region(start: u32, count: u32)

  predicate InRegion(b: nat, r: Region) {
    r.start <= b < r.start + r.count
  }

  datatype Superblock = Superblock(
    totalBlocks: u32, totalInodes: u32, rootInode: u32,
    inodeBitmap: Region, blockBitmap: Region, inodeTable: Region, journal: Region, data: Region,
    featureCompat: u64, featureRoCompat: u64, featureIncompat: u64, uuid: Uuid, createdTime: u64)

  function CeilDivide(n: nat, d: nat): nat
    requires d > 0
  {
    (n + d - 1) / d
  }

  /** `ValidateSuperblock`: the five regions are consecutive and fill the image. */
  predicate ValidSuperblock(s: Superblock) {
    && s.totalBlocks >= 8
    && 0 < s.rootInode <= s.totalInodes
    && s.inodeBitmap == Region(1, CeilDivide(s.totalInodes, BITS_PER_BLOCK))
    && s.blockBitmap.start == s.inodeBitmap.start + s.inodeBitmap.count
    && s.blockBitmap.count == CeilDivide(s.totalBlocks, BITS_PER_BLOCK)
    && s.inodeTable.start == s.blockBitmap.start + s.blockBitmap.count
    && s.inodeTable.count == CeilDivide(s.totalInodes * INODE_SIZE, BLOCK_SIZE)
    && s.journal.start == s.inodeTable.start + s.inodeTable.count
    && s.journal.count >= CONTROL_BLOCKS + MINIMUM_RING_BLOCKS
    && s.data.start == s.journal.start + s.journal.count
    && s.data.count != 0
    && s.data.start < s.totalBlocks
    && s.data.start + s.data.count == s.totalBlocks
  }

  const SUPERBLOCK_HEAD: seq<Field> :=
    [Fixed([69, 85, 70, 83, 73, 77, 71, 49]), Fixed([1, 0, 0, 0]), Fixed([0, 1, 0, 0]), Fixed([0, 16, 0, 0]),
     Fixed([128, 0, 0, 0]), Number(4), Number(4), Number(4), Reserved(4),
     Number(4), Number(4), Number(4), Number(4), Number(4), Number(4), Number(4), Number(4), Number(4), Number(4),
     Number(8), Number(8), Number(8), Raw(16), Number(8)]
  const SUPERBLOCK_TAIL: seq<Field> := [Fixed([12, 0, 0, 0]), Fixed([1, 0, 0, 0]), Fixed([255, 0, 0, 0]), Reserved(112)]
  const SUPERBLOCK: Layout := Layout(SUPERBLOCK_HEAD, SUPERBLOCK_TAIL)
  const SUPERBLOCK_HEADER: nat := 256

  lemma SuperblockSize()
    ensures Total(SUPERBLOCK_HEAD) == 128 && Size(SUPERBLOCK) == SUPERBLOCK_HEADER
  {
    assert TotalFrom(SUPERBLOCK_HEAD, 22) == 24;
    assert TotalFrom(SUPERBLOCK_HEAD, 20) == 40;
    assert TotalFrom(SUPERBLOCK_HEAD, 18) == 52;
    assert TotalFrom(SUPERBLOCK_HEAD, 16) == 60;
    assert TotalFrom(SUPERBLOCK_HEAD, 14) == 68;
    assert TotalFrom(SUPERBLOCK_HEAD, 12) == 76;
    assert TotalFrom(SUPERBLOCK_HEAD, 10) == 84;
    assert TotalFrom(SUPERBLOCK_HEAD, 8) == 92;
    assert TotalFrom(SUPERBLOCK_HEAD, 6) == 100;
    assert TotalFrom(SUPERBLOCK_HEAD, 4) == 108;
    assert TotalFrom(SUPERBLOCK_HEAD, 2) == 116;
    assert TotalFrom(SUPERBLOCK_TAIL, 2) == 116;
  }

  function SuperblockValues(s: Superblock): (r: Record)
    ensures RecordFits(SUPERBLOCK, r)
  {
    Widths();
    Record([Unit, Unit, Unit, Unit, Unit, Num(s.totalBlocks), Num(s.totalInodes), Num(s.rootInode), Unit,
            Num(s.inodeBitmap.start), Num(s.inodeBitmap.count), Num(s.blockBitmap.start), Num(s.blockBitmap.count),
            Num(s.inodeTable.start), Num(s.inodeTable.count), Num(s.journal.start), Num(s.journal.count),
            Num(s.data.start), Num(s.data.count),
            Num(s.featureCompat), Num(s.featureRoCompat), Num(s.featureIncompat), Text(s.uuid), Num(s.createdTime)],
           [Unit, Unit, Unit, Unit])
  }

  function SuperblockOfValues(r: Record): (s: Superblock)
    requires RecordFits(SUPERBLOCK, r)
    ensures SuperblockValues(s) == r
  {
    Widths();
    var v := r.head;
    Superblock(v[5].n, v[6].n, v[7].n, Region(v[9].n, v[10].n), Region(v[11].n, v[12].n), Region(v[13].n, v[14].n),
               Region(v[15].n, v[16].n), Region(v[17].n, v[18].n), v[19].n, v[20].n, v[21].n, v[22].bytes, v[23].n)
  }

  function SuperblockHeader(s: Superblock): (r: seq<byte>)
    ensures |r| == SUPERBLOCK_HEADER
  {
    SuperblockSize();
    Encode(SUPERBLOCK, SuperblockValues(s))
  }

  function PadToBlock(header: seq<byte>): (r: Block)
    requires |header| <= BLOCK_SIZE
    ensures r[..|header|] == header && AllZero(r[|header|..])
  {
    header + Zeros(BLOCK_SIZE - |header|)
  }

  function EncodeSuperblock(s: Superblock): (r: Option<Block>)
    ensures r.Some? <==> ValidSuperblock(s)
  {
    if ValidSuperblock(s) then Some(PadToBlock(SuperblockHeader(s))) else None
  }

  /** The checksum covers the 256-byte header; the rest of the block must be zero. */
  function DecodeSuperblock(b: Block): (r: Option<Superblock>)
    ensures r.Some? ==> ValidSuperblock(r.value)
  {
    SuperblockSize();
    if !AllZero(b[SUPERBLOCK_HEADER..]) then None
    else match Decode(SUPERBLOCK, b[..SUPERBLOCK_HEADER])
      case None => None
      case Some(record) =>
        var s := SuperblockOfValues(record);
        if ValidSuperblock(s) then Some(s) else None
  }

  lemma SameSuperblockValues(s: Superblock, t: Superblock)
    requires SuperblockValues(s) == SuperblockValues(t)
    ensures s == t
  {
    var v, w := SuperblockValues(s).head, SuperblockValues(t).head;
    assert v[5] == w[5] && v[6] == w[6] && v[7] == w[7];
    assert v[9] == w[9] && v[10] == w[10] && v[11] == w[11] && v[12] == w[12] && v[13] == w[13] && v[14] == w[14];
    assert v[15] == w[15] && v[16] == w[16] && v[17] == w[17] && v[18] == w[18];
    assert v[19] == w[19] && v[20] == w[20] && v[21] == w[21] && v[22] == w[22] && v[23] == w[23];
  }

  lemma SuperblockRoundTrip(s: Superblock)
    requires ValidSuperblock(s)
    ensures DecodeSuperblock(EncodeSuperblock(s).value) == Some(s)
  {
    hide Encode, Decode, ValidSuperblock;
    SuperblockSize();
    RoundTrip(SUPERBLOCK, SuperblockValues(s));
    SameSuperblockValues(s, SuperblockOfValues(SuperblockValues(s)));
  }

  lemma SuperblockCanonical(b: Block)
    requires DecodeSuperblock(b).Some?
    ensures EncodeSuperblock(DecodeSuperblock(b).value) == Some(b)
  {
    hide Encode, Decode, ValidSuperblock;
    SuperblockSize();
    Canonical(SUPERBLOCK, b[..SUPERBLOCK_HEADER]);
    assert b[SUPERBLOCK_HEADER..] == Zeros(BLOCK_SIZE - SUPERBLOCK_HEADER);
    assert b == b[..SUPERBLOCK_HEADER] + b[SUPERBLOCK_HEADER..];
  }

  lemma SuperblockDamageIsRejected(good: Block, bad: Block, p: nat)
    requires DecodeSuperblock(good).Some? && Crc32c.DifferInOneByte(good, bad, p)
    ensures DecodeSuperblock(bad) == None
  {
    hide Decode, ValidSuperblock;
    SuperblockSize();
    if p < SUPERBLOCK_HEADER {
      OneByteBreaksChecksum(good[..SUPERBLOCK_HEADER], bad[..SUPERBLOCK_HEADER], 128, p);
    } else {
      assert good[SUPERBLOCK_HEADER..][p - SUPERBLOCK_HEADER] == 0;
      assert bad[SUPERBLOCK_HEADER..][p - SUPERBLOCK_HEADER] != 0;
    }
  }

  // ---- Block pointers ----

  /** Little-endian 32-bit block numbers, as in an inode's direct array and an indirect block. */
  function PointersBytes(ps: seq<u32>): (r: seq<byte>)
    ensures |r| == 4 * |ps|
  {
    if ps == [] then [] else LeBytes(ps[0], 4) + PointersBytes(ps[1..])
  }

  function PointersOf(b: seq<byte>, n: nat): (r: seq<u32>)
    requires |b| == 4 * n
    ensures |r| == n
  {
    Widths();
    if n == 0 then [] else [LeNat(b[..4])] + PointersOf(b[4..], n - 1)
  }

  lemma {:induction false} PointersRoundTrip(ps: seq<u32>)
    ensures PointersOf(PointersBytes(ps), |ps|) == ps
  {
    Widths();
    if ps != [] {
      LeNatOfBytes(ps[0], 4);
      PointersRoundTrip(ps[1..]);
      var b := PointersBytes(ps);
      assert b[..4] == LeBytes(ps[0], 4) && b[4..] == PointersBytes(ps[1..]);
      assert ps == [ps[0]] + ps[1..];
    }
  }

  lemma {:induction false} PointersCanonical(b: seq<byte>, n: nat)
    requires |b| == 4 * n
    ensures PointersBytes(PointersOf(b, n)) == b
  {
    if n > 0 {
      LeBytesOfNat(b[..4]);
      PointersCanonical(b[4..], n - 1);
      var ps := PointersOf(b, n);
      assert ps[0] == LeNat(b[..4]) && ps[1..] == PointersOf(b[4..], n - 1);
      assert b == b[..4] + b[4..];
    }
  }

  // ---- Inode ----

  type Directs = s: seq<u32> | |s| == DIRECT_BLOCKS witness seq(DIRECT_BLOCKS, _ => 0)

  datatype Inode = Inode(
    number: u32, mode: u32, uid: u32, gid: u32, linkCount: u32, size: u64,
    atime: u64, mtime: u64, ctime: u64, flags: u32, generation: u64, direct: Directs, indirect: u32)

  predicate IsRegular(mode: u32) {
    mode / 0x1000 % 16 == 8
  }

  predicate IsDirectory(mode: u32) {
    mode / 0x1000 % 16 == 4
  }

  predicate ValidInode(i: Inode) {
    i.number != 0 && (IsRegular(i.mode) || IsDirectory(i.mode)) && i.size <= MAX_FILE_SIZE
  }

  const INODE_HEAD: seq<Field> :=
    [Number(4), Number(4), Number(4), Number(4), Number(8), Number(8), Number(8), Number(8), Number(4), Number(4),
     Number(8), Raw(48), Number(4), Reserved(8)]
  const INODE: Layout := Layout(INODE_HEAD, [])

  lemma InodeLayoutSize()
    ensures Total(INODE_HEAD) == 124 && Size(INODE) == INODE_SIZE
  {
    assert TotalFrom(INODE_HEAD, 12) == 12;
    assert TotalFrom(INODE_HEAD, 10) == 68;
    assert TotalFrom(INODE_HEAD, 8) == 76;
    assert TotalFrom(INODE_HEAD, 6) == 92;
    assert TotalFrom(INODE_HEAD, 4) == 108;
    assert TotalFrom(INODE_HEAD, 2) == 116;
  }

  function InodeValues(i: Inode): (r: Record)
    ensures RecordFits(INODE, r)
  {
    Widths();
    Record([Num(i.mode), Num(i.uid), Num(i.gid), Num(i.linkCount), Num(i.size), Num(i.atime), Num(i.mtime),
            Num(i.ctime), Num(i.flags), Num(i.number), Num(i.generation), Text(PointersBytes(i.direct)),
            Num(i.indirect), Unit], [])
  }

  function InodeOfValues(r: Record): (i: Inode)
    requires RecordFits(INODE, r)
    ensures InodeValues(i) == r
  {
    Widths();
    var v := r.head;
    PointersCanonical(v[11].bytes, 12);
    Inode(v[9].n, v[0].n, v[1].n, v[2].n, v[3].n, v[4].n, v[5].n, v[6].n, v[7].n, v[8].n, v[10].n,
          PointersOf(v[11].bytes, 12), v[12].n)
  }

  type InodeBytes = s: seq<byte> | |s| == INODE_SIZE witness Zeros(INODE_SIZE)

  function EncodeInode(i: Inode): (r: Option<InodeBytes>)
    ensures r.Some? <==> ValidInode(i)
  {
    InodeLayoutSize();
    if ValidInode(i) then Some(Encode(INODE, InodeValues(i))) else None
  }

  /** `DecodeInode`: the record also has to name the table slot it was read from. */
  function DecodeInode(b: InodeBytes, expected: nat): (r: Option<Inode>)
    ensures r.Some? ==> ValidInode(r.value) && r.value.number == expected
  {
    InodeLayoutSize();
    match Decode(INODE, b)
    case None => None
    case Some(record) =>
      var i := InodeOfValues(record);
      if ValidInode(i) && i.number == expected then Some(i) else None
  }

  lemma SameInodeValues(i: Inode, j: Inode)
    requires InodeValues(i) == InodeValues(j)
    ensures i == j
  {
    var v, w := InodeValues(i).head, InodeValues(j).head;
    assert v[0] == w[0] && v[1] == w[1] && v[2] == w[2] && v[3] == w[3] && v[4] == w[4] && v[5] == w[5];
    assert v[6] == w[6] && v[7] == w[7] && v[8] == w[8] && v[9] == w[9] && v[10] == w[10] && v[12] == w[12];
    assert v[11] == w[11];
    PointersRoundTrip(i.direct);
    PointersRoundTrip(j.direct);
  }

  lemma InodeRoundTrip(i: Inode)
    requires ValidInode(i)
    ensures DecodeInode(EncodeInode(i).value, i.number) == Some(i)
  {
    hide Encode, Decode;
    InodeLayoutSize();
    RoundTrip(INODE, InodeValues(i));
    SameInodeValues(i, InodeOfValues(InodeValues(i)));
  }

  lemma InodeCanonical(b: InodeBytes, expected: nat)
    requires DecodeInode(b, expected).Some?
    ensures EncodeInode(DecodeInode(b, expected).value) == Some(b)
  {
    hide Encode, Decode;
    InodeLayoutSize();
    Canonical(INODE, b);
  }

  lemma InodeDamageIsRejected(good: InodeBytes, bad: InodeBytes, expected: nat, other: nat, p: nat)
    requires DecodeInode(good, expected).Some? && Crc32c.DifferInOneByte(good, bad, p)
    ensures DecodeInode(bad, other) == None
  {
    hide Decode;
    InodeLayoutSize();
    OneByteBreaksChecksum(good, bad, 124, p);
  }
}
