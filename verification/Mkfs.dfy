/** Formatting an image (src/storage/mkfs.cpp): the base case of every run. */
module Mkfs {
  import opened Bytes
  import opened Errors
  import opened OndiskFormat
  import opened JournalFormat
  import opened Journal
  import opened JournalProtocol
  import opened JournalRuns
  import opened Bitmap
  import opened ImageView
  import opened ImageEdit
  import opened Directory
  import opened FilePlan
  import opened Health
  import opened LedgerFormat
  import opened Ledger
  import opened LedgerImage
  import opened LedgerPlan
  import opened StoreOps

  datatype Options = Options(
    totalBlocks: u32, totalInodes: u32, journalBlocks: u32, ledgerEntries: u32, uuid: Uuid, now: u64, uid: u32, gid: u32)

  /** `BuildSuperblockLayout`, with the feature bit of the ledger. */
  function BuildLayout(o: Options): (r: Option<Superblock>)
    ensures r.Some? ==> ValidSuperblock(r.value) && Describes(r.value, o)
  {
    if o.totalInodes == 0 || o.journalBlocks < CONTROL_BLOCKS + MINIMUM_RING_BLOCKS then None
    else
      var inodeBitmap := Region(1, CeilDivide(o.totalInodes, BITS_PER_BLOCK));
      var blockBitmap := Region(1 + inodeBitmap.count, CeilDivide(o.totalBlocks, BITS_PER_BLOCK));
      var tableStart := blockBitmap.start + blockBitmap.count;
      var tableCount := CeilDivide(o.totalInodes * INODE_SIZE, BLOCK_SIZE);
      var journalStart := tableStart + tableCount;
      var dataStart := journalStart + o.journalBlocks;
      if journalStart >= 0x1_0000_0000 || dataStart >= o.totalBlocks then None
      else
        var sb := Superblock(o.totalBlocks, o.totalInodes, 1, inodeBitmap, blockBitmap, Region(tableStart, tableCount),
                             Region(journalStart, o.journalBlocks), Region(dataStart, o.totalBlocks - dataStart),
                             0, 0, if o.ledgerEntries != 0 then 1 else 0, o.uuid, o.now);
        if ValidSuperblock(sb) then Some(sb) else None
  }

  /** The fields of the superblock that formatting relies on. */
  predicate Describes(sb: Superblock, o: Options) {
    && sb.totalBlocks == o.totalBlocks && sb.totalInodes == o.totalInodes && sb.rootInode == 1 && sb.uuid == o.uuid
    && sb.journal.count == o.journalBlocks && sb.createdTime == o.now && sb.featureCompat == 0 && sb.featureRoCompat == 0
    && sb.featureIncompat == if o.ledgerEntries != 0 then LEDGER_FEATURE else 0
  }

  /** Blocks in front of the data region: the superblock, the bitmaps, the inode table and the journal. */
  function MetadataBlocks(o: Options): nat {
    1 + CeilDivide(o.totalInodes, 32768) + CeilDivide(o.totalBlocks, 32768) + CeilDivide(o.totalInodes * 128, 4096) + o.journalBlocks
  }

  /** Exactly the options with inodes, at least five journal blocks and a data block left have a layout, and
      it is the only superblock that is valid and says what they say. */
  lemma LayoutIs(o: Options)
    ensures BuildLayout(o).Some? <==> o.totalInodes != 0 && o.journalBlocks >= 5 && MetadataBlocks(o) < o.totalBlocks
    ensures BuildLayout(o).Some? ==>
      && BuildLayout(o).value.data == Region(MetadataBlocks(o), o.totalBlocks - MetadataBlocks(o))
      && forall sb :: ValidSuperblock(sb) && Describes(sb, o) ==> sb == BuildLayout(o).value
  {
    if BuildLayout(o).Some? {
      forall sb | ValidSuperblock(sb) && Describes(sb, o)
        ensures sb == BuildLayout(o).value
      {
        OneLayout(sb, BuildLayout(o).value, o);
      }
    }
  }

  lemma OneLayout(a: Superblock, b: Superblock, o: Options)
    requires ValidSuperblock(a) && Describes(a, o) && ValidSuperblock(b) && Describes(b, o)
    ensures a == b
  {
    hide CeilDivide;
  }

  // ---- The ledger ----

  function LedgerBlocks(o: Options): nat {
    o.ledgerEntries / RECORDS_PER_BLOCK
  }

  /** Data blocks that formatting takes: the root directory, the ledger and its indirect block. */
  function Occupied(o: Options): nat {
    if o.ledgerEntries == 0 then 0 else 1 + LedgerBlocks(o) + if LedgerBlocks(o) > DIRECT_BLOCKS then 1 else 0
  }

  /** `BuildRequestLedgerGeometry`. */
  predicate GeometryOk(sb: Superblock, o: Options) {
    o.ledgerEntries != 0 ==>
      && o.ledgerEntries % RECORDS_PER_BLOCK == 0 && LedgerBlocks(o) <= MAX_FILE_BLOCKS
      && sb.totalInodes > LEDGER_INODE && Occupied(o) < sb.data.count
  }

  /** Which options `FormatImage` accepts, in numbers. */
  predicate CanFormat(o: Options) {
    && o.totalInodes != 0 && o.journalBlocks >= 5 && MetadataBlocks(o) < o.totalBlocks
    && (o.ledgerEntries != 0 ==>
          && o.ledgerEntries % 32 == 0 && o.ledgerEntries <= 33152 && o.totalInodes >= 3
          && MetadataBlocks(o) + 1 + o.ledgerEntries / 32 + (if o.ledgerEntries > 384 then 1 else 0) < o.totalBlocks)
  }

  lemma AcceptsIs(o: Options)
    ensures BuildLayout(o).Some? && GeometryOk(BuildLayout(o).value, o) <==> CanFormat(o)
  {
    hide BuildLayout, MetadataBlocks;
    LayoutIs(o);
  }

  function FirstLedgerBlock(sb: Superblock): nat {
    sb.data.start + 1
  }

  function LedgerMapping(sb: Superblock, n: nat): (r: seq<u32>)
    requires sb.data.start + 1 + n <= 0x1_0000_0000
    ensures |r| == n && forall l :: 0 <= l < n ==> r[l] == FirstLedgerBlock(sb) + l
  {
    if n == 0 then [] else LedgerMapping(sb, n - 1) + [FirstLedgerBlock(sb) + n - 1]
  }

  /** What formatting needs of its inputs. */
  predicate Formattable(sb: Superblock, o: Options, was: Image) {
    ValidSuperblock(sb) && Describes(sb, o) && GeometryOk(sb, o) && |was| == sb.totalBlocks
  }

  const ROOT_MODE: u32 := 0x41ED
  const LEDGER_MODE: u32 := 0x8180
  const NO_BLOCKS: Directs := [0, 0, 0, 0, 0, 0, 0, 0, 0, 0, 0, 0]

  function RootInode(sb: Superblock, o: Options): Inode {
    var size := if o.ledgerEntries == 0 then 0 else BLOCK_SIZE;
    Inode(1, ROOT_MODE, o.uid, o.gid, 2, size, o.now, o.now, o.now, 0, 1,
          if o.ledgerEntries == 0 then NO_BLOCKS else NO_BLOCKS[0 := sb.data.start], 0)
  }

  function LedgerIndirect(sb: Superblock, o: Options): nat {
    if LedgerBlocks(o) > DIRECT_BLOCKS then FirstLedgerBlock(sb) + LedgerBlocks(o) else 0
  }

  lemma Fits(sb: Superblock, o: Options, was: Image)
    requires Formattable(sb, o, was)
    ensures sb.data.start + Occupied(o) < sb.totalBlocks || Occupied(o) == 0
    ensures o.ledgerEntries != 0 ==> sb.data.start + 1 + LedgerBlocks(o) < sb.totalBlocks && LedgerIndirect(sb, o) < sb.totalBlocks
    ensures o.ledgerEntries != 0 ==> o.ledgerEntries * RECORD_SIZE == LedgerBlocks(o) * BLOCK_SIZE <= MAX_FILE_SIZE
    ensures 0 < sb.data.start < sb.totalBlocks && UsedInodes(o) <= sb.totalInodes
  {}

  function LedgerFileInode(sb: Superblock, o: Options, was: Image): Inode
    requires Formattable(sb, o, was) && o.ledgerEntries != 0
  {
    Fits(sb, o, was);
    Inode(2, LEDGER_MODE, o.uid, o.gid, 1, o.ledgerEntries * RECORD_SIZE, o.now, o.now, o.now, 0, 1,
          DirectPointers(LedgerMapping(sb, LedgerBlocks(o))), LedgerIndirect(sb, o))
  }

  function LedgerEntry(length: nat): Entry {
    Entry(LEDGER_INODE, REGULAR, LEDGER_NAME, length)
  }

  lemma LedgerEntryIsValid()
    ensures ValidName(LEDGER_NAME) && ValidEntry(LedgerEntry(BLOCK_SIZE))
  {}

  // ---- Bitmaps ----

  /** A bitmap with its first `used` bits and everything from `valid` on set. */
  ghost predicate BitsAre(bits: seq<byte>, size: nat, used: nat, valid: nat) {
    |bits| == size && forall k: nat :: TestBit(bits, k) <==> k < 8 * size && (k < used || k >= valid)
  }

  /** `SetBitmapPrefix`, `SetBitmapBit` and `ReserveBitmapTail`. */
  method BuildBitmap(size: nat, used: nat, valid: nat) returns (bits: seq<byte>)
    requires used <= valid <= 8 * size
    ensures BitsAre(bits, size, used, valid)
  {
    hide TestBit, Put;
    bits := Zeros(size);
    forall k: nat
      ensures !TestBit(bits, k)
    {
      ZeroBits(size, k);
    }
    for j := 0 to used
      invariant |bits| == size && forall k: nat :: TestBit(bits, k) <==> k < j
    {
      forall k: nat
        ensures TestBit(Put(bits, j, true), k) == if k == j then true else TestBit(bits, k)
      {
        PutReads(bits, j, true, k);
      }
      bits := Put(bits, j, true);
    }
    for j := valid to 8 * size
      invariant |bits| == size && forall k: nat :: TestBit(bits, k) <==> k < used || valid <= k < j
    {
      forall k: nat
        ensures TestBit(Put(bits, j, true), k) == if k == j then true else TestBit(bits, k)
      {
        PutReads(bits, j, true, k);
      }
      bits := Put(bits, j, true);
    }
  }

  lemma ZeroBits(size: nat, k: nat)
    ensures !TestBit(Zeros(size), k)
  {
    if k / 8 < size {
      ZeroByte(k % 8);
    }
  }

  lemma {:induction false} ZeroByte(i: nat)
    ensures !ByteBit(0, i)
  {
    if i > 0 {
      ZeroByte(i - 1);
    }
  }

  // ---- The image ----

  lemma InodesAreValid(sb: Superblock, o: Options, was: Image)
    requires Formattable(sb, o, was)
    ensures ValidInode(RootInode(sb, o)) && IsDirectory(RootInode(sb, o).mode)
    ensures o.ledgerEntries != 0 ==> ValidInode(LedgerFileInode(sb, o, was)) && IsRegular(LedgerFileInode(sb, o, was).mode)
  {
    hide ValidSuperblock;
    Fits(sb, o, was);
  }

  /** Only the records of the root and the ledger are written to the inode table. */
  function TableBlock(sb: Superblock, o: Options, was: Image): Block
    requires Formattable(sb, o, was)
  {
    InodesAreValid(sb, o, was);
    var first := Splice(At(was, sb.inodeTable.start), 0, EncodeInode(RootInode(sb, o)).value);
    if o.ledgerEntries == 0 then first else Splice(first, INODE_SIZE, EncodeInode(LedgerFileInode(sb, o, was)).value)
  }

  /** Block `b` after formatting. Free data blocks, the journal ring and the other inode records keep
      whatever the file held before. */
  function NewBlock(sb: Superblock, o: Options, was: Image, inodeBits: seq<byte>, blockBits: seq<byte>, b: nat): Block
    requires Formattable(sb, o, was)
    requires |inodeBits| == sb.inodeBitmap.count * BLOCK_SIZE && |blockBits| == sb.blockBitmap.count * BLOCK_SIZE
  {
    LedgerEntryIsValid();
    Fits(sb, o, was);
    if b == 0 then EncodeSuperblock(sb).value
    else if InRegion(b, sb.inodeBitmap) then BlockOf(inodeBits, b - sb.inodeBitmap.start)
    else if InRegion(b, sb.blockBitmap) then BlockOf(blockBits, b - sb.blockBitmap.start)
    else if b == sb.inodeTable.start then TableBlock(sb, o, was)
    else if b == ControlBlock(sb, A) || b == ControlBlock(sb, B) then ControlBytes(FormattedControl(sb))
    else if o.ledgerEntries == 0 then At(was, b)
    else if b == sb.data.start then Directory.EntryBytes(LedgerEntry(BLOCK_SIZE))
    else if sb.data.start < b <= sb.data.start + LedgerBlocks(o) then ZERO
    else if b == LedgerIndirect(sb, o) then IndirectBlock(LedgerMapping(sb, LedgerBlocks(o)))
    else At(was, b)
  }

  function NewImage(sb: Superblock, o: Options, was: Image, inodeBits: seq<byte>, blockBits: seq<byte>): (e: Image)
    requires Formattable(sb, o, was)
    requires |inodeBits| == sb.inodeBitmap.count * BLOCK_SIZE && |blockBits| == sb.blockBitmap.count * BLOCK_SIZE
    ensures |e| == |was| && forall b :: 0 <= b < |e| ==> e[b] == NewBlock(sb, o, was, inodeBits, blockBits, b)
  {
    seq(|was|, b requires 0 <= b => NewBlock(sb, o, was, inodeBits, blockBits, b))
  }

  function UsedInodes(o: Options): nat {
    if o.ledgerEntries == 0 then 1 else 2
  }

  /** `e` is an image formatted over `was`. */
  ghost predicate IsFormat(sb: Superblock, o: Options, was: Image, e: Image, inodeBits: seq<byte>, blockBits: seq<byte>) {
    && Formattable(sb, o, was)
    && BitsAre(inodeBits, sb.inodeBitmap.count * BLOCK_SIZE, UsedInodes(o), sb.totalInodes)
    && BitsAre(blockBits, sb.blockBitmap.count * BLOCK_SIZE, sb.data.start + Occupied(o), sb.totalBlocks)
    && e == NewImage(sb, o, was, inodeBits, blockBits)
  }

  /** `FormatImage`, apart from the file operations. */
  method FormatImage(o: Options, was: Image) returns (r: Option<(Superblock, Image)>, ghost inodeBits: seq<byte>, ghost blockBits: seq<byte>)
    requires |was| == o.totalBlocks
    ensures r.Some? <==> BuildLayout(o).Some? && GeometryOk(BuildLayout(o).value, o)
    ensures r.Some? <==> CanFormat(o)
    ensures r.Some? ==> Some(r.value.0) == BuildLayout(o) && IsFormat(r.value.0, o, was, r.value.1, inodeBits, blockBits)
  {
    hide ValidSuperblock, BuildLayout, NewImage, BitsAre;
    inodeBits, blockBits := [], [];
    AcceptsIs(o);
    var layout := BuildLayout(o);
    if layout == None {
      return None, inodeBits, blockBits;
    }
    var sb := layout.value;
    if !GeometryOk(sb, o) {
      return None, inodeBits, blockBits;
    }
    RegionsDisjoint(sb);
    Fits(sb, o, was);
    var inodes := BuildBitmap(sb.inodeBitmap.count * BLOCK_SIZE, UsedInodes(o), sb.totalInodes);
    var blocks := BuildBitmap(sb.blockBitmap.count * BLOCK_SIZE, sb.data.start + Occupied(o), sb.totalBlocks);
    BitsLength(inodes, sb.inodeBitmap.count * BLOCK_SIZE, UsedInodes(o), sb.totalInodes);
    BitsLength(blocks, sb.blockBitmap.count * BLOCK_SIZE, sb.data.start + Occupied(o), sb.totalBlocks);
    inodeBits, blockBits := inodes, blocks;
    r := Some((sb, NewImage(sb, o, was, inodes, blocks)));
  }

  lemma BitsLength(bits: seq<byte>, size: nat, used: nat, valid: nat)
    requires BitsAre(bits, size, used, valid)
    ensures |bits| == size
  {}

  lemma BlockOfFormat(sb: Superblock, o: Options, was: Image, e: Image, inodeBits: seq<byte>, blockBits: seq<byte>, b: nat)
    requires IsFormat(sb, o, was, e, inodeBits, blockBits) && b < sb.totalBlocks
    ensures |inodeBits| == sb.inodeBitmap.count * BLOCK_SIZE && |blockBits| == sb.blockBitmap.count * BLOCK_SIZE
    ensures |e| == sb.totalBlocks && At(e, b) == NewBlock(sb, o, was, inodeBits, blockBits, b)
  {
    hide NewBlock, ValidSuperblock, TestBit;
  }

  /** Both bitmaps read back as built. */
  lemma FormatBitmaps(sb: Superblock, o: Options, was: Image, e: Image, inodeBits: seq<byte>, blockBits: seq<byte>)
    requires IsFormat(sb, o, was, e, inodeBits, blockBits)
    ensures RegionBytes(e, sb.inodeBitmap) == inodeBits && RegionBytes(e, sb.blockBitmap) == blockBits
  {
    hide ValidSuperblock, BitsAre, At, RegionBytes, NewBlock, IsFormat;
    FormatParts(sb, o, was, e, inodeBits, blockBits);
    RegionsDisjoint(sb);
    BlockOfFormat(sb, o, was, e, inodeBits, blockBits, 0);
    forall local: nat | local < sb.inodeBitmap.count
      ensures At(e, sb.inodeBitmap.start + local) == BlockOf(inodeBits, local)
    {
      assert InRegion(sb.inodeBitmap.start + local, sb.inodeBitmap);
      BlockOfFormat(sb, o, was, e, inodeBits, blockBits, sb.inodeBitmap.start + local);
      NewInodeBitmap(sb, o, was, inodeBits, blockBits, local);
    }
    forall local: nat | local < sb.blockBitmap.count
      ensures At(e, sb.blockBitmap.start + local) == BlockOf(blockBits, local)
    {
      assert InRegion(sb.blockBitmap.start + local, sb.blockBitmap);
      BlockOfFormat(sb, o, was, e, inodeBits, blockBits, sb.blockBitmap.start + local);
      NewBlockBitmap(sb, o, was, inodeBits, blockBits, local);
    }
    RegionFromBlocks(e, sb.inodeBitmap, inodeBits);
    RegionFromBlocks(e, sb.blockBitmap, blockBits);
  }

  lemma FormatParts(sb: Superblock, o: Options, was: Image, e: Image, inodeBits: seq<byte>, blockBits: seq<byte>)
    requires IsFormat(sb, o, was, e, inodeBits, blockBits)
    ensures Formattable(sb, o, was) && ValidSuperblock(sb) && |e| == sb.totalBlocks && sb.rootInode == 1
    ensures |inodeBits| == sb.inodeBitmap.count * BLOCK_SIZE && |blockBits| == sb.blockBitmap.count * BLOCK_SIZE
    ensures BitsAre(inodeBits, sb.inodeBitmap.count * BLOCK_SIZE, UsedInodes(o), sb.totalInodes)
    ensures BitsAre(blockBits, sb.blockBitmap.count * BLOCK_SIZE, sb.data.start + Occupied(o), sb.totalBlocks)
  {
    hide NewBlock, ValidSuperblock, TestBit;
  }

  lemma NewInodeBitmap(sb: Superblock, o: Options, was: Image, inodeBits: seq<byte>, blockBits: seq<byte>, local: nat)
    requires Formattable(sb, o, was) && local < sb.inodeBitmap.count
    requires |inodeBits| == sb.inodeBitmap.count * BLOCK_SIZE && |blockBits| == sb.blockBitmap.count * BLOCK_SIZE
    ensures NewBlock(sb, o, was, inodeBits, blockBits, sb.inodeBitmap.start + local) == BlockOf(inodeBits, local)
  {
    hide ValidSuperblock;
    RegionsDisjoint(sb);
    assert InRegion(sb.inodeBitmap.start + local, sb.inodeBitmap);
  }

  lemma NewBlockBitmap(sb: Superblock, o: Options, was: Image, inodeBits: seq<byte>, blockBits: seq<byte>, local: nat)
    requires Formattable(sb, o, was) && local < sb.blockBitmap.count
    requires |inodeBits| == sb.inodeBitmap.count * BLOCK_SIZE && |blockBits| == sb.blockBitmap.count * BLOCK_SIZE
    ensures NewBlock(sb, o, was, inodeBits, blockBits, sb.blockBitmap.start + local) == BlockOf(blockBits, local)
  {
    hide ValidSuperblock;
    RegionsDisjoint(sb);
    assert InRegion(sb.blockBitmap.start + local, sb.blockBitmap);
  }

  lemma RegionFromBlocks(e: Image, r: Region, bytes: seq<byte>)
    requires |bytes| == r.count * BLOCK_SIZE
    requires forall local: nat :: local < r.count ==> At(e, r.start + local) == BlockOf(bytes, local)
    ensures RegionBytes(e, r) == bytes
  {
    hide At;
    var s := RegionBytes(e, r);
    forall k | 0 <= k < |s|
      ensures s[k] == bytes[k]
    {
      var local: nat := k / BLOCK_SIZE;
      assert At(e, r.start + local) == BlockOf(bytes, local);
      assert local * BLOCK_SIZE + k % BLOCK_SIZE == k;
    }
  }

  // ---- What the new image means ----

  /** Exactly the root and the ledger are allocated, with exactly the blocks they were given. */
  lemma FormatUsed(sb: Superblock, o: Options, was: Image, e: Image, inodeBits: seq<byte>, blockBits: seq<byte>)
    requires IsFormat(sb, o, was, e, inodeBits, blockBits)
    ensures forall n: nat :: InodeUsed(sb, e, n) <==> 1 <= n <= UsedInodes(o)
    ensures forall b: nat :: DataBlock(sb, e, b) <==> sb.data.start <= b < sb.data.start + Occupied(o)
    ensures BitmapsWellFormed(sb, e)
  {
    hide ValidSuperblock, At, RegionBytes, NewBlock, TestBit, IsFormat;
    FormatParts(sb, o, was, e, inodeBits, blockBits);
    RegionsDisjoint(sb);
    Fits(sb, o, was);
    FormatBitmaps(sb, o, was, e, inodeBits, blockBits);
  }

  lemma FormatInodes(sb: Superblock, o: Options, was: Image, e: Image, inodeBits: seq<byte>, blockBits: seq<byte>)
    requires IsFormat(sb, o, was, e, inodeBits, blockBits)
    ensures InodeAt(sb, e, 1) == Some(RootInode(sb, o))
    ensures o.ledgerEntries != 0 ==> InodeAt(sb, e, 2) == Some(LedgerFileInode(sb, o, was))
  {
    hide ValidSuperblock, NewBlock, TestBit, IsFormat, At, EncodeInode, DecodeInode, Splice, RootInode, LedgerFileInode;
    hide ValidInode;
    FormatParts(sb, o, was, e, inodeBits, blockBits);
    RegionsDisjoint(sb);
    TableIsThere(sb);
    BlockOfFormat(sb, o, was, e, inodeBits, blockBits, sb.inodeTable.start);
    NewTable(sb, o, was, inodeBits, blockBits);
    InodesAreValid(sb, o, was);
    NumbersAre(sb, o, was);
    var table := TableBlock(sb, o, was);
    InodeRoundTrip(RootInode(sb, o));
    if o.ledgerEntries != 0 {
      InodeRoundTrip(LedgerFileInode(sb, o, was));
      var first := Splice(At(was, sb.inodeTable.start), 0, EncodeInode(RootInode(sb, o)).value);
      assert table[..INODE_SIZE] == first[0..INODE_SIZE];
      assert table[INODE_SIZE..2 * INODE_SIZE] == EncodeInode(LedgerFileInode(sb, o, was)).value;
    }
    assert table[..INODE_SIZE] == EncodeInode(RootInode(sb, o)).value;
    assert InodeSlot(sb, e, 1) == table[0..INODE_SIZE] == table[..INODE_SIZE];
    assert InodeSlot(sb, e, 2) == table[INODE_SIZE..2 * INODE_SIZE];
  }

  lemma NumbersAre(sb: Superblock, o: Options, was: Image)
    requires Formattable(sb, o, was)
    ensures RootInode(sb, o).number == 1
    ensures o.ledgerEntries != 0 ==> LedgerFileInode(sb, o, was).number == 2
  {
    hide ValidSuperblock;
  }

  lemma TableIsThere(sb: Superblock)
    requires ValidSuperblock(sb)
    ensures InRegion(sb.inodeTable.start, sb.inodeTable) && sb.inodeTable.start < sb.totalBlocks
    ensures sb.inodeTable.start != 0 && !InRegion(sb.inodeTable.start, sb.inodeBitmap) && !InRegion(sb.inodeTable.start, sb.blockBitmap)
    ensures ControlBlock(sb, A) != ControlBlock(sb, B) && ControlBlock(sb, A) < sb.data.start && ControlBlock(sb, B) < sb.data.start
    ensures InRegion(ControlBlock(sb, A), sb.journal) && InRegion(ControlBlock(sb, B), sb.journal)
    ensures 0 < sb.journal.start && forall i :: 0 <= i < RingBlocks(sb) ==>
      InRegion(RingBlock(sb, i), sb.journal) && RingBlock(sb, i) != ControlBlock(sb, A) && RingBlock(sb, i) != ControlBlock(sb, B)
  {}

  lemma NewTable(sb: Superblock, o: Options, was: Image, inodeBits: seq<byte>, blockBits: seq<byte>)
    requires Formattable(sb, o, was)
    requires |inodeBits| == sb.inodeBitmap.count * BLOCK_SIZE && |blockBits| == sb.blockBitmap.count * BLOCK_SIZE
    ensures NewBlock(sb, o, was, inodeBits, blockBits, sb.inodeTable.start) == TableBlock(sb, o, was)
  {
    hide ValidSuperblock, TableBlock;
    TableIsThere(sb);
  }

  /** The data blocks of a new image with a ledger. */
  lemma FormatData(sb: Superblock, o: Options, was: Image, e: Image, inodeBits: seq<byte>, blockBits: seq<byte>)
    requires IsFormat(sb, o, was, e, inodeBits, blockBits) && o.ledgerEntries != 0
    ensures ValidEntry(LedgerEntry(BLOCK_SIZE)) && At(e, sb.data.start) == Directory.EntryBytes(LedgerEntry(BLOCK_SIZE))
    ensures forall b: nat :: sb.data.start < b <= sb.data.start + LedgerBlocks(o) ==> At(e, b) == ZERO
    ensures sb.data.start + 1 + LedgerBlocks(o) <= 0x1_0000_0000
    ensures LedgerBlocks(o) > DIRECT_BLOCKS ==> At(e, LedgerIndirect(sb, o)) == IndirectBlock(LedgerMapping(sb, LedgerBlocks(o)))
  {
    hide ValidSuperblock, TestBit, IsFormat, At, TableBlock, Directory.EntryBytes, IndirectBlock, NewBlock;
    FormatParts(sb, o, was, e, inodeBits, blockBits);
    Fits(sb, o, was);
    LedgerEntryIsValid();
    NewData(sb, o, was, inodeBits, blockBits, sb.data.start);
    BlockOfFormat(sb, o, was, e, inodeBits, blockBits, sb.data.start);
    forall b: nat | sb.data.start < b <= sb.data.start + LedgerBlocks(o)
      ensures At(e, b) == ZERO
    {
      NewData(sb, o, was, inodeBits, blockBits, b);
      BlockOfFormat(sb, o, was, e, inodeBits, blockBits, b);
    }
    if LedgerBlocks(o) > DIRECT_BLOCKS {
      NewData(sb, o, was, inodeBits, blockBits, LedgerIndirect(sb, o));
      BlockOfFormat(sb, o, was, e, inodeBits, blockBits, LedgerIndirect(sb, o));
    }
  }

  lemma NewData(sb: Superblock, o: Options, was: Image, inodeBits: seq<byte>, blockBits: seq<byte>, b: nat)
    requires Formattable(sb, o, was) && sb.data.start <= b < sb.totalBlocks && o.ledgerEntries != 0
    requires |inodeBits| == sb.inodeBitmap.count * BLOCK_SIZE && |blockBits| == sb.blockBitmap.count * BLOCK_SIZE
    ensures ValidEntry(LedgerEntry(BLOCK_SIZE)) && sb.data.start + 1 + LedgerBlocks(o) <= 0x1_0000_0000
    ensures NewBlock(sb, o, was, inodeBits, blockBits, b) ==
      if b == sb.data.start then Directory.EntryBytes(LedgerEntry(BLOCK_SIZE))
      else if b <= sb.data.start + LedgerBlocks(o) then ZERO
      else if b == LedgerIndirect(sb, o) then IndirectBlock(LedgerMapping(sb, LedgerBlocks(o)))
      else At(was, b)
  {
    hide ValidSuperblock, TableBlock, Directory.EntryBytes, IndirectBlock, At, BlockOf;
    RegionsDisjoint(sb);
    TableIsThere(sb);
    Fits(sb, o, was);
    LedgerEntryIsValid();
  }

  /** Where the blocks of the ledger are. */
  lemma LedgerMaps(sb: Superblock, o: Options, was: Image, e: Image, inodeBits: seq<byte>, blockBits: seq<byte>, l: nat)
    requires IsFormat(sb, o, was, e, inodeBits, blockBits) && o.ledgerEntries != 0
    ensures MapBlock(e, LedgerFileInode(sb, o, was), l) == if l < LedgerBlocks(o) then FirstLedgerBlock(sb) + l else 0
    ensures RequiredBlocks(LedgerFileInode(sb, o, was).size) == LedgerBlocks(o) <= MAX_FILE_BLOCKS && LedgerBlocks(o) > 0
    ensures LedgerFileInode(sb, o, was).size == LedgerBlocks(o) * BLOCK_SIZE && LedgerFileInode(sb, o, was).indirect == LedgerIndirect(sb, o)
  {
    hide ValidSuperblock, TestBit, IsFormat, At, Directory.EntryBytes, IndirectBlock, Pointers;
    FormatParts(sb, o, was, e, inodeBits, blockBits);
    Fits(sb, o, was);
    FormatData(sb, o, was, e, inodeBits, blockBits);
    IndirectRoundTrip(LedgerMapping(sb, LedgerBlocks(o)));
  }

  lemma RootMaps(sb: Superblock, o: Options, e: Image, l: nat)
    requires sb.data.start > 0
    ensures MapBlock(e, RootInode(sb, o), l) == if l == 0 && o.ledgerEntries != 0 then sb.data.start else 0
    ensures RequiredBlocks(RootInode(sb, o).size) == if o.ledgerEntries == 0 then 0 else 1
  {
    hide At, Pointers;
  }

  /** Each of the two inodes is readable and owns its blocks, and they share none. */
  lemma RootIsReadable(sb: Superblock, o: Options, was: Image, e: Image, inodeBits: seq<byte>, blockBits: seq<byte>)
    requires IsFormat(sb, o, was, e, inodeBits, blockBits)
    ensures FileAt(sb, e, 1) == RootInode(sb, o) && ReadInode(sb, e, 1) == Success(RootInode(sb, o))
    ensures OwnBlocksDistinct(e, RootInode(sb, o))
    ensures Owned(e, RootInode(sb, o)) == if o.ledgerEntries == 0 then {} else {sb.data.start as nat}
  {
    hide ValidSuperblock, TestBit, IsFormat, At, InodeAt, RootInode, MapBlock, RegionBytes, NewBlock, BitmapsWellFormed;
    hide DataBlock, Occupied;
    FormatParts(sb, o, was, e, inodeBits, blockBits);
    Fits(sb, o, was);
    FormatUsed(sb, o, was, e, inodeBits, blockBits);
    FormatInodes(sb, o, was, e, inodeBits, blockBits);
    var i := RootInode(sb, o);
    forall l: nat
      ensures MapBlock(e, i, l) == if l == 0 && o.ledgerEntries != 0 then sb.data.start else 0
    {
      RootMaps(sb, o, e, l);
    }
    RootMaps(sb, o, e, 0);
    RootBlocksFit(sb, o);
    MappingFromBlocks(sb, e, i, if o.ledgerEntries == 0 then [] else [sb.data.start]);
    if o.ledgerEntries != 0 {
      assert MapBlock(e, i, 0) as nat in Owned(e, i);
    }
  }

  lemma RootBlocksFit(sb: Superblock, o: Options)
    ensures RootInode(sb, o).indirect == 0 && RootInode(sb, o).size % BLOCK_SIZE == 0
    ensures o.ledgerEntries != 0 ==> Occupied(o) >= 1
  {}

  lemma LedgerIsReadable(sb: Superblock, o: Options, was: Image, e: Image, inodeBits: seq<byte>, blockBits: seq<byte>)
    requires IsFormat(sb, o, was, e, inodeBits, blockBits) && o.ledgerEntries != 0
    ensures var i := LedgerFileInode(sb, o, was);
      && FileAt(sb, e, 2) == i && ReadInode(sb, e, 2) == Success(i) && OwnBlocksDistinct(e, i)
      && forall b :: b in Owned(e, i) <==> sb.data.start < b < sb.data.start + Occupied(o)
  {
    hide ValidSuperblock, TestBit, IsFormat, At, InodeAt, LedgerFileInode, MapBlock, RegionBytes, NewBlock, BitmapsWellFormed;
    hide DataBlock;
    FormatParts(sb, o, was, e, inodeBits, blockBits);
    Fits(sb, o, was);
    FormatUsed(sb, o, was, e, inodeBits, blockBits);
    FormatInodes(sb, o, was, e, inodeBits, blockBits);
    InodesAreValid(sb, o, was);
    var i, n := LedgerFileInode(sb, o, was), LedgerBlocks(o);
    forall l: nat
      ensures MapBlock(e, i, l) == if l < n then FirstLedgerBlock(sb) + l else 0
    {
      LedgerMaps(sb, o, was, e, inodeBits, blockBits, l);
    }
    LedgerMaps(sb, o, was, e, inodeBits, blockBits, 0);
    MappingFromBlocks(sb, e, i, LedgerMapping(sb, n));
    forall b | sb.data.start < b < sb.data.start + Occupied(o)
      ensures b in Owned(e, i)
    {
      if b <= sb.data.start + n {
        assert MapBlock(e, i, b - FirstLedgerBlock(sb)) == b;
        assert MapBlock(e, i, b - FirstLedgerBlock(sb)) as nat in Owned(e, i);
      }
    }
  }

  lemma FormatSpace(sb: Superblock, o: Options, was: Image, e: Image, inodeBits: seq<byte>, blockBits: seq<byte>)
    requires IsFormat(sb, o, was, e, inodeBits, blockBits)
    ensures SpaceHealthy(sb, e)
  {
    hide ValidSuperblock, IsFormat, Owned, FileAt, ReadInode, OwnBlocksDistinct, InodeUsed, DataBlock, BitmapsWellFormed;
    hide RootInode, LedgerFileInode;
    hide Occupied;
    FormatParts(sb, o, was, e, inodeBits, blockBits);
    FormatUsed(sb, o, was, e, inodeBits, blockBits);
    RootIsReadable(sb, o, was, e, inodeBits, blockBits);
    TwoInodes(o);
    if o.ledgerEntries != 0 {
      LedgerIsReadable(sb, o, was, e, inodeBits, blockBits);
    }
    Fits(sb, o, was);
    forall b: nat | DataBlock(sb, e, b)
      ensures OwnedBySome(sb, e, b)
    {
      if b == sb.data.start {
        assert InodeUsed(sb, e, 1) && b in Owned(e, FileAt(sb, e, 1));
      } else {
        assert InodeUsed(sb, e, 2) && b in Owned(e, FileAt(sb, e, 2));
      }
    }
  }

  lemma TwoInodes(o: Options)
    ensures UsedInodes(o) == if o.ledgerEntries == 0 then 1 else 2
    ensures o.ledgerEntries == 0 ==> Occupied(o) == 0
  {}

  // ---- Names ----

  function NewNamespace(o: Options): Namespace {
    if o.ledgerEntries == 0 then map[1 := Node(true, 2, [])]
    else map[1 := Node(true, 2, [LedgerEntry(0)]), 2 := Node(false, 1, [])]
  }

  lemma RootLists(sb: Superblock, o: Options, was: Image, e: Image, inodeBits: seq<byte>, blockBits: seq<byte>)
    requires IsFormat(sb, o, was, e, inodeBits, blockBits)
    ensures DirEntries(e, RootInode(sb, o)) == Some(if o.ledgerEntries == 0 then [] else [LedgerEntry(0)])
  {
    hide ValidSuperblock, IsFormat, RootInode, At, MapBlock, Parse, Directory.EntryBytes, ValidEntry, DecodeEntry;
    FormatParts(sb, o, was, e, inodeBits, blockBits);
    Fits(sb, o, was);
    RootMaps(sb, o, e, 0);
    if o.ledgerEntries != 0 {
      FormatData(sb, o, was, e, inodeBits, blockBits);
      OneRecord(LedgerEntry(BLOCK_SIZE));
      assert EntriesUpTo(e, RootInode(sb, o), 0) == Some([]);
      assert [] + Listed([LedgerEntry(BLOCK_SIZE)]) == [LedgerEntry(0)];
      assert EntriesUpTo(e, RootInode(sb, o), 1) == Some([LedgerEntry(0)]);
    }
  }

  lemma OneRecord(x: Entry)
    requires ValidEntry(x) && x.inode != 0
    ensures Parse(Directory.EntryBytes(x)) == Some([x]) && Active([x]) == [x]
  {
    hide ValidEntry, Directory.EntryBytes, DecodeEntry;
    assert [x][1..] == [] && Tiles([]) == [];
    assert Tiles([x]) == Directory.EntryBytes(x) + [] == Directory.EntryBytes(x);
    ParseRoundTrip([x]);
  }

  lemma FormatNamespace(sb: Superblock, o: Options, was: Image, e: Image, inodeBits: seq<byte>, blockBits: seq<byte>)
    requires IsFormat(sb, o, was, e, inodeBits, blockBits)
    ensures NamespaceOf(sb, e) == NewNamespace(o)
    ensures forall n: nat :: InodeUsed(sb, e, n) && IsDirectory(FileAt(sb, e, n).mode) ==> DirEntries(e, FileAt(sb, e, n)).Some?
  {
    hide ValidSuperblock, IsFormat, Owned, FileAt, ReadInode, OwnBlocksDistinct, InodeUsed, DataBlock, BitmapsWellFormed;
    hide DirEntries, Occupied;
    FormatParts(sb, o, was, e, inodeBits, blockBits);
    Fits(sb, o, was);
    FormatUsed(sb, o, was, e, inodeBits, blockBits);
    RootIsReadable(sb, o, was, e, inodeBits, blockBits);
    RootLists(sb, o, was, e, inodeBits, blockBits);
    if o.ledgerEntries != 0 {
      LedgerIsReadable(sb, o, was, e, inodeBits, blockBits);
    }
    assert NamespaceOf(sb, e) == NewNamespace(o);
  }

  lemma NewIsTree(o: Options)
    ensures TreeHealthy(NewNamespace(o), 1)
  {
    var ns := NewNamespace(o);
    assert Path(ns, 1, [1]) && [1][|[1]| - 1] == 1;
    if o.ledgerEntries != 0 {
      assert ns[1].entries[0].inode == 2;
      assert Path(ns, 1, [1, 2]) && [1, 2][|[1, 2]| - 1] == 2;
      assert ns[1].entries[1..] == [];
      assert ChildDirectories(ns[1].entries) == 0;
    }
  }

  // ---- The ledger of a new image ----

  lemma FormatLedger(sb: Superblock, o: Options, was: Image, e: Image, inodeBits: seq<byte>, blockBits: seq<byte>)
    requires IsFormat(sb, o, was, e, inodeBits, blockBits) && o.ledgerEntries != 0 && Healthy(sb, e)
    ensures LedgerOn(sb, e, []) && Capacity(LedgerBytes(sb, e)) == o.ledgerEntries
  {
    hide ValidSuperblock, IsFormat, Healthy, NamespaceOf, FileAt, InodeUsed, LookupRoot, ReadInode, OwnBlocksDistinct, Owned;
    hide LedgerFileInode;
    FormatParts(sb, o, was, e, inodeBits, blockBits);
    FormatNamespace(sb, o, was, e, inodeBits, blockBits);
    LedgerIsReadable(sb, o, was, e, inodeBits, blockBits);
    var ns := NamespaceOf(sb, e);
    assert ns[1].entries[0] == LedgerEntry(0);
    assert ListedAs(ns, sb.rootInode, LEDGER_NAME, LEDGER_INODE);
    LookupHealthy(sb, e, LEDGER_NAME);
    NewLedgerInode(sb, o, was, e, inodeBits, blockBits);
    EmptyLedger(sb, o, was, e, inodeBits, blockBits);
  }

  lemma NewLedgerInode(sb: Superblock, o: Options, was: Image, e: Image, inodeBits: seq<byte>, blockBits: seq<byte>)
    requires IsFormat(sb, o, was, e, inodeBits, blockBits) && o.ledgerEntries != 0
    ensures LedgerInode(LedgerFileInode(sb, o, was)) && sb.featureIncompat == LEDGER_FEATURE
    ensures LedgerFileInode(sb, o, was).size == o.ledgerEntries * RECORD_SIZE
  {
    hide ValidSuperblock, IsFormat, MapBlock;
    FormatParts(sb, o, was, e, inodeBits, blockBits);
    InodesAreValid(sb, o, was);
    LedgerMaps(sb, o, was, e, inodeBits, blockBits, 0);
  }

  lemma EmptyLedger(sb: Superblock, o: Options, was: Image, e: Image, inodeBits: seq<byte>, blockBits: seq<byte>)
    requires IsFormat(sb, o, was, e, inodeBits, blockBits) && o.ledgerEntries != 0
    ensures LedgerIs(Contents(e, LedgerFileInode(sb, o, was)), [])
  {
    hide ValidSuperblock, IsFormat, MapBlock, LedgerFileInode, At, Directory.EntryBytes;
    FormatParts(sb, o, was, e, inodeBits, blockBits);
    FormatData(sb, o, was, e, inodeBits, blockBits);
    var i := LedgerFileInode(sb, o, was);
    LedgerMaps(sb, o, was, e, inodeBits, blockBits, 0);
    forall k | 0 <= k < i.size
      ensures Contents(e, i)[k] == 0
    {
      LogicalBlockOf(k, i.size);
      LedgerMaps(sb, o, was, e, inodeBits, blockBits, k / BLOCK_SIZE);
    }
    AllZeroLedger(Contents(e, i));
  }

  lemma AllZeroLedger(b: seq<byte>)
    requires |b| % RECORD_SIZE == 0 && forall k :: 0 <= k < |b| ==> b[k] == 0
    ensures LedgerIs(b, [])
  {}

  /** Whatever the file held before, a formatted image is healthy, with an empty ledger of the size asked for
      if it has one. */
  lemma FormatIsSound(sb: Superblock, o: Options, was: Image, e: Image, inodeBits: seq<byte>, blockBits: seq<byte>)
    requires IsFormat(sb, o, was, e, inodeBits, blockBits)
    ensures Sound(sb, e)
    ensures o.ledgerEntries != 0 ==> History(sb, e) == [] && Capacity(LedgerBytes(sb, e)) == o.ledgerEntries
  {
    hide ValidSuperblock, IsFormat, SpaceHealthy, NamespaceOf, FileAt, InodeUsed, DirEntries, TreeHealthy, LedgerOn, History;
    hide HasHistory, NewNamespace;
    FormatParts(sb, o, was, e, inodeBits, blockBits);
    FormatSpace(sb, o, was, e, inodeBits, blockBits);
    FormatNamespace(sb, o, was, e, inodeBits, blockBits);
    NewIsTree(o);
    if o.ledgerEntries != 0 {
      FormatLedger(sb, o, was, e, inodeBits, blockBits);
      HistoryIs(sb, e, []);
    }
  }

  /** Formatting writes both control blocks and leaves the ring as it was. */
  lemma FormatJournal(sb: Superblock, o: Options, was: Image, e: Image, inodeBits: seq<byte>, blockBits: seq<byte>)
    requires IsFormat(sb, o, was, e, inodeBits, blockBits)
    ensures ValidSuperblock(sb) && |e| == sb.totalBlocks
    ensures forall copy :: At(e, ControlBlock(sb, copy)) == ControlBytes(FormattedControl(sb))
    ensures forall i :: 0 <= i < RingBlocks(sb) ==> RingAt(sb, e, i) == RingAt(sb, was, i)
  {
    hide ValidSuperblock, IsFormat, At, NewBlock, ControlBytes;
    FormatParts(sb, o, was, e, inodeBits, blockBits);
    TableIsThere(sb);
    RegionsDisjoint(sb);
    NewJournal(sb, o, was, inodeBits, blockBits, ControlBlock(sb, A));
    NewJournal(sb, o, was, inodeBits, blockBits, ControlBlock(sb, B));
    BlockOfFormat(sb, o, was, e, inodeBits, blockBits, ControlBlock(sb, A));
    BlockOfFormat(sb, o, was, e, inodeBits, blockBits, ControlBlock(sb, B));
    forall i | 0 <= i < RingBlocks(sb)
      ensures RingAt(sb, e, i) == RingAt(sb, was, i)
    {
      NewJournal(sb, o, was, inodeBits, blockBits, RingBlock(sb, i));
      BlockOfFormat(sb, o, was, e, inodeBits, blockBits, RingBlock(sb, i));
    }
  }

  /** The journal of a formatted image is ready for any run exactly when the file held no COMMIT block
      where the ring now is: formatting does not clear the ring. */
  lemma FormatIsFormatted(sb: Superblock, o: Options, was: Image, e: Image, inodeBits: seq<byte>, blockBits: seq<byte>)
    requires IsFormat(sb, o, was, e, inodeBits, blockBits)
    ensures Formatted(sb, e) <==> NoCommits(sb, was)
  {
    hide ValidSuperblock, IsFormat, At, DecodeCommit, ControlBytes;
    FormatJournal(sb, o, was, e, inodeBits, blockBits);
    assert forall i :: 0 <= i < RingBlocks(sb) ==> CommitAt(sb, e, i) == CommitAt(sb, was, i);
  }

  /** No block where the ring goes decodes as a COMMIT block. */
  predicate NoCommits(sb: Superblock, d: Image) {
    forall i :: 0 <= i < RingBlocks(sb) ==> CommitAt(sb, d, i) == None
  }

  lemma NewJournal(sb: Superblock, o: Options, was: Image, inodeBits: seq<byte>, blockBits: seq<byte>, b: nat)
    requires Formattable(sb, o, was) && InRegion(b, sb.journal)
    requires |inodeBits| == sb.inodeBitmap.count * BLOCK_SIZE && |blockBits| == sb.blockBitmap.count * BLOCK_SIZE
    ensures b < sb.totalBlocks
    ensures NewBlock(sb, o, was, inodeBits, blockBits, b)
         == if b == ControlBlock(sb, A) || b == ControlBlock(sb, B) then ControlBytes(FormattedControl(sb)) else At(was, b)
  {
    hide ValidSuperblock, TableBlock, Directory.EntryBytes, IndirectBlock, At, BlockOf, ControlBytes;
    RegionsDisjoint(sb);
    TableIsThere(sb);
    Fits(sb, o, was);
    LedgerEntryIsValid();
  }
}
