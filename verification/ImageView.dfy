/** What the blocks of an image mean: bitmaps, inodes, block mappings and file contents
    (src/storage/image_reader.cpp). */
module ImageView {
  import opened Bytes
  import opened Errors
  import opened OndiskFormat
  import opened Journal
  import opened Bitmap

  const INODES_PER_BLOCK: nat := 32

  /** The bytes of a region as one buffer. */
  function RegionBytes(d: Image, r: Region): (s: seq<byte>)
    ensures |s| == r.count * BLOCK_SIZE
    ensures forall i :: 0 <= i < |s| ==> s[i] == At(d, r.start + i / BLOCK_SIZE)[i % BLOCK_SIZE]
  {
    seq(r.count * BLOCK_SIZE, i requires 0 <= i => At(d, r.start + i / BLOCK_SIZE)[i % BLOCK_SIZE])
  }

  predicate BlockUsed(sb: Superblock, d: Image, b: nat) {
    TestBit(RegionBytes(d, sb.blockBitmap), b)
  }

  predicate InodeUsed(sb: Superblock, d: Image, n: nat) {
    1 <= n <= sb.totalInodes && TestBit(RegionBytes(d, sb.inodeBitmap), n - 1)
  }

  /** `ValidateAllocatedDataBlock`. */
  predicate DataBlock(sb: Superblock, d: Image, b: nat) {
    sb.data.start <= b < sb.totalBlocks && BlockUsed(sb, d, b)
  }

  // ---- Inodes ----

  function InodeTableBlock(sb: Superblock, n: nat): nat {
    sb.inodeTable.start + (if n == 0 then 0 else (n - 1) / INODES_PER_BLOCK)
  }

  function InodeOffset(n: nat): (r: nat)
    ensures r + INODE_SIZE <= BLOCK_SIZE
  {
    if n == 0 then 0 else (n - 1) % INODES_PER_BLOCK * INODE_SIZE
  }

  function InodeSlot(sb: Superblock, d: Image, n: nat): InodeBytes {
    At(d, InodeTableBlock(sb, n))[InodeOffset(n)..InodeOffset(n) + INODE_SIZE]
  }

  function RequiredBlocks(size: nat): nat {
    (size + BLOCK_SIZE - 1) / BLOCK_SIZE
  }

  function Pointers(b: Block): (r: seq<u32>)
    ensures |r| == POINTERS_PER_BLOCK
  {
    PointersOf(b, POINTERS_PER_BLOCK)
  }

  /** The physical block of logical block `l`; 0 where the inode has none. */
  function MapBlock(d: Image, i: Inode, l: nat): u32 {
    if l < DIRECT_BLOCKS then i.direct[l]
    else if l < MAX_FILE_BLOCKS && i.indirect != 0 then Pointers(At(d, i.indirect))[l - DIRECT_BLOCKS]
    else 0
  }

  /** The mapping checks of `ReadInode`: exactly the blocks the size asks for, all allocated. */
  predicate MappingHolds(sb: Superblock, d: Image, i: Inode) {
    var n := RequiredBlocks(i.size);
    && (IsDirectory(i.mode) ==> i.size % BLOCK_SIZE == 0)
    && (forall l :: 0 <= l < DIRECT_BLOCKS ==>
          if l < n then i.direct[l] != 0 && DataBlock(sb, d, i.direct[l]) else i.direct[l] == 0)
    && if n <= DIRECT_BLOCKS then i.indirect == 0
       else
         && i.indirect != 0 && DataBlock(sb, d, i.indirect)
         && var ps := Pointers(At(d, i.indirect));
            forall k :: 0 <= k < POINTERS_PER_BLOCK ==>
              if k < n - DIRECT_BLOCKS then ps[k] != 0 && DataBlock(sb, d, ps[k]) else ps[k] == 0
  }

  function InodeAt(sb: Superblock, d: Image, n: nat): Option<Inode> {
    DecodeInode(InodeSlot(sb, d, n), n)
  }

  /** `ReadInode`. */
  function ReadInode(sb: Superblock, d: Image, n: nat): Result<Inode> {
    if n == 0 || n > sb.totalInodes then Failure(EINVAL)
    else if !InodeUsed(sb, d, n) then Failure(ENOENT)
    else match InodeAt(sb, d, n)
      case None => Failure(EUCLEAN)
      case Some(i) => if MappingHolds(sb, d, i) then Success(i) else Failure(EUCLEAN)
  }

  /** The pointer loops of `ReadInode`. */
  method CheckMapping(sb: Superblock, d: Image, i: Inode) returns (ok: bool)
    ensures ok <==> MappingHolds(sb, d, i)
  {
    hide DataBlock, PointersOf;
    var n := RequiredBlocks(i.size);
    if IsDirectory(i.mode) && i.size % BLOCK_SIZE != 0 {
      return false;
    }
    for l := 0 to DIRECT_BLOCKS
      invariant forall k :: 0 <= k < l ==>
        if k < n then i.direct[k] != 0 && DataBlock(sb, d, i.direct[k]) else i.direct[k] == 0
    {
      if l < n {
        if i.direct[l] == 0 || !DataBlock(sb, d, i.direct[l]) {
          return false;
        }
      } else if i.direct[l] != 0 {
        return false;
      }
    }
    if n <= DIRECT_BLOCKS {
      return i.indirect == 0;
    }
    if i.indirect == 0 || !DataBlock(sb, d, i.indirect) {
      return false;
    }
    var ps := Pointers(At(d, i.indirect));
    for k := 0 to POINTERS_PER_BLOCK
      invariant forall j :: 0 <= j < k ==>
        if j < n - DIRECT_BLOCKS then ps[j] != 0 && DataBlock(sb, d, ps[j]) else ps[j] == 0
    {
      if k < n - DIRECT_BLOCKS {
        if ps[k] == 0 || !DataBlock(sb, d, ps[k]) {
          return false;
        }
      } else if ps[k] != 0 {
        return false;
      }
    }
    ok := true;
  }

  /** `ReadInode`. */
  method LoadInode(sb: Superblock, d: Image, n: nat) returns (r: Result<Inode>)
    ensures r == ReadInode(sb, d, n)
  {
    hide MappingHolds, InodeUsed;
    if n == 0 || n > sb.totalInodes {
      return Failure(EINVAL);
    }
    if !InodeUsed(sb, d, n) {
      return Failure(ENOENT);
    }
    var i := InodeAt(sb, d, n);
    if i == None {
      return Failure(EUCLEAN);
    }
    var ok := CheckMapping(sb, d, i.value);
    r := if ok then Success(i.value) else Failure(EUCLEAN);
  }

  // ---- Contents ----

  function Mapping(d: Image, i: Inode): (r: seq<u32>)
    ensures |r| == RequiredBlocks(i.size)
    ensures forall l :: 0 <= l < |r| ==> r[l] == MapBlock(d, i, l)
  {
    seq(RequiredBlocks(i.size), l requires 0 <= l => MapBlock(d, i, l))
  }

  function ByteOf(d: Image, i: Inode, k: nat): byte {
    At(d, MapBlock(d, i, k / BLOCK_SIZE))[k % BLOCK_SIZE]
  }

  /** The bytes of a file. */
  function Contents(d: Image, i: Inode): (r: seq<byte>)
    ensures |r| == i.size
    ensures forall k :: 0 <= k < |r| ==> r[k] == ByteOf(d, i, k)
  {
    seq(i.size, k requires 0 <= k => ByteOf(d, i, k))
  }

  /** `MapLogicalBlock`. */
  function MapLogicalBlock(sb: Superblock, d: Image, i: Inode, l: nat): Result<nat> {
    if l >= DIRECT_BLOCKS && (l >= MAX_FILE_BLOCKS || i.indirect == 0 || !DataBlock(sb, d, i.indirect)) then Failure(EUCLEAN)
    else if MapBlock(d, i, l) == 0 || !DataBlock(sb, d, MapBlock(d, i, l)) then Failure(EUCLEAN)
    else Success(MapBlock(d, i, l))
  }

  /** Every logical block below the size maps to an allocated data block. */
  lemma MappedBlocks(sb: Superblock, d: Image, i: Inode, l: nat)
    requires MappingHolds(sb, d, i) && i.size <= MAX_FILE_SIZE && l < RequiredBlocks(i.size)
    ensures MapLogicalBlock(sb, d, i, l) == Success(MapBlock(d, i, l))
    ensures MapBlock(d, i, l) != 0 && DataBlock(sb, d, MapBlock(d, i, l))
  {
    hide DataBlock, PointersOf;
    if l >= DIRECT_BLOCKS {
      var ps := Pointers(At(d, i.indirect));
      assert ps[l - DIRECT_BLOCKS] != 0;
    }
  }

  lemma LogicalBlockOf(k: nat, size: nat)
    requires k < size
    ensures k / BLOCK_SIZE < RequiredBlocks(size)
  {}

  /** At most `n` bytes from `offset`, none beyond the end. */
  function Window(s: seq<byte>, offset: nat, n: nat): seq<byte> {
    if offset >= |s| then [] else if n < |s| - offset then s[offset..offset + n] else s[offset..]
  }

  /** `ReadFile`: copies block by block up to the end of the file. */
  method ReadFile(sb: Superblock, d: Image, n: nat, offset: nat, requested: nat) returns (r: Result<seq<byte>>)
    ensures match ReadInode(sb, d, n)
      case Failure(errno) => r == Failure(errno)
      case Success(i) =>
        if !IsRegular(i.mode) then r == Failure(EISDIR) else r == Success(Window(Contents(d, i), offset, requested))
  {
    hide ReadInode, Contents;
    var inode := LoadInode(sb, d, n);
    if inode.Failure? {
      return Failure(inode.errno);
    }
    var i := inode.value;
    if !IsRegular(i.mode) {
      return Failure(EISDIR);
    }
    if offset >= i.size || requested == 0 {
      assert Window(Contents(d, i), offset, requested) == [];
      return Success([]);
    }
    ReadInodeIsSmall(sb, d, n);
    var total := if requested < i.size - offset then requested else i.size - offset;
    var output := CopyOut(sb, d, i, offset, total);
    WindowIs(Contents(d, i), offset, requested, total);
    r := Success(output);
  }

  method CopyOut(sb: Superblock, d: Image, i: Inode, offset: nat, total: nat) returns (output: seq<byte>)
    requires MappingHolds(sb, d, i) && offset + total <= i.size <= MAX_FILE_SIZE
    ensures output == Contents(d, i)[offset..offset + total]
  {
    hide MappingHolds, DataBlock, Contents, MapBlock, At;
    output := [];
    while |output| < total
      invariant |output| <= total
      invariant output == Contents(d, i)[offset..offset + |output|]
    {
      var at := offset + |output|;
      LogicalBlockOf(at, i.size);
      MappedBlocks(sb, d, i, at / BLOCK_SIZE);
      var physical := MapLogicalBlock(sb, d, i, at / BLOCK_SIZE);
      var inside := at % BLOCK_SIZE;
      var chunk := if total - |output| < BLOCK_SIZE - inside then total - |output| else BLOCK_SIZE - inside;
      ChunkOfContents(d, i, at, chunk);
      Join(Contents(d, i), offset, at, at + chunk);
      output := output + At(d, physical.value)[inside..inside + chunk];
    }
  }

  lemma WindowIs(s: seq<byte>, offset: nat, n: nat, total: nat)
    requires offset < |s| && total == if n < |s| - offset then n else |s| - offset
    ensures Window(s, offset, n) == s[offset..offset + total]
  {}

  lemma Join(s: seq<byte>, a: nat, b: nat, c: nat)
    requires a <= b <= c <= |s|
    ensures s[a..b] + s[b..c] == s[a..c]
  {}

  lemma ReadInodeIsSmall(sb: Superblock, d: Image, n: nat)
    requires ReadInode(sb, d, n).Success?
    ensures var i := ReadInode(sb, d, n).value;
      i.size <= MAX_FILE_SIZE && i.number == n && MappingHolds(sb, d, i) && InodeAt(sb, d, n) == Some(i)
  {
    hide MappingHolds, InodeSlot;
  }

  lemma ChunkOfContents(d: Image, i: Inode, at: nat, chunk: nat)
    requires at + chunk <= i.size && at % BLOCK_SIZE + chunk <= BLOCK_SIZE
    ensures Contents(d, i)[at..at + chunk]
         == At(d, MapBlock(d, i, at / BLOCK_SIZE))[at % BLOCK_SIZE..at % BLOCK_SIZE + chunk]
  {
    hide MapBlock, At;
    var inside := at % BLOCK_SIZE;
    var left := Contents(d, i)[at..at + chunk];
    var right := At(d, MapBlock(d, i, at / BLOCK_SIZE))[inside..inside + chunk];
    forall k | 0 <= k < chunk
      ensures left[k] == right[k]
    {
      SameBlock(at, k);
    }
  }

  lemma SameBlock(at: nat, k: nat)
    requires at % BLOCK_SIZE + k < BLOCK_SIZE
    ensures (at + k) / BLOCK_SIZE == at / BLOCK_SIZE && (at + k) % BLOCK_SIZE == at % BLOCK_SIZE + k
  {}

  /** The blocks a file owns: its mapped blocks and its indirect block. */
  function Owned(d: Image, i: Inode): set<nat> {
    (set l: nat | l < RequiredBlocks(i.size) :: MapBlock(d, i, l) as nat) + (if i.indirect != 0 then {i.indirect as nat} else {})
  }

  lemma OwnedAreData(sb: Superblock, d: Image, i: Inode, b: nat)
    requires MappingHolds(sb, d, i) && i.size <= MAX_FILE_SIZE && b in Owned(d, i)
    ensures DataBlock(sb, d, b)
  {
    hide DataBlock, MapBlock, MappingHolds;
    if i.indirect != 0 && b == i.indirect {
      IndirectIsData(sb, d, i);
    } else {
      var l: nat :| l < RequiredBlocks(i.size) && b == MapBlock(d, i, l);
      MappedBlocks(sb, d, i, l);
    }
  }

  lemma IndirectIsData(sb: Superblock, d: Image, i: Inode)
    requires MappingHolds(sb, d, i) && i.indirect != 0
    ensures DataBlock(sb, d, i.indirect)
  {
    hide DataBlock, Pointers;
  }

  /** An inode whose blocks keep their contents and stay allocated reads the same in another image. */
  lemma SameFile(sb: Superblock, d: Image, e: Image, i: Inode)
    requires MappingHolds(sb, d, i) && i.size <= MAX_FILE_SIZE
    requires forall b :: b in Owned(d, i) ==> DataBlock(sb, e, b) && At(e, b) == At(d, b)
    ensures MappingHolds(sb, e, i) && Contents(e, i) == Contents(d, i) && Owned(e, i) == Owned(d, i)
    ensures forall l: nat :: MapBlock(e, i, l) == MapBlock(d, i, l)
  {
    hide DataBlock, Pointers, At;
    if i.indirect != 0 {
      assert i.indirect in Owned(d, i);
    }
    forall l: nat
      ensures MapBlock(e, i, l) == MapBlock(d, i, l)
    {}
    SameMapping(sb, d, e, i);
    SameContents(d, e, i);
  }

  lemma SameMapping(sb: Superblock, d: Image, e: Image, i: Inode)
    requires MappingHolds(sb, d, i) && i.size <= MAX_FILE_SIZE
    requires forall b :: b in Owned(d, i) ==> DataBlock(sb, e, b)
    requires i.indirect != 0 ==> At(e, i.indirect) == At(d, i.indirect)
    requires forall l: nat :: MapBlock(e, i, l) == MapBlock(d, i, l)
    ensures MappingHolds(sb, e, i)
  {
    hide DataBlock, Pointers, At, MapBlock;
    var n := RequiredBlocks(i.size);
    forall l: nat | l < n
      ensures DataBlock(sb, e, MapBlock(d, i, l))
    {
      assert MapBlock(d, i, l) as nat in Owned(d, i);
    }
    forall l | 0 <= l < DIRECT_BLOCKS && l < n
      ensures DataBlock(sb, e, i.direct[l])
    {
      DirectIs(d, i, l);
    }
    if n > DIRECT_BLOCKS {
      assert i.indirect in Owned(d, i);
      var ps := Pointers(At(d, i.indirect));
      forall k | 0 <= k < n - DIRECT_BLOCKS
        ensures DataBlock(sb, e, ps[k])
      {
        IndirectIs(d, i, k);
      }
    }
  }

  lemma DirectIs(d: Image, i: Inode, l: nat)
    requires l < DIRECT_BLOCKS
    ensures MapBlock(d, i, l) == i.direct[l]
  {}

  lemma IndirectIs(d: Image, i: Inode, k: nat)
    requires k < POINTERS_PER_BLOCK && i.indirect != 0
    ensures MapBlock(d, i, k + DIRECT_BLOCKS) == Pointers(At(d, i.indirect))[k]
  {}

  lemma SameContents(d: Image, e: Image, i: Inode)
    requires forall b :: b in Owned(d, i) ==> At(e, b) == At(d, b)
    requires forall l: nat :: MapBlock(e, i, l) == MapBlock(d, i, l)
    ensures Contents(e, i) == Contents(d, i)
  {
    hide At, MapBlock, Contents;
    var a, b := Contents(e, i), Contents(d, i);
    forall k | 0 <= k < |a|
      ensures a[k] == b[k]
    {
      LogicalBlockOf(k, i.size);
      assert MapBlock(d, i, k / BLOCK_SIZE) as nat in Owned(d, i);
    }
  }

  /** No block is mapped twice by one file, and none is also its indirect block. */
  predicate OwnBlocksDistinct(d: Image, i: Inode) {
    && (forall k, l :: 0 <= k < l < RequiredBlocks(i.size) ==> MapBlock(d, i, k) != MapBlock(d, i, l))
    && (i.indirect != 0 ==> forall l :: 0 <= l < RequiredBlocks(i.size) ==> MapBlock(d, i, l) != i.indirect)
  }

  /** Nothing is mapped beyond the size. */
  lemma BeyondIsZero(sb: Superblock, d: Image, i: Inode, l: nat)
    requires MappingHolds(sb, d, i) && RequiredBlocks(i.size) <= l
    ensures MapBlock(d, i, l) == 0
  {
    hide DataBlock, Pointers;
  }
}
