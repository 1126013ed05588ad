/** Reading the image after an object has been created. */
module ObjectView {
  import opened Bytes
  import opened Errors
  import opened OndiskFormat
  import opened Journal
  import opened JournalProtocol
  import opened JournalStore
  import opened Bitmap
  import opened ImageView
  import opened ImageEdit
  import opened FilePlan
  import opened Directory
  import opened Health
  import opened ObjectPlan

  /** The plan satisfies every check the journal makes of the planner. */
  lemma CreationIsCovered(sb: Superblock, d: Image, r: Inode, c: Creation, p: NewPlan)
    requires Created(sb, d, r, c, p)
    ensures Covered(sb, p.tx) && MatchesImage(d, p.tx.before)
  {
    hide FilePlanned, RootPlanned, EntryPlaced, BlocksPlanned, BitmapsPlanned, Realizes, EditOfNew, MatchesImage, Covered;
    EditIsCovered(sb, d, p.tx, EditOfNew(sb, d, r, p));
  }

  lemma RootFacts(sb: Superblock, d: Image, r: Inode, c: Creation)
    requires Creatable(sb, d, r, c)
    ensures MappingHolds(sb, d, r) && r.size <= MAX_FILE_SIZE && r.number == sb.rootInode && IsDirectory(r.mode)
    ensures RootBlocks(r) == RequiredBlocks(r.size) <= MAX_FILE_BLOCKS && r.size == RootBlocks(r) * BLOCK_SIZE
    ensures InodeUsed(sb, d, sb.rootInode) && InodeAt(sb, d, sb.rootInode) == Some(r)
    ensures ValidSuperblock(sb) && |d| == sb.totalBlocks && 1 <= sb.rootInode <= sb.totalInodes
  {
    hide Listable, WellFormed, ValidSuperblock, InodeAt, InodeUsed, DataBlock, Pointers;
    ReadInodeIsSmall(sb, d, sb.rootInode);
  }

  lemma NewIsData(sb: Superblock, d: Image, p: NewPlan, b: nat)
    requires BlocksPlanned(sb, d, p) && b in p.reserved
    ensures sb.data.start <= b < sb.totalBlocks && !BlockUsed(sb, d, b)
  {
    hide TestBit, JournaledBlocks;
  }

  /** The directory block that is edited in place belongs to the root and is in use. */
  lemma DirectoryBlockIsData(sb: Superblock, d: Image, r: Inode, c: Creation, p: NewPlan)
    requires Creatable(sb, d, r, c) && Created(sb, d, r, c, p)
    ensures sb.data.start <= p.dirBlock < sb.totalBlocks
    ensures p.growth.InPlace? ==> DataBlock(sb, d, p.dirBlock) && p.dirBlock as nat in Owned(d, r)
    ensures !p.growth.InPlace? ==> p.dirBlock as nat in p.reserved
  {
    hide Creatable, FilePlanned, RootPlanned, BitmapsPlanned, Realizes, MapBlock, Parse, BlockUsed, MappingHolds, InodeAt;
    RootFacts(sb, d, r, c);
    if p.growth.InPlace? {
      MappedBlocks(sb, d, r, p.growth.logical);
    } else {
      NewIsData(sb, d, p, p.dirBlock);
    }
  }

  // ---- Blocks and bitmaps ----

  lemma BitmapsOfNew(sb: Superblock, d: Image, r: Inode, c: Creation, p: NewPlan)
    requires Created(sb, d, r, c, p)
    ensures RegionBytes(AfterImage(d, p.tx), sb.blockBitmap) == p.blockBitmap
    ensures RegionBytes(AfterImage(d, p.tx), sb.inodeBitmap) == p.inodeBitmap
  {
    hide FilePlanned, RootPlanned, EntryPlaced, BlocksPlanned, BitmapsPlanned, Realizes, AfterImage, RegionBytes, BlockImages;
    BitmapsAfter(sb, d, p.tx, EditOfNew(sb, d, r, p));
  }

  lemma InodesOfNew(sb: Superblock, d: Image, r: Inode, c: Creation, p: NewPlan, k: nat)
    requires Created(sb, d, r, c, p) && 1 <= k <= sb.totalInodes
    ensures InodeAt(sb, AfterImage(d, p.tx), k)
         == if k == p.number then Some(p.file) else if k == sb.rootInode then Some(p.root) else InodeAt(sb, d, k)
  {
    hide FilePlanned, RootPlanned, EntryPlaced, BlocksPlanned, BitmapsPlanned, Realizes, AfterImage, InodeAt, BlockImages;
    InodesAfter(sb, d, p.tx, EditOfNew(sb, d, r, p), k);
  }

  /** The journaled blocks are where the plan says. */
  lemma ImagesOfNew(sb: Superblock, d: Image, r: Inode, p: NewPlan, b: nat)
    requires BlocksPlanned(sb, d, p)
    requires p.growth.InPlace? ==> BlockUsed(sb, d, p.dirBlock)
    ensures var images := BlockImages(d, r, p);
      && (b == p.dirBlock ==> b in images && images[b] == p.dirAfter)
      && (p.growth == GrowIndirect && b == p.root.indirect ==> b in images && images[b] == GrownIndirect(d, r, p.dirBlock))
      && (p.file.indirect != 0 && b == p.file.indirect ==> b in images && images[b] == IndirectBlock(p.mapping))
      && (b in images ==> b == p.dirBlock || b in JournaledBlocks(p))
  {
    hide GrownIndirect, IndirectBlock, TestBit;
    if p.growth.InPlace? && p.file.indirect != 0 {
      NewIsData(sb, d, p, p.file.indirect);
    }
  }

  lemma DataOfNew(sb: Superblock, d: Image, r: Inode, c: Creation, p: NewPlan, b: nat)
    requires Creatable(sb, d, r, c) && Created(sb, d, r, c, p) && sb.data.start <= b < sb.totalBlocks
    ensures var images := BlockImages(d, r, p);
      At(AfterImage(d, p.tx), b) == if b in images then images[b] else if b in p.tx.ordered then p.tx.ordered[b] else At(d, b)
  {
    hide FilePlanned, RootPlanned, EntryPlaced, BlocksPlanned, BitmapsPlanned, Realizes, AfterImage, BlockImages, Creatable;
    hide ValidSuperblock;
    RootFacts(sb, d, r, c);
    RegionsDisjoint(sb);
    DataAfter(sb, d, p.tx, EditOfNew(sb, d, r, p), b);
  }

  /** Every block in use keeps its contents, except the directory block edited in place. */
  lemma BlockKept(sb: Superblock, d: Image, r: Inode, c: Creation, p: NewPlan, b: nat)
    requires Creatable(sb, d, r, c) && Created(sb, d, r, c, p) && DataBlock(sb, d, b)
    ensures b !in p.reserved
    ensures !(p.growth.InPlace? && b == p.dirBlock) ==> At(AfterImage(d, p.tx), b) == At(d, b)
  {
    hide FilePlanned, RootPlanned, EntryPlaced, BitmapsPlanned, Realizes, AfterImage, BlockImages, Creatable, BlockUsed, Free;
    DirectoryBlockIsData(sb, d, r, c, p);
    DataOfNew(sb, d, r, c, p, b);
    ImagesOfNew(sb, d, r, p, b);
    if b in p.reserved {
      NewIsData(sb, d, p, b);
    }
  }

  lemma NewBlockAt(sb: Superblock, d: Image, r: Inode, c: Creation, p: NewPlan)
    requires Creatable(sb, d, r, c) && Created(sb, d, r, c, p)
    ensures At(AfterImage(d, p.tx), p.dirBlock) == p.dirAfter
    ensures p.growth == GrowIndirect ==>
      p.root.indirect != 0 && At(AfterImage(d, p.tx), p.root.indirect) == GrownIndirect(d, r, p.dirBlock)
    ensures p.file.indirect != 0 ==> At(AfterImage(d, p.tx), p.file.indirect) == IndirectBlock(p.mapping)
  {
    hide FilePlanned, RootPlanned, EntryPlaced, BitmapsPlanned, Realizes, AfterImage, BlockImages, Creatable, BlockUsed, Free;
    hide GrownIndirect, IndirectBlock, ValidSuperblock;
    RootFacts(sb, d, r, c);
    RegionsDisjoint(sb);
    DirectoryBlockIsData(sb, d, r, c, p);
    DataOfNew(sb, d, r, c, p, p.dirBlock);
    ImagesOfNew(sb, d, r, p, p.dirBlock);
    if p.growth == GrowIndirect {
      NewIsData(sb, d, p, p.root.indirect);
      DataOfNew(sb, d, r, c, p, p.root.indirect);
      ImagesOfNew(sb, d, r, p, p.root.indirect);
    }
    if p.file.indirect != 0 {
      NewIsData(sb, d, p, p.file.indirect);
      DataOfNew(sb, d, r, c, p, p.file.indirect);
      ImagesOfNew(sb, d, r, p, p.file.indirect);
    }
  }

  lemma OrderedOfNew(sb: Superblock, d: Image, r: Inode, c: Creation, p: NewPlan, b: nat)
    requires Creatable(sb, d, r, c) && Created(sb, d, r, c, p) && b in p.tx.ordered
    ensures At(AfterImage(d, p.tx), b) == p.tx.ordered[b]
  {
    hide FilePlanned, RootPlanned, EntryPlaced, BitmapsPlanned, Realizes, AfterImage, BlockImages, Creatable, BlockUsed, Free;
    NewIsData(sb, d, p, b);
    DirectoryBlockIsData(sb, d, r, c, p);
    DataOfNew(sb, d, r, c, p, b);
    ImagesOfNew(sb, d, r, p, b);
  }

  /** Allocation after the creation. */
  lemma UsedAfterNew(sb: Superblock, d: Image, r: Inode, c: Creation, p: NewPlan, b: nat)
    requires Creatable(sb, d, r, c) && Created(sb, d, r, c, p)
    ensures BlockUsed(sb, AfterImage(d, p.tx), b) <==> (BlockUsed(sb, d, b) && b !in OldIndirect(r, p)) || b in p.reserved
    ensures b in OldIndirect(r, p) ==> DataBlock(sb, d, b)
  {
    hide FilePlanned, RootPlanned, EntryPlaced, BlocksPlanned, Realizes, AfterImage, Creatable, TestBit, RegionBytes;
    hide MappingHolds, InodeAt;
    RootFacts(sb, d, r, c);
    BitmapsOfNew(sb, d, r, c, p);
    if b in OldIndirect(r, p) {
      IndirectIsData(sb, d, r);
    }
    if b in p.reserved {
      NewIsData(sb, d, p, b);
    }
  }

  lemma InodeUsedAfterNew(sb: Superblock, d: Image, r: Inode, c: Creation, p: NewPlan, k: nat)
    requires Created(sb, d, r, c, p)
    ensures InodeUsed(sb, AfterImage(d, p.tx), k) <==> InodeUsed(sb, d, k) || k == p.number
    ensures 1 <= p.number <= sb.totalInodes && !InodeUsed(sb, d, p.number)
  {
    hide FilePlanned, RootPlanned, EntryPlaced, BlocksPlanned, Realizes, AfterImage, TestBit, RegionBytes;
    BitmapsOfNew(sb, d, r, c, p);
  }

  // ---- The new file ----

  lemma FileShape(d: Image, c: Creation, p: NewPlan)
    requires FilePlanned(d, c, p)
    ensures |p.mapping| == RequiredBlocks(|c.data|) <= MAX_FILE_BLOCKS && p.file.size == |c.data|
    ensures p.file.direct == DirectPointers(p.mapping) && p.file.number == p.number && p.file.generation == 1
    ensures p.file.linkCount == 1 && IsRegular(p.file.mode) && !IsDirectory(p.file.mode)
    ensures |p.mapping| <= DIRECT_BLOCKS ==> p.file.indirect == 0
    ensures forall l :: 0 <= l < |p.mapping| ==>
      p.mapping[l] in p.tx.ordered && p.tx.ordered[p.mapping[l]] == AfterBlock(d, Blank(p.number, c), Fill(c), l)
  {
    hide AfterBlock, MapBlock, DirectPointers;
    ModeOf(c.permissions % 512);
  }

  lemma FileBlocksApart(d: Image, c: Creation, p: NewPlan)
    requires FilePlanned(d, c, p)
    ensures forall k, l :: 0 <= k < l < |p.mapping| ==> p.mapping[k] != p.mapping[l]
  {
    hide AfterBlock, MapBlock, DirectPointers;
  }

  lemma FileBlockSource(d: Image, c: Creation, p: NewPlan, b: nat) returns (l: nat)
    requires FilePlanned(d, c, p) && b in p.tx.ordered
    ensures l < |p.mapping| && p.mapping[l] == b
  {
    hide AfterBlock, MapBlock, DirectPointers;
    l :| l < |p.mapping| && p.mapping[l] == b;
  }

  lemma ModeOf(permissions: nat)
    requires permissions < 512
    ensures IsRegular(0x8000 + permissions) && !IsDirectory(0x8000 + permissions)
  {}

  lemma FileMapping(sb: Superblock, d: Image, r: Inode, c: Creation, p: NewPlan, l: nat)
    requires Creatable(sb, d, r, c) && Created(sb, d, r, c, p)
    ensures MapBlock(AfterImage(d, p.tx), p.file, l) == if l < |p.mapping| then p.mapping[l] else 0
  {
    hide Creatable, RootPlanned, EntryPlaced, BitmapsPlanned, Realizes, FilePlanned, AfterImage, Pointers, At, Free;
    FileShape(d, c, p);
    if DIRECT_BLOCKS <= l < MAX_FILE_BLOCKS && p.file.indirect != 0 {
      NewBlockAt(sb, d, r, c, p);
      IndirectRoundTrip(p.mapping);
    }
  }

  /** The new object reads back as the data it was created with. */
  lemma FileContents(sb: Superblock, d: Image, r: Inode, c: Creation, p: NewPlan)
    requires Creatable(sb, d, r, c) && Created(sb, d, r, c, p)
    ensures Contents(AfterImage(d, p.tx), p.file) == c.data
  {
    hide Creatable, Created, AfterImage, ByteOf, FilePlanned, RootPlanned, EntryPlaced, BlocksPlanned;
    CreatedFile(sb, d, r, c, p);
    FileShape(d, c, p);
    var contents := Contents(AfterImage(d, p.tx), p.file);
    forall k | 0 <= k < |c.data|
      ensures contents[k] == c.data[k]
    {
      FileByte(sb, d, r, c, p, k);
    }
  }

  lemma FileByte(sb: Superblock, d: Image, r: Inode, c: Creation, p: NewPlan, k: nat)
    requires Creatable(sb, d, r, c) && Created(sb, d, r, c, p) && k < |c.data|
    ensures ByteOf(AfterImage(d, p.tx), p.file, k) == c.data[k]
  {
    hide Creatable, Created, AfterImage, MapBlock, At, AfterBlock, FilePlanned, RootPlanned, EntryPlaced, BlocksPlanned;
    CreatedFile(sb, d, r, c, p);
    FileShape(d, c, p);
    var l, j := k / BLOCK_SIZE, k % BLOCK_SIZE;
    assert l * BLOCK_SIZE + j == k;
    LogicalBlockOf(k, |c.data|);
    FileMapping(sb, d, r, c, p, l);
    OrderedOfNew(sb, d, r, c, p, p.mapping[l]);
    AfterBlockIsWritten(d, Blank(p.number, c), Fill(c), l, j);
  }

  lemma CreatedFile(sb: Superblock, d: Image, r: Inode, c: Creation, p: NewPlan)
    requires Created(sb, d, r, c, p)
    ensures FilePlanned(d, c, p) && RootPlanned(r, c, p) && EntryPlaced(d, r, c, p) && BlocksPlanned(sb, d, p)
  {
    hide FilePlanned, RootPlanned, EntryPlaced, BlocksPlanned, BitmapsPlanned, Realizes;
  }

  lemma FileMappingHolds(sb: Superblock, d: Image, r: Inode, c: Creation, p: NewPlan)
    requires Creatable(sb, d, r, c) && Created(sb, d, r, c, p)
    ensures MappingHolds(sb, AfterImage(d, p.tx), p.file)
  {
    hide Creatable, Created, AfterImage, MapBlock, DataBlock, MappingHolds, FilePlanned, BlocksPlanned;
    var e := AfterImage(d, p.tx);
    CreatedFile(sb, d, r, c, p);
    FileShape(d, c, p);
    forall l: nat | l < MAX_FILE_BLOCKS
      ensures MapBlock(e, p.file, l) == if l < |p.mapping| then p.mapping[l] else 0
    {
      FileMapping(sb, d, r, c, p, l);
    }
    forall l: nat | l < |p.mapping|
      ensures p.mapping[l] != 0 && DataBlock(sb, e, p.mapping[l])
    {
      FileBlockIsReserved(sb, d, c, p, l);
      ReservedIsDataAfter(sb, d, r, c, p, p.mapping[l]);
    }
    if |p.mapping| > DIRECT_BLOCKS {
      FileIndirectIsReserved(sb, d, p);
      ReservedIsDataAfter(sb, d, r, c, p, p.file.indirect);
    }
    MappingFromBlocks(sb, e, p.file, p.mapping);
  }

  lemma FileBlockIsReserved(sb: Superblock, d: Image, c: Creation, p: NewPlan, l: nat)
    requires FilePlanned(d, c, p) && BlocksPlanned(sb, d, p) && l < |p.mapping|
    ensures p.mapping[l] as nat in p.reserved
  {
    hide FilePlanned, Free, JournaledBlocks;
    FileShape(d, c, p);
  }

  lemma FileIndirectIsReserved(sb: Superblock, d: Image, p: NewPlan)
    requires BlocksPlanned(sb, d, p)
    ensures |p.mapping| > DIRECT_BLOCKS ==> p.file.indirect != 0
    ensures p.file.indirect != 0 ==> p.file.indirect as nat in p.reserved
  {
    hide Free;
  }

  lemma ReservedIsDataAfter(sb: Superblock, d: Image, r: Inode, c: Creation, p: NewPlan, b: nat)
    requires Creatable(sb, d, r, c) && Created(sb, d, r, c, p) && b in p.reserved
    ensures DataBlock(sb, AfterImage(d, p.tx), b) && b != 0
  {
    hide Creatable, AfterImage, BlockUsed, FilePlanned, RootPlanned, EntryPlaced, BlocksPlanned, BitmapsPlanned, Realizes;
    hide ValidSuperblock;
    RootFacts(sb, d, r, c);
    RegionsDisjoint(sb);
    NewIsData(sb, d, p, b);
    UsedAfterNew(sb, d, r, c, p, b);
  }

  lemma KeptIsDataAfter(sb: Superblock, d: Image, r: Inode, c: Creation, p: NewPlan, b: nat)
    requires Creatable(sb, d, r, c) && Created(sb, d, r, c, p) && DataBlock(sb, d, b) && b !in OldIndirect(r, p)
    ensures DataBlock(sb, AfterImage(d, p.tx), b)
  {
    hide Creatable, Created, AfterImage, BlockUsed;
    UsedAfterNew(sb, d, r, c, p, b);
  }

  // ---- The root directory ----

  /** The new root maps its old blocks as before and, if it grew, the new block after them. */
  function RootMap(d: Image, r: Inode, p: NewPlan, l: nat): u32 {
    if !p.growth.InPlace? && l == RootBlocks(r) then p.dirBlock else MapBlock(d, r, l)
  }

  lemma RootShape(r: Inode, c: Creation, p: NewPlan)
    requires RootPlanned(r, c, p)
    ensures p.root.number == r.number && p.root.mode == r.mode && p.root.linkCount == r.linkCount
    ensures p.growth.InPlace? ==> p.root.direct == r.direct && p.root.indirect == r.indirect && p.root.size == r.size
    ensures !p.growth.InPlace? ==> p.root.size == (RootBlocks(r) + 1) * BLOCK_SIZE && RootBlocks(r) < MAX_FILE_BLOCKS
    ensures p.growth == GrowDirect ==>
      RootBlocks(r) < DIRECT_BLOCKS && p.root.indirect == r.indirect && p.root.direct == r.direct[RootBlocks(r) := p.dirBlock]
    ensures p.growth == GrowIndirect ==> DIRECT_BLOCKS <= RootBlocks(r) && p.root.direct == r.direct
  {}

  lemma RootMapping(sb: Superblock, d: Image, r: Inode, c: Creation, p: NewPlan, l: nat)
    requires Creatable(sb, d, r, c) && Created(sb, d, r, c, p) && OwnBlocksDistinct(d, r) && l < MAX_FILE_BLOCKS
    ensures MapBlock(AfterImage(d, p.tx), p.root, l) == RootMap(d, r, p, l)
  {
    hide Creatable, Created, AfterImage, MapBlock, RootPlanned, FilePlanned, EntryPlaced, BlocksPlanned, OwnBlocksDistinct;
    CreatedFile(sb, d, r, c, p);
    RootShape(r, c, p);
    if l < DIRECT_BLOCKS {
      DirectIs(AfterImage(d, p.tx), p.root, l);
      DirectIs(d, r, l);
    } else if p.growth == GrowIndirect {
      RootMappingGrown(sb, d, r, c, p, l);
    } else {
      RootMappingKept(sb, d, r, c, p, l);
    }
  }

  lemma RootMappingGrown(sb: Superblock, d: Image, r: Inode, c: Creation, p: NewPlan, l: nat)
    requires Creatable(sb, d, r, c) && Created(sb, d, r, c, p)
    requires p.growth == GrowIndirect && DIRECT_BLOCKS <= l < MAX_FILE_BLOCKS
    ensures MapBlock(AfterImage(d, p.tx), p.root, l) == RootMap(d, r, p, l)
  {
    hide Creatable, Created, AfterImage, Pointers, At, RootPlanned, MappingHolds, GrownIndirect, InodeAt, BlocksPlanned;
    hide EntryPlaced, FilePlanned;
    CreatedFile(sb, d, r, c, p);
    RootShape(r, c, p);
    RootFacts(sb, d, r, c);
    NewBlockAt(sb, d, r, c, p);
    GrownMapping(sb, d, r, p.dirBlock, l);
  }

  lemma RootMappingKept(sb: Superblock, d: Image, r: Inode, c: Creation, p: NewPlan, l: nat)
    requires Creatable(sb, d, r, c) && Created(sb, d, r, c, p) && OwnBlocksDistinct(d, r)
    requires p.growth != GrowIndirect && DIRECT_BLOCKS <= l < MAX_FILE_BLOCKS
    ensures MapBlock(AfterImage(d, p.tx), p.root, l) == RootMap(d, r, p, l)
  {
    hide Creatable, Created, AfterImage, Pointers, At, RootPlanned, MappingHolds, InodeAt, BlocksPlanned, EntryPlaced;
    hide FilePlanned;
    hide OwnBlocksDistinct;
    CreatedFile(sb, d, r, c, p);
    RootShape(r, c, p);
    RootFacts(sb, d, r, c);
    if r.indirect != 0 {
      RootIndirectKept(sb, d, r, c, p);
    }
  }

  /** The directory block edited in place is not the root's indirect block, which therefore stays. */
  lemma RootIndirectKept(sb: Superblock, d: Image, r: Inode, c: Creation, p: NewPlan)
    requires Creatable(sb, d, r, c) && Created(sb, d, r, c, p) && r.indirect != 0 && p.growth != GrowIndirect
    requires OwnBlocksDistinct(d, r)
    ensures At(AfterImage(d, p.tx), r.indirect) == At(d, r.indirect)
  {
    hide Creatable, FilePlanned, RootPlanned, BlocksPlanned, BitmapsPlanned, Realizes, AfterImage, At, MapBlock, Parse;
    hide MappingHolds, InodeAt;
    RootFacts(sb, d, r, c);
    IndirectIsData(sb, d, r);
    BlockKept(sb, d, r, c, p, r.indirect);
  }

  lemma GrownMapping(sb: Superblock, d: Image, r: Inode, added: u32, l: nat)
    requires MappingHolds(sb, d, r) && DIRECT_BLOCKS <= RootBlocks(r) < MAX_FILE_BLOCKS && DIRECT_BLOCKS <= l < MAX_FILE_BLOCKS
    ensures Pointers(GrownIndirect(d, r, added))[l - DIRECT_BLOCKS] == if l == RootBlocks(r) then added else MapBlock(d, r, l)
  {
    hide PointersOf, PointersBytes, MappingHolds;
    PointersRoundTrip(GrownPointers(d, r, added));
  }

  /** Every block of the new root is allocated. */
  lemma RootBlockIsData(sb: Superblock, d: Image, r: Inode, c: Creation, p: NewPlan, l: nat)
    requires Creatable(sb, d, r, c) && Created(sb, d, r, c, p) && OwnBlocksDistinct(d, r)
    requires l < RequiredBlocks(p.root.size)
    ensures RootMap(d, r, p, l) != 0 && DataBlock(sb, AfterImage(d, p.tx), RootMap(d, r, p, l))
    ensures !p.growth.InPlace? && l == RootBlocks(r) ==> RootMap(d, r, p, l) as nat in p.reserved
    ensures !(!p.growth.InPlace? && l == RootBlocks(r)) ==> l < RequiredBlocks(r.size) && RootMap(d, r, p, l) as nat !in p.reserved
  {
    hide Creatable, Created, AfterImage, MapBlock, RootPlanned, FilePlanned, EntryPlaced, BlocksPlanned, DataBlock;
    hide MappingHolds, InodeAt;
    CreatedFile(sb, d, r, c, p);
    RootShape(r, c, p);
    RootFacts(sb, d, r, c);
    if !p.growth.InPlace? && l == RootBlocks(r) {
      DirectoryBlockIsData(sb, d, r, c, p);
      ReservedIsDataAfter(sb, d, r, c, p, p.dirBlock);
    } else {
      MappedBlocks(sb, d, r, l);
      BlockKept(sb, d, r, c, p, MapBlock(d, r, l));
      KeptIsDataAfter(sb, d, r, c, p, MapBlock(d, r, l));
    }
  }

  lemma RootIndirectIsData(sb: Superblock, d: Image, r: Inode, c: Creation, p: NewPlan)
    requires Creatable(sb, d, r, c) && Created(sb, d, r, c, p) && OwnBlocksDistinct(d, r)
    ensures p.root.indirect != 0 <==> RequiredBlocks(p.root.size) > DIRECT_BLOCKS
    ensures p.root.indirect != 0 ==> DataBlock(sb, AfterImage(d, p.tx), p.root.indirect)
    ensures p.growth == GrowIndirect ==> p.root.indirect as nat in p.reserved
    ensures p.growth != GrowIndirect && p.root.indirect != 0 ==> p.root.indirect == r.indirect && r.indirect as nat !in p.reserved
  {
    hide Creatable, Created, AfterImage, MapBlock, RootPlanned, FilePlanned, EntryPlaced, DataBlock, MappingHolds, InodeAt, Free;
    CreatedFile(sb, d, r, c, p);
    RootShape(r, c, p);
    RootFacts(sb, d, r, c);
    IndirectExactlyWhenLarge(sb, d, r);
    if p.growth == GrowIndirect {
      ReservedIsDataAfter(sb, d, r, c, p, p.root.indirect);
    } else if r.indirect != 0 {
      IndirectIsData(sb, d, r);
      BlockKept(sb, d, r, c, p, r.indirect);
      KeptIsDataAfter(sb, d, r, c, p, r.indirect);
    }
  }

  lemma IndirectExactlyWhenLarge(sb: Superblock, d: Image, i: Inode)
    requires MappingHolds(sb, d, i)
    ensures i.indirect != 0 <==> RequiredBlocks(i.size) > DIRECT_BLOCKS
  {
    hide DataBlock, Pointers;
  }

  lemma RootMappingHolds(sb: Superblock, d: Image, r: Inode, c: Creation, p: NewPlan)
    requires Creatable(sb, d, r, c) && Created(sb, d, r, c, p) && OwnBlocksDistinct(d, r)
    ensures MappingHolds(sb, AfterImage(d, p.tx), p.root)
    ensures p.root.size <= MAX_FILE_SIZE && p.root.size % BLOCK_SIZE == 0
  {
    hide Creatable, Created, AfterImage, MapBlock, RootMap, RootPlanned, FilePlanned, EntryPlaced, BlocksPlanned, DataBlock;
    hide MappingHolds, InodeAt;
    hide OwnBlocksDistinct;
    var e := AfterImage(d, p.tx);
    CreatedFile(sb, d, r, c, p);
    RootShape(r, c, p);
    RootFacts(sb, d, r, c);
    var mapping: seq<u32> := seq(RequiredBlocks(p.root.size), l requires 0 <= l => RootMap(d, r, p, l));
    forall l: nat | l < MAX_FILE_BLOCKS
      ensures MapBlock(e, p.root, l) == if l < |mapping| then mapping[l] else 0
    {
      RootMapping(sb, d, r, c, p, l);
      if l >= |mapping| {
        RootBeyond(sb, d, r, c, p, l);
      }
    }
    forall l: nat | l < |mapping|
      ensures mapping[l] != 0 && DataBlock(sb, e, mapping[l])
    {
      RootBlockIsData(sb, d, r, c, p, l);
    }
    RootIndirectIsData(sb, d, r, c, p);
    MappingFromBlocks(sb, e, p.root, mapping);
  }

  lemma RootBeyond(sb: Superblock, d: Image, r: Inode, c: Creation, p: NewPlan, l: nat)
    requires Creatable(sb, d, r, c) && Created(sb, d, r, c, p) && RequiredBlocks(p.root.size) <= l
    ensures RootMap(d, r, p, l) == 0
  {
    hide Creatable, Created, MapBlock, RootPlanned, FilePlanned, EntryPlaced, BlocksPlanned, MappingHolds, InodeAt;
    CreatedFile(sb, d, r, c, p);
    RootShape(r, c, p);
    RootFacts(sb, d, r, c);
    BeyondIsZero(sb, d, r, l);
  }

  // ---- The root listing ----

  /** One more entry somewhere in a listing. */
  ghost predicate WithEntry(was: seq<Entry>, now: seq<Entry>, x: Entry) {
    exists at :: 0 <= at <= |was| && now == was[..at] + [x] + was[at..]
  }

  lemma WithEntryPrefix(head: seq<Entry>, was: seq<Entry>, now: seq<Entry>, x: Entry)
    requires WithEntry(was, now, x)
    ensures WithEntry(head + was, head + now, x)
  {
    var at :| 0 <= at <= |was| && now == was[..at] + [x] + was[at..];
    assert (head + was)[..|head| + at] == head + was[..at] && (head + was)[|head| + at..] == was[at..];
    assert head + now == (head + was[..at]) + [x] + was[at..];
  }

  lemma WithEntrySuffix(was: seq<Entry>, now: seq<Entry>, tail: seq<Entry>, x: Entry)
    requires WithEntry(was, now, x)
    ensures WithEntry(was + tail, now + tail, x)
  {
    var at :| 0 <= at <= |was| && now == was[..at] + [x] + was[at..];
    assert (was + tail)[..at] == was[..at] && (was + tail)[at..] == was[at..] + tail;
    assert now + tail == was[..at] + [x] + (was[at..] + tail);
  }

  /** What the changed directory block lists. */
  lemma BlockListing(d: Image, r: Inode, c: Creation, p: NewPlan)
    requires EntryPlaced(d, r, c, p) && p.growth.InPlace?
    ensures Parse(At(d, p.dirBlock)).Some? && Parse(p.dirAfter).Some?
    ensures WithEntry(Listed(Active(Parse(At(d, p.dirBlock)).value)), Listed(Active(Parse(p.dirAfter).value)),
                      NewEntry(p.number, c, 0))
  {
    hide Parse, At, MapBlock, Active, Listed, ValidEntry, Room;
    var es := Parse(At(d, p.dirBlock)).value;
    var x := NewEntry(p.number, c, BLOCK_SIZE);
    var k :| 0 <= k < |es| && Room(es[k]) >= MinLength(|c.name|) && Parse(p.dirAfter) == Some(Inserted(es, k, x));
    InsertedLists(es, k, x);
  }

  lemma {:induction false} ListingWithEntry(d: Image, e: Image, i: Inode, j: Inode, l: nat, k: nat, x: Entry)
    requires l < k && EntriesUpTo(d, i, k).Some?
    requires forall m: nat :: m < k ==> MapBlock(e, j, m) == MapBlock(d, i, m)
    requires forall m: nat :: m < k && m != l ==> At(e, MapBlock(d, i, m)) == At(d, MapBlock(d, i, m))
    requires Parse(At(d, MapBlock(d, i, l))).Some? && Parse(At(e, MapBlock(d, i, l))).Some?
    requires WithEntry(Listed(Active(Parse(At(d, MapBlock(d, i, l))).value)),
                       Listed(Active(Parse(At(e, MapBlock(d, i, l))).value)), x)
    ensures EntriesUpTo(e, j, k).Some? && WithEntry(EntriesUpTo(d, i, k).value, EntriesUpTo(e, j, k).value, x)
  {
    hide Parse, At, MapBlock, Active, Listed, WithEntry;
    if l == k - 1 {
      SameEntriesOf(d, e, i, j, k - 1);
      WithEntryPrefix(EntriesUpTo(d, i, k - 1).value, Listed(Active(Parse(At(d, MapBlock(d, i, l))).value)),
                      Listed(Active(Parse(At(e, MapBlock(d, i, l))).value)), x);
    } else {
      ListingWithEntry(d, e, i, j, l, k - 1, x);
      assert MapBlock(e, j, k - 1) == MapBlock(d, i, k - 1);
      WithEntrySuffix(EntriesUpTo(d, i, k - 1).value, EntriesUpTo(e, j, k - 1).value,
                      Listed(Active(Parse(At(d, MapBlock(d, i, k - 1))).value)), x);
    }
  }

  lemma {:induction false} SameEntriesOf(d: Image, e: Image, i: Inode, j: Inode, k: nat)
    requires forall m: nat :: m < k ==> MapBlock(e, j, m) == MapBlock(d, i, m) && At(e, MapBlock(d, i, m)) == At(d, MapBlock(d, i, m))
    ensures EntriesUpTo(e, j, k) == EntriesUpTo(d, i, k)
  {
    hide MapBlock, At, Parse;
    if k > 0 {
      SameEntriesOf(d, e, i, j, k - 1);
      assert MapBlock(e, j, k - 1) == MapBlock(d, i, k - 1);
    }
  }

  /** The root lists everything it listed before and the new object. */
  lemma RootListing(sb: Superblock, d: Image, r: Inode, c: Creation, p: NewPlan)
    requires Creatable(sb, d, r, c) && Created(sb, d, r, c, p) && OwnBlocksDistinct(d, r)
    ensures DirEntries(d, r).Some? && DirEntries(AfterImage(d, p.tx), p.root).Some?
    ensures WithEntry(DirEntries(d, r).value, DirEntries(AfterImage(d, p.tx), p.root).value, NewEntry(p.number, c, 0))
  {
    hide Created, AfterImage, MapBlock, RootMap, RootPlanned, FilePlanned, EntryPlaced, BlocksPlanned, At, WithEntry;
    hide ReadInode, NameIn;
    hide ValidSuperblock, WellFormed, EntriesUpTo, EntryReadable, NamesUnique, MappingHolds, InodeAt, OwnBlocksDistinct;
    var e := AfterImage(d, p.tx);
    CreatedFile(sb, d, r, c, p);
    RootShape(r, c, p);
    RootFacts(sb, d, r, c);
    NewBlockAt(sb, d, r, c, p);
    forall m: nat | m < RootBlocks(r)
      ensures MapBlock(e, p.root, m) == MapBlock(d, r, m)
      ensures !(p.growth.InPlace? && m == p.growth.logical) ==> At(e, MapBlock(d, r, m)) == At(d, MapBlock(d, r, m))
    {
      RootMapping(sb, d, r, c, p, m);
      RootMapBelow(d, r, p, m);
      if !(p.growth.InPlace? && m == p.growth.logical) {
        RootBlockKept(sb, d, r, c, p, m);
      }
    }
    if p.growth.InPlace? {
      InPlaceBlock(d, r, c, p);
      BlockListing(d, r, c, p);
      ListingWithEntry(d, e, r, p.root, p.growth.logical, RootBlocks(r), NewEntry(p.number, c, 0));
    } else {
      SameEntriesOf(d, e, r, p.root, RootBlocks(r));
      RootMapping(sb, d, r, c, p, RootBlocks(r));
      RootMapAtEnd(d, r, p);
      AppendedListing(d, e, r, c, p);
    }
  }

  lemma RootMapBelow(d: Image, r: Inode, p: NewPlan, m: nat)
    requires m < RootBlocks(r)
    ensures RootMap(d, r, p, m) == MapBlock(d, r, m)
  {}

  lemma RootMapAtEnd(d: Image, r: Inode, p: NewPlan)
    ensures !p.growth.InPlace? ==> RootMap(d, r, p, RootBlocks(r)) == p.dirBlock
  {}

  lemma InPlaceBlock(d: Image, r: Inode, c: Creation, p: NewPlan)
    requires EntryPlaced(d, r, c, p) && p.growth.InPlace?
    ensures p.growth.logical < RootBlocks(r) && p.dirBlock == MapBlock(d, r, p.growth.logical)
  {
    hide Parse, MapBlock, At;
  }

  lemma RootBlockKept(sb: Superblock, d: Image, r: Inode, c: Creation, p: NewPlan, m: nat)
    requires Creatable(sb, d, r, c) && Created(sb, d, r, c, p) && OwnBlocksDistinct(d, r) && m < RootBlocks(r)
    requires !(p.growth.InPlace? && m == p.growth.logical)
    ensures At(AfterImage(d, p.tx), MapBlock(d, r, m)) == At(d, MapBlock(d, r, m))
  {
    hide Creatable, Created, AfterImage, MapBlock, EntryPlaced, BlocksPlanned, At, MappingHolds, InodeAt, DataBlock;
    hide FilePlanned, RootPlanned;
    CreatedFile(sb, d, r, c, p);
    RootFacts(sb, d, r, c);
    MappedBlocks(sb, d, r, m);
    if p.growth.InPlace? {
      InPlaceBlock(d, r, c, p);
    }
    BlockKept(sb, d, r, c, p, MapBlock(d, r, m));
  }

  lemma AppendedListing(d: Image, e: Image, r: Inode, c: Creation, p: NewPlan)
    requires EntryPlaced(d, r, c, p) && !p.growth.InPlace? && RootPlanned(r, c, p)
    requires EntriesUpTo(e, p.root, RootBlocks(r)) == EntriesUpTo(d, r, RootBlocks(r)) && DirEntries(d, r).Some?
    requires RootBlocks(r) == RequiredBlocks(r.size)
    requires MapBlock(e, p.root, RootBlocks(r)) == p.dirBlock && At(e, p.dirBlock) == p.dirAfter
    ensures DirEntries(e, p.root).Some? && WithEntry(DirEntries(d, r).value, DirEntries(e, p.root).value, NewEntry(p.number, c, 0))
  {
    hide Parse, MapBlock, At, ValidEntry;
    RootShape(r, c, p);
    var x := NewEntry(p.number, c, BLOCK_SIZE);
    assert RequiredBlocks(p.root.size) == RootBlocks(r) + 1;
    assert [x][1..] == [];
    assert Listed(Active([x])) == [NewEntry(p.number, c, 0)];
    var was := DirEntries(d, r).value;
    assert was[..|was|] == was && was[|was|..] == [];
    assert DirEntries(e, p.root).value == was[..|was|] + [NewEntry(p.number, c, 0)] + was[|was|..];
  }
}
