/** Which journaled blocks could be mistaken for a COMMIT block. Directory, indirect, inode table and
    ledger blocks never decode as one, and neither does the first block of a bitmap; only the further
    blocks of a bitmap, on images above 128 MiB or above 32768 inodes, have to be assumed not to. */
module PlainBlocks {
  import opened Bytes
  import opened Errors
  import opened JournalFormat
  import opened OndiskFormat
  import opened Journal
  import opened JournalProtocol
  import opened JournalStore
  import opened Bitmap
  import opened ImageView
  import opened ImageEdit
  import opened Directory
  import opened FilePlan
  import opened ObjectPlan
  import opened ObjectView
  import opened ObjectHealth
  import opened Health
  import opened RecordLayout
  import opened LedgerFormat
  import opened Ledger
  import opened LedgerImage
  import opened LedgerPlan
  import opened BlockRewrite
  import opened StoreOps
  import Crc32c

  // ---- One block ----

  lemma DirectoryIsPlain(b: Block)
    requires Parse(b).Some?
    ensures DecodeCommit(b) == None
  {
    hide DecodeCommit;
    CommitShape(b);
    LengthTooLarge(b);
  }

  lemma LengthTooLarge(b: Block)
    ensures b[4] == 74 && b[5] == 67 ==> DecodeEntry(b) == None
  {
    var length := b[4..6];
    assert LeNat(length) == length[0] + 256 * LeNat(length[1..]);
    assert LeNat(length[1..]) == length[1];
  }

  /** Pointer 2 of a COMMIT block would be block 1, which is not a data block. */
  lemma IndirectIsPlain(sb: Superblock, d: Image, i: Inode)
    requires ValidSuperblock(sb) && MappingHolds(sb, d, i) && i.indirect != 0
    ensures DecodeCommit(At(d, i.indirect)) == None
  {
    hide DecodeCommit, ValidSuperblock, At, Pointers, BlockUsed;
    RegionsDisjoint(sb);
    var b := At(d, i.indirect);
    CommitShape(b);
    SecondPointer(b);
  }

  lemma SecondPointer(b: Block)
    ensures Pointers(b)[2] == LeNat(b[8..12])
    ensures b[8..12] == [1, 0, 0, 0] ==> Pointers(b)[2] == 1
  {
    Widths();
    var n := POINTERS_PER_BLOCK;
    assert PointersOf(b, n)[2] == PointersOf(b[4..], n - 1)[1] == PointersOf(b[4..][4..], n - 2)[0];
    assert b[4..][4..][..4] == b[8..12];
    assert LeNat([0, 0, 0]) == 0;
  }

  /** The second byte of an inode record holds the file type. */
  lemma TableBlockIsPlain(b: Block, n: nat, inode: Inode)
    requires ValidInode(inode) && SlotOf(b, n) == EncodeInode(inode).value
    ensures DecodeCommit(b) == None
  {
    hide DecodeCommit, EncodeInode, ValidInode;
    TypeByte(inode);
    CommitShape(b);
    assert b[InodeOffset(n) + 1] == SlotOf(b, n)[1];
  }

  lemma TypeByte(inode: Inode)
    requires ValidInode(inode)
    ensures EncodeInode(inode).value[1] / 16 == 4 || EncodeInode(inode).value[1] / 16 == 8
  {
    hide EncodeInode, InodeValues, Encode, LeBytes;
    ModeFirst(inode);
    ModeByte(inode.mode);
    assert EncodeInode(inode).value[..4][1] == LeBytes(inode.mode, 4)[1];
  }

  lemma ModeFirst(inode: Inode)
    requires ValidInode(inode)
    ensures EncodeInode(inode).value[..4] == LeBytes(inode.mode, 4)
  {
    hide EncodeField, Crc32c.Checksum, LeBytes, PointersBytes;
    InodeLayoutSize();
    var v := InodeValues(inode);
    assert EncodeFields(INODE_HEAD, v.head)[..4] == EncodeField(INODE_HEAD[0], v.head[0]);
    ModeField(inode.mode);
  }

  lemma ModeField(mode: u32)
    ensures FieldFits(INODE_HEAD[0], Num(mode)) && EncodeField(INODE_HEAD[0], Num(mode)) == LeBytes(mode, 4)
  {
    Widths();
  }

  lemma ModeByte(mode: u32)
    requires IsRegular(mode) || IsDirectory(mode)
    ensures LeBytes(mode, 4)[1] / 16 == 4 || LeBytes(mode, 4)[1] / 16 == 8
  {
    hide IsRegular, IsDirectory;
    assert LeBytes(mode, 4)[1] == LeBytes(mode / 256, 3)[0] == mode / 256 % 256;
    TypeBits(mode);
  }

  lemma TypeBits(mode: u32)
    ensures IsRegular(mode) == (mode / 256 % 256 / 16 == 8) && IsDirectory(mode) == (mode / 256 % 256 / 16 == 4)
  {
    var x := mode / 256;
    assert mode / 0x1000 == x / 16;
    assert x == 256 * (x / 256) + x % 256;
    assert x / 16 == 16 * (x / 256) + x % 256 / 16;
  }

  lemma LedgerBlockIsPlain(b: Block, sequence: nat)
    requires DecodeSlot(b[..RECORD_SIZE], sequence).Used?
    ensures DecodeCommit(b) == None
  {
    hide DecodeCommit, DecodeSlot, RecordBytes;
    var slot := b[..RECORD_SIZE];
    RecordCanonical(slot, sequence);
    MagicThird(DecodeSlot(slot, sequence).record);
    assert b[2] == slot[2];
    CommitShape(b);
  }

  lemma MagicThird(r: LedgerRecord)
    ensures RecordBytes(r)[2] == 76
  {
    hide RecordBytes, RecordValues;
    HeadFirst(r);
    MagicField(RecordValues(r).head[0]);
    assert RecordBytes(r)[..4][2] == 76;
  }

  /** Bit 1 of a COMMIT block is clear. */
  lemma BitmapIsPlain(bits: seq<byte>, b: Block)
    requires |bits| >= BLOCK_SIZE && b == BlockOf(bits, 0) && TestBit(bits, 1)
    ensures DecodeCommit(b) == None
  {
    hide DecodeCommit;
    assert !ByteBit(69, 1);
    assert b[0] == bits[0];
    CommitShape(b);
  }

  // ---- The blocks of an operation ----

  /** The bitmap blocks beyond the first of each bitmap do not decode as COMMIT blocks. */
  predicate BitmapsPlain(sb: Superblock, m: Writes) {
    forall b :: b in m && FurtherBitmap(sb, b) ==> DecodeCommit(m[b]) == None
  }

  predicate FurtherBitmap(sb: Superblock, b: nat) {
    (InRegion(b, sb.inodeBitmap) && b != sb.inodeBitmap.start) || (InRegion(b, sb.blockBitmap) && b != sb.blockBitmap.start)
  }

  /** Nothing has to be assumed of an image of at most 32768 blocks and inodes. */
  lemma SmallImagesArePlain(sb: Superblock, m: Writes)
    requires ValidSuperblock(sb) && sb.totalBlocks <= BITS_PER_BLOCK && sb.totalInodes <= BITS_PER_BLOCK
    ensures BitmapsPlain(sb, m)
  {}

  ghost predicate BlocksArePlain(m: Writes) {
    forall b :: b in m ==> DecodeCommit(m[b]) == None
  }

  lemma EditIsPlain(sb: Superblock, d: Image, tx: Transaction, edit: Edit)
    requires Realizes(sb, d, tx, edit) && BitmapsPlain(sb, tx.metadata) && BlocksArePlain(edit.blocks)
    requires TestBit(edit.inodeBitmap, 1) && TestBit(edit.blockBitmap, 1)
    ensures PayloadsAreNotCommits(tx.metadata)
  {
    hide DecodeCommit, ValidSuperblock, TestBit, SlotsAre, RegionIs, MatchesImage, TakesRecord, BlockOf;
    forall b | b in tx.metadata
      ensures DecodeCommit(tx.metadata[b]) == None
    {
      if InRegion(b, sb.inodeTable) {
        TableIsPlain(sb, d, tx.metadata, edit.inodes, b);
      } else if b == sb.inodeBitmap.start && InRegion(b, sb.inodeBitmap) {
        StartIsPlain(d, sb.inodeBitmap, tx.metadata, edit.inodeBitmap);
      } else if b == sb.blockBitmap.start && InRegion(b, sb.blockBitmap) {
        StartIsPlain(d, sb.blockBitmap, tx.metadata, edit.blockBitmap);
      }
    }
  }

  lemma TableIsPlain(sb: Superblock, d: Image, m: Writes, inodes: map<nat, Inode>, b: nat)
    requires SlotsAre(sb, d, m, inodes) && TakesRecord(sb, inodes, b) && b in m
    ensures DecodeCommit(m[b]) == None
  {
    hide DecodeCommit, EncodeInode, SlotOf, InodeSlot, ValidInode;
    var k :| k in inodes && k > 0 && InodeTableBlock(sb, k) == b;
    assert SlotOf(Updated(d, m, b), k) == EncodeInode(inodes[k]).value;
    TableBlockIsPlain(m[b], k, inodes[k]);
  }

  lemma StartIsPlain(d: Image, r: Region, m: Writes, bits: seq<byte>)
    requires RegionIs(d, r, m, bits) && r.start in m && r.count > 0 && TestBit(bits, 1)
    ensures DecodeCommit(m[r.start]) == None
  {
    hide DecodeCommit, TestBit, BlockOf;
    assert Updated(d, m, r.start + 0) == BlockOf(bits, 0);
    BitmapIsPlain(bits, m[r.start]);
  }

  /** On the image after a change, bit 1 of both bitmaps is set: block 1 and the ledger's inode. */
  lemma SecondBits(sb: Superblock, d: Image, rs: seq<LedgerRecord>)
    requires Healthy(sb, d) && LedgerOn(sb, d, rs)
    ensures TestBit(RegionBytes(d, sb.blockBitmap), 1) && TestBit(RegionBytes(d, sb.inodeBitmap), 1)
  {
    hide NamesHealthy, FilesHealthy, ValidSuperblock, TestBit, RegionBytes, LedgerIs, LookupRoot, FileAt, ReadInode, InodeAt;
    LedgerIsUsed(sb, d) by { hide Healthy; }
    RegionsDisjoint(sb);
  }

  lemma FilePlanIsPlain(sb: Superblock, d: Image, n: nat, i: Inode, req: Request, p: Plan)
    requires Accepts(sb, d, n, i, req) && Planned(sb, d, n, i, req, p)
    ensures BlocksArePlain(EditOf(sb, d, n, i, req, p).blocks)
  {
    hide Accepts, Planned, DecodeCommit, AfterImage, At, MappingHolds, InodeAt, IndirectBlock, ValidSuperblock, InodeUsed;
    hide ChangesIndirect, Contents, Written;
    if ChangesIndirect(i, req) {
      var e := AfterImage(d, p.tx);
      AcceptedRequest(sb, d, n, i, req);
      PlanWritesFile(sb, d, n, i, req, p);
      NewIndirectAfter(sb, d, n, i, req, p);
      IndirectIsPlain(sb, e, p.inode);
    }
  }

  lemma CreationIsPlain(sb: Superblock, d: Image, r: Inode, c: Creation, p: NewPlan)
    requires SpaceHealthy(sb, d) && Creatable(sb, d, r, c) && Created(sb, d, r, c, p)
    ensures BlocksArePlain(EditOfNew(sb, d, r, p).blocks)
  {
    hide Creatable, Created, SpaceHealthy, DecodeCommit, AfterImage, At, MappingHolds, InodeAt, ValidSuperblock, InodeUsed;
    hide BlockImages, Contents, DirEntries;
    hide BlocksPlanned, JournaledBlocks, GrownIndirect, IndirectBlock, FilePlanned, RootPlanned, EntryPlaced, BlockUsed;
    var e := AfterImage(d, p.tx);
    RootFacts(sb, d, r, c);
    CreationCreates(sb, d, r, c, p);
    CreatedFile(sb, d, r, c, p);
    NewBlockAt(sb, d, r, c, p);
    DirectoryBlockIsData(sb, d, r, c, p);
    forall b | b in BlockImages(d, r, p)
      ensures DecodeCommit(BlockImages(d, r, p)[b]) == None
    {
      ImagesOfNew(sb, d, r, p, b);
      if b == p.dirBlock {
        EntryParses(sb, d, r, c, p);
        DirectoryIsPlain(p.dirAfter);
      } else {
        JournaledIs(p, b);
        if p.growth == GrowIndirect && b == p.root.indirect {
          IndirectIsPlain(sb, e, p.root);
        } else {
          IndirectIsPlain(sb, e, p.file);
        }
      }
    }
  }

  lemma JournaledIs(p: NewPlan, b: nat)
    requires b in JournaledBlocks(p) && b != p.dirBlock
    ensures (p.growth == GrowIndirect && b == p.root.indirect) || (p.file.indirect != 0 && b == p.file.indirect)
  {}

  lemma EntryParses(sb: Superblock, d: Image, r: Inode, c: Creation, p: NewPlan)
    requires Created(sb, d, r, c, p)
    ensures Parse(p.dirAfter).Some?
  {
    hide FilePlanned, RootPlanned, BlocksPlanned, BitmapsPlanned, FirstChosen, Realizes, Parse, ValidEntry, MapBlock;
  }

  lemma ChangeIsPlain(sb: Superblock, d: Image, change: Change, rs: seq<LedgerRecord>)
    requires Healthy(sb, d) && LedgerOn(sb, d, rs) && ChangePlanned(sb, d, change) && BitmapsPlain(sb, ChangeTx(change).metadata)
    ensures PayloadsAreNotCommits(ChangeTx(change).metadata)
  {
    hide Healthy, LedgerOn, Accepts, Creatable, BitmapsPlain, PayloadsAreNotCommits, BlocksArePlain, AfterImage, RegionBytes, TestBit;
    hide Realizes, SpaceHealthy;
    var e := AfterImage(d, ChangeTx(change));
    ChangeKeepsLedger(sb, d, change, rs);
    SecondBits(sb, e, rs);
    match change {
      case NoChange =>
        NothingIsPlain();
      case FileChange(n, i, req, p) =>
        FilePlanIsPlain(sb, d, n, i, req, p);
        BitmapsAfter(sb, d, p.tx, EditOf(sb, d, n, i, req, p));
        EditIsPlain(sb, d, p.tx, EditOf(sb, d, n, i, req, p));
      case NewObject(root, c, made) =>
        HealthyParts(sb, d);
        CreationIsPlain(sb, d, root, c, made);
        BitmapsAfter(sb, d, made.tx, EditOfNew(sb, d, root, made));
        EditIsPlain(sb, d, made.tx, EditOfNew(sb, d, root, made));
    }
  }

  lemma NothingIsPlain()
    ensures PayloadsAreNotCommits(map[])
  {}

  /** The block that takes a ledger record starts with a record. */
  lemma AppendIsPlain(sb: Superblock, d: Image, rs: seq<LedgerRecord>, p: AppendPlan)
    requires Healthy(sb, d) && LedgerOn(sb, d, rs) && AppendPlanned(sb, d, p)
    requires p.sequence == |rs| + 1 && !Known(rs, p.record.id)
    ensures DecodeCommit(p.after) == None
  {
    hide Healthy, LedgerOn, FileAt, At, MapBlock, DecodeCommit, Known, Rewritten, AppendPlanned, Contents, DecodeSlot, SlotsHold, IdsUnique;
    var e, i := Rewritten(d, p.physical, p.after), FileAt(sb, d, LEDGER_INODE);
    LedgerBlockAfter(sb, d, rs, p);
    var k := p.logical * RECORDS_PER_BLOCK;
    FirstOfBlock(p.sequence);
    SlotInBlock(e, i, p.logical, 0);
    UsedSlot(Contents(e, i), rs + [p.record], k);
    LedgerBlockIsPlain(p.after, k + 1);
  }

  lemma FirstOfBlock(sequence: nat)
    requires sequence > 0
    ensures LogicalOf(sequence) * RECORDS_PER_BLOCK < sequence
  {}

  lemma UsedSlot(b: seq<byte>, rs: seq<LedgerRecord>, k: nat)
    requires LedgerIs(b, rs) && k < |rs|
    ensures k < Capacity(b) && DecodeSlot(SlotAt(b, k), k + 1).Used?
  {
    hide DecodeSlot, IdsUnique;
  }

  lemma LedgerBlockAfter(sb: Superblock, d: Image, rs: seq<LedgerRecord>, p: AppendPlan)
    requires Healthy(sb, d) && LedgerOn(sb, d, rs) && AppendPlanned(sb, d, p)
    requires p.sequence == |rs| + 1 && !Known(rs, p.record.id)
    ensures var e, i := Rewritten(d, p.physical, p.after), FileAt(sb, d, LEDGER_INODE);
      && i.size % BLOCK_SIZE == 0 && p.logical < i.size / BLOCK_SIZE && p.logical == LogicalOf(p.sequence)
      && At(e, MapBlock(e, i, p.logical)) == p.after && LedgerIs(Contents(e, i), rs + [p.record])
  {
    hide Healthy, LookupRoot, FileAt, At, MapBlock, Known, LedgerIs, Rewritten, RecordBytes, BlockOfFile, SpaceHealthy, InodeUsed;
    hide DataBlock, ValidRecord, ZeroSlot, Splice, NamespaceOf, ListedAs, ReadInode, Owned, OwnBlocksDistinct, NodeOf, DirEntries;
    hide Contents;
    var e, i := Rewritten(d, p.physical, p.after), FileAt(sb, d, LEDGER_INODE);
    HealthyParts(sb, d);
    LedgerIsUsed(sb, d);
    AppendIsInLedger(sb, d, p);
    AppendOnImage(sb, d, rs, p);
    FilesStay(sb, d, LEDGER_INODE, p.logical, p.physical, p.after, LEDGER_INODE);
    RewriteChangesBlock(sb, d, LEDGER_INODE, p.logical, p.physical, p.after, p.logical) by {
      assert p.logical < RequiredBlocks(i.size);
    }
  }

  /** No block an operation journals decodes as a COMMIT block, as long as no further bitmap block does. */
  lemma OpIsPlain(sb: Superblock, d: Image, op: Op)
    requires Healthy(sb, d) && HasHistory(sb, d) && OpPlanned(sb, d, op) && BitmapsPlain(sb, ChangeTx(op.change).metadata)
    ensures PayloadsAreNotCommits(OpTx(op).metadata)
  {
    hide Healthy, HasHistory, History, ChangePlanned, AppendPlanned, DecodeCommit, BitmapsPlain, LedgerOn, Known, ChangeTx;
    var rs := History(sb, d);
    ChangeIsPlain(sb, d, op.change, rs);
    if op.append.Some? {
      AppendIsPlain(sb, d, rs, op.append.value);
    }
  }

  /** The plans for a creation, and for a change of a file, journal no bitmap block that decodes as a
      COMMIT block. Both kinds of plan have only one outcome for the bitmaps of an image. */
  ghost predicate PlainCreation(sb: Superblock, d: Image, root: Inode, c: Creation) {
    forall p: NewPlan :: Created(sb, d, root, c, p) ==> BitmapsPlain(sb, p.tx.metadata)
  }

  ghost predicate PlainChange(sb: Superblock, d: Image, n: nat, i: Inode, req: Request) {
    forall p: Plan :: Planned(sb, d, n, i, req, p) ==> BitmapsPlain(sb, p.tx.metadata)
  }
}
