/** What a transaction changes, in terms of what an image means: new data blocks, rewritten blocks of
    the data region, inode records and the two bitmaps. Every planner produces such an edit. */
module ImageEdit {
  import opened Bytes
  import opened OndiskFormat
  import opened Journal
  import opened JournalProtocol
  import opened JournalStore
  import opened ImageView

  /** `ordered` goes into place before the COMMIT; the rest is journaled. */
  datatype Edit = Edit(
    ordered: Writes, blocks: Writes, inodes: map<nat, Inode>, inodeBitmap: seq<byte>, blockBitmap: seq<byte>)

  /** Block `local` of a region buffer. */
  function BlockOf(bytes: seq<byte>, local: nat): (r: Block)
    requires (local + 1) * BLOCK_SIZE <= |bytes|
    ensures forall j :: 0 <= j < BLOCK_SIZE ==> r[j] == bytes[local * BLOCK_SIZE + j]
  {
    bytes[local * BLOCK_SIZE..(local + 1) * BLOCK_SIZE]
  }

  function Updated(d: Image, m: Writes, b: nat): Block {
    if b in m then m[b] else At(d, b)
  }

  /** The blocks of region `r`, as written or as they are, make up `bytes`. */
  predicate RegionIs(d: Image, r: Region, m: Writes, bytes: seq<byte>) {
    && |bytes| == r.count * BLOCK_SIZE
    && forall local: nat :: local < r.count ==> Updated(d, m, r.start + local) == BlockOf(bytes, local)
  }

  function SlotOf(b: Block, n: nat): InodeBytes {
    b[InodeOffset(n)..InodeOffset(n) + INODE_SIZE]
  }

  /** Inode records `inodes` are in their table slots, every other slot is as it was. */
  predicate SlotsAre(sb: Superblock, d: Image, m: Writes, inodes: map<nat, Inode>) {
    && (forall k :: k in inodes ==> 1 <= k <= sb.totalInodes && ValidInode(inodes[k]) && inodes[k].number == k)
    && forall k :: 1 <= k <= sb.totalInodes ==>
         SlotOf(Updated(d, m, InodeTableBlock(sb, k)), k)
         == if k in inodes then EncodeInode(inodes[k]).value else InodeSlot(sb, d, k)
  }

  /** Table block `b` takes one of the inode records. */
  predicate TakesRecord(sb: Superblock, inodes: map<nat, Inode>, b: nat) {
    exists k :: k in inodes && k > 0 && InodeTableBlock(sb, k) == b
  }

  predicate TargetsAre(sb: Superblock, tx: Transaction, edit: Edit) {
    && tx.ordered == edit.ordered
    && (forall b :: b in edit.ordered ==> InRegion(b, sb.data) && b !in edit.blocks)
    && (forall b :: b in edit.blocks ==> InRegion(b, sb.data) && b in tx.metadata && tx.metadata[b] == edit.blocks[b])
    && (forall b :: b in tx.metadata ==>
          b in edit.blocks || InRegion(b, sb.inodeBitmap) || InRegion(b, sb.blockBitmap) || InRegion(b, sb.inodeTable))
    && (forall b :: b in tx.metadata && InRegion(b, sb.inodeTable) ==> TakesRecord(sb, edit.inodes, b))
  }

  /** Of the bitmaps only blocks that change are written. */
  predicate OnlyChanged(sb: Superblock, d: Image, m: Writes) {
    forall b :: b in m && (InRegion(b, sb.inodeBitmap) || InRegion(b, sb.blockBitmap)) ==> m[b] != At(d, b)
  }

  /** The transaction carries out the edit, and its before-images are the image it was planned on. */
  predicate Realizes(sb: Superblock, d: Image, tx: Transaction, edit: Edit) {
    && ValidSuperblock(sb) && |d| == sb.totalBlocks
    && TargetsAre(sb, tx, edit) && OnlyChanged(sb, d, tx.metadata)
    && RegionIs(d, sb.inodeBitmap, tx.metadata, edit.inodeBitmap)
    && RegionIs(d, sb.blockBitmap, tx.metadata, edit.blockBitmap)
    && SlotsAre(sb, d, tx.metadata, edit.inodes)
    && tx.before.Keys == tx.ordered.Keys + tx.metadata.Keys && MatchesImage(d, tx.before)
  }

  /** The regions of a valid superblock are disjoint. */
  lemma RegionsDisjoint(sb: Superblock)
    requires ValidSuperblock(sb)
    ensures forall b: nat :: InRegion(b, sb.data) <==> sb.data.start <= b < sb.totalBlocks
    ensures forall b: nat :: InRegion(b, sb.blockBitmap) ==>
      b != 0 && b < sb.data.start && !InRegion(b, sb.inodeTable) && !InRegion(b, sb.journal) && !InRegion(b, sb.inodeBitmap)
    ensures forall b: nat :: InRegion(b, sb.inodeTable) ==>
      b != 0 && b < sb.data.start && !InRegion(b, sb.journal) && !InRegion(b, sb.inodeBitmap)
    ensures forall b: nat :: InRegion(b, sb.inodeBitmap) ==> b != 0 && b < sb.data.start && !InRegion(b, sb.journal)
    ensures sb.journal.start + sb.journal.count == sb.data.start < sb.totalBlocks
    ensures sb.data.start >= 2 && sb.totalBlocks <= 8 * BLOCK_SIZE * sb.blockBitmap.count
    ensures sb.totalInodes <= 8 * BLOCK_SIZE * sb.inodeBitmap.count
  {}

  lemma TableBlockInTable(sb: Superblock, n: nat)
    requires ValidSuperblock(sb) && 1 <= n <= sb.totalInodes
    ensures InRegion(InodeTableBlock(sb, n), sb.inodeTable)
  {}

  /** An edit passes every check the journal makes of a plan. */
  lemma EditIsCovered(sb: Superblock, d: Image, tx: Transaction, edit: Edit)
    requires Realizes(sb, d, tx, edit)
    ensures Covered(sb, tx) && MatchesImage(d, tx.before)
  {
    hide RegionIs, SlotsAre, MatchesImage, ValidSuperblock;
    RegionsDisjoint(sb);
  }

  // ---- Reading the image after an edit ----

  /** Each block of the after-image comes from one of three places. */
  lemma AfterImageAt(d: Image, tx: Transaction, b: nat)
    requires b < |d|
    ensures At(AfterImage(d, tx), b) == if b in tx.metadata then tx.metadata[b] else if b in tx.ordered then tx.ordered[b] else At(d, b)
  {}

  lemma DataAfter(sb: Superblock, d: Image, tx: Transaction, edit: Edit, b: nat)
    requires Realizes(sb, d, tx, edit) && InRegion(b, sb.data)
    ensures At(AfterImage(d, tx), b)
         == if b in edit.blocks then edit.blocks[b] else if b in edit.ordered then edit.ordered[b] else At(d, b)
  {
    hide RegionIs, SlotsAre, MatchesImage, ValidSuperblock, AfterImage;
    RegionsDisjoint(sb);
    AfterImageAt(d, tx, b);
  }

  lemma MetadataAfter(sb: Superblock, d: Image, tx: Transaction, edit: Edit, b: nat)
    requires Realizes(sb, d, tx, edit) && b < sb.data.start
    ensures At(AfterImage(d, tx), b) == Updated(d, tx.metadata, b)
  {
    hide RegionIs, SlotsAre, MatchesImage, ValidSuperblock, AfterImage;
    RegionsDisjoint(sb);
    AfterImageAt(d, tx, b);
  }

  lemma RegionAfter(sb: Superblock, d: Image, tx: Transaction, edit: Edit, r: Region, bytes: seq<byte>)
    requires Realizes(sb, d, tx, edit) && RegionIs(d, r, tx.metadata, bytes) && r.start + r.count <= sb.data.start
    ensures RegionBytes(AfterImage(d, tx), r) == bytes
  {
    hide Realizes, AfterImage, RegionBytes, At, Updated;
    var after := RegionBytes(AfterImage(d, tx), r);
    forall k | 0 <= k < |after|
      ensures after[k] == bytes[k]
    {
      var local := k / BLOCK_SIZE;
      MetadataAfter(sb, d, tx, edit, r.start + local);
      assert Updated(d, tx.metadata, r.start + local) == BlockOf(bytes, local);
      assert local * BLOCK_SIZE + k % BLOCK_SIZE == k;
    }
  }

  /** Both bitmaps read back as planned. */
  lemma BitmapsAfter(sb: Superblock, d: Image, tx: Transaction, edit: Edit)
    requires Realizes(sb, d, tx, edit)
    ensures RegionBytes(AfterImage(d, tx), sb.blockBitmap) == edit.blockBitmap
    ensures RegionBytes(AfterImage(d, tx), sb.inodeBitmap) == edit.inodeBitmap
  {
    hide TargetsAre, RegionIs, SlotsAre, MatchesImage, AfterImage, RegionBytes;
    RegionAfter(sb, d, tx, edit, sb.blockBitmap, edit.blockBitmap);
    RegionAfter(sb, d, tx, edit, sb.inodeBitmap, edit.inodeBitmap);
  }

  /** Changed inodes read back as planned, all others as before. */
  lemma InodesAfter(sb: Superblock, d: Image, tx: Transaction, edit: Edit, k: nat)
    requires Realizes(sb, d, tx, edit) && 1 <= k <= sb.totalInodes
    ensures InodeAt(sb, AfterImage(d, tx), k) == if k in edit.inodes then Some(edit.inodes[k]) else InodeAt(sb, d, k)
  {
    hide TargetsAre, RegionIs, MatchesImage, AfterImage, DecodeInode, EncodeInode, ValidSuperblock, Updated, At;
    RegionsDisjoint(sb);
    TableBlockInTable(sb, k);
    MetadataAfter(sb, d, tx, edit, InodeTableBlock(sb, k));
    if k in edit.inodes {
      InodeRoundTrip(edit.inodes[k]);
    }
  }
}
