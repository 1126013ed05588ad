/** Rewriting one block of a regular file in place, as a ledger append does: the image stays healthy and
    nothing but that block of that file changes. */
module BlockRewrite {
  import opened Bytes
  import opened Errors
  import opened OndiskFormat
  import opened Journal
  import opened JournalProtocol
  import opened ImageView
  import opened ImageEdit
  import opened Bitmap
  import opened FileHealth
  import opened Health

  function Rewritten(d: Image, b: nat, v: Block): Image {
    Overlay(d, Single(b, v))
  }

  /** Block `b` is block `l` of the regular file `n`. */
  ghost predicate BlockOfFile(sb: Superblock, d: Image, n: nat, l: nat, b: nat) {
    && InodeUsed(sb, d, n) && !IsDirectory(FileAt(sb, d, n).mode)
    && l < RequiredBlocks(FileAt(sb, d, n).size) && MapBlock(d, FileAt(sb, d, n), l) == b
  }

  lemma RewrittenAt(d: Image, b: nat, v: Block, k: nat)
    requires k < |d|
    ensures |Rewritten(d, b, v)| == |d| && At(Rewritten(d, b, v), k) == if k == b then v else At(d, k)
  {}

  lemma BlockIsData(sb: Superblock, d: Image, n: nat, l: nat, b: nat)
    requires SpaceHealthy(sb, d) && BlockOfFile(sb, d, n, l, b)
    ensures DataBlock(sb, d, b) && b < |d|
  {
    hide BitmapsWellFormed, OwnedBySome, OwnBlocksDistinct, InodeAt, MappingHolds, DataBlock, ValidSuperblock, MapBlock;
    hide InodeUsed;
    ReadInodeIsSmall(sb, d, n);
    MappedBlocks(sb, d, FileAt(sb, d, n), l);
    DataIsInside(sb, d, b);
  }

  lemma DataIsInside(sb: Superblock, d: Image, b: nat)
    requires DataBlock(sb, d, b)
    ensures sb.data.start <= b < sb.totalBlocks
  {}

  lemma MetadataStays(sb: Superblock, d: Image, b: nat, v: Block)
    requires ValidSuperblock(sb) && |d| == sb.totalBlocks && sb.data.start <= b < sb.totalBlocks
    ensures SameMetadata(sb, d, Rewritten(d, b, v))
  {
    hide ValidSuperblock, Rewritten, At;
    RegionsDisjoint(sb);
    forall k: nat | k < |d|
      ensures k != b ==> At(Rewritten(d, b, v), k) == At(d, k)
    {
      RewrittenAt(d, b, v, k);
    }
    RewrittenAt(d, b, v, b);
  }

  /** The rewritten block is no file's indirect block, and belongs to no other file. */
  lemma BlockIsApart(sb: Superblock, d: Image, n: nat, l: nat, b: nat, k: nat)
    requires SpaceHealthy(sb, d) && BlockOfFile(sb, d, n, l, b) && InodeUsed(sb, d, k)
    ensures FileAt(sb, d, k).indirect != 0 ==> FileAt(sb, d, k).indirect != b
    ensures k != n ==> b !in Owned(d, FileAt(sb, d, k))
  {
    hide BitmapsWellFormed, OwnedBySome, InodeAt, MappingHolds, DataBlock, ValidSuperblock, MapBlock, ReadInode, FileAt;
    hide InodeUsed;
    assert b in Owned(d, FileAt(sb, d, n));
    assert FileAt(sb, d, k).indirect != 0 ==> FileAt(sb, d, k).indirect in Owned(d, FileAt(sb, d, k));
  }

  lemma MappingStays(d: Image, b: nat, v: Block, i: Inode, l: nat)
    requires i.indirect != 0 ==> i.indirect != b && i.indirect < |d|
    ensures MapBlock(Rewritten(d, b, v), i, l) == MapBlock(d, i, l)
    ensures i.indirect != 0 ==> At(Rewritten(d, b, v), i.indirect) == At(d, i.indirect)
  {
    hide Rewritten, At, Pointers;
    if i.indirect != 0 {
      RewrittenAt(d, b, v, i.indirect);
    }
  }

  /** Every file keeps its inode and its blocks; every other file keeps its contents. */
  lemma FilesStay(sb: Superblock, d: Image, n: nat, l: nat, b: nat, v: Block, k: nat)
    requires SpaceHealthy(sb, d) && BlockOfFile(sb, d, n, l, b) && InodeUsed(sb, d, k)
    ensures var e, i := Rewritten(d, b, v), FileAt(sb, d, k);
      && InodeUsed(sb, e, k) && FileAt(sb, e, k) == i && ReadInode(sb, e, k) == Success(i)
      && Owned(e, i) == Owned(d, i) && OwnBlocksDistinct(e, i)
      && (forall m: nat :: MapBlock(e, i, m) == MapBlock(d, i, m))
      && (k != n ==> Contents(e, i) == Contents(d, i))
      && NodeOf(e, i) == NodeOf(d, i) && (IsDirectory(i.mode) ==> DirEntries(e, i) == DirEntries(d, i))
  {
    hide BitmapsWellFormed, OwnedBySome, InodeAt, DataBlock, ValidSuperblock, MapBlock, Rewritten, At, Owned, MappingHolds;
    hide Contents;
    hide DirEntries, OwnBlocksDistinct, InodeUsed, BlockOfFile;
    var e, i := Rewritten(d, b, v), FileAt(sb, d, k);
    ValidOf(sb, d);
    BlockIsData(sb, d, n, l, b);
    DataIsInside(sb, d, b);
    MetadataStays(sb, d, b, v);
    SameBitmaps(sb, d, e);
    UsedIsNumber(sb, d, k);
    ReadInodeIsSmall(sb, d, k);
    BlockIsApart(sb, d, n, l, b, k);
    if i.indirect != 0 {
      IndirectIsData(sb, d, i);
      DataIsInside(sb, d, i.indirect);
    }
    forall m: nat
      ensures MapBlock(e, i, m) == MapBlock(d, i, m)
    {
      MappingStays(d, b, v, i, m);
    }
    MappingStays(d, b, v, i, 0);
    forall x | x in Owned(d, i)
      ensures DataBlock(sb, e, x) && (k != n ==> At(e, x) == At(d, x))
    {
      OwnedAreData(sb, d, i, x);
      DataIsInside(sb, d, x);
      RewrittenAt(d, b, v, x);
    }
    SameMapping(sb, d, e, i);
    SameOwned(d, e, i);
    SameDistinct(d, e, i);
    if k != n {
      SameContents(d, e, i);
      SameNode(d, e, i);
    } else {
      NotADirectory(sb, d, n, l, b);
    }
  }

  lemma NotADirectory(sb: Superblock, d: Image, n: nat, l: nat, b: nat)
    requires BlockOfFile(sb, d, n, l, b)
    ensures !IsDirectory(FileAt(sb, d, n).mode)
  {}

  lemma UsedIsNumber(sb: Superblock, d: Image, k: nat)
    requires InodeUsed(sb, d, k)
    ensures 1 <= k <= sb.totalInodes
  {}

  lemma SameOwned(d: Image, e: Image, i: Inode)
    requires forall m: nat :: MapBlock(e, i, m) == MapBlock(d, i, m)
    ensures Owned(e, i) == Owned(d, i)
  {
    hide MapBlock;
  }

  lemma SpaceStaysHealthy(sb: Superblock, d: Image, n: nat, l: nat, b: nat, v: Block)
    requires SpaceHealthy(sb, d) && BlockOfFile(sb, d, n, l, b)
    ensures SpaceHealthy(sb, Rewritten(d, b, v))
    ensures forall k :: InodeUsed(sb, Rewritten(d, b, v), k) <==> InodeUsed(sb, d, k)
  {
    hide WellFormed, InodeAt, DataBlock, ValidSuperblock, MapBlock, Rewritten, At, Owned, ReadInode, Contents, NodeOf;
    hide RegionBytes;
    hide DirEntries, OwnBlocksDistinct, InodeUsed, BlockOfFile, SameMetadata, FileAt;
    var e := Rewritten(d, b, v);
    ValidOf(sb, d);
    BlockIsData(sb, d, n, l, b);
    DataIsInside(sb, d, b);
    MetadataStays(sb, d, b, v);
    SameBitmaps(sb, d, e);
    RewrittenAt(d, b, v, b);
    forall k | InodeUsed(sb, d, k)
      ensures FileAt(sb, e, k) == FileAt(sb, d, k) && ReadInode(sb, e, k) == Success(FileAt(sb, d, k))
      ensures Owned(e, FileAt(sb, d, k)) == Owned(d, FileAt(sb, d, k)) && OwnBlocksDistinct(e, FileAt(sb, d, k))
    {
      FilesStay(sb, d, n, l, b, v, k);
    }
  }

  /** Health and the whole namespace survive the rewrite. */
  lemma RewriteKeepsHealth(sb: Superblock, d: Image, n: nat, l: nat, b: nat, v: Block)
    requires Healthy(sb, d) && BlockOfFile(sb, d, n, l, b)
    ensures Healthy(sb, Rewritten(d, b, v)) && NamespaceOf(sb, Rewritten(d, b, v)) == NamespaceOf(sb, d)
  {
    hide SpaceHealthy, TreeHealthy, FileAt, DirEntries, NodeOf, InodeUsed, BlockOfFile, Rewritten, ReadInode, Owned, MapBlock;
    hide Contents;
    var e := Rewritten(d, b, v);
    SpaceStaysHealthy(sb, d, n, l, b, v);
    forall k | InodeUsed(sb, d, k)
      ensures FileAt(sb, e, k) == FileAt(sb, d, k) && NodeOf(e, FileAt(sb, d, k)) == NodeOf(d, FileAt(sb, d, k))
      ensures IsDirectory(FileAt(sb, d, k).mode) ==> DirEntries(e, FileAt(sb, d, k)) == DirEntries(d, FileAt(sb, d, k))
    {
      FilesStay(sb, d, n, l, b, v, k);
    }
    assert NamespaceOf(sb, e) == NamespaceOf(sb, d);
  }

  /** The rewritten file changes in that block only. */
  lemma RewriteChangesBlock(sb: Superblock, d: Image, n: nat, l: nat, b: nat, v: Block, m: nat)
    requires SpaceHealthy(sb, d) && BlockOfFile(sb, d, n, l, b) && m < RequiredBlocks(FileAt(sb, d, n).size)
    ensures var e, i := Rewritten(d, b, v), FileAt(sb, d, n);
      At(e, MapBlock(e, i, m)) == if m == l then v else At(d, MapBlock(d, i, m))
  {
    hide BitmapsWellFormed, OwnedBySome, InodeAt, DataBlock, ValidSuperblock, MapBlock, Rewritten, At, Owned, MappingHolds;
    hide Contents;
    hide DirEntries, InodeUsed, NodeOf;
    var e, i := Rewritten(d, b, v), FileAt(sb, d, n);
    FilesStay(sb, d, n, l, b, v, n);
    ReadInodeIsSmall(sb, d, n);
    MappedBlocks(sb, d, i, m);
    DataIsInside(sb, d, MapBlock(d, i, m));
    RewrittenAt(d, b, v, MapBlock(d, i, m));
    assert m != l ==> MapBlock(d, i, m) != MapBlock(d, i, l);
  }
}
