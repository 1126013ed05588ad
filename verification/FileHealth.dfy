/** File plans keep the image healthy, whether or not they commit. */
module FileHealth {
  import opened Bytes
  import opened Errors
  import opened OndiskFormat
  import opened Journal
  import opened JournalProtocol
  import opened Bitmap
  import opened ImageView
  import opened ImageEdit
  import opened FilePlan
  import opened Health

  /** The file owns what it kept and what was reserved for it. */
  lemma OwnedAfter(sb: Superblock, d: Image, n: nat, i: Inode, req: Request, p: Plan, b: nat)
    requires Accepts(sb, d, n, i, req) && Planned(sb, d, n, i, req, p)
    ensures b in Owned(AfterImage(d, p.tx), p.inode)
      <==> (b in Owned(d, i) && b !in ReleasedBlocks(d, i, req)) || b in p.reserved
  {
    hide Planned, Accepts, AfterImage, ReleasedBlocks, ChangesIndirect;
    var e := AfterImage(d, p.tx);
    if b in Owned(e, p.inode) {
      OwnedIsKeptOrReserved(sb, d, n, i, req, p, b);
    }
    if b in p.reserved {
      ReservedIsOwned(sb, d, n, i, req, p, b);
    }
    if b in Owned(d, i) && b !in ReleasedBlocks(d, i, req) {
      KeptIsOwned(sb, d, n, i, req, p, b);
    }
  }

  lemma OwnedIsKeptOrReserved(sb: Superblock, d: Image, n: nat, i: Inode, req: Request, p: Plan, b: nat)
    requires Accepts(sb, d, n, i, req) && Planned(sb, d, n, i, req, p)
    requires b in Owned(AfterImage(d, p.tx), p.inode)
    ensures (b in Owned(d, i) && b !in ReleasedBlocks(d, i, req)) || b in p.reserved
  {
    hide Accepts, AfterImage, ReleasedBlocks, ChangesIndirect, SpacePlanned, Realizes, InodePlanned, MapBlock, Changed;
    hide AfterBlock;
    var e := AfterImage(d, p.tx);
    PlannedSize(i, req, p, d);
    if p.inode.indirect != 0 && b == p.inode.indirect {
      PlannedIndirectIsData(sb, d, n, i, req, p);
      if !ChangesIndirect(i, req) {
        KeptIndirectIsNotReleased(sb, d, n, i, req);
      }
    } else {
      var l: nat :| l < RequiredBlocks(p.inode.size) && b == MapBlock(e, p.inode, l);
      MappingAfter(sb, d, n, i, req, p, l);
      PlannedBlockIsData(sb, d, n, i, req, p, l);
      if !Changed(i, req, l) {
        UnchangedBlock(sb, d, n, i, req, l);
        KeptIsNotReleased(sb, d, n, i, req, l);
      }
    }
  }

  lemma ReservedIsOwned(sb: Superblock, d: Image, n: nat, i: Inode, req: Request, p: Plan, b: nat)
    requires Accepts(sb, d, n, i, req) && Planned(sb, d, n, i, req, p) && b in p.reserved
    ensures b in Owned(AfterImage(d, p.tx), p.inode)
  {
    hide Accepts, AfterImage, ReleasedBlocks, Realizes, InodePlanned, MapBlock, Changed, AfterBlock, TestBit, Free;
    hide ChangesIndirect;
    var e := AfterImage(d, p.tx);
    PlannedSize(i, req, p, d);
    if b in p.tx.ordered {
      var l: nat :| l < |p.mapping| && Changed(i, req, l) && p.mapping[l] == b;
      MappingAfter(sb, d, n, i, req, p, l);
      assert MapBlock(e, p.inode, l) as nat in Owned(e, p.inode);
    } else {
      NewIndirectAfter(sb, d, n, i, req, p);
    }
  }

  lemma KeptIsOwned(sb: Superblock, d: Image, n: nat, i: Inode, req: Request, p: Plan, b: nat)
    requires Accepts(sb, d, n, i, req) && Planned(sb, d, n, i, req, p)
    requires b in Owned(d, i) && b !in ReleasedBlocks(d, i, req)
    ensures b in Owned(AfterImage(d, p.tx), p.inode)
  {
    hide Accepts, AfterImage, SpacePlanned, Realizes, InodePlanned, MapBlock, AfterBlock, NewSize, ChangesIndirect, Changed;
    var e := AfterImage(d, p.tx);
    AcceptedRequest(sb, d, n, i, req);
    PlannedSize(i, req, p, d);
    PlannedPointers(i, req, p);
    if i.indirect != 0 && b == i.indirect {
      KeptIndirectIsNew(sb, d, n, i, req, p);
    } else {
      var l: nat :| l < RequiredBlocks(i.size) && b == MapBlock(d, i, l);
      assert req.mode != ReplaceAll && !Changed(i, req, l);
      OldBelowNew(i, req, l);
      MappingAfter(sb, d, n, i, req, p, l);
      assert MapBlock(e, p.inode, l) as nat in Owned(e, p.inode);
    }
  }

  lemma OldBelowNew(i: Inode, req: Request, l: nat)
    requires req.mode == WriteRange && l < RequiredBlocks(i.size)
    ensures l < RequiredBlocks(NewSize(i, req))
  {}

  /** An indirect block that is not released stays the file's indirect block. */
  lemma KeptIndirectIsNew(sb: Superblock, d: Image, n: nat, i: Inode, req: Request, p: Plan)
    requires Accepts(sb, d, n, i, req) && Planned(sb, d, n, i, req, p)
    requires i.indirect != 0 && i.indirect !in ReleasedBlocks(d, i, req)
    ensures p.inode.indirect == i.indirect
  {
    hide Accepts, SpacePlanned, Realizes, InodePlanned, MapBlock, AfterBlock, ChangesIndirect, Changed, MappingHolds, InodeAt;
    AcceptedInode(sb, d, n, i, req);
    PlannedSize(i, req, p, d);
    PlannedPointers(i, req, p);
    IndirectMeansLarge(sb, d, i);
    assert req.mode == WriteRange && !ChangesIndirect(i, req);
  }

  lemma IndirectMeansLarge(sb: Superblock, d: Image, i: Inode)
    requires MappingHolds(sb, d, i) && i.indirect != 0
    ensures RequiredBlocks(i.size) > DIRECT_BLOCKS
  {
    hide DataBlock, Pointers;
  }

  /** The new mapping is still free of duplicates. */
  lemma DistinctAfter(sb: Superblock, d: Image, n: nat, i: Inode, req: Request, p: Plan)
    requires Accepts(sb, d, n, i, req) && Planned(sb, d, n, i, req, p)
    ensures OwnBlocksDistinct(AfterImage(d, p.tx), p.inode)
  {
    hide Planned, Accepts, AfterImage, MapBlock;
    var e := AfterImage(d, p.tx);
    PlannedParts(sb, d, n, i, req, p);
    PlannedSize(i, req, p, d);
    forall l: nat | l < |p.mapping|
      ensures MapBlock(e, p.inode, l) == p.mapping[l]
      ensures p.inode.indirect != 0 ==> p.mapping[l] != p.inode.indirect
    {
      MappingAfter(sb, d, n, i, req, p, l);
      if p.inode.indirect != 0 {
        IndirectApart(sb, d, n, i, req, p, l);
      }
    }
    forall k: nat, l: nat | k < l < |p.mapping|
      ensures p.mapping[k] != p.mapping[l]
    {
      BlocksApart(sb, d, n, i, req, p, k, l);
    }
  }

  lemma BlocksApart(sb: Superblock, d: Image, n: nat, i: Inode, req: Request, p: Plan, k: nat, l: nat)
    requires Accepts(sb, d, n, i, req) && Planned(sb, d, n, i, req, p) && k < l < |p.mapping|
    ensures p.mapping[k] != p.mapping[l]
  {
    hide Accepts, AfterImage, SpacePlanned, Realizes, InodePlanned, MapBlock, AfterBlock, Changed;
    AcceptedRequest(sb, d, n, i, req);
    PlannedBlockIsData(sb, d, n, i, req, p, k);
    PlannedBlockIsData(sb, d, n, i, req, p, l);
    if !Changed(i, req, k) && !Changed(i, req, l) {
      UnchangedBlock(sb, d, n, i, req, k);
      UnchangedBlock(sb, d, n, i, req, l);
    }
  }

  lemma IndirectApart(sb: Superblock, d: Image, n: nat, i: Inode, req: Request, p: Plan, l: nat)
    requires Accepts(sb, d, n, i, req) && Planned(sb, d, n, i, req, p) && l < |p.mapping| && p.inode.indirect != 0
    ensures p.mapping[l] != p.inode.indirect
  {
    hide Accepts, AfterImage, Realizes, InodePlanned, MapBlock, AfterBlock, Changed, TestBit, Free, ReleasedBlocks;
    hide ChangesIndirect;
    AcceptedRequest(sb, d, n, i, req);
    PlannedSize(i, req, p, d);
    PlannedIndirectIsData(sb, d, n, i, req, p);
    PlannedBlockIsData(sb, d, n, i, req, p, l);
    if !Changed(i, req, l) {
      UnchangedBlock(sb, d, n, i, req, l);
    }
  }

  // ---- Health after the plan ----

  lemma BitmapsStayWellFormed(sb: Superblock, d: Image, n: nat, i: Inode, req: Request, p: Plan)
    requires Accepts(sb, d, n, i, req) && Planned(sb, d, n, i, req, p) && BitmapsWellFormed(sb, d)
    ensures BitmapsWellFormed(sb, AfterImage(d, p.tx))
  {
    hide Accepts, AfterImage, Realizes, InodePlanned, DataPlanned, TestBit, Free, ReleasedBlocks, ChangesIndirect, RegionBytes;
    BitmapsOfPlan(sb, d, n, i, req, p);
    var was := RegionBytes(d, sb.blockBitmap);
    forall k: nat | TestBit(was, k) && !(sb.data.start <= k < sb.totalBlocks)
      ensures TestBit(p.bitmap, k)
    {
      if k in ReleasedBlocks(d, i, req) {
        ReleasedWereUsed(sb, d, n, i, req, k);
      }
    }
  }

  /** What each allocated inode owns and maps after the plan. */
  lemma FilesAfter(sb: Superblock, d: Image, n: nat, i: Inode, req: Request, p: Plan, k: nat)
    requires SpaceHealthy(sb, d) && Accepts(sb, d, n, i, req) && Planned(sb, d, n, i, req, p) && InodeUsed(sb, d, k)
    ensures var e := AfterImage(d, p.tx);
      && FileAt(sb, d, n) == i && FileAt(sb, e, k) == (if k == n then p.inode else FileAt(sb, d, k))
      && ReadInode(sb, e, k) == Success(FileAt(sb, e, k)) && OwnBlocksDistinct(e, FileAt(sb, e, k))
      && (k != n ==> Owned(e, FileAt(sb, e, k)) == Owned(d, FileAt(sb, d, k)))
      && NodeOf(e, FileAt(sb, e, k)) == NodeOf(d, FileAt(sb, d, k))
      && (IsDirectory(FileAt(sb, e, k).mode) ==> DirEntries(e, FileAt(sb, e, k)) == DirEntries(d, FileAt(sb, d, k)))
  {
    hide Accepts, AfterImage, Planned, InodeAt, Owned, Contents, DirEntries, MapBlock, At, ReadInode, BitmapsWellFormed;
    hide OwnedBySome;
    hide DataBlock, ValidSuperblock, OwnBlocksDistinct;
    var e := AfterImage(d, p.tx);
    AcceptedInode(sb, d, n, i, req);
    InodesOfPlan(sb, d, n, i, req, p, k);
    if k == n {
      PlanWritesFile(sb, d, n, i, req, p);
      DistinctAfter(sb, d, n, i, req, p);
      StillRegular(sb, d, n, i, req, p);
      PlannedParts(sb, d, n, i, req, p);
      PlannedPointers(i, req, p);
      WasRegular(sb, d, n, i, req);
    } else {
      PlanKeepsOtherFiles(sb, d, n, i, req, p, k);
      SameNode(d, e, FileAt(sb, d, k));
      SameDistinct(d, e, FileAt(sb, d, k));
    }
  }

  lemma WasRegular(sb: Superblock, d: Image, n: nat, i: Inode, req: Request)
    requires Accepts(sb, d, n, i, req)
    ensures !IsDirectory(i.mode)
  {
    hide ReadInode, WellFormed, OwnBlocksDistinct, ValidSuperblock;
  }

  lemma SameDistinct(d: Image, e: Image, i: Inode)
    requires OwnBlocksDistinct(d, i) && forall l: nat :: MapBlock(e, i, l) == MapBlock(d, i, l)
    ensures OwnBlocksDistinct(e, i)
  {
    hide MapBlock;
  }

  /** Every allocated block still has an owner. */
  lemma OwnersAfter(sb: Superblock, d: Image, n: nat, i: Inode, req: Request, p: Plan, b: nat)
    requires SpaceHealthy(sb, d) && Accepts(sb, d, n, i, req) && Planned(sb, d, n, i, req, p)
    requires DataBlock(sb, AfterImage(d, p.tx), b)
    ensures OwnedBySome(sb, AfterImage(d, p.tx), b)
  {
    hide Accepts, AfterImage, Planned, InodeAt, Owned, FileAt, ReadInode, BitmapsWellFormed, FilesHealthy, ReleasedBlocks;
    hide ValidSuperblock, RegionBytes, TestBit;
    var e := AfterImage(d, p.tx);
    AcceptedInode(sb, d, n, i, req);
    BitmapsOfPlan(sb, d, n, i, req, p);
    UsedAfter(sb, d, n, i, req, p, b);
    OwnedAfter(sb, d, n, i, req, p, b);
    FilesAfter(sb, d, n, i, req, p, n);
    if b !in p.reserved {
      assert DataBlock(sb, d, b);
      var k :| 1 <= k <= sb.totalInodes && InodeUsed(sb, d, k) && b in Owned(d, FileAt(sb, d, k));
      FilesAfter(sb, d, n, i, req, p, k);
      assert InodeUsed(sb, e, k) && b in Owned(e, FileAt(sb, e, k));
    } else {
      assert InodeUsed(sb, e, n) && b in Owned(e, FileAt(sb, e, n));
    }
  }

  /** No two files share a block after the plan. */
  lemma ApartAfter(sb: Superblock, d: Image, n: nat, i: Inode, req: Request, p: Plan, k: nat)
    requires SpaceHealthy(sb, d) && Accepts(sb, d, n, i, req) && Planned(sb, d, n, i, req, p)
    requires InodeUsed(sb, d, k) && k != n
    ensures Owned(AfterImage(d, p.tx), p.inode) !! Owned(d, FileAt(sb, d, k))
  {
    hide Accepts, AfterImage, Planned, InodeAt, Owned, FileAt, BitmapsWellFormed, OwnedBySome, ReleasedBlocks;
    hide ValidSuperblock, DataBlock;
    var j := FileAt(sb, d, k);
    AcceptedInode(sb, d, n, i, req);
    FilesAfter(sb, d, n, i, req, p, n);
    ReadInodeIsSmall(sb, d, k);
    forall b | b in Owned(d, j)
      ensures b !in Owned(AfterImage(d, p.tx), p.inode)
    {
      OwnedAfter(sb, d, n, i, req, p, b);
      OwnedAreData(sb, d, j, b);
      DataBlockKept(sb, d, n, i, req, p, b);
    }
  }

  lemma SpaceHealthAfter(sb: Superblock, d: Image, n: nat, i: Inode, req: Request, p: Plan)
    requires SpaceHealthy(sb, d) && Accepts(sb, d, n, i, req) && Planned(sb, d, n, i, req, p)
    ensures SpaceHealthy(sb, AfterImage(d, p.tx))
  {
    hide Accepts, Planned, InodeAt, Owned, FileAt, ReadInode, BitmapsWellFormed, OwnedBySome, ReleasedBlocks, ValidSuperblock;
    hide DataBlock;
    hide OwnBlocksDistinct, NodeOf, DirEntries, RegionBytes, TestBit;
    var e := AfterImage(d, p.tx);
    ValidOf(sb, d);
    BitmapsStayWellFormed(sb, d, n, i, req, p);
    BitmapsOfPlan(sb, d, n, i, req, p);
    AcceptedInode(sb, d, n, i, req);
    forall k | InodeUsed(sb, e, k)
      ensures InodeUsed(sb, d, k)
      ensures ReadInode(sb, e, k) == Success(FileAt(sb, e, k)) && OwnBlocksDistinct(e, FileAt(sb, e, k))
    {
      FilesAfter(sb, d, n, i, req, p, k);
    }
    forall j, k | InodeUsed(sb, e, j) && InodeUsed(sb, e, k) && j != k
      ensures Owned(e, FileAt(sb, e, j)) !! Owned(e, FileAt(sb, e, k))
    {
      FilesAfter(sb, d, n, i, req, p, j);
      FilesAfter(sb, d, n, i, req, p, k);
      if j == n {
        ApartAfter(sb, d, n, i, req, p, k);
      } else if k == n {
        ApartAfter(sb, d, n, i, req, p, j);
      }
    }
    forall b: nat | DataBlock(sb, e, b)
      ensures OwnedBySome(sb, e, b)
    {
      OwnersAfter(sb, d, n, i, req, p, b);
    }
  }

  /** A committed file plan leaves a healthy image with the same namespace. */
  lemma FilePlanKeepsHealth(sb: Superblock, d: Image, n: nat, i: Inode, req: Request, p: Plan)
    requires Healthy(sb, d) && Accepts(sb, d, n, i, req) && Planned(sb, d, n, i, req, p)
    ensures Healthy(sb, AfterImage(d, p.tx))
    ensures NamespaceOf(sb, AfterImage(d, p.tx)) == NamespaceOf(sb, d)
  {
    hide Accepts, AfterImage, Planned, SpaceHealthy, FileAt, NodeOf, DirEntries, TreeHealthy, ReadInode, RegionBytes, TestBit;
    var e := AfterImage(d, p.tx);
    SpaceHealthAfter(sb, d, n, i, req, p);
    BitmapsOfPlan(sb, d, n, i, req, p);
    forall k | InodeUsed(sb, e, k)
      ensures InodeUsed(sb, d, k) && NodeOf(e, FileAt(sb, e, k)) == NodeOf(d, FileAt(sb, d, k))
      ensures IsDirectory(FileAt(sb, e, k).mode) ==>
        IsDirectory(FileAt(sb, d, k).mode) && DirEntries(e, FileAt(sb, e, k)) == DirEntries(d, FileAt(sb, d, k))
    {
      FilesAfter(sb, d, n, i, req, p, k);
      NodeMode(d, FileAt(sb, d, k));
      NodeMode(e, FileAt(sb, e, k));
    }
    assert NamespaceOf(sb, e) == NamespaceOf(sb, d);
  }

  lemma NodeMode(d: Image, i: Inode)
    ensures NodeOf(d, i).isDirectory == IsDirectory(i.mode)
  {}

  lemma OrderedWasFree(sb: Superblock, d: Image, n: nat, i: Inode, req: Request, p: Plan, b: nat)
    requires Planned(sb, d, n, i, req, p) && b in p.tx.ordered
    ensures sb.data.start <= b < sb.totalBlocks && !DataBlock(sb, d, b)
  {
    hide Realizes, InodePlanned, DataPlanned, SpacePlanned, BlockUsed;
    OrderedIsReserved(sb, d, i, req, p, b);
    ReservedIsData(sb, d, i, req, p, b);
  }
}
