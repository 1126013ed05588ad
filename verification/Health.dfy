/** What the offline checker calls a healthy image: blocks and inode references in bijection, and a
    namespace that is a tree with correct link counts (src/checker/consistency_checker.cpp). */
module Health {
  import opened Bytes
  import opened Errors
  import opened OndiskFormat
  import opened Journal
  import opened JournalProtocol
  import opened Bitmap
  import opened ImageView
  import opened ImageEdit
  import opened Directory

  const NO_INODE: Inode := Inode(0, 0, 0, 0, 0, 0, 0, 0, 0, 0, 0, [0, 0, 0, 0, 0, 0, 0, 0, 0, 0, 0, 0], 0)

  function FileAt(sb: Superblock, d: Image, n: nat): Inode {
    match InodeAt(sb, d, n)
    case Some(i) => i
    case None => NO_INODE
  }

  // ---- Space ----

  predicate OwnedBySome(sb: Superblock, d: Image, b: nat) {
    exists n :: 1 <= n <= sb.totalInodes && InodeUsed(sb, d, n) && b in Owned(d, FileAt(sb, d, n))
  }

  predicate BitmapsWellFormed(sb: Superblock, d: Image) {
    && WellFormed(RegionBytes(d, sb.blockBitmap), sb.totalBlocks, sb.data.start)
    && WellFormed(RegionBytes(d, sb.inodeBitmap), sb.totalInodes, 0)
  }

  /** Every allocated inode is readable and owns its blocks once; no two own the same block. */
  ghost predicate FilesHealthy(sb: Superblock, d: Image) {
    && (forall n :: InodeUsed(sb, d, n) ==>
          ReadInode(sb, d, n) == Success(FileAt(sb, d, n)) && OwnBlocksDistinct(d, FileAt(sb, d, n)))
    && (forall m, n :: InodeUsed(sb, d, m) && InodeUsed(sb, d, n) && m != n ==>
          Owned(d, FileAt(sb, d, m)) !! Owned(d, FileAt(sb, d, n)))
  }

  /** Allocated data blocks and inode block references are in bijection. */
  ghost predicate SpaceHealthy(sb: Superblock, d: Image) {
    && ValidSuperblock(sb) && |d| == sb.totalBlocks
    && BitmapsWellFormed(sb, d) && FilesHealthy(sb, d)
    && (forall b: nat :: DataBlock(sb, d, b) ==> OwnedBySome(sb, d, b))
  }

  // ---- Namespace ----

  /** One inode as the namespace sees it. */
  datatype Node = Node(isDirectory: bool, links: nat, entries: seq<Entry>)

  type Namespace = map<nat, Node>

  /** What the first `k` blocks of a directory list. */
  function EntriesUpTo(d: Image, i: Inode, k: nat): Option<seq<Entry>> {
    if k == 0 then Some([])
    else if EntriesUpTo(d, i, k - 1) == None || Parse(At(d, MapBlock(d, i, k - 1))) == None then None
    else Some(EntriesUpTo(d, i, k - 1).value + Listed(Active(Parse(At(d, MapBlock(d, i, k - 1))).value)))
  }

  function DirEntries(d: Image, i: Inode): Option<seq<Entry>> {
    EntriesUpTo(d, i, RequiredBlocks(i.size))
  }

  function NodeOf(d: Image, i: Inode): Node {
    Node(IsDirectory(i.mode), i.linkCount,
         if IsDirectory(i.mode) && DirEntries(d, i).Some? then DirEntries(d, i).value else [])
  }

  function NamespaceOf(sb: Superblock, d: Image): Namespace {
    map n | 1 <= n <= sb.totalInodes && InodeUsed(sb, d, n) :: NodeOf(d, FileAt(sb, d, n))
  }

  function ChildDirectories(entries: seq<Entry>): nat {
    if entries == [] then 0 else (if entries[0].kind == DIRECTORY then 1 else 0) + ChildDirectories(entries[1..])
  }

  predicate Refers(ns: Namespace, parent: nat, index: nat, child: nat) {
    parent in ns && index < |ns[parent].entries| && ns[parent].entries[index].inode == child
  }

  function KindOf(node: Node): byte {
    if node.isDirectory then DIRECTORY else REGULAR
  }

  predicate EntryHealthy(ns: Namespace, root: nat, e: Entry) {
    e.inode in ns && e.inode != root && e.kind == KindOf(ns[e.inode])
  }

  predicate NamesUnique(es: seq<Entry>) {
    forall j, k :: 0 <= j < k < |es| ==> es[j].name != es[k].name
  }

  /** Entries point at allocated inodes of the recorded kind, never at the root; names are unique. */
  predicate EntriesHealthy(ns: Namespace, root: nat, node: Node) {
    && (!node.isDirectory ==> node.entries == [])
    && (forall k :: 0 <= k < |node.entries| ==> EntryHealthy(ns, root, node.entries[k]))
    && NamesUnique(node.entries)
  }

  /** No inode has two directory entries. */
  ghost predicate SingleParents(ns: Namespace) {
    forall p, j, q, k, c :: Refers(ns, p, j, c) && Refers(ns, q, k, c) ==> p == q && j == k
  }

  /** A chain of directory entries from the root. */
  predicate Path(ns: Namespace, root: nat, path: seq<nat>) {
    && path != [] && path[0] == root
    && forall k :: 0 <= k < |path| - 1 ==> HasChild(ns, path[k], path[k + 1])
  }

  predicate HasChild(ns: Namespace, parent: nat, child: nat) {
    parent in ns && exists k :: 0 <= k < |ns[parent].entries| && ns[parent].entries[k].inode == child
  }

  ghost predicate Reachable(ns: Namespace, root: nat, n: nat) {
    exists path :: Path(ns, root, path) && path[|path| - 1] == n
  }

  /** A regular file has one link; a directory two and one for every child directory. */
  predicate LinksHealthy(node: Node) {
    node.links == if node.isDirectory then 2 + ChildDirectories(node.entries) else 1
  }

  ghost predicate TreeHealthy(ns: Namespace, root: nat) {
    && root in ns && ns[root].isDirectory
    && (forall n :: n in ns ==> EntriesHealthy(ns, root, ns[n]) && LinksHealthy(ns[n]) && Reachable(ns, root, n))
    && SingleParents(ns)
  }

  ghost predicate NamesHealthy(sb: Superblock, d: Image) {
    && (forall n :: InodeUsed(sb, d, n) && IsDirectory(FileAt(sb, d, n).mode) ==> DirEntries(d, FileAt(sb, d, n)).Some?)
    && TreeHealthy(NamespaceOf(sb, d), sb.rootInode)
  }

  ghost predicate Healthy(sb: Superblock, d: Image) {
    SpaceHealthy(sb, d) && NamesHealthy(sb, d)
  }

  // ---- Health depends only on metadata and allocated data blocks ----

  /** Same bitmaps, same inode table. */
  ghost predicate SameMetadata(sb: Superblock, d: Image, e: Image) {
    && |e| == |d|
    && (forall b: nat :: b < |d| && (InRegion(b, sb.inodeBitmap) || InRegion(b, sb.blockBitmap) || InRegion(b, sb.inodeTable))
          ==> At(e, b) == At(d, b))
  }

  /** Same bitmaps, same inode table, same allocated data blocks. */
  ghost predicate SameMeaning(sb: Superblock, d: Image, e: Image) {
    SameMetadata(sb, d, e) && forall b: nat :: DataBlock(sb, d, b) ==> At(e, b) == At(d, b)
  }

  lemma SameRegion(sb: Superblock, d: Image, e: Image, r: Region)
    requires forall b: nat :: InRegion(b, r) ==> At(e, b) == At(d, b)
    ensures RegionBytes(e, r) == RegionBytes(d, r)
  {
    hide At;
    var x, y := RegionBytes(e, r), RegionBytes(d, r);
    forall k | 0 <= k < |x|
      ensures x[k] == y[k]
    {
      assert InRegion(r.start + k / BLOCK_SIZE, r);
    }
  }

  lemma SameBitmaps(sb: Superblock, d: Image, e: Image)
    requires ValidSuperblock(sb) && |d| == sb.totalBlocks && SameMetadata(sb, d, e)
    ensures RegionBytes(e, sb.blockBitmap) == RegionBytes(d, sb.blockBitmap)
    ensures RegionBytes(e, sb.inodeBitmap) == RegionBytes(d, sb.inodeBitmap)
    ensures forall b: nat :: DataBlock(sb, e, b) <==> DataBlock(sb, d, b)
    ensures forall n :: InodeUsed(sb, e, n) <==> InodeUsed(sb, d, n)
    ensures forall n :: 1 <= n <= sb.totalInodes ==> InodeAt(sb, e, n) == InodeAt(sb, d, n)
  {
    hide At, ValidSuperblock, RegionBytes, TestBit, DecodeInode;
    RegionsDisjoint(sb);
    SameRegion(sb, d, e, sb.blockBitmap);
    SameRegion(sb, d, e, sb.inodeBitmap);
    forall n | 1 <= n <= sb.totalInodes
      ensures InodeAt(sb, e, n) == InodeAt(sb, d, n)
    {
      TableBlockInTable(sb, n);
    }
  }

  /** An allocated inode means the same in both images. */
  lemma SameInode(sb: Superblock, d: Image, e: Image, n: nat)
    requires SpaceHealthy(sb, d) && SameMeaning(sb, d, e) && InodeUsed(sb, d, n)
    ensures FileAt(sb, e, n) == FileAt(sb, d, n)
    ensures ReadInode(sb, e, n) == Success(FileAt(sb, d, n))
    ensures Owned(e, FileAt(sb, d, n)) == Owned(d, FileAt(sb, d, n))
    ensures forall l: nat :: MapBlock(e, FileAt(sb, d, n), l) == MapBlock(d, FileAt(sb, d, n), l)
    ensures Contents(e, FileAt(sb, d, n)) == Contents(d, FileAt(sb, d, n))
    ensures OwnBlocksDistinct(e, FileAt(sb, d, n))
  {
    hide At, ValidSuperblock, RegionBytes, TestBit, DecodeInode, MappingHolds, MapBlock, Contents, Owned, BitmapsWellFormed;
    hide DataBlock, InodeAt, SameMetadata;
    var i := FileAt(sb, d, n);
    SameBitmaps(sb, d, e);
    ReadInodeIsSmall(sb, d, n);
    forall b | b in Owned(d, i)
      ensures DataBlock(sb, e, b) && At(e, b) == At(d, b)
    {
      OwnedAreData(sb, d, i, b);
    }
    SameFile(sb, d, e, i);
  }

  lemma SpaceHealthFrame(sb: Superblock, d: Image, e: Image)
    requires SpaceHealthy(sb, d) && SameMeaning(sb, d, e)
    ensures SpaceHealthy(sb, e)
  {
    hide At, ValidSuperblock, RegionBytes, TestBit, MapBlock, Owned, DataBlock, InodeAt, ReadInode, SameMeaning, FileAt;
    hide InodeUsed;
    hide OwnBlocksDistinct, WellFormed;
    MeaningParts(sb, d, e);
    SameBitmaps(sb, d, e);
    forall n | InodeUsed(sb, d, n)
      ensures FileAt(sb, e, n) == FileAt(sb, d, n)
      ensures ReadInode(sb, e, n) == Success(FileAt(sb, e, n)) && OwnBlocksDistinct(e, FileAt(sb, e, n))
      ensures Owned(e, FileAt(sb, e, n)) == Owned(d, FileAt(sb, d, n))
    {
      SameInode(sb, d, e, n);
    }
  }

  lemma MeaningParts(sb: Superblock, d: Image, e: Image)
    requires SameMeaning(sb, d, e)
    ensures |e| == |d| && SameMetadata(sb, d, e)
  {
    hide At, DataBlock;
  }

  // ---- The namespace depends only on inodes and directory blocks ----

  lemma {:induction false} SameEntries(d: Image, e: Image, i: Inode, k: nat)
    requires k <= RequiredBlocks(i.size)
    requires forall l: nat :: l < k ==> MapBlock(e, i, l) == MapBlock(d, i, l) && At(e, MapBlock(d, i, l)) == At(d, MapBlock(d, i, l))
    ensures EntriesUpTo(e, i, k) == EntriesUpTo(d, i, k)
  {
    hide MapBlock, At, Parse;
    if k > 0 {
      SameEntries(d, e, i, k - 1);
      assert MapBlock(e, i, k - 1) == MapBlock(d, i, k - 1);
    }
  }

  /** A file whose owned blocks are the same in both images is the same namespace node. */
  lemma SameNode(d: Image, e: Image, i: Inode)
    requires forall l: nat :: MapBlock(e, i, l) == MapBlock(d, i, l)
    requires forall b :: b in Owned(d, i) ==> At(e, b) == At(d, b)
    ensures DirEntries(e, i) == DirEntries(d, i) && NodeOf(e, i) == NodeOf(d, i)
  {
    hide MapBlock, At, EntriesUpTo;
    forall l: nat | l < RequiredBlocks(i.size)
      ensures At(e, MapBlock(d, i, l)) == At(d, MapBlock(d, i, l))
    {
      assert MapBlock(d, i, l) as nat in Owned(d, i);
    }
    SameEntries(d, e, i, RequiredBlocks(i.size));
  }

  lemma OwnedIsSame(sb: Superblock, d: Image, e: Image, n: nat)
    requires SpaceHealthy(sb, d) && SameMeaning(sb, d, e) && InodeUsed(sb, d, n)
    ensures forall b :: b in Owned(d, FileAt(sb, d, n)) ==> At(e, b) == At(d, b)
  {
    hide At, ValidSuperblock, MapBlock, Owned, BitmapsWellFormed, DataBlock, InodeAt, FileAt, MappingHolds;
    ReadInodeIsSmall(sb, d, n);
    forall b | b in Owned(d, FileAt(sb, d, n))
      ensures At(e, b) == At(d, b)
    {
      OwnedAreData(sb, d, FileAt(sb, d, n), b);
    }
  }

  /** Health depends only on the bitmaps, the inode table and the allocated data blocks. */
  lemma HealthFrame(sb: Superblock, d: Image, e: Image)
    requires Healthy(sb, d) && SameMeaning(sb, d, e)
    ensures Healthy(sb, e) && NamespaceOf(sb, e) == NamespaceOf(sb, d)
  {
    hide At, SpaceHealthy, SameMeaning, TreeHealthy, FileAt, DirEntries, NodeOf, InodeUsed;
    SpaceHealthFrame(sb, d, e);
    ValidOf(sb, d);
    MeaningParts(sb, d, e);
    SameBitmaps(sb, d, e);
    forall n | InodeUsed(sb, d, n)
      ensures FileAt(sb, e, n) == FileAt(sb, d, n)
      ensures DirEntries(e, FileAt(sb, d, n)) == DirEntries(d, FileAt(sb, d, n)) && NodeOf(e, FileAt(sb, d, n)) == NodeOf(d, FileAt(sb, d, n))
    {
      SameInode(sb, d, e, n);
      OwnedIsSame(sb, d, e, n);
      SameNode(d, e, FileAt(sb, d, n));
    }
    assert NamespaceOf(sb, e) == NamespaceOf(sb, d);
  }

  lemma ValidOf(sb: Superblock, d: Image)
    requires SpaceHealthy(sb, d)
    ensures ValidSuperblock(sb) && |d| == sb.totalBlocks && BitmapsWellFormed(sb, d) && FilesHealthy(sb, d)
  {
    hide ValidSuperblock, BitmapsWellFormed, FilesHealthy, OwnedBySome, DataBlock;
  }

  /** Images that agree outside the journal and outside some free data blocks mean the same. */
  lemma HomeSameMeaning(sb: Superblock, d: Image, e: Image, except: set<nat>)
    requires ValidSuperblock(sb) && |d| == sb.totalBlocks && HomeAgrees(sb, e, d, except)
    requires forall b :: b in except ==> sb.data.start <= b && !DataBlock(sb, d, b)
    ensures SameMeaning(sb, d, e)
  {
    hide ValidSuperblock, BlockUsed;
    RegionsDisjoint(sb);
  }
}
