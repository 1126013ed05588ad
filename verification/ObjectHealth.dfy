/** Creating an object keeps the image healthy, whether or not the plan commits. */
module ObjectHealth {
  import opened Bytes
  import opened Errors
  import opened OndiskFormat
  import opened Journal
  import opened JournalProtocol
  import opened Bitmap
  import opened ImageView
  import opened ImageEdit
  import opened FilePlan
  import opened FileHealth
  import opened Directory
  import opened Health
  import opened ObjectPlan
  import opened ObjectView

  // ---- The namespace gains a leaf ----

  function Grown(ns: Namespace, root: nat, entries: seq<Entry>, n: nat): Namespace
    requires root in ns
  {
    ns[root := ns[root].(entries := entries)][n := Node(false, 1, [])]
  }

  lemma {:induction false} ChildDirectoriesAppend(a: seq<Entry>, b: seq<Entry>)
    ensures ChildDirectories(a + b) == ChildDirectories(a) + ChildDirectories(b)
  {
    if a == [] {
      assert a + b == b;
    } else {
      ChildDirectoriesAppend(a[1..], b);
      assert (a + b)[0] == a[0] && (a + b)[1..] == a[1..] + b;
    }
  }

  lemma SameChildDirectories(was: seq<Entry>, now: seq<Entry>, x: Entry)
    requires WithEntry(was, now, x) && x.kind == REGULAR
    ensures ChildDirectories(now) == ChildDirectories(was)
  {
    var at :| 0 <= at <= |was| && now == was[..at] + [x] + was[at..];
    assert was == was[..at] + was[at..];
    ChildDirectoriesAppend(was[..at], was[at..]);
    ChildDirectoriesAppend(was[..at] + [x], was[at..]);
    ChildDirectoriesAppend(was[..at], [x]);
    assert [x][1..] == [];
  }

  /** Where an entry of the new listing comes from. */
  function Origin(at: nat, k: nat): int {
    if k < at then k else k - 1
  }

  lemma NamesStayUnique(was: seq<Entry>, now: seq<Entry>, x: Entry)
    requires WithEntry(was, now, x) && NamesUnique(was) && !NameIn(was, x.name)
    ensures NamesUnique(now)
  {
    var at :| 0 <= at <= |was| && now == was[..at] + [x] + was[at..];
    forall j, k | 0 <= j < k < |now|
      ensures now[j].name != now[k].name
    {
      EntryOrigin(was, now, x, at, j);
      EntryOrigin(was, now, x, at, k);
    }
  }

  lemma EntryOrigin(was: seq<Entry>, now: seq<Entry>, x: Entry, at: nat, k: nat)
    requires at <= |was| && now == was[..at] + [x] + was[at..] && k < |now|
    ensures k == at ==> now[k] == x
    ensures k != at ==> 0 <= Origin(at, k) < |was| && now[k] == was[Origin(at, k)]
  {}

  lemma ChildrenKept(was: seq<Entry>, now: seq<Entry>, x: Entry, k: nat) returns (m: nat)
    requires WithEntry(was, now, x) && k < |was|
    ensures m < |now| && now[m] == was[k]
  {
    var at :| 0 <= at <= |was| && now == was[..at] + [x] + was[at..];
    m := if k < at then k else k + 1;
  }

  lemma NewChild(was: seq<Entry>, now: seq<Entry>, x: Entry) returns (m: nat)
    requires WithEntry(was, now, x)
    ensures m < |now| && now[m] == x
  {
    var at :| 0 <= at <= |was| && now == was[..at] + [x] + was[at..];
    m := at;
  }

  /** The tree stays a tree when the root gains one entry that names a new leaf. */
  lemma LeafKeepsTree(ns: Namespace, root: nat, now: seq<Entry>, x: Entry)
    requires TreeHealthy(ns, root) && x.inode !in ns && x.kind == REGULAR
    requires WithEntry(ns[root].entries, now, x) && !NameIn(ns[root].entries, x.name)
    ensures TreeHealthy(Grown(ns, root, now, x.inode), root)
  {
    hide Reachable, SingleParents, WithEntry, NameIn, LinksHealthy, EntriesHealthy;
    var grown := Grown(ns, root, now, x.inode);
    SameChildDirectories(ns[root].entries, now, x);
    forall n | n in grown
      ensures EntriesHealthy(grown, root, grown[n]) && LinksHealthy(grown[n]) && Reachable(grown, root, n)
    {
      LeafEntries(ns, root, now, x, n);
      LeafLinks(ns, root, now, x, n);
      LeafReachable(ns, root, now, x, n);
    }
    LeafParents(ns, root, now, x);
  }

  lemma LeafLinks(ns: Namespace, root: nat, now: seq<Entry>, x: Entry, n: nat)
    requires root in ns && x.inode !in ns && ChildDirectories(now) == ChildDirectories(ns[root].entries)
    requires n in Grown(ns, root, now, x.inode) && forall m :: m in ns ==> LinksHealthy(ns[m])
    ensures LinksHealthy(Grown(ns, root, now, x.inode)[n])
  {}

  lemma LeafEntries(ns: Namespace, root: nat, now: seq<Entry>, x: Entry, n: nat)
    requires TreeHealthy(ns, root) && x.inode !in ns && x.kind == REGULAR
    requires WithEntry(ns[root].entries, now, x) && !NameIn(ns[root].entries, x.name)
    requires n in Grown(ns, root, now, x.inode)
    ensures EntriesHealthy(Grown(ns, root, now, x.inode), root, Grown(ns, root, now, x.inode)[n])
  {
    hide Reachable, SingleParents, NameIn, LinksHealthy;
    var grown := Grown(ns, root, now, x.inode);
    if n == root {
      NamesStayUnique(ns[root].entries, now, x);
      forall k | 0 <= k < |now|
        ensures EntryHealthy(grown, root, now[k])
      {
        var at :| 0 <= at <= |ns[root].entries| && now == ns[root].entries[..at] + [x] + ns[root].entries[at..];
        if k != at {
          assert now[k] == ns[root].entries[Origin(at, k)];
        }
      }
    }
  }

  lemma {:induction false} PathKept(ns: Namespace, root: nat, now: seq<Entry>, x: Entry, path: seq<nat>)
    requires root in ns && x.inode !in ns && WithEntry(ns[root].entries, now, x) && Path(ns, root, path)
    ensures Path(Grown(ns, root, now, x.inode), root, path)
  {
    var grown := Grown(ns, root, now, x.inode);
    forall k | 0 <= k < |path| - 1
      ensures HasChild(grown, path[k], path[k + 1])
    {
      assert HasChild(ns, path[k], path[k + 1]);
      var j :| 0 <= j < |ns[path[k]].entries| && ns[path[k]].entries[j].inode == path[k + 1];
      if path[k] == root {
        var m := ChildrenKept(ns[root].entries, now, x, j);
        assert grown[root].entries[m].inode == path[k + 1];
      } else {
        assert grown[path[k]].entries[j].inode == path[k + 1];
      }
    }
  }

  lemma LeafReachable(ns: Namespace, root: nat, now: seq<Entry>, x: Entry, n: nat)
    requires TreeHealthy(ns, root) && x.inode !in ns && WithEntry(ns[root].entries, now, x)
    requires n in Grown(ns, root, now, x.inode)
    ensures Reachable(Grown(ns, root, now, x.inode), root, n)
  {
    hide SingleParents, LinksHealthy, EntriesHealthy, WithEntry, HasChild;
    var grown := Grown(ns, root, now, x.inode);
    if n == x.inode {
      ToLeaf(ns, root, now, x);
    } else {
      assert Reachable(ns, root, n);
      var path :| Path(ns, root, path) && path[|path| - 1] == n;
      PathKept(ns, root, now, x, path);
    }
  }

  lemma ToLeaf(ns: Namespace, root: nat, now: seq<Entry>, x: Entry)
    requires root in ns && x.inode !in ns && WithEntry(ns[root].entries, now, x)
    ensures Reachable(Grown(ns, root, now, x.inode), root, x.inode)
  {
    var grown := Grown(ns, root, now, x.inode);
    var m := NewChild(ns[root].entries, now, x);
    assert grown[root].entries[m].inode == x.inode;
    var path := [root, x.inode];
    assert HasChild(grown, path[0], path[1]);
    assert Path(grown, root, path);
  }

  /** Where a reference of the grown tree comes from: the new entry, or an old one. */
  lemma ReferenceOrigin(ns: Namespace, root: nat, now: seq<Entry>, x: Entry, p: nat, j: nat, child: nat, at: nat)
    requires root in ns && x.inode !in ns && root != x.inode
    requires at <= |ns[root].entries| && now == ns[root].entries[..at] + [x] + ns[root].entries[at..]
    requires Refers(Grown(ns, root, now, x.inode), p, j, child)
    ensures p == root && j == at ==> child == x.inode
    ensures !(p == root && j == at) ==>
      p in ns && Refers(ns, p, if p == root then Origin(at, j) else j, child)
  {}

  lemma LeafParents(ns: Namespace, root: nat, now: seq<Entry>, x: Entry)
    requires TreeHealthy(ns, root) && x.inode !in ns && WithEntry(ns[root].entries, now, x)
    ensures SingleParents(Grown(ns, root, now, x.inode))
  {
    hide Reachable, LinksHealthy;
    var grown := Grown(ns, root, now, x.inode);
    var at :| 0 <= at <= |ns[root].entries| && now == ns[root].entries[..at] + [x] + ns[root].entries[at..];
    forall p, j, q, k, child | Refers(grown, p, j, child) && Refers(grown, q, k, child)
      ensures p == q && j == k
    {
      ReferenceOrigin(ns, root, now, x, p, j, child, at);
      ReferenceOrigin(ns, root, now, x, q, k, child, at);
      TargetsExist(ns, root, x.inode, p, if p == root then Origin(at, j) else j, child);
      TargetsExist(ns, root, x.inode, q, if q == root then Origin(at, k) else k, child);
    }
  }

  /** Old references never name the new inode. */
  lemma TargetsExist(ns: Namespace, root: nat, n: nat, p: nat, j: int, child: nat)
    requires forall m :: m in ns ==> EntriesHealthy(ns, root, ns[m])
    requires n !in ns
    ensures j >= 0 && Refers(ns, p, j, child) ==> child != n
  {}

  // ---- Space ----

  /** New blocks that become the root's. */
  function RootBlocksAdded(p: NewPlan): set<nat> {
    (if p.growth.InPlace? then {} else {p.dirBlock as nat}) + (if p.growth == GrowIndirect then {p.root.indirect as nat} else {})
  }

  function FileBlocks(p: NewPlan): set<nat> {
    p.tx.ordered.Keys + (if p.file.indirect != 0 then {p.file.indirect as nat} else {})
  }

  lemma ReservedSplit(sb: Superblock, d: Image, p: NewPlan)
    requires BlocksPlanned(sb, d, p)
    ensures p.reserved == RootBlocksAdded(p) + FileBlocks(p) && RootBlocksAdded(p) !! FileBlocks(p)
  {
    hide Free;
  }

  lemma FileOwns(sb: Superblock, d: Image, r: Inode, c: Creation, p: NewPlan)
    requires Creatable(sb, d, r, c) && Created(sb, d, r, c, p)
    ensures Owned(AfterImage(d, p.tx), p.file) == FileBlocks(p)
    ensures OwnBlocksDistinct(AfterImage(d, p.tx), p.file)
  {
    hide Creatable, Created, AfterImage, MapBlock, FilePlanned, EntryPlaced, RootPlanned, BlocksPlanned;
    var e := AfterImage(d, p.tx);
    CreatedFile(sb, d, r, c, p);
    FileShape(d, c, p);
    FileBlocksApart(d, c, p);
    forall l: nat | l < |p.mapping|
      ensures MapBlock(e, p.file, l) == p.mapping[l]
      ensures p.file.indirect != 0 ==> p.mapping[l] != p.file.indirect
    {
      FileMapping(sb, d, r, c, p, l);
      OrderedApart(sb, d, p, p.mapping[l]);
    }
    forall b | b in p.tx.ordered
      ensures b in Owned(e, p.file)
    {
      var l := FileBlockSource(d, c, p, b);
      assert MapBlock(e, p.file, l) as nat in Owned(e, p.file);
    }
    assert Owned(e, p.file) == FileBlocks(p);
  }

  lemma OrderedApart(sb: Superblock, d: Image, p: NewPlan, b: nat)
    requires BlocksPlanned(sb, d, p) && b in p.tx.ordered
    ensures p.file.indirect != 0 ==> b != p.file.indirect
  {
    hide Free;
  }

  lemma RootOwns(sb: Superblock, d: Image, r: Inode, c: Creation, p: NewPlan, b: nat)
    requires Creatable(sb, d, r, c) && Created(sb, d, r, c, p) && OwnBlocksDistinct(d, r)
    ensures b in Owned(AfterImage(d, p.tx), p.root) <==> (b in Owned(d, r) && b !in OldIndirect(r, p)) || b in RootBlocksAdded(p)
  {
    hide Creatable, Created, AfterImage, FilePlanned, EntryPlaced, RootPlanned, BlocksPlanned, MapBlock, MappingHolds;
    hide InodeAt, RootMap;
    if b in Owned(AfterImage(d, p.tx), p.root) {
      RootOwnsOnly(sb, d, r, c, p, b);
    }
    if b in RootBlocksAdded(p) {
      RootOwnsAdded(sb, d, r, c, p, b);
    }
    if b in Owned(d, r) && b !in OldIndirect(r, p) {
      RootOwnsKept(sb, d, r, c, p, b);
    }
  }

  lemma RootOwnsOnly(sb: Superblock, d: Image, r: Inode, c: Creation, p: NewPlan, b: nat)
    requires Creatable(sb, d, r, c) && Created(sb, d, r, c, p) && OwnBlocksDistinct(d, r)
    requires b in Owned(AfterImage(d, p.tx), p.root)
    ensures (b in Owned(d, r) && b !in OldIndirect(r, p)) || b in RootBlocksAdded(p)
  {
    hide Creatable, Created, AfterImage, FilePlanned, EntryPlaced, RootPlanned, BlocksPlanned, MapBlock, MappingHolds, InodeAt;
    var e := AfterImage(d, p.tx);
    CreatedFile(sb, d, r, c, p);
    RootShape(r, c, p);
    RootFacts(sb, d, r, c);
    if p.root.indirect != 0 && b == p.root.indirect {
      RootIndirectIsData(sb, d, r, c, p);
    } else {
      var l: nat :| l < RequiredBlocks(p.root.size) && b == MapBlock(e, p.root, l);
      RootMapping(sb, d, r, c, p, l);
      RootBlockIsData(sb, d, r, c, p, l);
    }
  }

  lemma RootOwnsAdded(sb: Superblock, d: Image, r: Inode, c: Creation, p: NewPlan, b: nat)
    requires Creatable(sb, d, r, c) && Created(sb, d, r, c, p) && OwnBlocksDistinct(d, r) && b in RootBlocksAdded(p)
    ensures b in Owned(AfterImage(d, p.tx), p.root)
  {
    hide Creatable, Created, AfterImage, FilePlanned, EntryPlaced, RootPlanned, BlocksPlanned, MapBlock, MappingHolds;
    hide InodeAt, RootMap;
    var e := AfterImage(d, p.tx);
    CreatedFile(sb, d, r, c, p);
    RootShape(r, c, p);
    RootFacts(sb, d, r, c);
    RootIndirectIsData(sb, d, r, c, p);
    NewBlockAt(sb, d, r, c, p);
    RootMapping(sb, d, r, c, p, RootBlocks(r));
    RootMapAtEnd(d, r, p);
    assert MapBlock(e, p.root, RootBlocks(r)) == p.dirBlock;
    assert RootBlocks(r) < RequiredBlocks(p.root.size) ==> p.dirBlock as nat in Owned(e, p.root);
  }

  lemma RootOwnsKept(sb: Superblock, d: Image, r: Inode, c: Creation, p: NewPlan, b: nat)
    requires Creatable(sb, d, r, c) && Created(sb, d, r, c, p) && OwnBlocksDistinct(d, r)
    requires b in Owned(d, r) && b !in OldIndirect(r, p)
    ensures b in Owned(AfterImage(d, p.tx), p.root)
  {
    hide Creatable, Created, AfterImage, FilePlanned, EntryPlaced, RootPlanned, BlocksPlanned, MapBlock, MappingHolds;
    hide InodeAt, RootMap;
    var e := AfterImage(d, p.tx);
    CreatedFile(sb, d, r, c, p);
    RootShape(r, c, p);
    RootFacts(sb, d, r, c);
    if !(r.indirect != 0 && b == r.indirect) {
      var l: nat :| l < RequiredBlocks(r.size) && b == MapBlock(d, r, l);
      RootMapping(sb, d, r, c, p, l);
      RootMapBelow(d, r, p, l);
      assert MapBlock(e, p.root, l) as nat in Owned(e, p.root);
    }
  }

  lemma RootDistinct(sb: Superblock, d: Image, r: Inode, c: Creation, p: NewPlan)
    requires Creatable(sb, d, r, c) && Created(sb, d, r, c, p) && OwnBlocksDistinct(d, r)
    ensures OwnBlocksDistinct(AfterImage(d, p.tx), p.root)
  {
    hide Creatable, Created, AfterImage, FilePlanned, EntryPlaced, RootPlanned, BlocksPlanned, MapBlock, MappingHolds;
    hide InodeAt, RootMap;
    var e := AfterImage(d, p.tx);
    CreatedFile(sb, d, r, c, p);
    RootShape(r, c, p);
    RootFacts(sb, d, r, c);
    RootMappingHolds(sb, d, r, c, p);
    forall l: nat | l < RequiredBlocks(p.root.size)
      ensures MapBlock(e, p.root, l) == RootMap(d, r, p, l)
      ensures p.root.indirect != 0 ==> RootMap(d, r, p, l) != p.root.indirect
    {
      RootMapping(sb, d, r, c, p, l);
      RootIndirectApart(sb, d, r, c, p, l);
    }
    forall k: nat, l: nat | k < l < RequiredBlocks(p.root.size)
      ensures RootMap(d, r, p, k) != RootMap(d, r, p, l)
    {
      RootBlocksApart(sb, d, r, c, p, k, l);
    }
  }

  lemma RootBlocksApart(sb: Superblock, d: Image, r: Inode, c: Creation, p: NewPlan, k: nat, l: nat)
    requires Creatable(sb, d, r, c) && Created(sb, d, r, c, p) && OwnBlocksDistinct(d, r)
    requires k < l < RequiredBlocks(p.root.size)
    ensures RootMap(d, r, p, k) != RootMap(d, r, p, l)
  {
    hide Creatable, Created, AfterImage, MapBlock;
    RootBlockIsData(sb, d, r, c, p, k);
    RootBlockIsData(sb, d, r, c, p, l);
  }

  lemma RootIndirectApart(sb: Superblock, d: Image, r: Inode, c: Creation, p: NewPlan, l: nat)
    requires Creatable(sb, d, r, c) && Created(sb, d, r, c, p) && OwnBlocksDistinct(d, r)
    requires l < RequiredBlocks(p.root.size)
    ensures p.root.indirect != 0 ==> RootMap(d, r, p, l) != p.root.indirect
  {
    hide Creatable, Created, AfterImage, MapBlock, FilePlanned, EntryPlaced, RootPlanned, Free, JournaledBlocks;
    CreatedFile(sb, d, r, c, p);
    RootBlockIsData(sb, d, r, c, p, l);
    RootIndirectIsData(sb, d, r, c, p);
  }

  // ---- Health after the creation ----

  lemma BitmapsStayWellFormedNew(sb: Superblock, d: Image, r: Inode, c: Creation, p: NewPlan)
    requires Creatable(sb, d, r, c) && Created(sb, d, r, c, p) && BitmapsWellFormed(sb, d)
    ensures BitmapsWellFormed(sb, AfterImage(d, p.tx))
  {
    hide Creatable, AfterImage, Realizes, FilePlanned, RootPlanned, EntryPlaced, BlocksPlanned, TestBit, Free, OldIndirect;
    hide RegionBytes;
    BitmapsOfNew(sb, d, r, c, p);
    var was := RegionBytes(d, sb.blockBitmap);
    forall k: nat | TestBit(was, k) && !(sb.data.start <= k < sb.totalBlocks)
      ensures TestBit(p.blockBitmap, k)
    {
      UsedAfterNew(sb, d, r, c, p, k);
    }
  }

  /** Files other than the root are untouched. */
  lemma OtherFilesKept(sb: Superblock, d: Image, r: Inode, c: Creation, p: NewPlan, k: nat)
    requires SpaceHealthy(sb, d) && Creatable(sb, d, r, c) && Created(sb, d, r, c, p)
    requires InodeUsed(sb, d, k) && k != sb.rootInode
    ensures var j, e := FileAt(sb, d, k), AfterImage(d, p.tx);
      && FileAt(sb, e, k) == j && ReadInode(sb, e, k) == Success(j) && Contents(e, j) == Contents(d, j)
      && Owned(e, j) == Owned(d, j) && OwnBlocksDistinct(e, j)
      && (forall l: nat :: MapBlock(e, j, l) == MapBlock(d, j, l)) && (forall b :: b in Owned(d, j) ==> At(e, b) == At(d, b))
      && NodeOf(e, j) == NodeOf(d, j) && DirEntries(e, j) == DirEntries(d, j)
  {
    hide Creatable, AfterImage, Created, InodeAt, Owned, Contents, DirEntries, MapBlock, At, BitmapsWellFormed, OwnedBySome;
    hide MappingHolds;
    hide DataBlock, ValidSuperblock, OwnBlocksDistinct;
    var j, e := FileAt(sb, d, k), AfterImage(d, p.tx);
    RootFacts(sb, d, r, c);
    InodesOfNew(sb, d, r, c, p, k);
    InodeUsedAfterNew(sb, d, r, c, p, k);
    ReadInodeIsSmall(sb, d, k);
    forall b | b in Owned(d, j)
      ensures DataBlock(sb, e, b) && At(e, b) == At(d, b)
    {
      OwnedAreData(sb, d, j, b);
      NotTheRoots(sb, d, r, c, p, b);
      BlockKept(sb, d, r, c, p, b);
      KeptIsDataAfter(sb, d, r, c, p, b);
    }
    SameFile(sb, d, e, j);
    SameNode(d, e, j);
    SameDistinct(d, e, j);
  }

  lemma NotTheRoots(sb: Superblock, d: Image, r: Inode, c: Creation, p: NewPlan, b: nat)
    requires Creatable(sb, d, r, c) && Created(sb, d, r, c, p) && b !in Owned(d, r)
    ensures b !in OldIndirect(r, p) && !(p.growth.InPlace? && b == p.dirBlock)
  {
    hide Creatable, Created, MapBlock;
    DirectoryBlockIsData(sb, d, r, c, p);
  }

  /** The root and the new file are readable afterwards. */
  lemma TwoFilesAfter(sb: Superblock, d: Image, r: Inode, c: Creation, p: NewPlan)
    requires Creatable(sb, d, r, c) && Created(sb, d, r, c, p) && OwnBlocksDistinct(d, r)
    ensures var e := AfterImage(d, p.tx);
      && FileAt(sb, e, p.number) == p.file && ReadInode(sb, e, p.number) == Success(p.file)
      && FileAt(sb, e, sb.rootInode) == p.root && ReadInode(sb, e, sb.rootInode) == Success(p.root)
      && InodeUsed(sb, e, p.number) && InodeUsed(sb, e, sb.rootInode) && p.number != sb.rootInode
  {
    hide Creatable, AfterImage, InodeAt, MappingHolds, Realizes, FilePlanned, RootPlanned, EntryPlaced, BlocksPlanned;
    hide BitmapsPlanned;
    hide ValidSuperblock, OwnBlocksDistinct;
    RootFacts(sb, d, r, c);
    InodeUsedAfterNew(sb, d, r, c, p, p.number);
    InodeUsedAfterNew(sb, d, r, c, p, sb.rootInode);
    InodesOfNew(sb, d, r, c, p, p.number);
    InodesOfNew(sb, d, r, c, p, sb.rootInode);
    FileMappingHolds(sb, d, r, c, p);
    RootMappingHolds(sb, d, r, c, p);
  }

  /** What each allocated inode owns after the creation. */
  function OwnedNow(sb: Superblock, d: Image, r: Inode, p: NewPlan, k: nat): set<nat> {
    if k == p.number then FileBlocks(p)
    else if k == sb.rootInode then Owned(d, r) - OldIndirect(r, p) + RootBlocksAdded(p)
    else Owned(d, FileAt(sb, d, k))
  }

  lemma FilesAfterNew(sb: Superblock, d: Image, r: Inode, c: Creation, p: NewPlan, k: nat)
    requires SpaceHealthy(sb, d) && Creatable(sb, d, r, c) && Created(sb, d, r, c, p)
    requires InodeUsed(sb, AfterImage(d, p.tx), k)
    ensures var e := AfterImage(d, p.tx);
      && ReadInode(sb, e, k) == Success(FileAt(sb, e, k)) && OwnBlocksDistinct(e, FileAt(sb, e, k))
      && Owned(e, FileAt(sb, e, k)) == OwnedNow(sb, d, r, p, k)
  {
    hide Creatable, AfterImage, Created, InodeAt, Owned, FileAt, BitmapsWellFormed, OwnedBySome, ReadInode, OwnBlocksDistinct;
    hide FileBlocks;
    hide OldIndirect, RootBlocksAdded, InodeUsed;
    var e := AfterImage(d, p.tx);
    RootIsFile(sb, d, r, c);
    TwoFilesAfter(sb, d, r, c, p);
    if k == p.number {
      FileOwns(sb, d, r, c, p);
    } else if k == sb.rootInode {
      RootDistinct(sb, d, r, c, p);
      forall b
        ensures b in Owned(e, p.root) <==> b in Owned(d, r) - OldIndirect(r, p) + RootBlocksAdded(p)
      {
        RootOwns(sb, d, r, c, p, b);
      }
    } else {
      InodeUsedAfterNew(sb, d, r, c, p, k);
      OtherFilesKept(sb, d, r, c, p, k);
    }
  }

  lemma RootIsFile(sb: Superblock, d: Image, r: Inode, c: Creation)
    requires SpaceHealthy(sb, d) && Creatable(sb, d, r, c)
    ensures InodeUsed(sb, d, sb.rootInode) && FileAt(sb, d, sb.rootInode) == r && OwnBlocksDistinct(d, r)
  {
    hide Creatable, InodeAt, Owned, BitmapsWellFormed, OwnedBySome, OwnBlocksDistinct, ValidSuperblock, InodeUsed;
    hide MappingHolds, ReadInode;
    RootFacts(sb, d, r, c);
  }

  lemma ApartNow(sb: Superblock, d: Image, r: Inode, c: Creation, p: NewPlan, j: nat, k: nat)
    requires SpaceHealthy(sb, d) && Creatable(sb, d, r, c) && Created(sb, d, r, c, p)
    requires InodeUsed(sb, AfterImage(d, p.tx), j) && InodeUsed(sb, AfterImage(d, p.tx), k) && j != k
    ensures OwnedNow(sb, d, r, p, j) !! OwnedNow(sb, d, r, p, k)
  {
    hide Creatable, AfterImage, InodeAt, Owned, FileAt, BitmapsWellFormed, OwnedBySome, OwnBlocksDistinct, FileBlocks, Realizes;
    hide OldIndirect, RootBlocksAdded, InodeUsed, FilePlanned, RootPlanned, EntryPlaced, BlocksPlanned, BitmapsPlanned, ReadInode;
    RootIsFile(sb, d, r, c);
    InodeUsedAfterNew(sb, d, r, c, p, j);
    InodeUsedAfterNew(sb, d, r, c, p, k);
    ReservedSplit(sb, d, p);
    OldAreNotReserved(sb, d, r, c, p, j);
    OldAreNotReserved(sb, d, r, c, p, k);
    OldAreNotReserved(sb, d, r, c, p, sb.rootInode);
  }

  lemma OldAreNotReserved(sb: Superblock, d: Image, r: Inode, c: Creation, p: NewPlan, k: nat)
    requires SpaceHealthy(sb, d) && Creatable(sb, d, r, c) && Created(sb, d, r, c, p)
    ensures InodeUsed(sb, d, k) ==> Owned(d, FileAt(sb, d, k)) !! p.reserved
  {
    hide Creatable, Created, AfterImage, InodeAt, Owned, FileAt, BitmapsWellFormed, OwnedBySome, OwnBlocksDistinct, DataBlock;
    hide MappingHolds;
    if InodeUsed(sb, d, k) {
      ReadInodeIsSmall(sb, d, k);
      forall b | b in Owned(d, FileAt(sb, d, k))
        ensures b !in p.reserved
      {
        OwnedAreData(sb, d, FileAt(sb, d, k), b);
        BlockKept(sb, d, r, c, p, b);
      }
    }
  }

  lemma OwnersAfterNew(sb: Superblock, d: Image, r: Inode, c: Creation, p: NewPlan, b: nat)
    requires SpaceHealthy(sb, d) && Creatable(sb, d, r, c) && Created(sb, d, r, c, p) && DataBlock(sb, AfterImage(d, p.tx), b)
    ensures OwnedBySome(sb, AfterImage(d, p.tx), b)
  {
    hide Creatable, AfterImage, InodeAt, Owned, FileAt, BitmapsWellFormed, OwnBlocksDistinct, FileBlocks, Realizes, FilesHealthy;
    hide OldIndirect, RootBlocksAdded, FilePlanned, RootPlanned, EntryPlaced, BlocksPlanned, BitmapsPlanned, ReadInode;
    hide InodeUsed, BlockUsed;
    var e := AfterImage(d, p.tx);
    RootIsFile(sb, d, r, c);
    RootFacts(sb, d, r, c);
    TwoFilesAfter(sb, d, r, c, p);
    UsedAfterNew(sb, d, r, c, p, b);
    ReservedSplit(sb, d, p);
    InodeUsedAfterNew(sb, d, r, c, p, p.number);
    FilesAfterNew(sb, d, r, c, p, p.number);
    FilesAfterNew(sb, d, r, c, p, sb.rootInode);
    if b in FileBlocks(p) {
      assert b in Owned(e, FileAt(sb, e, p.number));
    } else if b in RootBlocksAdded(p) {
      assert b in Owned(e, FileAt(sb, e, sb.rootInode));
    } else {
      assert DataBlock(sb, d, b) && b !in OldIndirect(r, p);
      var k :| 1 <= k <= sb.totalInodes && InodeUsed(sb, d, k) && b in Owned(d, FileAt(sb, d, k));
      InodeUsedAfterNew(sb, d, r, c, p, k);
      FilesAfterNew(sb, d, r, c, p, k);
      assert b in Owned(e, FileAt(sb, e, k));
    }
  }

  lemma SpaceHealthAfterNew(sb: Superblock, d: Image, r: Inode, c: Creation, p: NewPlan)
    requires SpaceHealthy(sb, d) && Creatable(sb, d, r, c) && Created(sb, d, r, c, p)
    ensures SpaceHealthy(sb, AfterImage(d, p.tx))
  {
    hide Creatable, Created, InodeAt, Owned, FileAt, ReadInode, BitmapsWellFormed, OwnedBySome, ValidSuperblock, DataBlock;
    hide OwnedNow;
    hide OwnBlocksDistinct, InodeUsed;
    var e := AfterImage(d, p.tx);
    ValidOf(sb, d);
    BitmapsStayWellFormedNew(sb, d, r, c, p);
    forall k | InodeUsed(sb, e, k)
      ensures ReadInode(sb, e, k) == Success(FileAt(sb, e, k)) && OwnBlocksDistinct(e, FileAt(sb, e, k))
      ensures Owned(e, FileAt(sb, e, k)) == OwnedNow(sb, d, r, p, k)
    {
      FilesAfterNew(sb, d, r, c, p, k);
    }
    forall j, k | InodeUsed(sb, e, j) && InodeUsed(sb, e, k) && j != k
      ensures Owned(e, FileAt(sb, e, j)) !! Owned(e, FileAt(sb, e, k))
    {
      ApartNow(sb, d, r, c, p, j, k);
    }
    forall b: nat | DataBlock(sb, e, b)
      ensures OwnedBySome(sb, e, b)
    {
      OwnersAfterNew(sb, d, r, c, p, b);
    }
  }

  lemma NodesAfterNew(sb: Superblock, d: Image, r: Inode, c: Creation, p: NewPlan)
    requires SpaceHealthy(sb, d) && Creatable(sb, d, r, c) && Created(sb, d, r, c, p)
    ensures var e := AfterImage(d, p.tx);
      && DirEntries(e, p.root).Some? && sb.rootInode in NamespaceOf(sb, d)
      && NamespaceOf(sb, e) == Grown(NamespaceOf(sb, d), sb.rootInode, DirEntries(e, p.root).value, p.number)
  {
    hide Creatable, AfterImage, Created, InodeAt, FileAt, SpaceHealthy, DirEntries, InodeUsed, FilePlanned, EntryPlaced;
    hide RootPlanned;
    hide BlocksPlanned, OwnBlocksDistinct, ValidSuperblock, MappingHolds;
    var e := AfterImage(d, p.tx);
    RootIsFile(sb, d, r, c);
    RootFacts(sb, d, r, c);
    CreatedFile(sb, d, r, c, p);
    RootShape(r, c, p);
    FileShape(d, c, p);
    TwoFilesAfter(sb, d, r, c, p);
    RootListing(sb, d, r, c, p);
    InodeUsedAfterNew(sb, d, r, c, p, p.number);
    forall k | 1 <= k <= sb.totalInodes
      ensures InodeUsed(sb, e, k) <==> InodeUsed(sb, d, k) || k == p.number
      ensures InodeUsed(sb, d, k) && k != sb.rootInode ==> k != p.number && NodeOf(e, FileAt(sb, e, k)) == NodeOf(d, FileAt(sb, d, k))
    {
      InodeUsedAfterNew(sb, d, r, c, p, k);
      if InodeUsed(sb, d, k) && k != sb.rootInode {
        OtherFilesKept(sb, d, r, c, p, k);
      }
    }
    assert NamespaceOf(sb, e) == Grown(NamespaceOf(sb, d), sb.rootInode, DirEntries(e, p.root).value, p.number);
  }

  /** A committed creation leaves a healthy image: the namespace gains exactly one leaf under the root. */
  lemma CreationKeepsHealth(sb: Superblock, d: Image, r: Inode, c: Creation, p: NewPlan)
    requires Healthy(sb, d) && Creatable(sb, d, r, c) && Created(sb, d, r, c, p)
    ensures Healthy(sb, AfterImage(d, p.tx))
  {
    hide Created, AfterImage, InodeAt, SpaceHealthy, DirEntries, InodeUsed, FilePlanned, EntryPlaced, RootPlanned, BlocksPlanned;
    hide OwnBlocksDistinct, ValidSuperblock, MappingHolds, TreeHealthy, WithEntry, NodeOf, NameIn, Grown, FileAt, ReadInode;
    hide WellFormed;
    var e := AfterImage(d, p.tx);
    SpaceHealthAfterNew(sb, d, r, c, p);
    RootIsFile(sb, d, r, c);
    NodesAfterNew(sb, d, r, c, p);
    RootListing(sb, d, r, c, p);
    RootNode(sb, d, r, c);
    InodeUsedAfterNew(sb, d, r, c, p, p.number);
    LeafKeepsTree(NamespaceOf(sb, d), sb.rootInode, DirEntries(e, p.root).value, NewEntry(p.number, c, 0));
    forall k | InodeUsed(sb, e, k) && IsDirectory(FileAt(sb, e, k).mode)
      ensures DirEntries(e, FileAt(sb, e, k)).Some?
    {
      DirectoriesAfterNew(sb, d, r, c, p, k);
    }
  }

  lemma RootNode(sb: Superblock, d: Image, r: Inode, c: Creation)
    requires SpaceHealthy(sb, d) && Creatable(sb, d, r, c)
    ensures sb.rootInode in NamespaceOf(sb, d) && NamespaceOf(sb, d)[sb.rootInode].entries == DirEntries(d, r).value
    ensures !NameIn(DirEntries(d, r).value, c.name)
  {
    hide InodeAt, SpaceHealthy, InodeUsed, OwnBlocksDistinct, ValidSuperblock, MappingHolds, WellFormed, FileAt, ReadInode;
    hide NameIn, EntriesUpTo;
    RootIsFile(sb, d, r, c);
    RootFacts(sb, d, r, c);
  }

  lemma DirectoriesAfterNew(sb: Superblock, d: Image, r: Inode, c: Creation, p: NewPlan, k: nat)
    requires Healthy(sb, d) && Creatable(sb, d, r, c) && Created(sb, d, r, c, p)
    requires InodeUsed(sb, AfterImage(d, p.tx), k) && IsDirectory(FileAt(sb, AfterImage(d, p.tx), k).mode)
    ensures DirEntries(AfterImage(d, p.tx), FileAt(sb, AfterImage(d, p.tx), k)).Some?
  {
    hide Creatable, Created, AfterImage, InodeAt, SpaceHealthy, DirEntries, InodeUsed, FilePlanned, EntryPlaced, RootPlanned;
    hide BlocksPlanned;
    hide OwnBlocksDistinct, TreeHealthy, WithEntry, NodeOf, FileAt;
    RootIsFile(sb, d, r, c);
    CreatedFile(sb, d, r, c, p);
    FileShape(d, c, p);
    TwoFilesAfter(sb, d, r, c, p);
    InodeUsedAfterNew(sb, d, r, c, p, k);
    if k == sb.rootInode {
      RootListing(sb, d, r, c, p);
    } else if k != p.number {
      OtherFilesKept(sb, d, r, c, p, k);
    }
  }

  lemma OrderedFree(sb: Superblock, d: Image, p: NewPlan, b: nat)
    requires BlocksPlanned(sb, d, p) && b in p.tx.ordered
    ensures sb.data.start <= b && !DataBlock(sb, d, b)
  {
    hide Free, BlockUsed;
    NewIsData(sb, d, p, b);
  }

  /** What a creation does: the object is readable with generation 1 and exactly its data, the root
      lists it besides everything it listed before. */
  lemma CreationCreates(sb: Superblock, d: Image, r: Inode, c: Creation, p: NewPlan)
    requires SpaceHealthy(sb, d) && Creatable(sb, d, r, c) && Created(sb, d, r, c, p)
    ensures var e := AfterImage(d, p.tx);
      && ReadInode(sb, e, p.number) == Success(p.file) && IsRegular(p.file.mode) && p.file.generation == 1
      && Contents(e, p.file) == c.data
      && ReadInode(sb, e, sb.rootInode) == Success(p.root) && DirEntries(e, p.root).Some?
      && WithEntry(DirEntries(d, r).value, DirEntries(e, p.root).value, NewEntry(p.number, c, 0))
  {
    hide Creatable, Created, AfterImage, SpaceHealthy, DirEntries, WithEntry, ReadInode, FilePlanned, EntryPlaced;
    hide RootPlanned, BlocksPlanned;
    hide Contents, OwnBlocksDistinct;
    RootIsFile(sb, d, r, c);
    CreatedFile(sb, d, r, c, p);
    FileShape(d, c, p);
    TwoFilesAfter(sb, d, r, c, p);
    RootListing(sb, d, r, c, p);
    FileContents(sb, d, r, c, p);
  }
}
