/** `PrepareNewRootObject`: builds the plan for a new object step by step
    (src/metadata/new_object_plan.cpp). */
module ObjectPlanner {
  import opened Bytes
  import opened Errors
  import opened OndiskFormat
  import opened Journal
  import opened JournalStore
  import opened Bitmap
  import opened ImageView
  import opened ImageEdit
  import opened PlanBuilder
  import opened FilePlan
  import opened FilePlanner
  import opened Directory
  import opened Health
  import opened ObjectPlan
  import opened ObjectView
  import opened LedgerImage

  /** The checks before anything is reserved. A directory that cannot be listed counts as damaged. */
  function CreationError(sb: Superblock, d: Image, c: Creation): Option<Errno> {
    if !ValidName(c.name) then Some(EINVAL)
    else if |c.data| > MAX_FILE_SIZE then Some(EFBIG)
    else
      match ReadInode(sb, d, sb.rootInode)
      case Failure(errno) => Some(errno)
      case Success(r) =>
        if !IsDirectory(r.mode) || !Listable(sb, d, r) then Some(EUCLEAN)
        else if NameIn(DirEntries(d, r).value, c.name) then Some(EEXIST)
        else if !WellFormed(RegionBytes(d, sb.inodeBitmap), sb.totalInodes, 0)
             || !WellFormed(RegionBytes(d, sb.blockBitmap), sb.totalBlocks, sb.data.start) then Some(EUCLEAN)
        else None
  }

  /** Why a creation is refused on a healthy image, in terms of what the image holds. */
  ghost predicate RefusedFor(sb: Superblock, d: Image, c: Creation, error: Option<Errno>) {
    if !NameAllowed(c.name) then error == Some(EINVAL)
    else if |c.data| > 4243456 then error == Some(EFBIG)
    else if exists n: nat :: ListedAs(NamespaceOf(sb, d), sb.rootInode, c.name, n) then error == Some(EEXIST)
    else error == None
  }

  lemma CreationErrorIs(sb: Superblock, d: Image, c: Creation)
    requires Healthy(sb, d)
    ensures RefusedFor(sb, d, c, CreationError(sb, d, c))
  {
    hide Healthy, ReadInode, NamespaceOf, DirEntries, FileAt, RegionBytes, WellFormed, EntryReadable;
    HealthyRoot(sb, d);
    HealthyBitmaps(sb, d);
    ValidNameIs(c.name);
    var es := DirEntries(d, FileAt(sb, d, sb.rootInode)).value;
    if NameIn(es, c.name) {
      var k :| 0 <= k < |es| && es[k].name == c.name;
      assert ListedAs(NamespaceOf(sb, d), sb.rootInode, c.name, es[k].inode);
    }
  }

  lemma RefusalOf(sb: Superblock, d: Image, c: Creation)
    ensures Healthy(sb, d) ==> RefusedFor(sb, d, c, CreationError(sb, d, c))
    ensures CreationError(sb, d, c) != Some(ENOSPC)
  {
    hide Healthy, RefusedFor, InodeAt, MappingHolds, InodeUsed, Listable, NameIn, DirEntries, RegionBytes, WellFormed, ValidName;
    if Healthy(sb, d) {
      CreationErrorIs(sb, d, c);
    }
  }

  lemma HealthyBitmaps(sb: Superblock, d: Image)
    requires Healthy(sb, d)
    ensures WellFormed(RegionBytes(d, sb.inodeBitmap), sb.totalInodes, 0)
    ensures WellFormed(RegionBytes(d, sb.blockBitmap), sb.totalBlocks, sb.data.start)
  {
    hide FilesHealthy, NamesHealthy, WellFormed, RegionBytes, DataBlock, OwnedBySome, ValidSuperblock;
  }

  lemma NoErrorMeansCreatable(sb: Superblock, d: Image, c: Creation)
    requires ValidSuperblock(sb) && |d| == sb.totalBlocks && CreationError(sb, d, c) == None
    ensures ReadInode(sb, d, sb.rootInode).Success? && Creatable(sb, d, ReadInode(sb, d, sb.rootInode).value, c)
  {
    hide ReadInode, Listable, NameIn, WellFormed, RegionBytes, ValidSuperblock, ValidName, DirEntries;
  }

  // ---- The directory entry ----

  lemma {:induction false} BlocksParse(d: Image, i: Inode, k: nat, l: nat)
    requires EntriesUpTo(d, i, k).Some? && l < k
    ensures Parse(At(d, MapBlock(d, i, l))).Some?
  {
    hide Parse, At, MapBlock;
    if l < k - 1 {
      BlocksParse(d, i, k - 1, l);
    }
  }

  /** Tries the blocks of the root in order. */
  method FindSlot(sb: Superblock, d: Image, r: Inode, c: Creation, x: Entry)
    returns (growth: Growth, dirBlock: u32, dirAfter: Block)
    requires DirEntries(d, r).Some? && RootBlocks(r) == RequiredBlocks(r.size) && ValidEntry(x) && x.inode != 0
    requires x.name == c.name
    ensures growth.InPlace? ==> EntryAt(d, r, x, growth, dirBlock, dirAfter)
    ensures GrowthChosen(d, r, c, growth)
    ensures growth == GrowDirect <==> !growth.InPlace? && RootBlocks(r) < DIRECT_BLOCKS
  {
    hide Parse, At, MapBlock, Room, Inserted, FirstFit, EntriesUpTo, ValidEntry;
    for l := 0 to RootBlocks(r)
      invariant forall k :: 0 <= k < l ==> !RoomIn(d, r, c, k)
    {
      var physical := MapBlock(d, r, l);
      BlocksParse(d, r, RequiredBlocks(r.size), l);
      var inserted := TryInsert(At(d, physical), x);
      if inserted.Done? {
        return InPlace(l), physical, inserted.block;
      }
    }
    growth := if RootBlocks(r) < DIRECT_BLOCKS then GrowDirect else GrowIndirect;
    dirBlock := 0;
    dirAfter := ZERO;
  }

  lemma EntryIsValid(number: u32, c: Creation)
    requires ValidName(c.name) && number != 0
    ensures ValidEntry(NewEntry(number, c, BLOCK_SIZE))
  {
    hide ValidName;
    NameFits(c.name);
  }

  lemma NameFits(name: Name)
    requires ValidName(name)
    ensures |name| <= MAX_NAME
  {}

  /** A new directory block holds one record that fills it. */
  lemma OneRecord(x: Entry)
    requires ValidEntry(x) && x.length == BLOCK_SIZE
    ensures AllValid([x]) && |Tiles([x])| == BLOCK_SIZE && Parse(Tiles([x])) == Some([x])
  {
    hide ValidEntry, EntryBytes, Parse;
    TilesOne(x);
    ParseRoundTrip([x]);
  }

  // ---- Reservations in sequence ----

  lemma ReservedTrans(was: seq<byte>, mid: seq<byte>, now: seq<byte>, first: nat, valid: nat, a: set<nat>, b: set<nat>)
    requires ReservedFrom(was, mid, first, valid, a) && ReservedFrom(mid, now, first, valid, b)
    ensures ReservedFrom(was, now, first, valid, a + b) && a !! b
  {
    hide TestBit;
  }

  /** Reserves one block. */
  method ReserveBlock(a: BitmapAllocator) returns (b: Option<u32>)
    requires a.first <= a.valid <= 8 * |a.bitmap| && 0 < a.first && a.valid < 0x1_0000_0000
    modifies a
    ensures |a.bitmap| == |old(a.bitmap)|
    ensures b.Some? ==> b.value != 0 && ReservedFrom(old(a.bitmap), a.bitmap, a.first, a.valid, {b.value as nat})
    ensures b == None ==> a.bitmap == old(a.bitmap) && Free(a.bitmap, a.first, a.valid) == {}
  {
    hide Free, TestBit;
    ghost var was := a.bitmap;
    ReserveNothing(was, a.first, a.valid);
    var status := a.Reserve();
    if status.NoSpace? {
      return None;
    }
    FreeIsBounded(was, a.first, a.valid, status.bit);
    NextBlockIsNew(was, was, a.first, a.valid, {}, status.bit, a.bitmap);
    assert {} + {status.bit} == {status.bit};
    b := Some(status.bit);
  }

  /** The blocks of the root that have to be reserved. */
  function RootReserved(growth: Growth, dirBlock: u32, indirect: u32): set<nat> {
    (if growth.InPlace? then {} else {dirBlock as nat}) + (if growth == GrowIndirect then {indirect as nat} else {})
  }

  /** Reserves a directory block, and an indirect block if the root needs a new one. */
  method GrowRoot(a: BitmapAllocator, growth: Growth, dirBlock: u32, indirect: u32)
    returns (ok: bool, newBlock: u32, newIndirect: u32)
    requires a.first <= a.valid <= 8 * |a.bitmap| && 0 < a.first && a.valid < 0x1_0000_0000
    modifies a
    ensures |a.bitmap| == |old(a.bitmap)|
    ensures ok ==> ReservedFrom(old(a.bitmap), a.bitmap, a.first, a.valid, RootReserved(growth, newBlock, newIndirect))
    ensures ok ==> |RootReserved(growth, newBlock, newIndirect)| == RootNeeds(growth)
    ensures !ok ==> |Free(old(a.bitmap), a.first, a.valid)| < RootNeeds(growth)
    ensures growth.InPlace? ==> newBlock == dirBlock
    ensures growth != GrowIndirect ==> newIndirect == indirect
    ensures ok && growth == GrowIndirect ==> newBlock != newIndirect
    ensures ok && !growth.InPlace? ==> newBlock != 0
    ensures ok && growth == GrowIndirect ==> newIndirect != 0
  {
    hide ReservedFrom, Free;
    ok, newBlock, newIndirect := true, dirBlock, indirect;
    ghost var was := a.bitmap;
    ReserveNothing(was, a.first, a.valid);
    if growth.InPlace? {
      assert RootReserved(growth, newBlock, newIndirect) == {};
      return;
    }
    var first := ReserveBlock(a);
    if first == None {
      return false, newBlock, newIndirect;
    }
    newBlock := first.value;
    if growth == GrowIndirect {
      ghost var mid := a.bitmap;
      FreeAfter(was, mid, a.first, a.valid, {newBlock as nat});
      var second := ReserveBlock(a);
      if second == None {
        return false, newBlock, newIndirect;
      }
      newIndirect := second.value;
      ReservedTrans(was, mid, a.bitmap, a.first, a.valid, {newBlock as nat}, {newIndirect as nat});
      assert RootReserved(growth, newBlock, newIndirect) == {newBlock as nat} + {newIndirect as nat};
    } else {
      assert RootReserved(growth, newBlock, newIndirect) == {newBlock as nat};
    }
  }

  function FileReserved(ordered: Writes, indirect: u32): set<nat> {
    ordered.Keys + (if indirect != 0 then {indirect as nat} else {})
  }

  /** Reserves and fills the data blocks of the new file, and its indirect block if it needs one. */
  method AllocateFile(a: BitmapAllocator, sb: Superblock, d: Image, number: u32, c: Creation)
    returns (ok: bool, mapping: seq<u32>, before: Writes, ordered: Writes, indirect: u32)
    requires a.first == sb.data.start <= a.valid == sb.totalBlocks <= 8 * |a.bitmap| && 0 < a.first
    modifies a
    ensures |a.bitmap| == |old(a.bitmap)|
    ensures ok ==> LaidOut(d, Blank(number, c), Fill(c), mapping, ordered) && BeforeOf(d, before, ordered.Keys)
    ensures ok ==> ReservedFrom(old(a.bitmap), a.bitmap, a.first, a.valid, FileReserved(ordered, indirect))
    ensures ok ==> |FileReserved(ordered, indirect)| == FileNeeds(c)
    ensures !ok ==> |Free(old(a.bitmap), a.first, a.valid)| < FileNeeds(c)
    ensures ok ==> (indirect != 0 <==> |mapping| > DIRECT_BLOCKS) && (indirect != 0 ==> indirect !in ordered)
  {
    hide ReservedFrom, DataDraft, LaidOut, BeforeOf, StartMapping, First, End, Free;
    var blank, fill := Blank(number, c), Fill(c);
    WholeRange(d, blank, fill);
    ghost var was := a.bitmap;
    indirect := 0;
    ok, mapping, before, ordered := AllocateData(a, sb, d, blank, fill, StartMapping(d, blank, fill));
    if !ok {
      return;
    }
    DraftIsLaidOut(d, blank, fill, mapping, ordered);
    DraftSize(d, blank, fill, StartMapping(d, blank, fill), mapping, ordered, End(fill));
    if |mapping| > DIRECT_BLOCKS {
      ghost var mid := a.bitmap;
      FreeAfter(was, mid, a.first, a.valid, ordered.Keys);
      var b := ReserveBlock(a);
      if b == None {
        ok := false;
        return;
      }
      indirect := b.value;
      ReservedTrans(was, mid, a.bitmap, a.first, a.valid, ordered.Keys, {indirect as nat});
    } else {
      assert FileReserved(ordered, indirect) == ordered.Keys;
    }
  }

  lemma WholeRange(d: Image, i: Inode, req: Request)
    requires req.mode == ReplaceAll
    ensures First(i, req) == 0 <= End(req) == RequiredBlocks(|req.data|) == |StartMapping(d, i, req)|
  {}

  // ---- Putting the plan together ----

  /** What has been reserved and laid out before the metadata is written down. */
  datatype Draft = Draft(
    number: u32, growth: Growth, dirBlock: u32, dirAfter: Block, rootIndirect: u32,
    mapping: seq<u32>, before: Writes, ordered: Writes, indirect: u32, inodeBitmap: seq<byte>, blockBitmap: seq<byte>)

  ghost predicate DraftHolds(sb: Superblock, d: Image, r: Inode, c: Creation, t: Draft) {
    var blocks, inodes := RegionBytes(d, sb.blockBitmap), RegionBytes(d, sb.inodeBitmap);
    var fromRoot, fromFile := RootReserved(t.growth, t.dirBlock, t.rootIndirect), FileReserved(t.ordered, t.indirect);
    && GrowthFits(r, t.growth) && EntryAt(d, r, NewEntry(t.number, c, BLOCK_SIZE), t.growth, t.dirBlock, t.dirAfter)
    && (t.growth == GrowIndirect ==> t.rootIndirect != t.dirBlock && t.rootIndirect != 0)
    && (t.growth != GrowIndirect ==> t.rootIndirect == r.indirect)
    && LaidOut(d, Blank(t.number, c), Fill(c), t.mapping, t.ordered) && BeforeOf(d, t.before, t.ordered.Keys)
    && (t.indirect != 0 <==> |t.mapping| > DIRECT_BLOCKS) && (t.indirect != 0 ==> t.indirect !in t.ordered)
    && fromRoot !! fromFile
    && (forall b :: b in fromRoot + fromFile ==> b in Free(blocks, sb.data.start, sb.totalBlocks))
    && |t.blockBitmap| == |blocks| && |t.inodeBitmap| == |inodes|
    && (forall k: nat :: TestBit(t.blockBitmap, k) <==>
          (TestBit(blocks, k) || k in fromRoot + fromFile)
          && !(t.growth == GrowIndirect && r.indirect != 0 && k == r.indirect))
    && t.number > 0 && t.number - 1 in Free(inodes, 0, sb.totalInodes)
    && (forall k: nat :: TestBit(t.inodeBitmap, k) <==> TestBit(inodes, k) || k == t.number - 1)
    && FirstChosen(sb, d, r, c, t.growth, t.number, fromRoot + fromFile)
  }

  function PlanOf(sb: Superblock, d: Image, r: Inode, c: Creation, t: Draft, tx: Transaction): NewPlan
    requires GrowthFits(r, t.growth) && |c.data| <= MAX_FILE_SIZE
  {
    NewPlan(tx, t.number, t.mapping, NewInode(Blank(t.number, c), Fill(c), t.mapping, t.indirect),
            NewRoot(r, c, t.growth, t.dirBlock, t.rootIndirect), t.growth, t.dirBlock, t.dirAfter,
            t.inodeBitmap, t.blockBitmap,
            RootReserved(t.growth, t.dirBlock, t.rootIndirect) + FileReserved(t.ordered, t.indirect))
  }

  /** The plan repeats the draft. */
  predicate Repeats(t: Draft, p: NewPlan) {
    && p.tx.ordered == t.ordered && p.number == t.number && p.mapping == t.mapping && p.growth == t.growth
    && p.dirBlock == t.dirBlock && p.dirAfter == t.dirAfter && p.root.indirect == t.rootIndirect && p.file.indirect == t.indirect
    && p.inodeBitmap == t.inodeBitmap && p.blockBitmap == t.blockBitmap
    && p.reserved == RootReserved(t.growth, t.dirBlock, t.rootIndirect) + FileReserved(t.ordered, t.indirect)
  }

  lemma PlanRepeats(sb: Superblock, d: Image, r: Inode, c: Creation, t: Draft, tx: Transaction)
    requires DraftHolds(sb, d, r, c, t) && tx.ordered == t.ordered && |c.data| <= MAX_FILE_SIZE
    ensures GrowthFits(r, t.growth) && Repeats(t, PlanOf(sb, d, r, c, t, tx))
    ensures FilePlanned(d, c, PlanOf(sb, d, r, c, t, tx)) && RootPlanned(r, c, PlanOf(sb, d, r, c, t, tx))
  {
    hide FirstChosen;
    hide TestBit, LaidOut, EntryAt, RegionBytes, DirectPointers, Free, BeforeOf;
    LaidOutSize(d, c, t);
  }

  lemma BlocksOfDraft(sb: Superblock, d: Image, r: Inode, c: Creation, t: Draft, p: NewPlan)
    requires DraftHolds(sb, d, r, c, t) && Repeats(t, p)
    ensures BlocksPlanned(sb, d, p) && EntryPlaced(d, r, c, p)
  {
    hide FirstChosen;
    hide TestBit, LaidOut, EntryAt, RegionBytes, Free, BeforeOf;
    assert p.tx.ordered.Keys + JournaledBlocks(p) == p.reserved;
  }

  lemma BitmapsOfDraft(sb: Superblock, d: Image, r: Inode, c: Creation, t: Draft, p: NewPlan)
    requires DraftHolds(sb, d, r, c, t) && Repeats(t, p)
    ensures BitmapsPlanned(sb, d, r, p) && FirstChosen(sb, d, r, c, p.growth, p.number, p.reserved)
  {
    hide FirstChosen, TestBit, LaidOut, EntryAt, RegionBytes, Free, BeforeOf, RootReserved, FileReserved;
  }

  /** A complete draft, written down as a plan, meets the specification of plans. */
  lemma DraftIsPlanned(sb: Superblock, d: Image, r: Inode, c: Creation, t: Draft, tx: Transaction)
    requires Creatable(sb, d, r, c) && DraftHolds(sb, d, r, c, t) && tx.ordered == t.ordered
    ensures GrowthFits(r, t.growth) && |c.data| <= MAX_FILE_SIZE
    ensures var p := PlanOf(sb, d, r, c, t, tx);
      && FilePlanned(d, c, p) && RootPlanned(r, c, p) && EntryPlaced(d, r, c, p)
      && BlocksPlanned(sb, d, p) && BitmapsPlanned(sb, d, r, p) && p.number != sb.rootInode
      && FirstChosen(sb, d, r, c, p.growth, p.number, p.reserved)
  {
    hide FirstChosen;
    hide DraftHolds, FilePlanned, RootPlanned, EntryPlaced, BlocksPlanned, Creatable, Repeats, PlanOf, GrowthFits, TestBit;
    hide RegionBytes;
    SmallEnough(sb, d, r, c);
    PlanRepeats(sb, d, r, c, t, tx);
    var p := PlanOf(sb, d, r, c, t, tx);
    BlocksOfDraft(sb, d, r, c, t, p);
    BitmapsOfDraft(sb, d, r, c, t, p);
    RootFacts(sb, d, r, c);
    NumberIsNew(sb, d, r, p);
  }

  lemma SmallEnough(sb: Superblock, d: Image, r: Inode, c: Creation)
    requires Creatable(sb, d, r, c)
    ensures |c.data| <= MAX_FILE_SIZE && ValidName(c.name) && DirEntries(d, r).Some?
  {
    hide ReadInode, NameIn, WellFormed, ValidSuperblock, ValidName, DirEntries;
  }

  lemma NumberIsNew(sb: Superblock, d: Image, r: Inode, p: NewPlan)
    requires BitmapsPlanned(sb, d, r, p) && InodeUsed(sb, d, sb.rootInode)
    ensures p.number != sb.rootInode
  {
    hide TestBit, RegionBytes;
  }

  lemma LaidOutSize(d: Image, c: Creation, t: Draft)
    requires LaidOut(d, Blank(t.number, c), Fill(c), t.mapping, t.ordered)
    ensures |t.mapping| == RequiredBlocks(|c.data|)
  {
    hide AfterBlock, MapBlock;
  }

  // ---- The planner ----

  /** The inode number: the first free bit. */
  method ReserveInode(sb: Superblock, d: Image) returns (number: Option<u32>, bitmap: seq<byte>)
    requires sb.totalInodes <= 8 * |RegionBytes(d, sb.inodeBitmap)|
    ensures number.Some? ==> var was := RegionBytes(d, sb.inodeBitmap);
      && number.value > 0 && number.value - 1 in Free(was, 0, sb.totalInodes) && |bitmap| == |was|
      && (forall k: nat :: TestBit(bitmap, k) <==> TestBit(was, k) || k == number.value - 1)
      && forall k :: 0 <= k < number.value - 1 ==> TestBit(was, k)
    ensures number == None ==> Free(RegionBytes(d, sb.inodeBitmap), 0, sb.totalInodes) == {}
  {
    hide TestBit, RegionBytes;
    var a := new BitmapAllocator(RegionBytes(d, sb.inodeBitmap), sb.totalInodes, 0);
    var status := a.Reserve();
    bitmap := a.bitmap;
    if status.NoSpace? {
      return None, bitmap;
    }
    FreeIsBounded(RegionBytes(d, sb.inodeBitmap), 0, sb.totalInodes, status.bit);
    number := Some(status.bit + 1);
  }

  /** Where the entry goes; a new directory block if no old one has room. */
  method ChooseSlot(sb: Superblock, d: Image, r: Inode, c: Creation, x: Entry)
    returns (growth: Growth, dirBlock: u32, dirAfter: Block)
    requires DirEntries(d, r).Some? && RootBlocks(r) == RequiredBlocks(r.size) && x.name == c.name
    requires ValidEntry(x) && x.inode != 0 && x.length == BLOCK_SIZE
    ensures growth.InPlace? ==> EntryAt(d, r, x, growth, dirBlock, dirAfter)
    ensures !growth.InPlace? ==> forall b: u32 :: EntryAt(d, r, x, growth, b, dirAfter)
    ensures growth == GrowDirect <==> !growth.InPlace? && RootBlocks(r) < DIRECT_BLOCKS
    ensures GrowthChosen(d, r, c, growth)
  {
    hide ValidEntry, Parse, Tiles, MapBlock, At, DirEntries, GrowthChosen;
    growth, dirBlock, dirAfter := FindSlot(sb, d, r, c, x);
    if !growth.InPlace? {
      OneRecord(x);
      dirAfter := Tiles([x]);
    }
  }

  /** Reserves everything the creation needs; None when the image is out of space. */
  method Reserve(sb: Superblock, d: Image, r: Inode, c: Creation) returns (t: Option<Draft>)
    requires Creatable(sb, d, r, c)
    ensures t.Some? ==> DraftHolds(sb, d, r, c, t.value)
    ensures t == None ==> !CreationFits(sb, d, r, c)
  {
    hide Creatable, DraftHolds, EntryAt, LaidOut, ReservedFrom, BeforeOf, TestBit, RegionBytes, Free, FileReserved, RootReserved;
    hide CreationFits, GrowthChosen, FileNeeds, RootNeeds;
    hide DirEntries, ValidSuperblock, MappingHolds, InodeAt;
    RootFacts(sb, d, r, c);
    SmallEnough(sb, d, r, c);
    CreatableGeometry(sb, d, r, c);
    var number, inodeBitmap := ReserveInode(sb, d);
    if number == None {
      NoInodeLeft(sb, d, r, c);
      return None;
    }
    var x := NewEntry(number.value, c, BLOCK_SIZE);
    EntryIsValid(number.value, c);
    var growth, dirBlock, dirAfter := ChooseSlot(sb, d, r, c, x);
    if !growth.InPlace? && RootBlocks(r) >= MAX_FILE_BLOCKS {
      NoRoomLeft(sb, d, r, c, growth);
      return None;
    }
    ghost var was := RegionBytes(d, sb.blockBitmap);
    var a := new BitmapAllocator(RegionBytes(d, sb.blockBitmap), sb.totalBlocks, sb.data.start);
    var ok, newBlock, rootIndirect := GrowRoot(a, growth, dirBlock, r.indirect);
    if !ok {
      NoBlocksLeft(sb, d, r, c, growth);
      return None;
    }
    ghost var mid := a.bitmap;
    FreeAfter(was, mid, a.first, a.valid, RootReserved(growth, newBlock, rootIndirect));
    var laid, mapping, before, ordered, indirect := AllocateFile(a, sb, d, number.value, c);
    if !laid {
      NoBlocksLeft(sb, d, r, c, growth);
      return None;
    }
    ReservedTrans(was, mid, a.bitmap, a.first, a.valid, RootReserved(growth, newBlock, rootIndirect), FileReserved(ordered, indirect));
    ghost var full := a.bitmap;
    if growth == GrowIndirect && r.indirect != 0 {
      OldIndirectIsReleasable(sb, d, r, c, was, full, RootReserved(growth, newBlock, rootIndirect) + FileReserved(ordered, indirect));
      var status := a.ReleaseAllocated(r.indirect);
      assert status == Released;
    }
    var draft := Draft(number.value, growth, newBlock, dirAfter, rootIndirect, mapping, before, ordered, indirect, inodeBitmap, a.bitmap);
    DraftIsComplete(sb, d, r, c, draft, full);
    t := Some(draft);
  }

  lemma NoInodeLeft(sb: Superblock, d: Image, r: Inode, c: Creation)
    requires Free(RegionBytes(d, sb.inodeBitmap), 0, sb.totalInodes) == {}
    ensures !CreationFits(sb, d, r, c)
  {}

  lemma NoRoomLeft(sb: Superblock, d: Image, r: Inode, c: Creation, growth: Growth)
    requires GrowthChosen(d, r, c, growth) && !growth.InPlace? && RootBlocks(r) >= MAX_FILE_BLOCKS
    ensures !CreationFits(sb, d, r, c)
  {
    hide HasRoom;
  }

  lemma NoBlocksLeft(sb: Superblock, d: Image, r: Inode, c: Creation, growth: Growth)
    requires GrowthChosen(d, r, c, growth) && (growth == GrowDirect <==> !growth.InPlace? && RootBlocks(r) < DIRECT_BLOCKS)
    requires |Free(RegionBytes(d, sb.blockBitmap), sb.data.start, sb.totalBlocks)| < RootNeeds(growth) + FileNeeds(c)
    ensures !CreationFits(sb, d, r, c)
  {
    hide RoomIn, Free, FileNeeds;
    assert growth.InPlace? ==> HasRoom(d, r, c);
  }

  lemma CreatableGeometry(sb: Superblock, d: Image, r: Inode, c: Creation)
    requires Creatable(sb, d, r, c)
    ensures 0 < sb.data.start <= sb.totalBlocks <= 8 * |RegionBytes(d, sb.blockBitmap)|
    ensures sb.totalInodes <= 8 * |RegionBytes(d, sb.inodeBitmap)|
  {
    hide ReadInode, Listable, NameIn, TestBit, ValidSuperblock, ValidName, DirEntries;
    RegionsDisjoint(sb);
  }

  lemma OldIndirectIsReleasable(sb: Superblock, d: Image, r: Inode, c: Creation, was: seq<byte>, now: seq<byte>, reserved: set<nat>)
    requires Creatable(sb, d, r, c) && r.indirect != 0 && was == RegionBytes(d, sb.blockBitmap)
    requires ReservedFrom(was, now, sb.data.start, sb.totalBlocks, reserved)
    ensures sb.data.start <= r.indirect < sb.totalBlocks && TestBit(now, r.indirect) && |now| == |was|
  {
    hide Creatable, TestBit, RegionBytes, Free, MappingHolds, InodeAt, ValidSuperblock;
    RootFacts(sb, d, r, c);
    IndirectIsData(sb, d, r);
  }

  lemma DraftIsComplete(sb: Superblock, d: Image, r: Inode, c: Creation, t: Draft, full: seq<byte>)
    requires var was := RegionBytes(d, sb.blockBitmap);
      var fromRoot, fromFile := RootReserved(t.growth, t.dirBlock, t.rootIndirect), FileReserved(t.ordered, t.indirect);
      && ReservedFrom(was, full, sb.data.start, sb.totalBlocks, fromRoot + fromFile) && fromRoot !! fromFile
    requires |t.blockBitmap| == |full|
    requires forall k: nat :: TestBit(t.blockBitmap, k) <==>
      TestBit(full, k) && !(t.growth == GrowIndirect && r.indirect != 0 && k == r.indirect)
    requires GrowthFits(r, t.growth) && EntryAt(d, r, NewEntry(t.number, c, BLOCK_SIZE), t.growth, t.dirBlock, t.dirAfter)
    requires t.growth == GrowIndirect ==> t.rootIndirect != t.dirBlock && t.rootIndirect != 0
    requires t.growth != GrowIndirect ==> t.rootIndirect == r.indirect
    requires LaidOut(d, Blank(t.number, c), Fill(c), t.mapping, t.ordered) && BeforeOf(d, t.before, t.ordered.Keys)
    requires (t.indirect != 0 <==> |t.mapping| > DIRECT_BLOCKS) && (t.indirect != 0 ==> t.indirect !in t.ordered)
    requires var inodes := RegionBytes(d, sb.inodeBitmap);
      && |t.inodeBitmap| == |inodes| && t.number > 0 && t.number - 1 in Free(inodes, 0, sb.totalInodes)
      && (forall k: nat :: TestBit(t.inodeBitmap, k) <==> TestBit(inodes, k) || k == t.number - 1)
      && forall k :: 0 <= k < t.number - 1 ==> TestBit(inodes, k)
    requires GrowthChosen(d, r, c, t.growth)
    requires |RootReserved(t.growth, t.dirBlock, t.rootIndirect)| == RootNeeds(t.growth)
    requires |FileReserved(t.ordered, t.indirect)| == FileNeeds(c)
    ensures DraftHolds(sb, d, r, c, t)
  {
    hide TestBit, RegionBytes, Free, LaidOut, EntryAt, BeforeOf, RootReserved, FileReserved, GrowthChosen, FileNeeds;
  }

  /** `PrepareNewRootObject`: refuses exactly the requests its checks name, and otherwise fails only
      when the image is out of space. */
  method PrepareNewRootObject(sb: Superblock, d: Image, c: Creation) returns (result: Result<NewPlan>)
    requires ValidSuperblock(sb) && |d| == sb.totalBlocks
    ensures CreationError(sb, d, c).Some? ==> result == Failure(CreationError(sb, d, c).value)
    ensures Healthy(sb, d) ==> RefusedFor(sb, d, c, if result.Failure? && result.errno != ENOSPC then Some(result.errno) else None)
    ensures CreationError(sb, d, c) == None ==>
      var r := ReadInode(sb, d, sb.rootInode).value;
      match result
      case Success(p) => Creatable(sb, d, r, c) && Created(sb, d, r, c, p) && CreationFits(sb, d, r, c)
      case Failure(errno) => errno == ENOSPC && !CreationFits(sb, d, r, c)
  {
    hide Creatable, Created, DraftHolds, CreationError, ReadInode, ValidSuperblock, CreationFits, Healthy, RefusedFor;
    RefusalOf(sb, d, c);
    var error := CreationError(sb, d, c);
    if error.Some? {
      return Failure(error.value);
    }
    NoErrorMeansCreatable(sb, d, c);
    var r := ReadInode(sb, d, sb.rootInode).value;
    var draft := Reserve(sb, d, r, c);
    if draft == None {
      return Failure(ENOSPC);
    }
    var p := WriteDown(sb, d, r, c, draft.value);
    CreatedFits(sb, d, r, c, p);
    result := Success(p);
  }

  lemma CreatedFits(sb: Superblock, d: Image, r: Inode, c: Creation, p: NewPlan)
    requires Created(sb, d, r, c, p)
    ensures CreationFits(sb, d, r, c)
  {
    hide FilePlanned, EntryPlaced, Single, BlockImages, Realizes, TestBit, RegionBytes, RoomIn, TakesFirst, FileNeeds;
    hide LaidOut, NewRoot, JournaledBlocks, OldIndirect;
    var free := Free(RegionBytes(d, sb.blockBitmap), sb.data.start, sb.totalBlocks);
    assert p.reserved <= free;
    SubsetSize(p.reserved, free);
    assert p.growth.InPlace? <==> HasRoom(d, r, c);
  }

  /** An image has one plan for a creation: the same inode number, the same blocks, the same bitmaps. */
  lemma CreationIsUnique(sb: Superblock, d: Image, r: Inode, c: Creation, p: NewPlan, q: NewPlan)
    requires Created(sb, d, r, c, p) && Created(sb, d, r, c, q)
    ensures p.number == q.number && p.growth == q.growth && p.reserved == q.reserved
    ensures p.inodeBitmap == q.inodeBitmap && p.blockBitmap == q.blockBitmap
  {
    hide FilePlanned, EntryPlaced, Realizes, BlocksPlanned, BitmapsPlanned, FirstChosen, GrowthFits;
    SameNumber(sb, d, r, c, p, q);
    SameBlocks(sb, d, r, c, p, q);
  }

  lemma SameNumber(sb: Superblock, d: Image, r: Inode, c: Creation, p: NewPlan, q: NewPlan)
    requires BitmapsPlanned(sb, d, r, p) && FirstChosen(sb, d, r, c, p.growth, p.number, p.reserved)
    requires BitmapsPlanned(sb, d, r, q) && FirstChosen(sb, d, r, c, q.growth, q.number, q.reserved)
    ensures p.number == q.number && p.inodeBitmap == q.inodeBitmap
  {
    hide TestBit, RegionBytes, GrowthChosen, TakesFirst, OldIndirect;
    SameBitmap(p.inodeBitmap, q.inodeBitmap);
  }

  lemma SameBlocks(sb: Superblock, d: Image, r: Inode, c: Creation, p: NewPlan, q: NewPlan)
    requires BitmapsPlanned(sb, d, r, p) && FirstChosen(sb, d, r, c, p.growth, p.number, p.reserved)
    requires BitmapsPlanned(sb, d, r, q) && FirstChosen(sb, d, r, c, q.growth, q.number, q.reserved)
    requires BlocksPlanned(sb, d, p) && GrowthFits(r, p.growth) && BlocksPlanned(sb, d, q) && GrowthFits(r, q.growth)
    ensures p.growth == q.growth && p.reserved == q.reserved && p.blockBitmap == q.blockBitmap
  {
    hide TestBit, RegionBytes, GrowthChosen, TakesFirst, Free, JournaledBlocks, FileNeeds, GrowthFits;
    SameGrowth(d, r, c, p.growth, q.growth);
    FirstFitIsUnique(RegionBytes(d, sb.blockBitmap), sb.data.start, sb.totalBlocks, p.reserved, q.reserved);
    SameBitmap(p.blockBitmap, q.blockBitmap);
  }

  lemma SameGrowth(d: Image, r: Inode, c: Creation, x: Growth, y: Growth)
    requires GrowthChosen(d, r, c, x) && GrowthChosen(d, r, c, y) && GrowthFits(r, x) && GrowthFits(r, y)
    ensures x == y
  {
    hide RoomIn;
    assert x.InPlace? ==> HasRoom(d, r, c);
    assert y.InPlace? ==> HasRoom(d, r, c);
  }

  /** The metadata images of a draft: directory, indirect blocks, two inodes and the bitmaps. */
  method WriteDown(sb: Superblock, d: Image, r: Inode, c: Creation, t: Draft) returns (p: NewPlan)
    requires Creatable(sb, d, r, c) && DraftHolds(sb, d, r, c, t)
    ensures Created(sb, d, r, c, p)
  {
    hide Creatable, DraftHolds, FilePlanned, RootPlanned, EntryPlaced, BlocksPlanned, BitmapsPlanned, Realizes, Carries;
    hide RegionBytes;
    hide BeforeOf, ValidSuperblock, MappingHolds, InodeAt, GrowthFits, BlockImages, PlanOf;
    RootFacts(sb, d, r, c);
    SmallEnough(sb, d, r, c);
    NumberIsPositive(sb, d, r, c, t);
    DraftIsPlanned(sb, d, r, c, t, Transaction(map[], t.ordered, map[]));
    PlanRepeats(sb, d, r, c, t, Transaction(map[], t.ordered, map[]));
    var start := PlanOf(sb, d, r, c, t, Transaction(map[], t.ordered, map[]));
    var blocks := BlockImages(d, r, start);
    WriteDownFacts(sb, d, r, c, t, start);
    CarriesBlocks(sb, d, t.ordered, blocks);
    ghost var edit := Edit(t.ordered, blocks, map[], RegionBytes(d, sb.inodeBitmap), RegionBytes(d, sb.blockBitmap));
    var m;
    m, edit := AddInode(sb, d, blocks, edit, sb.rootInode, start.root);
    m, edit := AddInode(sb, d, m, edit, t.number, start.file);
    OutsideBitmaps(sb, m, blocks);
    m, edit := AddBitmaps(sb, d, m, edit, t.inodeBitmap, t.blockBitmap);
    var before := BeforeImages(d, m);
    BeforeBoth(d, t.before, before, t.ordered.Keys, m.Keys);
    var tx := Transaction(t.before + before, t.ordered, m);
    p := PlanOf(sb, d, r, c, t, tx);
    DraftIsPlanned(sb, d, r, c, t, tx);
    PlanRepeats(sb, d, r, c, t, tx);
    SameEdit(sb, d, r, c, t, tx);
    CarriesRealizes(sb, d, tx, edit);
    assert edit == EditOfNew(sb, d, r, p);
  }

  lemma WriteDownFacts(sb: Superblock, d: Image, r: Inode, c: Creation, t: Draft, p: NewPlan)
    requires Creatable(sb, d, r, c) && DraftHolds(sb, d, r, c, t) && Repeats(t, p)
    requires FilePlanned(d, c, p) && RootPlanned(r, c, p) && EntryPlaced(d, r, c, p) && BlocksPlanned(sb, d, p)
    ensures forall b :: b in BlockImages(d, r, p) ==> InRegion(b, sb.data)
    ensures forall b :: b in t.ordered ==> InRegion(b, sb.data) && b !in BlockImages(d, r, p)
    ensures ValidInode(p.root) && p.root.number == sb.rootInode && ValidInode(p.file) && p.file.number == t.number
  {
    hide Creatable, DraftHolds, FilePlanned, RootPlanned, EntryPlaced, BlocksPlanned, BlockImages, ValidSuperblock;
    hide MappingHolds, InodeAt;
    RootFacts(sb, d, r, c);
    RegionsDisjoint(sb);
    SmallEnough(sb, d, r, c);
    RootShape(r, c, p);
    FileShape(d, c, p);
    NumberIsPositive(sb, d, r, c, t);
    InPlaceIsUsed(sb, d, r, c, p);
    forall b | b in BlockImages(d, r, p)
      ensures InRegion(b, sb.data)
    {
      ImagesOfNew(sb, d, r, p, b);
      if b in JournaledBlocks(p) {
        JournaledIsReserved(sb, d, p, b);
        NewIsData(sb, d, p, b);
      }
    }
    forall b | b in t.ordered
      ensures InRegion(b, sb.data) && b !in BlockImages(d, r, p)
    {
      OrderedIsNew(sb, d, p, b);
      NewIsData(sb, d, p, b);
      ImagesOfNew(sb, d, r, p, b);
    }
  }

  lemma NumberIsPositive(sb: Superblock, d: Image, r: Inode, c: Creation, t: Draft)
    requires DraftHolds(sb, d, r, c, t)
    ensures 1 <= t.number <= sb.totalInodes && BeforeOf(d, t.before, t.ordered.Keys)
    ensures |t.inodeBitmap| == sb.inodeBitmap.count * BLOCK_SIZE && |t.blockBitmap| == sb.blockBitmap.count * BLOCK_SIZE
  {
    hide FirstChosen;
    hide TestBit, LaidOut, EntryAt, BeforeOf, RootReserved, FileReserved, GrowthFits;
  }

  lemma InPlaceIsUsed(sb: Superblock, d: Image, r: Inode, c: Creation, p: NewPlan)
    requires Creatable(sb, d, r, c) && EntryPlaced(d, r, c, p) && BlocksPlanned(sb, d, p)
    ensures sb.data.start <= p.dirBlock < sb.totalBlocks
    ensures p.growth.InPlace? ==> BlockUsed(sb, d, p.dirBlock)
    ensures !p.growth.InPlace? ==> p.dirBlock as nat in JournaledBlocks(p)
  {
    hide Creatable, MapBlock, Parse, At, MappingHolds, InodeAt, ValidSuperblock, BlockUsed, ValidEntry, Free;
    RootFacts(sb, d, r, c);
    if p.growth.InPlace? {
      MappedBlocks(sb, d, r, p.growth.logical);
    } else {
      NewIsData(sb, d, p, p.dirBlock);
    }
  }

  lemma JournaledIsReserved(sb: Superblock, d: Image, p: NewPlan, b: nat)
    requires BlocksPlanned(sb, d, p) && b in JournaledBlocks(p)
    ensures b in p.reserved
  {
    hide Free, JournaledBlocks;
  }

  lemma OrderedIsNew(sb: Superblock, d: Image, p: NewPlan, b: nat)
    requires BlocksPlanned(sb, d, p) && b in p.tx.ordered
    ensures b in p.reserved && b !in JournaledBlocks(p)
  {
    hide Free, JournaledBlocks;
  }

  /** The edit of a plan does not depend on its before-images and metadata. */
  lemma SameEdit(sb: Superblock, d: Image, r: Inode, c: Creation, t: Draft, tx: Transaction)
    requires GrowthFits(r, t.growth) && |c.data| <= MAX_FILE_SIZE && tx.ordered == t.ordered
    ensures EditOfNew(sb, d, r, PlanOf(sb, d, r, c, t, tx))
         == EditOfNew(sb, d, r, PlanOf(sb, d, r, c, t, Transaction(map[], t.ordered, map[])))
    ensures PlanOf(sb, d, r, c, t, tx).tx == tx
  {
    hide GrownIndirect, IndirectBlock, NewInode, NewRoot, GrowthFits, RootReserved, FileReserved;
  }
}
