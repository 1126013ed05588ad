/** Copy-on-write plans for changing one file (src/metadata/file_mutation_plan.cpp): what a plan
    contains, and what an image means once the plan has been applied to it. */
module FilePlan {
  import opened Bytes
  import opened Errors
  import opened OndiskFormat
  import opened Journal
  import opened JournalProtocol
  import opened Bitmap
  import opened ImageView
  import opened ImageEdit
  import opened JournalStore

  datatype Mode = WriteRange | ReplaceAll

  datatype Request = Request(mode: Mode, offset: nat, data: seq<byte>, expectedGeneration: u64, timestamp: u64)

  function WriteEnd(req: Request): nat {
    req.offset + |req.data|
  }

  function NewSize(i: Inode, req: Request): nat {
    if req.mode == ReplaceAll then |req.data|
    else if i.size > WriteEnd(req) then i.size else WriteEnd(req)
  }

  /** The file contents a request asks for: replaced, or overwritten with the gap filled by zeros. */
  function Written(was: seq<byte>, req: Request): (r: seq<byte>)
    ensures req.mode == ReplaceAll ==> r == req.data
    ensures req.mode == WriteRange ==>
      && |r| == (if |was| > WriteEnd(req) then |was| else WriteEnd(req))
      && (forall k :: 0 <= k < |r| ==> r[k] == WrittenByte(was, req, k))
  {
    if req.mode == ReplaceAll then req.data
    else seq(if |was| > WriteEnd(req) then |was| else WriteEnd(req), k requires 0 <= k => WrittenByte(was, req, k))
  }

  function WrittenByte(was: seq<byte>, req: Request, k: nat): byte {
    if req.offset <= k < WriteEnd(req) then req.data[k - req.offset] else if k < |was| then was[k] else 0
  }

  // ---- New block contents ----

  /** `ZeroRange`: clears the part of [begin, end) that falls into the block. */
  function ZeroRange(begin: nat, end: nat, blockBegin: nat, b: Block): (r: Block)
    ensures forall j :: 0 <= j < BLOCK_SIZE ==> r[j] == if begin <= blockBegin + j < end then 0 else b[j]
  {
    var from := if begin > blockBegin then begin - blockBegin else 0;
    var to := if end < blockBegin + BLOCK_SIZE then end - blockBegin else BLOCK_SIZE;
    if from < to then Splice(b, from, Zeros(to - from)) else b
  }

  /** `OverlayData`: copies the part of the data that falls into the block. */
  function OverlayData(begin: nat, data: seq<byte>, blockBegin: nat, b: Block): (r: Block)
    ensures forall j :: 0 <= j < BLOCK_SIZE ==>
      r[j] == if begin <= blockBegin + j < begin + |data| then data[blockBegin + j - begin] else b[j]
  {
    var end := begin + |data|;
    var from := if begin > blockBegin then begin else blockBegin;
    var to := if end < blockBegin + BLOCK_SIZE then end else blockBegin + BLOCK_SIZE;
    if from >= to then b
    else
      var piece := data[from - begin..to - begin];
      var r: Block := Splice(b, from - blockBegin, piece);
      assert forall j :: from - blockBegin <= j < to - blockBegin ==> r[j] == r[from - blockBegin..to - blockBegin][j - (from - blockBegin)];
      r
  }

  /** Logical blocks that get a new physical block. */
  predicate Changed(i: Inode, req: Request, l: nat) {
    if req.mode == ReplaceAll then l < RequiredBlocks(|req.data|)
    else (if i.size < req.offset then i.size else req.offset) / BLOCK_SIZE <= l <= (WriteEnd(req) - 1) / BLOCK_SIZE
  }

  /** The new contents of logical block `l`: read, zero the gap, overlay the data. */
  function AfterBlock(d: Image, i: Inode, req: Request, l: nat): Block {
    var begin := l * BLOCK_SIZE;
    if req.mode == ReplaceAll then OverlayData(0, req.data, begin, ZERO)
    else
      var whole := req.offset <= begin && WriteEnd(req) >= begin + BLOCK_SIZE;
      var kept := if l < RequiredBlocks(i.size) && !whole then At(d, MapBlock(d, i, l)) else ZERO;
      var gap := if req.offset > i.size then ZeroRange(i.size, req.offset, begin, kept) else kept;
      OverlayData(req.offset, req.data, begin, gap)
  }

  /** Inside the new size, a new block holds exactly the requested bytes. */
  lemma AfterBlockIsWritten(d: Image, i: Inode, req: Request, l: nat, j: nat)
    requires j < BLOCK_SIZE && l * BLOCK_SIZE + j < NewSize(i, req)
    ensures AfterBlock(d, i, req, l)[j] == Written(Contents(d, i), req)[l * BLOCK_SIZE + j]
  {
    hide MapBlock, At, Zeros, ZeroRange, OverlayData, Contents;
    var k := l * BLOCK_SIZE + j;
    PositionOf(l, j);
    if req.mode == WriteRange && k < i.size {
      LogicalBlockOf(k, i.size);
      assert Contents(d, i)[k] == At(d, MapBlock(d, i, l))[j];
    }
  }

  lemma PositionOf(l: nat, j: nat)
    requires j < BLOCK_SIZE
    ensures (l * BLOCK_SIZE + j) / BLOCK_SIZE == l && (l * BLOCK_SIZE + j) % BLOCK_SIZE == j
  {}

  // ---- Plans ----

  /** The indirect block for the pointers from logical block 12 on; the rest is zero. */
  function IndirectPointers(mapping: seq<u32>): (r: seq<u32>)
    ensures |r| == POINTERS_PER_BLOCK
    ensures forall k :: 0 <= k < POINTERS_PER_BLOCK ==>
      r[k] == if k + DIRECT_BLOCKS < |mapping| then mapping[k + DIRECT_BLOCKS] else 0
  {
    seq(POINTERS_PER_BLOCK, k requires 0 <= k => if k + DIRECT_BLOCKS < |mapping| then mapping[k + DIRECT_BLOCKS] else 0)
  }

  function IndirectBlock(mapping: seq<u32>): Block {
    PointersBytes(IndirectPointers(mapping))
  }

  function DirectPointers(mapping: seq<u32>): (r: Directs)
    ensures forall l :: 0 <= l < DIRECT_BLOCKS ==> r[l] == if l < |mapping| then mapping[l] else 0
  {
    seq(DIRECT_BLOCKS, l requires 0 <= l => if l < |mapping| then mapping[l] else 0)
  }

  /** Whether the plan writes a new indirect block. */
  predicate ChangesIndirect(i: Inode, req: Request) {
    && RequiredBlocks(NewSize(i, req)) > DIRECT_BLOCKS
    && (req.mode == ReplaceAll || i.indirect == 0 || (WriteEnd(req) - 1) / BLOCK_SIZE >= DIRECT_BLOCKS)
  }

  /** The changed logical blocks are those from `First` up to but not including `End`. */
  function First(i: Inode, req: Request): nat {
    if req.mode == ReplaceAll then 0 else (if i.size < req.offset then i.size else req.offset) / BLOCK_SIZE
  }

  function End(req: Request): nat {
    if req.mode == ReplaceAll then RequiredBlocks(|req.data|)
    else if WriteEnd(req) == 0 then 0 else (WriteEnd(req) - 1) / BLOCK_SIZE + 1
  }

  lemma ChangedRange(i: Inode, req: Request, l: nat)
    requires req.mode == WriteRange ==> req.data != []
    ensures Changed(i, req, l) <==> First(i, req) <= l < End(req)
    ensures First(i, req) <= End(req) <= RequiredBlocks(NewSize(i, req))
  {}

  function BlocksNeeded(i: Inode, req: Request): int {
    End(req) - First(i, req) + (if ChangesIndirect(i, req) then 1 else 0)
  }

  /** Blocks of the old mapping that the new one no longer uses. */
  function ReleasedBlocks(d: Image, i: Inode, req: Request): set<nat> {
    (set l: nat | l < RequiredBlocks(i.size) && (req.mode == ReplaceAll || Changed(i, req, l)) :: MapBlock(d, i, l) as nat)
    + (if i.indirect != 0 && (req.mode == ReplaceAll || ChangesIndirect(i, req)) then {i.indirect as nat} else {})
  }

  datatype Plan = Plan(tx: Transaction, mapping: seq<u32>, inode: Inode, bitmap: seq<byte>, reserved: set<nat>)

  function NewInode(i: Inode, req: Request, mapping: seq<u32>, indirect: u32): Inode
    requires NewSize(i, req) <= MAX_FILE_SIZE && i.generation < 0xFFFF_FFFF_FFFF_FFFF
  {
    i.(size := NewSize(i, req), mtime := req.timestamp, ctime := req.timestamp, generation := i.generation + 1,
       direct := DirectPointers(mapping), indirect := if |mapping| > DIRECT_BLOCKS then indirect else 0)
  }

  /** A request the planner accepts for the inode it read. */
  predicate Accepts(sb: Superblock, d: Image, n: nat, i: Inode, req: Request) {
    && ValidSuperblock(sb) && |d| == sb.totalBlocks
    && ReadInode(sb, d, n) == Success(i) && IsRegular(i.mode)
    && i.generation < 0xFFFF_FFFF_FFFF_FFFF
    && (req.mode == ReplaceAll ==> i.generation == req.expectedGeneration)
    && WriteEnd(req) <= MAX_FILE_SIZE && (req.mode == WriteRange ==> req.data != [])
    && WellFormed(RegionBytes(d, sb.blockBitmap), sb.totalBlocks, sb.data.start)
    && OwnBlocksDistinct(d, i)
  }

  /** Every changed logical block has its own new block holding its new contents. */
  predicate LaidOut(d: Image, i: Inode, req: Request, mapping: seq<u32>, ordered: Writes) {
    && |mapping| == RequiredBlocks(NewSize(i, req))
    && (forall l :: 0 <= l < |mapping| ==>
          if Changed(i, req, l) then mapping[l] in ordered && ordered[mapping[l]] == AfterBlock(d, i, req, l)
          else mapping[l] == MapBlock(d, i, l))
    && (forall k, l :: 0 <= k < l < |mapping| && Changed(i, req, k) && Changed(i, req, l) ==> mapping[k] != mapping[l])
    && ordered.Keys == set l: nat | l < |mapping| && Changed(i, req, l) :: mapping[l] as nat
  }

  predicate DataPlanned(d: Image, i: Inode, req: Request, p: Plan) {
    LaidOut(d, i, req, p.mapping, p.tx.ordered)
  }

  /** New blocks were the first free ones, as many as needed; the bitmap is the old one plus the reserved minus the released blocks. */
  ghost predicate SpacePlanned(sb: Superblock, d: Image, i: Inode, req: Request, p: Plan) {
    var was := RegionBytes(d, sb.blockBitmap);
    && p.reserved == p.tx.ordered.Keys + (if ChangesIndirect(i, req) then {p.inode.indirect as nat} else {})
    && (ChangesIndirect(i, req) ==> p.inode.indirect !in p.tx.ordered)
    && (forall b :: b in p.reserved ==> b in Free(was, sb.data.start, sb.totalBlocks))
    && TakesFirst(was, sb.data.start, p.reserved) && |p.reserved| == BlocksNeeded(i, req)
    && |p.bitmap| == |was|
    && (forall k: nat :: TestBit(p.bitmap, k) <==>
          (TestBit(was, k) || k in p.reserved) && k !in ReleasedBlocks(d, i, req))
  }

  predicate InodePlanned(i: Inode, req: Request, p: Plan) {
    && NewSize(i, req) <= MAX_FILE_SIZE && i.generation < 0xFFFF_FFFF_FFFF_FFFF
    && p.inode == NewInode(i, req, p.mapping, p.inode.indirect)
    && (|p.mapping| > DIRECT_BLOCKS && !ChangesIndirect(i, req) ==> p.inode.indirect == i.indirect)
  }

  /** Besides its data the plan changes the block bitmap, one inode and at most one indirect block. */
  function EditOf(sb: Superblock, d: Image, n: nat, i: Inode, req: Request, p: Plan): Edit {
    Edit(p.tx.ordered,
         if ChangesIndirect(i, req) then Single(p.inode.indirect, IndirectBlock(p.mapping)) else map[],
         map[n := p.inode], RegionBytes(d, sb.inodeBitmap), p.bitmap)
  }

  ghost predicate Planned(sb: Superblock, d: Image, n: nat, i: Inode, req: Request, p: Plan) {
    && DataPlanned(d, i, req, p) && InodePlanned(i, req, p) && SpacePlanned(sb, d, i, req, p)
    && Realizes(sb, d, p.tx, EditOf(sb, d, n, i, req, p))
  }

  // ---- The image after a plan ----

  /** The plan satisfies every check the journal makes of the planner. */
  lemma PlanIsCovered(sb: Superblock, d: Image, n: nat, i: Inode, req: Request, p: Plan)
    requires Planned(sb, d, n, i, req, p)
    ensures Covered(sb, p.tx) && MatchesImage(d, p.tx.before)
  {
    hide SpacePlanned, DataPlanned, InodePlanned, Realizes, EditOf, MatchesImage, Covered;
    EditIsCovered(sb, d, p.tx, EditOf(sb, d, n, i, req, p));
  }

  lemma AcceptedInode(sb: Superblock, d: Image, n: nat, i: Inode, req: Request)
    requires Accepts(sb, d, n, i, req)
    ensures 1 <= n <= sb.totalInodes && i.number == n && i.size <= MAX_FILE_SIZE && NewSize(i, req) <= MAX_FILE_SIZE
    ensures MappingHolds(sb, d, i) && InodeAt(sb, d, n) == Some(i) && InodeUsed(sb, d, n)
  {
    hide MappingHolds, InodeAt, WellFormed, OwnBlocksDistinct, ValidSuperblock, InodeUsed;
    ReadInodeIsSmall(sb, d, n);
  }

  lemma AcceptedRequest(sb: Superblock, d: Image, n: nat, i: Inode, req: Request)
    requires Accepts(sb, d, n, i, req)
    ensures req.mode == WriteRange ==> req.data != []
    ensures OwnBlocksDistinct(d, i) && ValidSuperblock(sb) && |d| == sb.totalBlocks
  {
    hide ReadInode, WellFormed, OwnBlocksDistinct, ValidSuperblock;
  }

  lemma ReservedIsData(sb: Superblock, d: Image, i: Inode, req: Request, p: Plan, b: nat)
    requires SpacePlanned(sb, d, i, req, p) && b in p.reserved
    ensures sb.data.start <= b < sb.totalBlocks && !BlockUsed(sb, d, b)
  {
    hide TestBit, ChangesIndirect, ReleasedBlocks;
  }

  /** What the plan's edit says about bitmaps, inodes and blocks of the data region. */
  lemma BitmapsOfPlan(sb: Superblock, d: Image, n: nat, i: Inode, req: Request, p: Plan)
    requires Planned(sb, d, n, i, req, p)
    ensures RegionBytes(AfterImage(d, p.tx), sb.blockBitmap) == p.bitmap
    ensures RegionBytes(AfterImage(d, p.tx), sb.inodeBitmap) == RegionBytes(d, sb.inodeBitmap)
  {
    hide SpacePlanned, DataPlanned, InodePlanned, Realizes, AfterImage, RegionBytes;
    BitmapsAfter(sb, d, p.tx, EditOf(sb, d, n, i, req, p));
  }

  lemma InodesOfPlan(sb: Superblock, d: Image, n: nat, i: Inode, req: Request, p: Plan, k: nat)
    requires Planned(sb, d, n, i, req, p) && 1 <= k <= sb.totalInodes
    ensures InodeAt(sb, AfterImage(d, p.tx), k) == if k == n then Some(p.inode) else InodeAt(sb, d, k)
  {
    hide SpacePlanned, DataPlanned, InodePlanned, Realizes, AfterImage, InodeAt;
    InodesAfter(sb, d, p.tx, EditOf(sb, d, n, i, req, p), k);
  }

  lemma DataOfPlan(sb: Superblock, d: Image, n: nat, i: Inode, req: Request, p: Plan, b: nat)
    requires Planned(sb, d, n, i, req, p) && sb.data.start <= b < sb.totalBlocks
    ensures At(AfterImage(d, p.tx), b) ==
      if ChangesIndirect(i, req) && b == p.inode.indirect then IndirectBlock(p.mapping)
      else if b in p.tx.ordered then p.tx.ordered[b] else At(d, b)
  {
    hide SpacePlanned, DataPlanned, InodePlanned, TargetsAre, RegionIs, SlotsAre, MatchesImage, AfterImage, ChangesIndirect;
    hide IndirectBlock, ValidSuperblock;
    RegionsDisjoint(sb);
    DataAfter(sb, d, p.tx, EditOf(sb, d, n, i, req, p), b);
  }

  lemma ReleasedWereUsed(sb: Superblock, d: Image, n: nat, i: Inode, req: Request, b: nat)
    requires Accepts(sb, d, n, i, req) && b in ReleasedBlocks(d, i, req)
    ensures DataBlock(sb, d, b)
  {
    hide Accepts, DataBlock, ReleasedBlocks, MappingHolds, Owned, InodeAt;
    AcceptedInode(sb, d, n, i, req);
    if b !in Owned(d, i) {
      NotOwnedIsNotReleased(d, i, req, b);
    }
    OwnedAreData(sb, d, i, b);
  }

  /** Blocks used before and not released are still used; reserved blocks are used; no others. */
  lemma UsedAfter(sb: Superblock, d: Image, n: nat, i: Inode, req: Request, p: Plan, b: nat)
    requires Accepts(sb, d, n, i, req) && Planned(sb, d, n, i, req, p)
    ensures BlockUsed(sb, AfterImage(d, p.tx), b)
      <==> (BlockUsed(sb, d, b) && b !in ReleasedBlocks(d, i, req)) || b in p.reserved
  {
    hide DataPlanned, InodePlanned, Realizes, Accepts, AfterImage, TestBit, ReleasedBlocks;
    hide ChangesIndirect, RegionBytes;
    BitmapsOfPlan(sb, d, n, i, req, p);
    if b in p.reserved && b in ReleasedBlocks(d, i, req) {
      ReservedIsData(sb, d, i, req, p, b);
      ReleasedWereUsed(sb, d, n, i, req, b);
    }
  }

  /** A data block that the plan did not reserve keeps its contents. */
  lemma DataBlockKept(sb: Superblock, d: Image, n: nat, i: Inode, req: Request, p: Plan, b: nat)
    requires Accepts(sb, d, n, i, req) && Planned(sb, d, n, i, req, p) && DataBlock(sb, d, b)
    ensures b !in p.reserved && At(AfterImage(d, p.tx), b) == At(d, b)
  {
    hide DataPlanned, InodePlanned, Realizes, Accepts, AfterImage, TestBit, RegionBytes, ReleasedBlocks, ChangesIndirect, Free;
    DataOfPlan(sb, d, n, i, req, p, b);
    if b in p.reserved {
      ReservedIsData(sb, d, i, req, p, b);
    }
  }

  lemma IndirectRoundTrip(mapping: seq<u32>)
    ensures Pointers(IndirectBlock(mapping)) == IndirectPointers(mapping)
  {
    hide PointersOf, PointersBytes;
    PointersRoundTrip(IndirectPointers(mapping));
  }

  /** The new inode maps every logical block as planned, and nothing beyond. */
  lemma MappingAfter(sb: Superblock, d: Image, n: nat, i: Inode, req: Request, p: Plan, l: nat)
    requires Accepts(sb, d, n, i, req) && Planned(sb, d, n, i, req, p)
    ensures MapBlock(AfterImage(d, p.tx), p.inode, l) == if l < |p.mapping| then p.mapping[l] else 0
  {
    hide SpacePlanned, Realizes, Accepts, AfterImage, Pointers, At, DataPlanned, InodePlanned;
    PlannedSize(i, req, p, d);
    PlannedPointers(i, req, p);
    if DIRECT_BLOCKS <= l < MAX_FILE_BLOCKS && |p.mapping| > DIRECT_BLOCKS {
      if ChangesIndirect(i, req) {
        NewIndirectAfter(sb, d, n, i, req, p);
        IndirectRoundTrip(p.mapping);
      } else {
        OldIndirectAfter(sb, d, n, i, req, p, l);
      }
    }
  }

  lemma PlannedPointers(i: Inode, req: Request, p: Plan)
    requires InodePlanned(i, req, p)
    ensures p.inode.direct == DirectPointers(p.mapping) && p.inode.size == NewSize(i, req)
    ensures |p.mapping| <= DIRECT_BLOCKS ==> p.inode.indirect == 0
    ensures |p.mapping| > DIRECT_BLOCKS && !ChangesIndirect(i, req) ==> p.inode.indirect == i.indirect
    ensures p.inode.generation == i.generation + 1 && p.inode.number == i.number && p.inode.mode == i.mode
    ensures p.inode.linkCount == i.linkCount
  {
    hide ChangesIndirect, DirectPointers;
  }

  lemma NewIndirectAfter(sb: Superblock, d: Image, n: nat, i: Inode, req: Request, p: Plan)
    requires Accepts(sb, d, n, i, req) && Planned(sb, d, n, i, req, p) && ChangesIndirect(i, req)
    ensures At(AfterImage(d, p.tx), p.inode.indirect) == IndirectBlock(p.mapping) && p.inode.indirect != 0
  {
    hide DataPlanned, InodePlanned, Realizes, Accepts, AfterImage, TestBit, ChangesIndirect, IndirectBlock, Free, ReleasedBlocks;
    hide ValidSuperblock;
    AcceptedRequest(sb, d, n, i, req);
    RegionsDisjoint(sb);
    ReservedIsData(sb, d, i, req, p, p.inode.indirect);
    DataOfPlan(sb, d, n, i, req, p, p.inode.indirect);
  }

  lemma OldIndirectAfter(sb: Superblock, d: Image, n: nat, i: Inode, req: Request, p: Plan, l: nat)
    requires Accepts(sb, d, n, i, req) && Planned(sb, d, n, i, req, p) && !ChangesIndirect(i, req)
    requires DIRECT_BLOCKS <= l < MAX_FILE_BLOCKS && |p.mapping| > DIRECT_BLOCKS
    ensures i.indirect != 0 && p.inode.indirect == i.indirect
    ensures Pointers(At(AfterImage(d, p.tx), i.indirect))[l - DIRECT_BLOCKS] == if l < |p.mapping| then p.mapping[l] else 0
  {
    hide SpacePlanned, Realizes, Accepts, AfterImage, At, InodePlanned, PointersOf, AfterBlock, DataBlock;
    AcceptedInode(sb, d, n, i, req);
    PlannedPointers(i, req, p);
    KeptIndirect(sb, d, n, i, req);
    DataBlockKept(sb, d, n, i, req, p, i.indirect);
    assert !Changed(i, req, l);
  }

  /** When a plan keeps the indirect block, it changes no block mapped through it. */
  lemma KeptIndirect(sb: Superblock, d: Image, n: nat, i: Inode, req: Request)
    requires Accepts(sb, d, n, i, req) && !ChangesIndirect(i, req) && RequiredBlocks(NewSize(i, req)) > DIRECT_BLOCKS
    ensures i.indirect != 0 && DataBlock(sb, d, i.indirect) && req.mode == WriteRange
    ensures RequiredBlocks(NewSize(i, req)) == RequiredBlocks(i.size)
    ensures forall l :: l >= DIRECT_BLOCKS ==> !Changed(i, req, l)
  {
    hide Accepts, DataBlock, MapBlock, PointersOf;
    AcceptedInode(sb, d, n, i, req);
  }

  /** The file reads back as the request asks, through direct and indirect mapping alike. */
  lemma ReadsBack(sb: Superblock, d: Image, n: nat, i: Inode, req: Request, p: Plan)
    requires Accepts(sb, d, n, i, req) && Planned(sb, d, n, i, req, p)
    ensures Contents(AfterImage(d, p.tx), p.inode) == Written(Contents(d, i), req)
  {
    hide Planned, Accepts, AfterImage, Contents, Written, ByteOf;
    PlannedPointers(i, req, p) by { PlannedParts(sb, d, n, i, req, p); }
    var r, w := Contents(AfterImage(d, p.tx), p.inode), Written(Contents(d, i), req);
    forall k | 0 <= k < |w|
      ensures r[k] == w[k]
    {
      ByteAfter(sb, d, n, i, req, p, k);
    }
  }

  lemma PlannedParts(sb: Superblock, d: Image, n: nat, i: Inode, req: Request, p: Plan)
    requires Planned(sb, d, n, i, req, p)
    ensures InodePlanned(i, req, p) && DataPlanned(d, i, req, p)
  {
    hide DataPlanned, InodePlanned, SpacePlanned, Realizes;
  }

  lemma ByteAfter(sb: Superblock, d: Image, n: nat, i: Inode, req: Request, p: Plan, k: nat)
    requires Accepts(sb, d, n, i, req) && Planned(sb, d, n, i, req, p) && k < NewSize(i, req)
    ensures ByteOf(AfterImage(d, p.tx), p.inode, k) == Written(Contents(d, i), req)[k]
  {
    hide SpacePlanned, Realizes, Accepts, AfterImage, At, InodePlanned, MapBlock, AfterBlock, Changed;
    hide Contents, Written;
    var l, j := k / BLOCK_SIZE, k % BLOCK_SIZE;
    assert l * BLOCK_SIZE + j == k;
    LogicalBlockOf(k, NewSize(i, req));
    MappingAfter(sb, d, n, i, req, p, l);
    if Changed(i, req, l) {
      OrderedAfter(sb, d, n, i, req, p, p.mapping[l]);
      AfterBlockIsWritten(d, i, req, l, j);
    } else {
      UnchangedBlock(sb, d, n, i, req, l);
      DataBlockKept(sb, d, n, i, req, p, MapBlock(d, i, l));
      UnchangedByte(d, i, req, l, j);
    }
  }

  lemma OrderedAfter(sb: Superblock, d: Image, n: nat, i: Inode, req: Request, p: Plan, b: nat)
    requires Planned(sb, d, n, i, req, p) && b in p.tx.ordered
    ensures At(AfterImage(d, p.tx), b) == p.tx.ordered[b]
  {
    hide DataPlanned, InodePlanned, Realizes, AfterImage, TestBit, ChangesIndirect, Free, ReleasedBlocks;
    ReservedIsData(sb, d, i, req, p, b);
    DataOfPlan(sb, d, n, i, req, p, b);
  }

  /** A block the plan keeps lies below the old size. */
  lemma UnchangedBlock(sb: Superblock, d: Image, n: nat, i: Inode, req: Request, l: nat)
    requires Accepts(sb, d, n, i, req) && !Changed(i, req, l) && l < RequiredBlocks(NewSize(i, req))
    ensures req.mode == WriteRange && req.data != [] && l < RequiredBlocks(i.size)
    ensures DataBlock(sb, d, MapBlock(d, i, l)) && MapBlock(d, i, l) != 0
  {
    hide MapBlock, DataBlock, MappingHolds, Accepts, Changed, NewSize;
    AcceptedInode(sb, d, n, i, req);
    AcceptedRequest(sb, d, n, i, req);
    UnchangedIsOld(i, req, l);
    MappedBlocks(sb, d, i, l);
  }

  lemma UnchangedIsOld(i: Inode, req: Request, l: nat)
    requires (req.mode == WriteRange ==> req.data != []) && !Changed(i, req, l) && l < RequiredBlocks(NewSize(i, req))
    ensures req.mode == WriteRange && l < RequiredBlocks(i.size)
  {}

  lemma UnchangedByte(d: Image, i: Inode, req: Request, l: nat, j: nat)
    requires req.mode == WriteRange && req.data != [] && !Changed(i, req, l) && j < BLOCK_SIZE
    requires l < RequiredBlocks(i.size) && l * BLOCK_SIZE + j < NewSize(i, req)
    ensures Written(Contents(d, i), req)[l * BLOCK_SIZE + j] == At(d, MapBlock(d, i, l))[j]
  {
    hide MapBlock, At, Contents;
    PositionOf(l, j);
  }

  // ---- The mapping checks hold after a plan ----

  /** Every block of the new mapping is allocated afterwards. */
  lemma PlannedBlockIsData(sb: Superblock, d: Image, n: nat, i: Inode, req: Request, p: Plan, l: nat)
    requires Accepts(sb, d, n, i, req) && Planned(sb, d, n, i, req, p) && l < |p.mapping|
    ensures p.mapping[l] != 0 && DataBlock(sb, AfterImage(d, p.tx), p.mapping[l])
    ensures Changed(i, req, l) <==> p.mapping[l] in p.reserved
  {
    hide SpacePlanned, Realizes, Accepts, AfterImage, InodePlanned, MapBlock, AfterBlock, Changed;
    hide BlockUsed, ReleasedBlocks, ValidSuperblock;
    AcceptedRequest(sb, d, n, i, req);
    RegionsDisjoint(sb);
    UsedAfter(sb, d, n, i, req, p, p.mapping[l]);
    if Changed(i, req, l) {
      OrderedIsReserved(sb, d, i, req, p, p.mapping[l]);
      ReservedIsData(sb, d, i, req, p, p.mapping[l]);
    } else {
      UnchangedBlock(sb, d, n, i, req, l);
      DataBlockKept(sb, d, n, i, req, p, p.mapping[l]);
      KeptIsNotReleased(sb, d, n, i, req, l);
    }
  }

  lemma OrderedIsReserved(sb: Superblock, d: Image, i: Inode, req: Request, p: Plan, b: nat)
    requires SpacePlanned(sb, d, i, req, p) && b in p.tx.ordered
    ensures b in p.reserved
  {
    hide TestBit, ChangesIndirect, ReleasedBlocks;
  }

  lemma KeptIsNotReleased(sb: Superblock, d: Image, n: nat, i: Inode, req: Request, l: nat)
    requires Accepts(sb, d, n, i, req) && !Changed(i, req, l) && l < RequiredBlocks(NewSize(i, req))
    ensures MapBlock(d, i, l) !in ReleasedBlocks(d, i, req)
  {
    hide MapBlock, Accepts, ChangesIndirect, NewSize;
    UnchangedBlock(sb, d, n, i, req, l);
    AcceptedRequest(sb, d, n, i, req);
  }

  /** The new inode passes every mapping check of a reader. */
  lemma MappingHoldsAfter(sb: Superblock, d: Image, n: nat, i: Inode, req: Request, p: Plan)
    requires Accepts(sb, d, n, i, req) && Planned(sb, d, n, i, req, p)
    ensures MappingHolds(sb, AfterImage(d, p.tx), p.inode)
  {
    hide Planned, Accepts, AfterImage, Pointers, At, DataBlock, NewSize;
    var e := AfterImage(d, p.tx);
    PlannedParts(sb, d, n, i, req, p);
    PlannedSize(i, req, p, d);
    StillRegular(sb, d, n, i, req, p);
    forall l: nat | l < MAX_FILE_BLOCKS
      ensures MapBlock(e, p.inode, l) == if l < |p.mapping| then p.mapping[l] else 0
      ensures l < |p.mapping| ==> p.mapping[l] != 0 && DataBlock(sb, e, p.mapping[l])
    {
      MappingAfter(sb, d, n, i, req, p, l);
      if l < |p.mapping| {
        PlannedBlockIsData(sb, d, n, i, req, p, l);
      }
    }
    if |p.mapping| > DIRECT_BLOCKS {
      PlannedIndirectIsData(sb, d, n, i, req, p);
    }
    MappingFromBlocks(sb, e, p.inode, p.mapping);
  }

  lemma PlannedSize(i: Inode, req: Request, p: Plan, d: Image)
    requires InodePlanned(i, req, p) && DataPlanned(d, i, req, p)
    ensures p.inode.size == NewSize(i, req) && |p.mapping| == RequiredBlocks(p.inode.size) <= MAX_FILE_BLOCKS
    ensures |p.mapping| <= DIRECT_BLOCKS ==> p.inode.indirect == 0
  {
    hide AfterBlock, Changed, MapBlock, ChangesIndirect;
  }

  lemma StillRegular(sb: Superblock, d: Image, n: nat, i: Inode, req: Request, p: Plan)
    requires Accepts(sb, d, n, i, req) && Planned(sb, d, n, i, req, p)
    ensures IsRegular(p.inode.mode) && !IsDirectory(p.inode.mode)
  {
    hide DataPlanned, InodePlanned, SpacePlanned, Realizes, ReadInode, WellFormed, OwnBlocksDistinct, ValidSuperblock;
    PlannedPointers(i, req, p);
  }

  lemma PlannedIndirectIsData(sb: Superblock, d: Image, n: nat, i: Inode, req: Request, p: Plan)
    requires Accepts(sb, d, n, i, req) && Planned(sb, d, n, i, req, p) && |p.mapping| > DIRECT_BLOCKS
    ensures p.inode.indirect != 0 && DataBlock(sb, AfterImage(d, p.tx), p.inode.indirect)
    ensures ChangesIndirect(i, req) <==> p.inode.indirect in p.reserved
    ensures !ChangesIndirect(i, req) ==> p.inode.indirect == i.indirect != 0
  {
    hide Realizes, Accepts, AfterImage, InodePlanned, MapBlock, AfterBlock, Changed, TestBit;
    hide BlockUsed, ReleasedBlocks, ValidSuperblock, ChangesIndirect;
    AcceptedRequest(sb, d, n, i, req);
    RegionsDisjoint(sb);
    PlannedPointers(i, req, p);
    UsedAfter(sb, d, n, i, req, p, p.inode.indirect);
    if ChangesIndirect(i, req) {
      ReservedIsData(sb, d, i, req, p, p.inode.indirect);
    } else {
      KeptIndirect(sb, d, n, i, req);
      DataBlockKept(sb, d, n, i, req, p, i.indirect);
      KeptIndirectIsNotReleased(sb, d, n, i, req);
    }
  }

  lemma KeptIndirectIsNotReleased(sb: Superblock, d: Image, n: nat, i: Inode, req: Request)
    requires Accepts(sb, d, n, i, req) && !ChangesIndirect(i, req) && RequiredBlocks(NewSize(i, req)) > DIRECT_BLOCKS
    ensures i.indirect !in ReleasedBlocks(d, i, req)
  {
    hide MapBlock, Accepts, NewSize, Changed;
    KeptIndirect(sb, d, n, i, req);
    AcceptedRequest(sb, d, n, i, req);
  }

  /** The mapping checks follow from what each logical block maps to. */
  lemma MappingFromBlocks(sb: Superblock, e: Image, i: Inode, mapping: seq<u32>)
    requires (IsDirectory(i.mode) ==> i.size % BLOCK_SIZE == 0) && |mapping| == RequiredBlocks(i.size) <= MAX_FILE_BLOCKS
    requires forall l: nat :: l < MAX_FILE_BLOCKS ==> MapBlock(e, i, l) == if l < |mapping| then mapping[l] else 0
    requires forall l: nat :: l < |mapping| ==> mapping[l] != 0 && DataBlock(sb, e, mapping[l])
    requires if |mapping| <= DIRECT_BLOCKS then i.indirect == 0 else i.indirect != 0 && DataBlock(sb, e, i.indirect)
    ensures MappingHolds(sb, e, i)
  {
    hide DataBlock, Pointers, At;
    forall l | 0 <= l < DIRECT_BLOCKS
      ensures i.direct[l] == if l < |mapping| then mapping[l] else 0
    {
      assert i.direct[l] == MapBlock(e, i, l);
    }
    if |mapping| > DIRECT_BLOCKS {
      var ps := Pointers(At(e, i.indirect));
      forall k | 0 <= k < POINTERS_PER_BLOCK
        ensures ps[k] == if k + DIRECT_BLOCKS < |mapping| then mapping[k + DIRECT_BLOCKS] else 0
      {
        assert ps[k] == MapBlock(e, i, k + DIRECT_BLOCKS);
      }
    }
  }

  // ---- What a plan does ----

  /** The changed file: its inode is readable, and the next generation holds exactly the new contents. */
  lemma PlanWritesFile(sb: Superblock, d: Image, n: nat, i: Inode, req: Request, p: Plan)
    requires Accepts(sb, d, n, i, req) && Planned(sb, d, n, i, req, p)
    ensures var e := AfterImage(d, p.tx);
      && ReadInode(sb, e, n) == Success(p.inode) && p.inode.generation == i.generation + 1
      && Contents(e, p.inode) == Written(Contents(d, i), req)
  {
    hide Planned, Accepts, AfterImage, MappingHolds, Contents, Written, InodeAt;
    AcceptedInode(sb, d, n, i, req);
    InodesOfPlan(sb, d, n, i, req, p, n);
    BitmapsOfPlan(sb, d, n, i, req, p);
    MappingHoldsAfter(sb, d, n, i, req, p);
    ReadsBack(sb, d, n, i, req, p);
    PlannedParts(sb, d, n, i, req, p);
    PlannedPointers(i, req, p);
  }

  /** Every other file whose blocks this file does not share reads back unchanged. */
  lemma PlanKeepsOtherFiles(sb: Superblock, d: Image, n: nat, i: Inode, req: Request, p: Plan, k: nat)
    requires Accepts(sb, d, n, i, req) && Planned(sb, d, n, i, req, p) && k != n
    requires ReadInode(sb, d, k).Success?
    requires Owned(d, ReadInode(sb, d, k).value) !! Owned(d, i)
    ensures var j, e := ReadInode(sb, d, k).value, AfterImage(d, p.tx);
      && ReadInode(sb, e, k) == Success(j) && Contents(e, j) == Contents(d, j) && Owned(e, j) == Owned(d, j)
      && (forall l: nat :: MapBlock(e, j, l) == MapBlock(d, j, l)) && (forall b :: b in Owned(d, j) ==> At(e, b) == At(d, b))
  {
    hide Planned, Accepts, AfterImage, MappingHolds, Contents, InodeAt, Owned, DataBlock, MapBlock, At;
    var j, e := ReadInode(sb, d, k).value, AfterImage(d, p.tx);
    ReadInodeIsSmall(sb, d, k);
    InodesOfPlan(sb, d, n, i, req, p, k);
    BitmapsOfPlan(sb, d, n, i, req, p);
    forall b | b in Owned(d, j)
      ensures DataBlock(sb, e, b) && At(e, b) == At(d, b)
    {
      OwnedAreData(sb, d, j, b);
      DataBlockKept(sb, d, n, i, req, p, b);
      NotOwnedIsNotReleased(d, i, req, b);
      StillData(sb, d, n, i, req, p, b);
    }
    SameFile(sb, d, e, j);
  }

  lemma NotOwnedIsNotReleased(d: Image, i: Inode, req: Request, b: nat)
    requires b !in Owned(d, i)
    ensures b !in ReleasedBlocks(d, i, req)
  {
    hide MapBlock, ChangesIndirect, Changed;
  }

  lemma StillData(sb: Superblock, d: Image, n: nat, i: Inode, req: Request, p: Plan, b: nat)
    requires Accepts(sb, d, n, i, req) && Planned(sb, d, n, i, req, p)
    requires DataBlock(sb, d, b) && b !in ReleasedBlocks(d, i, req)
    ensures DataBlock(sb, AfterImage(d, p.tx), b)
  {
    hide Planned, Accepts, AfterImage, ReleasedBlocks, BlockUsed;
    UsedAfter(sb, d, n, i, req, p, b);
  }
}
