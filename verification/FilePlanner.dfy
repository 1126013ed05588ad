/** `PrepareFileMutation`: builds the plan for one file change step by step
    (src/metadata/file_mutation_plan.cpp). */
module FilePlanner {
  import opened Bytes
  import opened Order
  import opened Errors
  import opened OndiskFormat
  import opened Journal
  import opened Bitmap
  import opened ImageView
  import opened ImageEdit
  import opened PlanBuilder
  import opened FilePlan
  import opened Health
  import opened JournalStore

  /** The checks before any block is reserved. */
  function RequestError(sb: Superblock, d: Image, n: nat, req: Request): Option<Errno> {
    if n == 0 || (req.mode == WriteRange && req.data == []) then Some(EINVAL)
    else if WriteEnd(req) > MAX_FILE_SIZE then Some(EFBIG)
    else
      match ReadInode(sb, d, n)
      case Failure(errno) => Some(errno)
      case Success(i) =>
        if !IsRegular(i.mode) then Some(if IsDirectory(i.mode) then EISDIR else EINVAL)
        else if req.mode == ReplaceAll && i.generation != req.expectedGeneration then Some(ESTALE)
        else if i.generation == 0xFFFF_FFFF_FFFF_FFFF then Some(EOVERFLOW)
        else if !OwnBlocksDistinct(d, i) || !WellFormed(RegionBytes(d, sb.blockBitmap), sb.totalBlocks, sb.data.start)
        then Some(EUCLEAN)
        else None
  }

  /** Why a file change is refused on a healthy image, in terms of what the image holds. */
  ghost predicate ChangeRefusedFor(sb: Superblock, d: Image, n: nat, req: Request, error: Option<Errno>) {
    var i := FileAt(sb, d, n);
    if n == 0 || (req.mode == WriteRange && |req.data| == 0) then error == Some(EINVAL)
    else if req.offset + |req.data| > 4243456 then error == Some(EFBIG)
    else if n > sb.totalInodes then error == Some(EINVAL)
    else if !InodeUsed(sb, d, n) then error == Some(ENOENT)
    else if IsDirectory(i.mode) then error == Some(EISDIR)
    else if req.mode == ReplaceAll && i.generation != req.expectedGeneration then error == Some(ESTALE)
    else if i.generation + 1 == 0x1_0000_0000_0000_0000 then error == Some(EOVERFLOW)
    else error == None
  }

  lemma RequestErrorIs(sb: Superblock, d: Image, n: nat, req: Request)
    requires SpaceHealthy(sb, d)
    ensures ChangeRefusedFor(sb, d, n, req, RequestError(sb, d, n, req))
  {
    hide MappingHolds, OwnBlocksDistinct, WellFormed, RegionBytes, ValidSuperblock, OwnedBySome, DataBlock, Owned, DecodeInode;
    hide InodeUsed, TestBit;
    if InodeUsed(sb, d, n) {
      assert ReadInode(sb, d, n) == Success(FileAt(sb, d, n)) && OwnBlocksDistinct(d, FileAt(sb, d, n));
    }
  }

  lemma ChangeRefusalOf(sb: Superblock, d: Image, n: nat, req: Request)
    ensures SpaceHealthy(sb, d) ==> ChangeRefusedFor(sb, d, n, req, RequestError(sb, d, n, req))
    ensures RequestError(sb, d, n, req) != Some(ENOSPC)
  {
    hide SpaceHealthy, ChangeRefusedFor, InodeAt, MappingHolds, InodeUsed, RegionBytes, WellFormed, OwnBlocksDistinct;
    if SpaceHealthy(sb, d) {
      RequestErrorIs(sb, d, n, req);
    }
  }

  lemma NoErrorMeansAccepted(sb: Superblock, d: Image, n: nat, req: Request)
    requires ValidSuperblock(sb) && |d| == sb.totalBlocks && RequestError(sb, d, n, req) == None
    ensures ReadInode(sb, d, n).Success? && Accepts(sb, d, n, ReadInode(sb, d, n).value, req)
  {
    hide ReadInode, OwnBlocksDistinct, WellFormed, ValidSuperblock, RegionBytes;
  }

  /** `LoadMapping`. */
  method LoadMapping(d: Image, i: Inode) returns (mapping: seq<u32>)
    ensures mapping == Mapping(d, i)
  {
    hide MapBlock;
    mapping := [];
    for l := 0 to RequiredBlocks(i.size)
      invariant |mapping| == l && forall k :: 0 <= k < l ==> mapping[k] == MapBlock(d, i, k)
    {
      mapping := mapping + [MapBlock(d, i, l)];
    }
  }

  /** The duplicate test on the old mapping and its indirect block. */
  method CheckDistinct(d: Image, i: Inode, mapping: seq<u32>) returns (ok: bool)
    requires mapping == Mapping(d, i)
    ensures ok <==> OwnBlocksDistinct(d, i)
  {
    hide MapBlock;
    var seen: set<u32> := {};
    for l := 0 to |mapping|
      invariant forall b :: b in seen <==> exists k :: 0 <= k < l && mapping[k] == b
      invariant forall k, m :: 0 <= k < m < l ==> mapping[k] != mapping[m]
    {
      if mapping[l] in seen {
        return false;
      }
      seen := seen + {mapping[l]};
    }
    ok := i.indirect == 0 || i.indirect !in seen;
  }

  // ---- Reserving and filling the new data blocks ----

  ghost predicate Sourced(mapping: seq<u32>, first: nat, end: nat, b: nat) {
    exists l :: first <= l < end <= |mapping| && mapping[l] == b
  }

  ghost predicate DataDraft(d: Image, i: Inode, req: Request, start: seq<u32>, mapping: seq<u32>, ordered: Writes, end: nat) {
    var first := First(i, req);
    && first <= end <= |mapping| == |start|
    && (forall l :: 0 <= l < |mapping| ==>
          if first <= l < end then mapping[l] in ordered && ordered[mapping[l]] == AfterBlock(d, i, req, l)
          else mapping[l] == start[l])
    && (forall k, l :: first <= k < l < end ==> mapping[k] != mapping[l])
    && (forall b :: b in ordered ==> Sourced(mapping, first, end, b))
    && |ordered| == end - first
  }

  ghost predicate ReservedFrom(was: seq<byte>, now: seq<byte>, first: nat, valid: nat, reserved: set<nat>) {
    && |now| == |was|
    && (forall b :: b in reserved ==> b in Free(was, first, valid)) && TakesFirst(was, first, reserved)
    && (forall k: nat :: TestBit(now, k) <==> TestBit(was, k) || k in reserved)
  }

  lemma NextBlockIsNew(was: seq<byte>, now: seq<byte>, first: nat, valid: nat, reserved: set<nat>, b: nat, next: seq<byte>)
    requires ReservedFrom(was, now, first, valid, reserved) && b in Free(now, first, valid) && |next| == |now|
    requires forall k: nat :: TestBit(next, k) <==> TestBit(now, k) || k == b
    requires forall k :: first <= k < b ==> TestBit(now, k)
    ensures b !in reserved && ReservedFrom(was, next, first, valid, reserved + {b})
  {
    hide TestBit;
  }

  lemma FreeIsReserved(was: seq<byte>, now: seq<byte>, first: nat, valid: nat, reserved: set<nat>)
    requires ReservedFrom(was, now, first, valid, reserved) && Free(now, first, valid) == {}
    ensures Free(was, first, valid) == reserved
  {
    hide TestBit;
    forall k | k in Free(was, first, valid)
      ensures k in reserved
    {
      assert k !in Free(now, first, valid);
    }
  }

  /** What is left after a reservation. */
  lemma FreeAfter(was: seq<byte>, now: seq<byte>, first: nat, valid: nat, reserved: set<nat>)
    requires ReservedFrom(was, now, first, valid, reserved)
    ensures |Free(now, first, valid)| == |Free(was, first, valid)| - |reserved|
  {
    hide TestBit;
    assert Free(now, first, valid) == Free(was, first, valid) - reserved;
    SubsetSize(reserved, Free(was, first, valid));
  }

  lemma DraftStep(d: Image, i: Inode, req: Request, start: seq<u32>, mapping: seq<u32>, ordered: Writes, l: nat, b: u32)
    requires DataDraft(d, i, req, start, mapping, ordered, l) && l < |mapping| && b !in ordered
    ensures DataDraft(d, i, req, start, mapping[l := b], ordered[b := AfterBlock(d, i, req, l)], l + 1)
  {
    hide AfterBlock, First, Sourced;
    var m, o := mapping[l := b], ordered[b as nat := AfterBlock(d, i, req, l)];
    var first := First(i, req);
    assert o.Keys == ordered.Keys + {b as nat};
    DraftSources(mapping, ordered, first, l, b, m, o);
  }

  lemma DraftSources(mapping: seq<u32>, ordered: Writes, first: nat, l: nat, b: u32, m: seq<u32>, o: Writes)
    requires first <= l < |mapping| && m == mapping[l := b] && o.Keys == ordered.Keys + {b as nat}
    requires forall c :: c in ordered ==> Sourced(mapping, first, l, c)
    ensures forall c :: c in o ==> Sourced(m, first, l + 1, c)
  {
    forall c | c in o
      ensures Sourced(m, first, l + 1, c)
    {
      if c == b {
        assert m[l] == c;
      } else {
        var k :| first <= k < l && mapping[k] == c;
        assert m[k] == c;
      }
    }
  }

  /** `AddOrderedBlock` for every changed logical block: reserve, remember the old bytes, store the new. */
  method AllocateData(a: BitmapAllocator, sb: Superblock, d: Image, i: Inode, req: Request, start: seq<u32>)
    returns (ok: bool, mapping: seq<u32>, before: Writes, ordered: Writes)
    requires a.first == sb.data.start <= a.valid == sb.totalBlocks <= 8 * |a.bitmap|
    requires First(i, req) <= End(req) <= |start|
    modifies a
    ensures ReservedFrom(old(a.bitmap), a.bitmap, a.first, a.valid, ordered.Keys) && |a.bitmap| == |old(a.bitmap)|
    ensures ok ==> DataDraft(d, i, req, start, mapping, ordered, End(req))
    ensures ok ==> BeforeOf(d, before, ordered.Keys)
    ensures !ok ==> |Free(old(a.bitmap), a.first, a.valid)| < End(req) - First(i, req)
  {
    hide Free, TestBit, AfterBlock, At, DataDraft, ReservedFrom, BeforeOf, First, End;
    mapping, before, ordered := start, map[], map[];
    ghost var was := a.bitmap;
    DraftStart(d, i, req, start);
    ReserveNothing(was, a.first, a.valid);
    BeforeNothing(d);
    for l := First(i, req) to End(req)
      invariant ReservedFrom(was, a.bitmap, a.first, a.valid, ordered.Keys)
      invariant |a.bitmap| == |was|
      invariant DataDraft(d, i, req, start, mapping, ordered, l)
      invariant BeforeOf(d, before, ordered.Keys)
    {
      ghost var now := a.bitmap;
      DraftSize(d, i, req, start, mapping, ordered, l);
      var reserved := a.Reserve();
      if reserved.NoSpace? {
        FreeIsReserved(was, now, a.first, a.valid, ordered.Keys);
        return false, mapping, before, ordered;
      }
      FreeIsBounded(now, a.first, a.valid, reserved.bit);
      NextBlockIsNew(was, now, a.first, a.valid, ordered.Keys, reserved.bit, a.bitmap);
      DraftStep(d, i, req, start, mapping, ordered, l, reserved.bit);
      BeforeMore(d, before, ordered.Keys, reserved.bit);
      ghost var keys := ordered.Keys;
      mapping := mapping[l := reserved.bit];
      before := Adding(before, reserved.bit, At(d, reserved.bit));
      ordered := ordered[reserved.bit := AfterBlock(d, i, req, l)];
      assert ordered.Keys == keys + {reserved.bit};
    }
    ok := true;
  }

  lemma DraftSize(d: Image, i: Inode, req: Request, start: seq<u32>, mapping: seq<u32>, ordered: Writes, l: nat)
    requires DataDraft(d, i, req, start, mapping, ordered, l)
    ensures |mapping| == |start| && |ordered| == |ordered.Keys| == l - First(i, req)
  {
    hide AfterBlock, First, Sourced;
  }

  lemma FreeIsBounded(bitmap: seq<byte>, first: nat, valid: nat, b: nat)
    requires b in Free(bitmap, first, valid)
    ensures first <= b < valid
  {}

  lemma DraftStart(d: Image, i: Inode, req: Request, start: seq<u32>)
    requires First(i, req) <= |start|
    ensures DataDraft(d, i, req, start, start, map[], First(i, req))
  {}

  lemma ReserveNothing(was: seq<byte>, first: nat, valid: nat)
    ensures ReservedFrom(was, was, first, valid, {})
  {}

  // ---- Releasing, bitmap blocks, indirect block and inode ----

  method ReleaseAll(a: BitmapAllocator, released: set<nat>)
    requires a.valid <= 8 * |a.bitmap|
    requires forall b :: b in released ==> a.first <= b < a.valid && TestBit(a.bitmap, b)
    modifies a
    ensures |a.bitmap| == |old(a.bitmap)|
    ensures forall k: nat :: TestBit(a.bitmap, k) <==> TestBit(old(a.bitmap), k) && k !in released
  {
    hide TestBit, Ascending;
    var keys := Ascending(released);
    for l := 0 to |keys|
      invariant |a.bitmap| == |old(a.bitmap)|
      invariant forall k: nat :: TestBit(a.bitmap, k) <==> TestBit(old(a.bitmap), k) && k !in keys[..l]
    {
      assert keys[l] in released && keys[l] !in keys[..l];
      var status := a.ReleaseAllocated(keys[l]);
      assert status == Released;
      assert keys[..l + 1] == keys[..l] + [keys[l]];
    }
    assert keys[..|keys|] == keys;
  }

  /** The mapping before any block is replaced: the old one, padded with zeros; all zeros for a
      full replacement. */
  function StartMapping(d: Image, i: Inode, req: Request): (r: seq<u32>)
    ensures |r| == RequiredBlocks(NewSize(i, req))
    ensures forall l :: 0 <= l < |r| ==>
      r[l] == if req.mode == WriteRange && l < RequiredBlocks(i.size) then MapBlock(d, i, l) else 0
  {
    seq(RequiredBlocks(NewSize(i, req)), l requires 0 <= l =>
      if req.mode == WriteRange && l < RequiredBlocks(i.size) then MapBlock(d, i, l) else 0)
  }

  /** The space a plan takes and gives back. */
  ghost predicate SpaceDraft(sb: Superblock, d: Image, i: Inode, req: Request, ordered: Writes, indirect: u32, bitmap: seq<byte>) {
    var was := RegionBytes(d, sb.blockBitmap);
    var reserved := ordered.Keys + (if ChangesIndirect(i, req) then {indirect as nat} else {});
    && (if ChangesIndirect(i, req) then indirect !in ordered
        else indirect == if req.mode == ReplaceAll then 0 else i.indirect)
    && (forall b :: b in reserved ==> b in Free(was, sb.data.start, sb.totalBlocks))
    && TakesFirst(was, sb.data.start, reserved) && |reserved| == BlocksNeeded(i, req)
    && |bitmap| == |was|
    && (forall k: nat :: TestBit(bitmap, k) <==> (TestBit(was, k) || k in reserved) && k !in ReleasedBlocks(d, i, req))
  }

  /** Reserves data blocks, then the indirect block, and only then releases the old blocks. */
  method Allocate(sb: Superblock, d: Image, i: Inode, req: Request, ghost n: nat)
    returns (ok: bool, mapping: seq<u32>, before: Writes, ordered: Writes, indirect: u32, bitmap: seq<byte>)
    requires Accepts(sb, d, n, i, req)
    ensures ok ==> DataDraft(d, i, req, StartMapping(d, i, req), mapping, ordered, End(req))
    ensures ok ==> BeforeOf(d, before, ordered.Keys)
    ensures ok ==> SpaceDraft(sb, d, i, req, ordered, indirect, bitmap)
    ensures !ok ==> |Free(RegionBytes(d, sb.blockBitmap), sb.data.start, sb.totalBlocks)| < BlocksNeeded(i, req)
  {
    hide Free, TestBit, DataDraft, ReservedFrom, BeforeOf, First, End, RegionBytes, Accepts, ReleasedBlocks, ChangesIndirect;
    hide StartMapping, SpaceDraft;
    AcceptedGeometry(sb, d, n, i, req);
    ghost var was := RegionBytes(d, sb.blockBitmap);
    var a := new BitmapAllocator(RegionBytes(d, sb.blockBitmap), sb.totalBlocks, sb.data.start);
    bitmap := a.bitmap;
    indirect := if req.mode == ReplaceAll then 0 else i.indirect;
    ok, mapping, before, ordered := AllocateData(a, sb, d, i, req, StartMapping(d, i, req));
    if !ok {
      return;
    }
    ghost var reserved := ordered.Keys;
    DraftSize(d, i, req, StartMapping(d, i, req), mapping, ordered, End(req));
    if ChangesIndirect(i, req) {
      ghost var now := a.bitmap;
      var status := a.Reserve();
      if status.NoSpace? {
        FreeIsReserved(was, now, a.first, a.valid, ordered.Keys);
        ok := false;
        return;
      }
      FreeIsBounded(now, a.first, a.valid, status.bit);
      NextBlockIsNew(was, now, a.first, a.valid, ordered.Keys, status.bit, a.bitmap);
      indirect := status.bit;
      reserved := reserved + {status.bit};
    }
    ReleasableNow(sb, d, n, i, req, was, a.bitmap, reserved);
    ghost var full := a.bitmap;
    ReleaseAll(a, ReleasedBlocks(d, i, req));
    bitmap := a.bitmap;
    SpaceIsDrafted(sb, d, i, req, ordered, indirect, full, bitmap, reserved);
  }

  lemma AcceptedGeometry(sb: Superblock, d: Image, n: nat, i: Inode, req: Request)
    requires Accepts(sb, d, n, i, req)
    ensures sb.data.start <= sb.totalBlocks <= 8 * |RegionBytes(d, sb.blockBitmap)|
    ensures First(i, req) <= End(req) <= |StartMapping(d, i, req)| <= MAX_FILE_BLOCKS
  {
    hide ReadInode, OwnBlocksDistinct, TestBit, ValidSuperblock, StartMapping;
    AcceptedInode(sb, d, n, i, req);
    ChangedRange(i, req, 0);
  }

  /** Everything to be released is still allocated after the reservations. */
  lemma ReleasableNow(sb: Superblock, d: Image, n: nat, i: Inode, req: Request, was: seq<byte>, now: seq<byte>, reserved: set<nat>)
    requires Accepts(sb, d, n, i, req) && was == RegionBytes(d, sb.blockBitmap)
    requires ReservedFrom(was, now, sb.data.start, sb.totalBlocks, reserved)
    ensures forall b :: b in ReleasedBlocks(d, i, req) ==> sb.data.start <= b < sb.totalBlocks && TestBit(now, b)
    ensures |now| == |was|
  {
    hide Accepts, ReleasedBlocks, TestBit, RegionBytes, Free;
    forall b | b in ReleasedBlocks(d, i, req)
      ensures sb.data.start <= b < sb.totalBlocks && TestBit(now, b)
    {
      ReleasedWereUsed(sb, d, n, i, req, b);
    }
  }

  lemma SpaceIsDrafted(sb: Superblock, d: Image, i: Inode, req: Request, ordered: Writes, indirect: u32,
                       full: seq<byte>, bitmap: seq<byte>, reserved: set<nat>)
    requires ReservedFrom(RegionBytes(d, sb.blockBitmap), full, sb.data.start, sb.totalBlocks, reserved)
    requires reserved == ordered.Keys + (if ChangesIndirect(i, req) then {indirect as nat} else {})
    requires |reserved| == BlocksNeeded(i, req)
    requires if ChangesIndirect(i, req) then indirect !in ordered
      else indirect == if req.mode == ReplaceAll then 0 else i.indirect
    requires |bitmap| == |full|
    requires forall k: nat :: TestBit(bitmap, k) <==> TestBit(full, k) && k !in ReleasedBlocks(d, i, req)
    ensures SpaceDraft(sb, d, i, req, ordered, indirect, bitmap)
  {
    hide TestBit, ReleasedBlocks, ChangesIndirect, RegionBytes, Free;
  }

  /** What `PrepareFileMutation` does once the request has passed its checks. */
  method Build(sb: Superblock, d: Image, n: nat, i: Inode, req: Request) returns (r: Result<Plan>)
    requires Accepts(sb, d, n, i, req)
    ensures match r
      case Success(p) => Planned(sb, d, n, i, req, p) && SpaceSuffices(sb, d, i, req)
      case Failure(errno) => errno == ENOSPC && !SpaceSuffices(sb, d, i, req)
  {
    hide DataDraft, SpaceDraft, Accepts, Planned, ChangesIndirect, RegionBytes, Free, End, First, StartMapping;
    hide MappingHolds, InodeAt, OwnBlocksDistinct, ValidSuperblock, RegionIs, SlotsAre, BeforeOf, IndirectBlock;
    var ok, mapping, dataBefore, ordered, indirect, bitmap := Allocate(sb, d, i, req, n);
    if !ok {
      return Failure(ENOSPC);
    }
    DraftFits(sb, d, n, i, req, mapping, ordered);
    AcceptedInode(sb, d, n, i, req);
    AcceptedRequest(sb, d, n, i, req);
    SpaceFits(sb, d, i, req, ordered, indirect, bitmap);
    var inode := NewInode(i, req, mapping, indirect);
    var reserved := ordered.Keys + (if ChangesIndirect(i, req) then {indirect as nat} else {});
    var blocks: Writes := if ChangesIndirect(i, req) then Single(indirect, IndirectBlock(mapping)) else map[];
    NewBlocksAreData(sb, d, i, req, ordered, indirect, bitmap, mapping);
    ghost var edit := Edit(ordered, blocks, map[], RegionBytes(d, sb.inodeBitmap), RegionBytes(d, sb.blockBitmap));
    CarriesBlocks(sb, d, ordered, blocks);
    var metadata;
    metadata, edit := AddInode(sb, d, blocks, edit, n, inode);
    OutsideBitmaps(sb, metadata, blocks);
    metadata, edit := AddBitmaps(sb, d, metadata, edit, RegionBytes(d, sb.inodeBitmap), bitmap);
    var before := BeforeImages(d, metadata);
    var p := Plan(Transaction(dataBefore + before, ordered, metadata), mapping, inode, bitmap, reserved);
    DraftIsLaidOut(d, i, req, mapping, ordered);
    SpaceIsPlanned(sb, d, n, i, req, p, indirect);
    BeforeBoth(d, dataBefore, before, ordered.Keys, metadata.Keys);
    AllPlanned(sb, d, n, i, req, p, edit);
    PlanSuffices(sb, d, n, i, req, p);
    r := Success(p);
  }

  lemma OutsideBitmaps(sb: Superblock, m: Writes, blocks: Writes)
    requires ValidSuperblock(sb) && (forall b :: b in blocks ==> InRegion(b, sb.data))
    requires forall b :: b in m ==> b in blocks || InRegion(b, sb.inodeTable)
    ensures forall b :: b in m ==> !InRegion(b, sb.inodeBitmap) && !InRegion(b, sb.blockBitmap)
  {
    hide ValidSuperblock;
    RegionsDisjoint(sb);
  }

  lemma NewBlocksAreData(sb: Superblock, d: Image, i: Inode, req: Request, ordered: Writes, indirect: u32, bitmap: seq<byte>,
                       mapping: seq<u32>)
    requires ValidSuperblock(sb) && SpaceDraft(sb, d, i, req, ordered, indirect, bitmap)
    ensures ChangesIndirect(i, req) ==>
      indirect !in ordered && forall b :: b in Single(indirect, IndirectBlock(mapping)) ==> InRegion(b, sb.data)
    ensures forall b :: b in ordered ==> InRegion(b, sb.data)
  {
    hide TestBit, ReleasedBlocks, ChangesIndirect, RegionBytes, ValidSuperblock, IndirectBlock;
    RegionsDisjoint(sb);
    if ChangesIndirect(i, req) {
      FreeIsBounded(RegionBytes(d, sb.blockBitmap), sb.data.start, sb.totalBlocks, indirect);
    }
    forall b | b in ordered
      ensures InRegion(b, sb.data)
    {
      FreeIsBounded(RegionBytes(d, sb.blockBitmap), sb.data.start, sb.totalBlocks, b);
    }
  }

  lemma SpaceFits(sb: Superblock, d: Image, i: Inode, req: Request, ordered: Writes, indirect: u32, bitmap: seq<byte>)
    requires SpaceDraft(sb, d, i, req, ordered, indirect, bitmap)
    ensures |bitmap| == sb.blockBitmap.count * BLOCK_SIZE
    ensures ChangesIndirect(i, req) ==> sb.data.start <= indirect
  {
    hide TestBit, ReleasedBlocks, ChangesIndirect;
    if ChangesIndirect(i, req) {
      assert indirect as nat in Free(RegionBytes(d, sb.blockBitmap), sb.data.start, sb.totalBlocks);
    }
  }

  lemma DraftFits(sb: Superblock, d: Image, n: nat, i: Inode, req: Request, mapping: seq<u32>, ordered: Writes)
    requires Accepts(sb, d, n, i, req)
    requires DataDraft(d, i, req, StartMapping(d, i, req), mapping, ordered, End(req))
    ensures |mapping| == RequiredBlocks(NewSize(i, req)) <= MAX_FILE_BLOCKS
    ensures NewSize(i, req) <= MAX_FILE_SIZE && i.generation < 0xFFFF_FFFF_FFFF_FFFF
    ensures forall indirect: u32 :: ValidInode(NewInode(i, req, mapping, indirect))
  {
    hide AfterBlock, First, End, StartMapping, Sourced, ReadInode, WellFormed, OwnBlocksDistinct, ValidSuperblock;
    AcceptedInode(sb, d, n, i, req);
    ReadInodeIsSmall(sb, d, n);
  }

  lemma DraftIsLaidOut(d: Image, i: Inode, req: Request, mapping: seq<u32>, ordered: Writes)
    requires req.mode == WriteRange ==> req.data != []
    requires DataDraft(d, i, req, StartMapping(d, i, req), mapping, ordered, End(req))
    ensures LaidOut(d, i, req, mapping, ordered)
  {
    hide AfterBlock, First, End, Changed, MapBlock, NewSize;
    forall l: nat
      ensures Changed(i, req, l) <==> First(i, req) <= l < End(req)
      ensures !Changed(i, req, l) && l < |mapping| ==> req.mode == WriteRange && l < RequiredBlocks(i.size)
    {
      ChangedRange(i, req, l);
      if !Changed(i, req, l) && l < |mapping| {
        UnchangedIsOld(i, req, l);
      }
    }
    KeysAreChanged(i, req, mapping, ordered);
  }

  lemma KeysAreChanged(i: Inode, req: Request, mapping: seq<u32>, ordered: Writes)
    requires forall l: nat :: Changed(i, req, l) <==> First(i, req) <= l < End(req)
    requires forall l :: First(i, req) <= l < End(req) <= |mapping| ==> mapping[l] in ordered
    requires End(req) <= |mapping| && forall b :: b in ordered ==> Sourced(mapping, First(i, req), End(req), b)
    ensures ordered.Keys == set l: nat | l < |mapping| && Changed(i, req, l) :: mapping[l] as nat
  {
    hide Changed, First, End;
    var keys := set l: nat | l < |mapping| && Changed(i, req, l) :: mapping[l] as nat;
    forall b | b in ordered
      ensures b in keys
    {
      var l :| First(i, req) <= l < End(req) && mapping[l] == b;
      assert Changed(i, req, l);
    }
  }

  lemma SpaceIsPlanned(sb: Superblock, d: Image, n: nat, i: Inode, req: Request, p: Plan, indirect: u32)
    requires Accepts(sb, d, n, i, req) && SpaceDraft(sb, d, i, req, p.tx.ordered, indirect, p.bitmap)
    requires p.reserved == p.tx.ordered.Keys + (if ChangesIndirect(i, req) then {indirect as nat} else {})
    requires NewSize(i, req) <= MAX_FILE_SIZE && i.generation < 0xFFFF_FFFF_FFFF_FFFF
    requires |p.mapping| == RequiredBlocks(NewSize(i, req)) && p.inode == NewInode(i, req, p.mapping, indirect)
    ensures SpacePlanned(sb, d, i, req, p) && InodePlanned(i, req, p)
    ensures ChangesIndirect(i, req) ==> p.inode.indirect == indirect
  {
    hide TestBit, ReleasedBlocks, Free, RegionBytes, Accepts, DirectPointers, NewSize;
  }

  lemma AllPlanned(sb: Superblock, d: Image, n: nat, i: Inode, req: Request, p: Plan, edit: Edit)
    requires Accepts(sb, d, n, i, req)
    requires DataPlanned(d, i, req, p) && SpacePlanned(sb, d, i, req, p) && InodePlanned(i, req, p)
    requires edit == EditOf(sb, d, n, i, req, p) && Carries(sb, d, p.tx.metadata, edit)
    requires BeforeOf(d, p.tx.before, p.tx.ordered.Keys + p.tx.metadata.Keys)
    ensures Planned(sb, d, n, i, req, p)
  {
    hide DataPlanned, InodePlanned, Carries, Accepts, IndirectBlock, RegionBytes, ChangesIndirect, BeforeOf, Realizes;
    hide ValidSuperblock, TestBit, Free, ReleasedBlocks;
    AcceptedRequest(sb, d, n, i, req);
    RegionsDisjoint(sb);
    forall b | b in p.reserved
      ensures InRegion(b, sb.data)
    {
      ReservedIsData(sb, d, i, req, p, b);
    }
    CarriesRealizes(sb, d, p.tx, edit);
  }

  predicate SpaceSuffices(sb: Superblock, d: Image, i: Inode, req: Request) {
    BlocksNeeded(i, req) <= |Free(RegionBytes(d, sb.blockBitmap), sb.data.start, sb.totalBlocks)|
  }

  lemma PlanSuffices(sb: Superblock, d: Image, n: nat, i: Inode, req: Request, p: Plan)
    requires Planned(sb, d, n, i, req, p)
    ensures SpaceSuffices(sb, d, i, req)
  {
    hide DataPlanned, InodePlanned, Realizes, TestBit, RegionBytes, TakesFirst, ReleasedBlocks, ChangesIndirect, First, End;
    var free := Free(RegionBytes(d, sb.blockBitmap), sb.data.start, sb.totalBlocks);
    assert p.reserved <= free;
    SubsetSize(p.reserved, free);
  }

  /** An image has one plan for a file change: the same blocks and the same bitmap. */
  lemma PlanIsUnique(sb: Superblock, d: Image, n: nat, i: Inode, req: Request, p: Plan, q: Plan)
    requires Planned(sb, d, n, i, req, p) && Planned(sb, d, n, i, req, q)
    ensures p.reserved == q.reserved && p.bitmap == q.bitmap
  {
    hide DataPlanned, InodePlanned, Realizes, TestBit, RegionBytes, TakesFirst, ReleasedBlocks, ChangesIndirect, BlocksNeeded, Free;
    FirstFitIsUnique(RegionBytes(d, sb.blockBitmap), sb.data.start, sb.totalBlocks, p.reserved, q.reserved);
    SameBitmap(p.bitmap, q.bitmap);
  }

  /** `PrepareFileMutation`: refuses exactly the requests its checks name, and otherwise fails only when
      there are fewer free blocks than the plan needs. */
  method PrepareFileMutation(sb: Superblock, d: Image, n: nat, req: Request) returns (r: Result<Plan>)
    requires ValidSuperblock(sb) && |d| == sb.totalBlocks
    ensures RequestError(sb, d, n, req).Some? ==> r == Failure(RequestError(sb, d, n, req).value)
    ensures SpaceHealthy(sb, d) ==>
      ChangeRefusedFor(sb, d, n, req, if r.Failure? && r.errno != ENOSPC then Some(r.errno) else None)
    ensures RequestError(sb, d, n, req) == None ==>
      var i := ReadInode(sb, d, n).value;
      match r
      case Success(p) => Accepts(sb, d, n, i, req) && Planned(sb, d, n, i, req, p) && SpaceSuffices(sb, d, i, req)
      case Failure(errno) => errno == ENOSPC && !SpaceSuffices(sb, d, i, req)
  {
    hide ReadInode, OwnBlocksDistinct, WellFormed, RegionBytes, Planned, Accepts, Free, ValidSuperblock, SpaceSuffices;
    hide SpaceHealthy, ChangeRefusedFor;
    ChangeRefusalOf(sb, d, n, req);
    if n == 0 || (req.mode == WriteRange && req.data == []) {
      return Failure(EINVAL);
    }
    if req.offset > MAX_FILE_SIZE || |req.data| > MAX_FILE_SIZE - req.offset {
      return Failure(EFBIG);
    }
    var inode := ReadInode(sb, d, n);
    if inode.Failure? {
      return Failure(inode.errno);
    }
    var i := inode.value;
    if !IsRegular(i.mode) {
      return Failure(if IsDirectory(i.mode) then EISDIR else EINVAL);
    }
    if req.mode == ReplaceAll && i.generation != req.expectedGeneration {
      return Failure(ESTALE);
    }
    if i.generation == 0xFFFF_FFFF_FFFF_FFFF {
      return Failure(EOVERFLOW);
    }
    var mapping := LoadMapping(d, i);
    var distinct := CheckDistinct(d, i, mapping);
    if !distinct {
      return Failure(EUCLEAN);
    }
    if !WellFormed(RegionBytes(d, sb.blockBitmap), sb.totalBlocks, sb.data.start) {
      return Failure(EUCLEAN);
    }
    NoErrorMeansAccepted(sb, d, n, req);
    r := Build(sb, d, n, i, req);
  }
}
