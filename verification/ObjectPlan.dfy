/** Plans that create an object in the root directory (src/metadata/new_object_plan.cpp): what a plan
    contains, and what an image means once the plan has been applied to it. */
module ObjectPlan {
  import opened Bytes
  import opened Errors
  import opened OndiskFormat
  import opened Journal
  import opened JournalProtocol
  import opened JournalStore
  import opened Bitmap
  import opened ImageView
  import opened ImageEdit
  import opened FilePlan
  import opened Directory
  import opened Health

  datatype Creation = Creation(name: Name, data: seq<byte>, permissions: u32, uid: u32, gid: u32, timestamp: u64)

  /** An empty file, which the creation then replaces with its data. */
  function Blank(number: u32, c: Creation): Inode {
    Inode(number, 0x8000 + c.permissions % 512, c.uid, c.gid, 1, 0, c.timestamp, c.timestamp, c.timestamp, 0, 0,
          [0, 0, 0, 0, 0, 0, 0, 0, 0, 0, 0, 0], 0)
  }

  function Fill(c: Creation): Request {
    Request(ReplaceAll, 0, c.data, 0, c.timestamp)
  }

  /** The directory entry of the new object; its record length is set by where it goes. */
  function NewEntry(number: u32, c: Creation, length: nat): Entry {
    Entry(number, REGULAR, c.name, length)
  }

  /** Where the root directory takes the entry: in block `logical`, or in a new block at its end. */
  datatype Growth = InPlace(logical: nat) | GrowDirect | GrowIndirect

  datatype NewPlan = NewPlan(
    tx: Transaction, number: u32, mapping: seq<u32>, file: Inode, root: Inode, growth: Growth,
    dirBlock: u32, dirAfter: Block, inodeBitmap: seq<byte>, blockBitmap: seq<byte>, reserved: set<nat>)

  /** `ListDirectory` succeeds: every block parses, names are unique, and every entry names a readable
      inode of its kind. */
  predicate Listable(sb: Superblock, d: Image, i: Inode) {
    && DirEntries(d, i).Some? && NamesUnique(DirEntries(d, i).value)
    && forall k :: 0 <= k < |DirEntries(d, i).value| ==> EntryReadable(sb, d, DirEntries(d, i).value[k])
  }

  predicate EntryReadable(sb: Superblock, d: Image, e: Entry) {
    && ReadInode(sb, d, e.inode).Success?
    && (e.kind == REGULAR ==> IsRegular(ReadInode(sb, d, e.inode).value.mode))
    && (e.kind == DIRECTORY ==> IsDirectory(ReadInode(sb, d, e.inode).value.mode))
  }

  predicate NameIn(es: seq<Entry>, name: Name) {
    exists k :: 0 <= k < |es| && es[k].name == name
  }

  /** A creation the planner accepts on this image, with root inode `r`. */
  predicate Creatable(sb: Superblock, d: Image, r: Inode, c: Creation) {
    && ValidSuperblock(sb) && |d| == sb.totalBlocks
    && ReadInode(sb, d, sb.rootInode) == Success(r) && IsDirectory(r.mode)
    && Listable(sb, d, r) && !NameIn(DirEntries(d, r).value, c.name)
    && ValidName(c.name) && |c.data| <= MAX_FILE_SIZE
    && WellFormed(RegionBytes(d, sb.blockBitmap), sb.totalBlocks, sb.data.start)
    && WellFormed(RegionBytes(d, sb.inodeBitmap), sb.totalInodes, 0)
  }

  function RootBlocks(r: Inode): nat {
    r.size / BLOCK_SIZE
  }

  /** The root's indirect block with one more pointer, copied to a new place. */
  function GrownPointers(d: Image, r: Inode, added: u32): (ps: seq<u32>)
    requires DIRECT_BLOCKS <= RootBlocks(r) < MAX_FILE_BLOCKS
    ensures |ps| == POINTERS_PER_BLOCK
  {
    var was := if r.indirect != 0 then Pointers(At(d, r.indirect)) else seq(POINTERS_PER_BLOCK, k => 0);
    was[RootBlocks(r) - DIRECT_BLOCKS := added]
  }

  function GrownIndirect(d: Image, r: Inode, added: u32): Block {
    if DIRECT_BLOCKS <= RootBlocks(r) < MAX_FILE_BLOCKS then PointersBytes(GrownPointers(d, r, added)) else ZERO
  }

  /** The changed directory block parses to its old records and the new one. */
  predicate EntryAt(d: Image, r: Inode, x: Entry, growth: Growth, dirBlock: u32, dirAfter: Block) {
    && x.inode != 0 && ValidEntry(x)
    && match growth
       case InPlace(l) =>
         && l < RootBlocks(r) && dirBlock == MapBlock(d, r, l)
         && Parse(At(d, dirBlock)).Some?
         && var es := Parse(At(d, dirBlock)).value;
            exists k :: 0 <= k < |es| && FirstFit(es, MinLength(|x.name|)) == Some(k) && Parse(dirAfter) == Some(Inserted(es, k, x))
       case _ => Parse(dirAfter) == Some([x])
  }

  predicate EntryPlaced(d: Image, r: Inode, c: Creation, p: NewPlan) {
    EntryAt(d, r, NewEntry(p.number, c, BLOCK_SIZE), p.growth, p.dirBlock, p.dirAfter)
  }

  /** Block `l` of the root has room for the entry. */
  predicate RoomIn(d: Image, r: Inode, c: Creation, l: nat) {
    var es := Parse(At(d, MapBlock(d, r, l)));
    es.Some? && FirstFit(es.value, MinLength(|c.name|)).Some?
  }

  predicate HasRoom(d: Image, r: Inode, c: Creation) {
    exists l :: 0 <= l < RootBlocks(r) && RoomIn(d, r, c, l)
  }

  /** The entry goes into the first block with room; the root grows only if there is none. */
  predicate GrowthChosen(d: Image, r: Inode, c: Creation, growth: Growth) {
    match growth
    case InPlace(l) => l < RootBlocks(r) && RoomIn(d, r, c, l) && forall k :: 0 <= k < l ==> !RoomIn(d, r, c, k)
    case _ => !HasRoom(d, r, c)
  }

  /** Blocks to reserve for the root and for the file. */
  function RootNeeds(growth: Growth): nat {
    match growth
    case InPlace(l) => 0
    case GrowDirect => 1
    case GrowIndirect => 2
  }

  function FileNeeds(c: Creation): nat {
    RequiredBlocks(|c.data|) + if RequiredBlocks(|c.data|) > DIRECT_BLOCKS then 1 else 0
  }

  /** There are an inode, a place for the entry and enough blocks. */
  predicate CreationFits(sb: Superblock, d: Image, r: Inode, c: Creation) {
    var growth := if HasRoom(d, r, c) then InPlace(0) else if RootBlocks(r) < DIRECT_BLOCKS then GrowDirect else GrowIndirect;
    && Free(RegionBytes(d, sb.inodeBitmap), 0, sb.totalInodes) != {}
    && (growth.InPlace? || RootBlocks(r) < MAX_FILE_BLOCKS)
    && RootNeeds(growth) + FileNeeds(c) <= |Free(RegionBytes(d, sb.blockBitmap), sb.data.start, sb.totalBlocks)|
  }

  /** The inode number and the blocks are the first free ones, as many as needed. */
  ghost predicate FirstChosen(sb: Superblock, d: Image, r: Inode, c: Creation, growth: Growth, number: nat, reserved: set<nat>) {
    && GrowthChosen(d, r, c, growth)
    && TakesFirst(RegionBytes(d, sb.blockBitmap), sb.data.start, reserved)
    && |reserved| == RootNeeds(growth) + FileNeeds(c)
    && forall k :: 0 <= k < number - 1 ==> TestBit(RegionBytes(d, sb.inodeBitmap), k)
  }

  /** The growth that fits the root's size. */
  predicate GrowthFits(r: Inode, growth: Growth) {
    match growth
    case InPlace(l) => true
    case GrowDirect => RootBlocks(r) < DIRECT_BLOCKS
    case GrowIndirect => DIRECT_BLOCKS <= RootBlocks(r) < MAX_FILE_BLOCKS
  }

  function NewRoot(r: Inode, c: Creation, growth: Growth, dirBlock: u32, indirect: u32): Inode
    requires GrowthFits(r, growth)
  {
    var touched := r.(mtime := c.timestamp, ctime := c.timestamp);
    match growth
    case InPlace(l) => touched
    case GrowDirect =>
      touched.(size := (RootBlocks(r) + 1) * BLOCK_SIZE, direct := r.direct[RootBlocks(r) := dirBlock])
    case GrowIndirect => touched.(size := (RootBlocks(r) + 1) * BLOCK_SIZE, indirect := indirect)
  }

  predicate RootPlanned(r: Inode, c: Creation, p: NewPlan) {
    GrowthFits(r, p.growth) && p.root == NewRoot(r, c, p.growth, p.dirBlock, p.root.indirect)
  }

  predicate FilePlanned(d: Image, c: Creation, p: NewPlan) {
    && |c.data| <= MAX_FILE_SIZE
    && LaidOut(d, Blank(p.number, c), Fill(c), p.mapping, p.tx.ordered)
    && p.file == NewInode(Blank(p.number, c), Fill(c), p.mapping, p.file.indirect)
  }

  /** The new blocks of the root directory and the file's indirect block, all journaled. */
  function JournaledBlocks(p: NewPlan): set<nat> {
    (if p.growth.InPlace? then {} else {p.dirBlock as nat})
    + (if p.growth == GrowIndirect then {p.root.indirect as nat} else {})
    + (if p.file.indirect != 0 then {p.file.indirect as nat} else {})
  }

  function OldIndirect(r: Inode, p: NewPlan): set<nat> {
    if p.growth == GrowIndirect && r.indirect != 0 then {r.indirect as nat} else {}
  }

  /** New blocks are distinct and were free. */
  predicate BlocksPlanned(sb: Superblock, d: Image, p: NewPlan) {
    && p.reserved == p.tx.ordered.Keys + JournaledBlocks(p)
    && p.tx.ordered.Keys !! JournaledBlocks(p)
    && (p.growth == GrowIndirect ==> p.dirBlock != p.root.indirect)
    && (p.file.indirect != 0 ==>
          && (!p.growth.InPlace? ==> p.dirBlock != p.file.indirect)
          && (p.growth == GrowIndirect ==> p.root.indirect != p.file.indirect))
    && (|p.mapping| > DIRECT_BLOCKS ==> p.file.indirect != 0)
    && forall b :: b in p.reserved ==> b in Free(RegionBytes(d, sb.blockBitmap), sb.data.start, sb.totalBlocks)
  }

  ghost predicate BitmapsPlanned(sb: Superblock, d: Image, r: Inode, p: NewPlan) {
    var blocks, inodes := RegionBytes(d, sb.blockBitmap), RegionBytes(d, sb.inodeBitmap);
    && |p.blockBitmap| == |blocks| && |p.inodeBitmap| == |inodes|
    && (forall k: nat :: TestBit(p.blockBitmap, k) <==> (TestBit(blocks, k) || k in p.reserved) && k !in OldIndirect(r, p))
    && p.number > 0 && p.number - 1 in Free(inodes, 0, sb.totalInodes)
    && (forall k: nat :: TestBit(p.inodeBitmap, k) <==> TestBit(inodes, k) || k == p.number - 1)
  }

  /** The journaled blocks of the data region. */
  function BlockImages(d: Image, r: Inode, p: NewPlan): Writes {
    var directory := Single(p.dirBlock, p.dirAfter);
    var grown := if p.growth == GrowIndirect then Single(p.root.indirect, GrownIndirect(d, r, p.dirBlock)) else map[];
    var indirect := if p.file.indirect != 0 then Single(p.file.indirect, IndirectBlock(p.mapping)) else map[];
    directory + grown + indirect
  }

  function EditOfNew(sb: Superblock, d: Image, r: Inode, p: NewPlan): Edit {
    Edit(p.tx.ordered, BlockImages(d, r, p), map[sb.rootInode := p.root, p.number := p.file], p.inodeBitmap, p.blockBitmap)
  }

  ghost predicate Created(sb: Superblock, d: Image, r: Inode, c: Creation, p: NewPlan) {
    && FilePlanned(d, c, p) && RootPlanned(r, c, p) && EntryPlaced(d, r, c, p)
    && BlocksPlanned(sb, d, p) && BitmapsPlanned(sb, d, r, p) && FirstChosen(sb, d, r, c, p.growth, p.number, p.reserved)
    && p.number != sb.rootInode
    && Realizes(sb, d, p.tx, EditOfNew(sb, d, r, p))
  }
}
