/** How much a store operation journals, and why the ring takes it: the transaction of a planned operation
    is small, so a ring of that size never refuses it. */
module OpSize {
  import opened Bytes
  import opened Errors
  import opened JournalFormat
  import opened OndiskFormat
  import opened RingReservation
  import opened Journal
  import opened JournalProtocol
  import opened JournalRuns
  import opened JournalStore
  import opened Bitmap
  import opened ImageView
  import opened ImageEdit
  import opened PlanBuilder
  import opened Directory
  import opened FilePlan
  import opened ObjectPlan
  import opened ObjectView
  import opened Health
  import opened LedgerPlan
  import opened StoreOps
  import opened StoreEffects
  import opened StoreRuns

  // ---- Bitmap blocks ----

  /** The bitmap block that holds bit `k`. */
  function Holder(r: Region, k: nat): nat {
    r.start + k / BITS_PER_BLOCK
  }

  function Holders(r: Region, changed: set<nat>): set<nat> {
    set k | k in changed :: Holder(r, k)
  }

  lemma {:induction false} HoldersSize(r: Region, changed: set<nat>)
    ensures |Holders(r, changed)| <= |changed|
    decreases |changed|
  {
    if changed != {} {
      var k :| k in changed;
      var rest := changed - {k};
      HoldersSize(r, rest);
      assert Holders(r, changed) <= Holders(r, rest) + {Holder(r, k)} by {
        forall b | b in Holders(r, changed)
          ensures b in Holders(r, rest) + {Holder(r, k)}
        {
          var j :| j in changed && Holder(r, j) == b;
          assert j == k || j in rest;
        }
      }
      SubsetSize(Holders(r, changed), Holders(r, rest) + {Holder(r, k)});
    } else {
      assert Holders(r, changed) == {};
    }
  }

  function Within(m: Writes, r: Region): set<nat> {
    set b | b in m && InRegion(b, r)
  }

  function FirstBlocks(r: Region, n: nat): (s: set<nat>)
    ensures |s| == n && forall b :: b in s <==> r.start <= b < r.start + n
  {
    if n == 0 then {} else FirstBlocks(r, n - 1) + {r.start + n - 1}
  }

  /** Two blocks that differ, differ in a bit. */
  lemma DifferingBit(a: seq<byte>, b: seq<byte>, local: nat) returns (k: nat)
    requires |a| == |b| && (local + 1) * BLOCK_SIZE <= |a| && BlockOf(a, local) != BlockOf(b, local)
    ensures k / BITS_PER_BLOCK == local && TestBit(a, k) != TestBit(b, k)
  {
    hide ByteBit;
    var x, y := BlockOf(a, local), BlockOf(b, local);
    var j :| 0 <= j < BLOCK_SIZE && x[j] != y[j];
    var at := local * BLOCK_SIZE + j;
    var i := DifferingBitOfByte(a[at], b[at]);
    k := 8 * at + i;
    assert k / 8 == at && k % 8 == i;
  }

  lemma DifferingBitOfByte(x: byte, y: byte) returns (i: nat)
    requires x != y
    ensures i < 8 && ByteBit(x, i) != ByteBit(y, i)
  {
    hide ByteBit;
    assert Pow2(8) == 256 by { assert Pow2(4) == 16; }
    if forall i :: 0 <= i < 8 ==> ByteBit(x, i) == ByteBit(y, i) {
      SameBits(x, y, 8);
    }
    i :| 0 <= i < 8 && ByteBit(x, i) != ByteBit(y, i);
  }

  /** A bitmap is journaled in no more blocks than it has, and in no more than bits change. */
  lemma BitmapBlocks(d: Image, r: Region, m: Writes, bits: seq<byte>, changed: set<nat>)
    requires RegionIs(d, r, m, bits) && forall b :: b in m && InRegion(b, r) ==> m[b] != At(d, b)
    requires forall k: nat :: TestBit(bits, k) != TestBit(RegionBytes(d, r), k) ==> k in changed
    ensures |Within(m, r)| <= r.count && |Within(m, r)| <= |changed|
  {
    hide TestBit, BlockOf, RegionBytes, At;
    RegionUnchanged(d, r);
    var was := RegionBytes(d, r);
    forall b | b in Within(m, r)
      ensures b in Holders(r, changed)
    {
      var local := b - r.start;
      assert Updated(d, m, r.start + local) == BlockOf(bits, local);
      assert Updated(d, map[], r.start + local) == BlockOf(was, local);
      var k := DifferingBit(bits, was, local);
      assert Holder(r, k) == b;
    }
    HoldersSize(r, changed);
    SubsetSize(Within(m, r), Holders(r, changed));
    SubsetSize(Within(m, r), FirstBlocks(r, r.count));
  }

  // ---- A whole edit ----

  function TableBlocks(sb: Superblock, inodes: map<nat, Inode>): set<nat> {
    set k | k in inodes :: InodeTableBlock(sb, k)
  }

  lemma {:induction false} TableSize(sb: Superblock, inodes: map<nat, Inode>)
    ensures |TableBlocks(sb, inodes)| <= |inodes|
    decreases |inodes|
  {
    if inodes != map[] {
      var k :| k in inodes;
      var rest := inodes - {k};
      assert rest.Keys == inodes.Keys - {k};
      TableSize(sb, rest);
      assert TableBlocks(sb, inodes) <= TableBlocks(sb, rest) + {InodeTableBlock(sb, k)} by {
        forall b | b in TableBlocks(sb, inodes)
          ensures b in TableBlocks(sb, rest) + {InodeTableBlock(sb, k)}
        {
          var j :| j in inodes && InodeTableBlock(sb, j) == b;
          assert j == k || j in rest;
        }
      }
      SubsetSize(TableBlocks(sb, inodes), TableBlocks(sb, rest) + {InodeTableBlock(sb, k)});
    } else {
      assert TableBlocks(sb, inodes) == {};
    }
  }

  function Smaller(a: nat, b: nat): nat {
    if a < b then a else b
  }

  lemma EditSize(sb: Superblock, d: Image, tx: Transaction, edit: Edit, inodeBits: set<nat>, blockBits: set<nat>)
    requires Realizes(sb, d, tx, edit)
    requires forall k: nat :: TestBit(edit.inodeBitmap, k) != TestBit(RegionBytes(d, sb.inodeBitmap), k) ==> k in inodeBits
    requires forall k: nat :: TestBit(edit.blockBitmap, k) != TestBit(RegionBytes(d, sb.blockBitmap), k) ==> k in blockBits
    ensures |tx.metadata| <= |edit.blocks| + |edit.inodes| + |inodeBits| + Smaller(sb.blockBitmap.count, |blockBits|)
  {
    hide TestBit, RegionBytes, RegionIs, SlotsAre, MatchesImage, ValidSuperblock, At, TakesRecord, Within, TableBlocks;
    BitmapBlocks(d, sb.inodeBitmap, tx.metadata, edit.inodeBitmap, inodeBits);
    BitmapBlocks(d, sb.blockBitmap, tx.metadata, edit.blockBitmap, blockBits);
    TableSize(sb, edit.inodes);
    var i, b, t := Within(tx.metadata, sb.inodeBitmap), Within(tx.metadata, sb.blockBitmap), TableBlocks(sb, edit.inodes);
    forall x | x in tx.metadata
      ensures x in edit.blocks.Keys + t + i + b
    {
      WhereItGoes(sb, d, tx, edit, x);
    }
    SubsetSize(tx.metadata.Keys, edit.blocks.Keys + t + i + b);
    UnionSize(edit.blocks.Keys, t, i, b);
  }

  lemma WhereItGoes(sb: Superblock, d: Image, tx: Transaction, edit: Edit, b: nat)
    requires Realizes(sb, d, tx, edit) && b in tx.metadata
    ensures || b in edit.blocks || b in TableBlocks(sb, edit.inodes)
            || b in Within(tx.metadata, sb.inodeBitmap) || b in Within(tx.metadata, sb.blockBitmap)
  {
    hide RegionIs, SlotsAre, MatchesImage, ValidSuperblock, OnlyChanged;
  }

  lemma UnionSize(a: set<nat>, b: set<nat>, c: set<nat>, e: set<nat>)
    ensures |a + b + c + e| <= |a| + |b| + |c| + |e|
  {}

  // ---- Operations ----

  /** Data and directory blocks that a change takes or gives back. */
  function Moved(d: Image, change: Change): set<nat> {
    match change
    case NoChange => {}
    case NewObject(root, c, made) => made.reserved + OldIndirect(root, made)
    case FileChange(n, i, req, p) => p.reserved + ReleasedBlocks(d, i, req)
  }

  lemma FileChangeSize(sb: Superblock, d: Image, n: nat, i: Inode, req: Request, p: Plan)
    requires Planned(sb, d, n, i, req, p)
    ensures |p.tx.metadata| <= 2 + Smaller(sb.blockBitmap.count, |p.reserved + ReleasedBlocks(d, i, req)|)
  {
    hide DataPlanned, InodePlanned, TestBit, RegionBytes, ReleasedBlocks, ChangesIndirect, TakesFirst, Realizes, IndirectBlock, Smaller;
    hide Free, BlocksNeeded;
    EditSize(sb, d, p.tx, EditOf(sb, d, n, i, req, p), {}, p.reserved + ReleasedBlocks(d, i, req));
  }

  lemma CreationSize(sb: Superblock, d: Image, r: Inode, c: Creation, p: NewPlan)
    requires Created(sb, d, r, c, p)
    ensures |p.tx.metadata| <= 6 + Smaller(sb.blockBitmap.count, |p.reserved + OldIndirect(r, p)|)
  {
    hide FilePlanned, RootPlanned, EntryPlaced, BlocksPlanned, TestBit, RegionBytes, Realizes, FirstChosen, Smaller, BlockImages, OldIndirect;
    var blocks := BlockImages(d, r, p);
    ImagesSize(d, r, p);
    EditSize(sb, d, p.tx, EditOfNew(sb, d, r, p), {(p.number - 1) as nat}, p.reserved + OldIndirect(r, p));
  }

  lemma ImagesSize(d: Image, r: Inode, p: NewPlan)
    ensures |BlockImages(d, r, p)| <= 3
  {
    hide GrownIndirect, IndirectBlock;
    var three := {p.dirBlock as nat, p.root.indirect as nat, p.file.indirect as nat};
    assert |three| <= 3;
    SubsetSize(BlockImages(d, r, p).Keys, three);
  }

  /** A store operation journals at most seven blocks besides the blocks of the block bitmap, and of those
      no more than it moves blocks. On an image of at most 32768 blocks that is eight in all. */
  lemma OpSizeIs(sb: Superblock, d: Image, op: Op)
    requires OpPlanned(sb, d, op)
    ensures |OpTx(op).metadata| <= 7 + Smaller(sb.blockBitmap.count, |Moved(d, op.change)|)
  {
    hide Planned, Created, Creatable, Accepts, AppendPlanned, HasHistory, History, ReleasedBlocks, OldIndirect, Smaller;
    match op.change {
      case NoChange =>
      case NewObject(root, c, made) => CreationSize(sb, d, root, c, made);
      case FileChange(n, i, req, p) => FileChangeSize(sb, d, n, i, req, p);
    }
    if op.append.Some? {
      OneMoreBlock(ChangeTx(op.change).metadata, op.append.value.physical, op.append.value.after);
    }
  }

  lemma OneMoreBlock(m: Writes, b: nat, v: Block)
    ensures |m[b := v]| <= |m| + 1
  {
    assert m[b := v].Keys == m.Keys + {b};
  }

  /** Whatever does something journals at least one block. */
  lemma OpIsNotEmpty(sb: Superblock, d: Image, op: Op)
    requires OpPlanned(sb, d, op) && (op.append.Some? || !op.change.NoChange?)
    ensures |OpTx(op).metadata| >= 1
  {
    hide Planned, Created, Creatable, Accepts, AppendPlanned, HasHistory, History, BlockImages;
    if op.append.Some? {
      assert op.append.value.physical in OpTx(op).metadata;
    } else {
      match op.change {
        case NewObject(root, c, made) => DirectoryIsJournaled(sb, d, root, c, made);
        case FileChange(n, i, req, p) => InodeIsJournaled(sb, d, n, i, req, p);
      }
    }
  }

  lemma DirectoryIsJournaled(sb: Superblock, d: Image, r: Inode, c: Creation, p: NewPlan)
    requires Created(sb, d, r, c, p)
    ensures p.dirBlock as nat in p.tx.metadata
  {
    hide FilePlanned, RootPlanned, EntryPlaced, BlocksPlanned, BitmapsPlanned, FirstChosen, RegionIs, SlotsAre, MatchesImage;
    hide OnlyChanged, GrownIndirect, IndirectBlock, ValidSuperblock;
    assert p.dirBlock as nat in EditOfNew(sb, d, r, p).blocks;
  }

  lemma InodeIsJournaled(sb: Superblock, d: Image, n: nat, i: Inode, req: Request, p: Plan)
    requires Accepts(sb, d, n, i, req) && Planned(sb, d, n, i, req, p)
    ensures InodeTableBlock(sb, n) in p.tx.metadata
  {
    hide DataPlanned, SpacePlanned, RegionIs, MatchesImage, OnlyChanged, TargetsAre, ValidSuperblock, MappingHolds, At, EncodeInode;
    hide DecodeInode, OwnBlocksDistinct, WellFormed, DirectPointers, SlotOf;
    AcceptedInode(sb, d, n, i, req);
    var edit := EditOf(sb, d, n, i, req, p);
    assert SlotOf(Updated(d, p.tx.metadata, InodeTableBlock(sb, n)), n) == EncodeInode(p.inode).value;
    if InodeTableBlock(sb, n) !in p.tx.metadata {
      SlotIs(sb, d, n);
      InodeRoundTrip(p.inode);
    }
  }

  lemma SlotIs(sb: Superblock, d: Image, n: nat)
    ensures SlotOf(At(d, InodeTableBlock(sb, n)), n) == InodeSlot(sb, d, n)
  {}

  // ---- The ring takes every operation ----

  /** The ring has room for an operation that moves so many blocks, and a transaction number is left. */
  predicate RingTakes(sb: Superblock, d: Image, moved: nat) {
    && Selected(sb, d).Some? && Selected(sb, d).value.control.nextTransactionId < 0xFFFF_FFFF_FFFF_FFFF
    && Smaller(sb.blockBitmap.count, moved) + 9 <= RingBlocks(sb) && Smaller(sb.blockBitmap.count, moved) <= 245
  }

  /** In every idle state of every run of the store, the journal admits every operation the ring has room
      for. */
  lemma OpIsTaken(sb: Superblock, run: seq<State>, k: nat, op: Op)
    requires ServedRun(sb, run) && k < |run| && Idle(run[k]) && OpPlanned(sb, run[k].durable, op)
    requires (op.append.Some? || !op.change.NoChange?) && RingTakes(sb, run[k].durable, |Moved(run[k].durable, op.change)|)
    ensures Admitted(sb, run[k].durable, Selected(sb, run[k].durable).value.control, sb.totalBlocks, sb.uuid, OpTx(op))
  {
    hide ServedRun, Run, OpPlanned, OpTx, Sound, Healthy, Admitted, Moved, Selected, Smaller, ReserveCheck, ValidControl;
    var d := run[k].durable;
    StoreStaysSound(sb, run, k);
    SoundIsHealthy(sb, d);
    IdleRing(sb, run, k);
    OpSizeIs(sb, d, op);
    OpIsNotEmpty(sb, d, op);
    ReserveIs(Selected(sb, d).value.control, |OpTx(op).metadata|);
    OpIsAdmitted(sb, d, op, Selected(sb, d).value.control);
  }

  lemma IdleRing(sb: Superblock, run: seq<State>, k: nat)
    requires ServedRun(sb, run) && k < |run| && Idle(run[k])
    ensures var s := Selected(sb, run[k].durable);
      s.Some? && ValidControl(s.value.control) && s.value.control.usedBlocks == 0 && s.value.control.ringBlocks == RingBlocks(sb)
  {
    hide Run, StoreRun, Sound, Selected, ValidControl;
    IdleIsQuiet(sb, run, k);
    SelectedMatches(sb, run[k].durable);
  }

  /** On an image of at most 32768 blocks a ring of ten blocks is enough for every operation. */
  lemma TenBlocksSuffice(sb: Superblock, d: Image, moved: nat)
    requires ValidSuperblock(sb) && sb.totalBlocks <= 32768 && RingBlocks(sb) >= 10
    requires Selected(sb, d).Some? && Selected(sb, d).value.control.nextTransactionId < 0xFFFF_FFFF_FFFF_FFFF
    ensures RingTakes(sb, d, moved)
  {
    hide Selected;
    assert sb.blockBitmap.count == 1;
  }
}
