/** The journal on an image: its block positions, the batches of blocks a transaction
    writes between two `fdatasync` calls, and what recovery makes of an image
    (src/journal/journal_control_store.cpp, src/journal/journal_recovery.cpp). */
module Journal {
  import opened Bytes
  import opened Order
  import opened JournalFormat
  import opened OndiskFormat
  import opened RingReservation
  import Crc32c

  type Image = seq<Block>

  type Writes = map<nat, Block>

  const ZERO: Block := Zeros(BLOCK_SIZE)

  function At(d: Image, b: nat): Block {
    if b < |d| then d[b] else ZERO
  }

  function Overlay(d: Image, w: Writes): (r: Image)
    ensures |r| == |d|
    ensures forall b :: 0 <= b < |d| ==> r[b] == if b in w then w[b] else d[b]
  {
    seq(|d|, b requires 0 <= b < |d| => if b in w then w[b] else d[b])
  }

  function Single(b: nat, v: Block): Writes {
    map[b := v]
  }

  function RingBlocks(sb: Superblock): u32 {
    if sb.journal.count < CONTROL_BLOCKS then 0 else sb.journal.count - CONTROL_BLOCKS
  }

  function ControlBlock(sb: Superblock, copy: Copy): nat {
    sb.journal.start + (if copy == A then 0 else 1)
  }

  /** `RingOffset`, in blocks. */
  function RingBlock(sb: Superblock, index: nat): nat {
    sb.journal.start + CONTROL_BLOCKS + index
  }

  function Other(copy: Copy): Copy {
    if copy == A then B else A
  }

  /** `IsValidMetadataTarget`. */
  predicate MetadataTarget(sb: Superblock, b: nat) {
    b != 0 && b < sb.totalBlocks && !InRegion(b, sb.journal)
  }

  function BlockCrc(b: Block): u32 {
    Widths();
    LeNat(Crc32c.Checksum(b))
  }

  // ---- Reading the journal ----

  function Selected(sb: Superblock, d: Image): Option<Selection> {
    SelectControl(At(d, ControlBlock(sb, A)), At(d, ControlBlock(sb, B)), sb.uuid, RingBlocks(sb))
  }

  datatype Recovery = Empty | Uncommitted | Committed(images: Writes) | Corrupt

  function RingAt(sb: Superblock, d: Image, index: nat): Block {
    At(d, RingBlock(sb, index))
  }

  /** `DecodeCommit` at one ring position of an image. */
  function CommitAt(sb: Superblock, d: Image, index: nat): Option<CommitRecord> {
    DecodeCommit(RingAt(sb, d, index))
  }

  /** The payloads named by the first `n` descriptor entries, by home block. */
  function Payloads(sb: Superblock, d: Image, entries: seq<DescriptorEntry>, n: nat): Writes
    requires n <= |entries|
  {
    if n == 0 then map[]
    else Payloads(sb, d, entries, n - 1)[entries[n - 1].homeBlock := RingAt(sb, d, entries[n - 1].payloadRingIndex)]
  }

  predicate EntriesFollowTail(sb: Superblock, c: JournalControl, entries: seq<DescriptorEntry>) {
    forall i :: 0 <= i < |entries| ==>
      && entries[i].payloadRingIndex == Advance(c.tail, i + 1, c.ringBlocks)
      && MetadataTarget(sb, entries[i].homeBlock)
  }

  predicate PayloadsIntact(sb: Superblock, d: Image, entries: seq<DescriptorEntry>) {
    forall i :: 0 <= i < |entries| ==>
      BlockCrc(RingAt(sb, d, entries[i].payloadRingIndex)) == entries[i].payloadCrc
  }

  /** A descriptor that recovery accepts at the tail of the selected control. */
  predicate DescriptorFitsControl(sb: Superblock, c: JournalControl, descriptor: DescriptorRecord) {
    && descriptor.uuid == sb.uuid
    && descriptor.transactionId == c.nextTransactionId - 1
    && descriptor.blockCount == c.usedBlocks
    && EntriesFollowTail(sb, c, descriptor.entries)
    && Advance(c.tail, |descriptor.entries| + 2, c.ringBlocks) == c.head
  }

  /** `ClassifyRecovery`: only the position derived from the descriptor is searched for a COMMIT. */
  function Classify(sb: Superblock, d: Image, c: JournalControl): Recovery {
    if c.usedBlocks == 0 then Empty
    else if c.nextTransactionId <= 1 then Corrupt
    else
      match DecodeDescriptor(RingAt(sb, d, c.tail))
      case None => Corrupt
      case Some(descriptor) => ClassifyDescriptor(sb, d, c, descriptor)
  }

  function ClassifyDescriptor(sb: Superblock, d: Image, c: JournalControl, descriptor: DescriptorRecord): (r: Recovery)
    ensures r != Empty
  {
    var n := |descriptor.entries|;
    if !DescriptorFitsControl(sb, c, descriptor) || !PayloadsIntact(sb, d, descriptor.entries) then Corrupt
    else
      match CommitAt(sb, d, Advance(c.tail, n + 1, c.ringBlocks))
      case None => Uncommitted
      case Some(commit) =>
        if commit.transactionId != descriptor.transactionId then Uncommitted
        else if !CommitMatches(descriptor, DescriptorChecksum(RingAt(sb, d, c.tail)), c.tail, commit) then Corrupt
        else Committed(Payloads(sb, d, descriptor.entries, n))
  }

  // ---- What a transaction writes ----

  /** The three image maps a planner hands to the journal. */
  datatype Transaction = Transaction(before: Writes, ordered: Writes, metadata: Writes)

  function Entry(m: Writes, home: nat, position: u32): DescriptorEntry {
    DescriptorEntry(home % 0x1_0000_0000, position, if home in m then BlockCrc(m[home]) else 0, 0)
  }

  /** One descriptor entry per metadata block, in ascending order of home block. */
  function Entries(m: Writes, positions: seq<u32>): (r: seq<DescriptorEntry>)
    requires |positions| == |m|
    ensures |r| == |m|
    ensures forall i :: 0 <= i < |r| ==> r[i] == Entry(m, Ascending(m.Keys)[i], positions[i])
  {
    seq(|m|, i requires 0 <= i < |m| => Entry(m, Ascending(m.Keys)[i], positions[i]))
  }

  function DescriptorFor(sb: Superblock, r: Reservation, m: Writes): DescriptorRecord
    requires |r.payloadIndices| == |m|
  {
    DescriptorRecord(r.transactionId, sb.uuid, (|m| + 2) % 0x1_0000_0000, 0, Entries(m, r.payloadIndices))
  }

  function CommitFor(sb: Superblock, r: Reservation, count: nat, checksum: u32): CommitRecord {
    CommitRecord(r.transactionId, sb.uuid, count % 0x1_0000_0000, (count + 2) % 0x1_0000_0000,
                 r.descriptorIndex, checksum)
  }

  /** The clean control that retires an exposed transaction. */
  function CleanControl(exposed: JournalControl): JournalControl {
    exposed.(generation := NextGeneration(exposed.generation), tail := exposed.head, usedBlocks := 0)
  }

  lemma CleanControlIsValid(exposed: JournalControl)
    requires ValidControl(exposed)
    ensures ValidControl(CleanControl(exposed))
  {
    AdvanceWithinTurn(exposed.head, 0, exposed.ringBlocks);
  }

  /** Everything a transaction puts in the journal region. */
  datatype Placement = Placement(plan: Reservation, descriptor: Block, commit: Block, exposed: Block, clean: Block)

  function Place(sb: Superblock, sel: Selection, m: Writes): Placement {
    var plan := PlanFor(sel.control, |m|);
    var descriptor := DescriptorBytes(DescriptorFor(sb, plan, m));
    Placement(plan, descriptor,
              CommitBytes(CommitFor(sb, plan, |m|, DescriptorChecksum(descriptor))),
              ControlBytes(plan.exposed),
              ControlBytes(CleanControl(plan.exposed)))
  }

  /** The metadata blocks in ascending order of home block. */
  function InOrder(m: Writes): (r: seq<Block>)
    ensures |r| == |m|
    ensures forall i :: 0 <= i < |m| ==> r[i] == m[Ascending(m.Keys)[i]]
  {
    seq(|m|, i requires 0 <= i < |m| => m[Ascending(m.Keys)[i]])
  }

  /** The first `n` payloads at their ring positions. */
  function PayloadWrites(sb: Superblock, positions: seq<u32>, payloads: seq<Block>, n: nat): Writes
    requires n <= |payloads| == |positions|
  {
    if n == 0 then map[]
    else PayloadWrites(sb, positions, payloads, n - 1)[RingBlock(sb, positions[n - 1]) := payloads[n - 1]]
  }

  function BodyWrites(sb: Superblock, p: Placement, m: Writes): Writes {
    if |p.plan.payloadIndices| != |m| then map[]
    else PayloadWrites(sb, p.plan.payloadIndices, InOrder(m), |m|)[RingBlock(sb, p.plan.descriptorIndex) := p.descriptor]
  }

  /** The six durable stages of a transaction (`DurableStage`). */
  datatype Stage = OrderedData | JournalBody | ControlExposure | CommitRecorded | HomeBlocks | Checkpoint

  /** Blocks written between two syncs. */
  datatype Batch = Batch(stage: Stage, writes: Writes)

  /** Retire the transaction: the clean control overwrites the copy that is not selected. */
  function DiscardBatches(sb: Superblock, copy: Copy, clean: Block): seq<Batch> {
    [Batch(Checkpoint, Single(ControlBlock(sb, copy), clean))]
  }

  /** Replay the home blocks, then retire the transaction. */
  function ReplayBatches(sb: Superblock, copy: Copy, m: Writes, clean: Block): seq<Batch> {
    [Batch(HomeBlocks, m)] + DiscardBatches(sb, copy, clean)
  }

  function CommitBatches(sb: Superblock, sel: Selection, m: Writes): seq<Batch> {
    var p := Place(sb, sel, m);
    [Batch(CommitRecorded, Single(RingBlock(sb, p.plan.commitIndex), p.commit))]
    + ReplayBatches(sb, sel.copy, m, p.clean)
  }

  function ExposeBatches(sb: Superblock, sel: Selection, m: Writes): seq<Batch> {
    [Batch(ControlExposure, Single(ControlBlock(sb, Other(sel.copy)), Place(sb, sel, m).exposed))]
    + CommitBatches(sb, sel, m)
  }

  function BodyBatches(sb: Superblock, sel: Selection, m: Writes): seq<Batch> {
    [Batch(JournalBody, BodyWrites(sb, Place(sb, sel, m), m))] + ExposeBatches(sb, sel, m)
  }

  /** `ExecuteJournalTransaction`: each batch is synced before the next one starts;
      without ordered data its stage is skipped. */
  function Script(sb: Superblock, sel: Selection, tx: Transaction): seq<Batch> {
    if tx.ordered == map[] then BodyBatches(sb, sel, tx.metadata)
    else [Batch(OrderedData, tx.ordered)] + BodyBatches(sb, sel, tx.metadata)
  }

  /** `ResolveRecovery`: the batches recovery writes on an image, or None if it refuses. */
  function RecoveryScript(sb: Superblock, d: Image): Option<seq<Batch>> {
    match Selected(sb, d)
    case None => None
    case Some(sel) =>
      var clean := ControlBytes(CleanControl(sel.control));
      match Classify(sb, d, sel.control)
      case Corrupt => None
      case Empty => Some([])
      case Uncommitted => Some(DiscardBatches(sb, Other(sel.copy), clean))
      case Committed(images) => Some(ReplayBatches(sb, Other(sel.copy), images, clean))
  }

  // ---- Facts about placements ----

  /** A selected clean control under which `m` fits in the ring. */
  predicate Plannable(sb: Superblock, sel: Selection, m: Writes) {
    && ValidSuperblock(sb)
    && sel.control.ringBlocks == RingBlocks(sb) && sel.control.uuid == sb.uuid
    && ReserveCheck(sel.control, |m|) == None
    && forall b :: b in m ==> MetadataTarget(sb, b)
  }

  lemma DescriptorForIsValid(sb: Superblock, sel: Selection, m: Writes)
    requires Plannable(sb, sel, m)
    ensures ValidDescriptor(DescriptorFor(sb, PlanFor(sel.control, |m|), m))
  {
    hide Advance, ExposedControl, ValidControl, ReserveCheck, ValidSuperblock, BlockCrc;
    hide Ascending;
    ReserveCheckPassed(sel.control, |m|);
    ReservationIsDistinct(sel.control, |m|);
    var d := DescriptorFor(sb, PlanFor(sel.control, |m|), m);
    var homes := Ascending(m.Keys);
    forall i | 0 <= i < |m|
      ensures d.entries[i].homeBlock == homes[i] != 0 && d.entries[i].flags == 0
    {
      assert homes[i] in m && MetadataTarget(sb, homes[i]);
    }
  }

  /** What recovery reads back from the blocks a transaction placed. */
  lemma PlacementDecodes(sb: Superblock, sel: Selection, m: Writes)
    requires Plannable(sb, sel, m)
    ensures var p := Place(sb, sel, m);
      && DecodeDescriptor(p.descriptor) == Some(DescriptorFor(sb, p.plan, m))
      && DecodeCommit(p.descriptor) == None
      && DecodeCommit(p.commit) == Some(CommitFor(sb, p.plan, |m|, DescriptorChecksum(p.descriptor)))
      && DecodeControl(p.exposed) == Some(p.plan.exposed)
      && DecodeControl(p.clean) == Some(CleanControl(p.plan.exposed))
      && p.plan.exposed.ringBlocks == RingBlocks(sb) && p.plan.exposed.uuid == sb.uuid
  {
    hide DescriptorBytes, DecodeDescriptor, CommitBytes, DecodeCommit, ControlBytes, DecodeControl;
    hide Advance, ValidControl, ReserveCheck, ValidSuperblock, DescriptorFor, ValidDescriptor;
    var p := Place(sb, sel, m);
    ReserveCheckPassed(sel.control, |m|);
    DescriptorForIsValid(sb, sel, m);
    DescriptorRoundTrip(DescriptorFor(sb, p.plan, m));
    DescriptorIsNotCommit(p.descriptor);
    CommitRoundTrip(CommitFor(sb, p.plan, |m|, DescriptorChecksum(p.descriptor)));
    ExposedControlIsValid(sel.control, |m|);
    ControlRoundTrip(p.plan.exposed);
    CleanControlIsValid(p.plan.exposed);
    ControlRoundTrip(CleanControl(p.plan.exposed));
  }

  lemma {:induction false} PayloadWritesAt(sb: Superblock, positions: seq<u32>, payloads: seq<Block>, n: nat)
    requires n <= |payloads| == |positions|
    requires forall i, j :: 0 <= i < j < |payloads| ==> positions[i] != positions[j]
    ensures forall i :: 0 <= i < n ==>
      && RingBlock(sb, positions[i]) in PayloadWrites(sb, positions, payloads, n)
      && PayloadWrites(sb, positions, payloads, n)[RingBlock(sb, positions[i])] == payloads[i]
  {
    if n > 0 {
      PayloadWritesAt(sb, positions, payloads, n - 1);
    }
  }

  /** Every payload write comes from one position. */
  lemma {:induction false} PayloadWriteSource(
    sb: Superblock, positions: seq<u32>, payloads: seq<Block>, n: nat, b: nat) returns (i: nat)
    requires n <= |payloads| == |positions| && b in PayloadWrites(sb, positions, payloads, n)
    ensures i < n && b == RingBlock(sb, positions[i])
    ensures PayloadWrites(sb, positions, payloads, n)[b] == payloads[i]
  {
    if b == RingBlock(sb, positions[n - 1]) {
      i := n - 1;
    } else {
      i := PayloadWriteSource(sb, positions, payloads, n - 1, b);
    }
  }
}
