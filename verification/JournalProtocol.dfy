/** The journal as a crash protocol: every interleaving of block writes, syncs, I/O failures,
    crashes and interrupted recoveries is a run of the state machine below.

    Assumptions of the machine, as the source's checksums intend them:
    - a block torn by a crash does not decode as a control or as a COMMIT (`TornBlock`);
    - a metadata block that a transaction journals does not itself decode as a COMMIT
      (`Acceptable`);
    - a process reopens a settled image: nothing written before the crash is still unsynced. */
module JournalProtocol {
  import opened Bytes
  import opened JournalFormat
  import opened OndiskFormat
  import opened RingReservation
  import opened Journal

  /** How far the COMMIT of the latest transaction got. */
  datatype CommitHistory = NotSubmitted | Submitted | Synced

  /** `durable` survives a crash; `pending` are the writes since the last sync; `todo` are the
      batches the running transaction or recovery still has to write. `base` and `tx` record the
      image and the transaction of the latest `Begin`, and `started` counts them. */
  datatype State = State(
    durable: Image, pending: Writes, todo: seq<Batch>, up: bool,
    base: Image, tx: Transaction, started: nat, commit: CommitHistory)

  // ---- Steps ----

  predicate TornBlock(sb: Superblock, b: nat, v: Block) {
    InRegion(b, sb.journal) ==> DecodeControl(v) == None && DecodeCommit(v) == None
  }

  /** A crash leaves each unsynced block old, new or torn. */
  predicate Settles(sb: Superblock, d: Image, pending: Writes, e: Image) {
    |e| == |d| && forall b :: 0 <= b < |d| ==>
      e[b] == d[b] || (b in pending && (e[b] == pending[b] || TornBlock(sb, b, e[b])))
  }

  predicate OrderedTargets(sb: Superblock, tx: Transaction) {
    forall b :: b in tx.ordered ==> InRegion(b, sb.data) && b !in tx.metadata
  }

  predicate PayloadsAreNotCommits(m: Writes) {
    forall b :: b in m ==> DecodeCommit(m[b]) == None
  }

  /** The checks of `WriteOrderedDataAndUnexposedBody`, and the assumption on payloads. */
  predicate Acceptable(sb: Superblock, d: Image, tx: Transaction) {
    && Selected(sb, d).Some?
    && Plannable(sb, Selected(sb, d).value, tx.metadata)
    && OrderedTargets(sb, tx)
    && tx.before.Keys == tx.ordered.Keys + tx.metadata.Keys
    && (forall b :: b in tx.before ==> At(d, b) == tx.before[b])
    && PayloadsAreNotCommits(tx.metadata)
  }

  predicate Write(s: State, b: nat, t: State) {
    && s.up && s.todo != [] && b in s.todo[0].writes && b !in s.pending
    && t == s.(pending := s.pending[b := s.todo[0].writes[b]],
               commit := if s.todo[0].stage == CommitRecorded then Submitted else s.commit)
  }

  predicate Sync(s: State, t: State) {
    && s.up && s.todo != [] && s.pending == s.todo[0].writes
    && t == s.(durable := Overlay(s.durable, s.pending), pending := map[], todo := s.todo[1..],
               commit := if s.todo[0].stage == CommitRecorded then Synced else s.commit)
  }

  /** A failed `pwrite` or `fdatasync`: the store latches `reload_required_` and never writes again. */
  predicate Fail(s: State, t: State) {
    s.up && t == s.(up := false)
  }

  predicate Crash(sb: Superblock, s: State, t: State) {
    && Settles(sb, s.durable, s.pending, t.durable)
    && t == s.(durable := t.durable, pending := map[], todo := [], up := false)
  }

  /** Reopening a settled image runs recovery first. */
  predicate Open(sb: Superblock, s: State, t: State) {
    && !s.up && s.todo == [] && RecoveryScript(sb, s.durable).Some?
    && t == s.(todo := RecoveryScript(sb, s.durable).value, up := true)
  }

  predicate Begin(sb: Superblock, s: State, tx: Transaction, t: State) {
    && s.up && s.todo == [] && Acceptable(sb, s.durable, tx)
    && t == s.(todo := Script(sb, Selected(sb, s.durable).value, tx), base := s.durable, tx := tx,
               started := s.started + 1, commit := NotSubmitted)
  }

  ghost predicate Next(sb: Superblock, s: State, t: State) {
    || (exists b :: Write(s, b, t))
    || Sync(s, t)
    || Fail(s, t)
    || Crash(sb, s, t)
    || Open(sb, s, t)
    || Begin(sb, s, t.tx, t)
  }

  // ---- Invariant ----

  /** Home blocks agree outside the journal and outside `except`. */
  predicate HomeAgrees(sb: Superblock, d: Image, e: Image, except: set<nat>) {
    |d| == |e| && forall b :: 0 <= b < |d| && !InRegion(b, sb.journal) && b !in except ==> d[b] == e[b]
  }

  function WithOrdered(base: Image, tx: Transaction): Image {
    Overlay(base, tx.ordered)
  }

  /** The image the transaction promises. */
  function AfterImage(base: Image, tx: Transaction): Image {
    Overlay(WithOrdered(base, tx), tx.metadata)
  }

  function UsableAt(sb: Superblock, d: Image, copy: Copy): Option<JournalControl> {
    UsableControl(At(d, ControlBlock(sb, copy)), sb.uuid, RingBlocks(sb))
  }

  /** One copy is selected; the other is unusable, identical, or exactly one generation behind. */
  predicate ControlOrder(sb: Superblock, d: Image) {
    && Selected(sb, d).Some?
    && var sel := Selected(sb, d).value;
       var other := UsableAt(sb, d, Other(sel.copy));
       other == None || other.value == sel.control
       || sel.control.generation == NextGeneration(other.value.generation)
  }

  predicate CommitsBelow(sb: Superblock, d: Image, bound: nat) {
    forall i :: 0 <= i < RingBlocks(sb) && CommitAt(sb, d, i).Some? ==> CommitAt(sb, d, i).value.transactionId < bound
  }

  /** Holds of every durable image: control order, and no COMMIT of a future transaction. */
  predicate Journaled(sb: Superblock, d: Image) {
    && ValidSuperblock(sb) && |d| == sb.totalBlocks
    && ControlOrder(sb, d)
    && CommitsBelow(sb, d, Selected(sb, d).value.control.nextTransactionId)
  }

  predicate Clean(sb: Superblock, d: Image) {
    Selected(sb, d).Some? && Selected(sb, d).value.control.usedBlocks == 0
  }

  predicate BodyIn(sb: Superblock, d: Image, sel: Selection, m: Writes) {
    var w := BodyWrites(sb, Place(sb, sel, m), m);
    forall b :: b in w ==> At(d, b) == w[b]
  }

  /** The transaction over `m` is exposed: the other copy names it and its body is in the ring. */
  predicate Exposed(sb: Superblock, d: Image, sel: Selection, m: Writes) {
    && Selected(sb, d) == Some(Selection(Place(sb, sel, m).plan.exposed, Other(sel.copy)))
    && BodyIn(sb, d, sel, m)
  }

  predicate Recorded(sb: Superblock, d: Image, sel: Selection, m: Writes) {
    RingAt(sb, d, Place(sb, sel, m).plan.commitIndex) == Place(sb, sel, m).commit
  }

  predicate Unrecorded(sb: Superblock, d: Image, sel: Selection, m: Writes) {
    var p := Place(sb, sel, m).plan;
    CommitAt(sb, d, p.commitIndex).Some? ==> CommitAt(sb, d, p.commitIndex).value.transactionId < p.transactionId
  }

  predicate Ready(sb: Superblock, base: Image, tx: Transaction) {
    && |base| == sb.totalBlocks && Journaled(sb, base)
    && Acceptable(sb, base, tx)
  }

  predicate Started(sb: Superblock, s: State) {
    Ready(sb, s.base, s.tx)
  }

  predicate CleanBefore(sb: Superblock, d: Image, base: Image, tx: Transaction) {
    Clean(sb, d) && HomeAgrees(sb, d, base, tx.ordered.Keys)
  }

  predicate CleanAfter(sb: Superblock, d: Image, base: Image, tx: Transaction) {
    Clean(sb, d) && HomeAgrees(sb, d, AfterImage(base, tx), {})
  }

  predicate ExposedBefore(sb: Superblock, d: Image, base: Image, tx: Transaction) {
    && Ready(sb, base, tx)
    && Exposed(sb, d, Selected(sb, base).value, tx.metadata)
    && Unrecorded(sb, d, Selected(sb, base).value, tx.metadata)
    && HomeAgrees(sb, d, base, tx.ordered.Keys)
  }

  predicate ExposedAfter(sb: Superblock, d: Image, base: Image, tx: Transaction) {
    && Ready(sb, base, tx)
    && Exposed(sb, d, Selected(sb, base).value, tx.metadata)
    && Recorded(sb, d, Selected(sb, base).value, tx.metadata)
    && HomeAgrees(sb, d, WithOrdered(base, tx), tx.metadata.Keys)
  }

  /** What a crash may leave of the latest transaction, and when. */
  predicate ImageInv(sb: Superblock, d: Image, base: Image, tx: Transaction, commit: CommitHistory) {
    && Journaled(sb, d)
    && (|| (CleanBefore(sb, d, base, tx) && commit != Synced)
        || (CleanAfter(sb, d, base, tx) && commit != NotSubmitted)
        || (ExposedBefore(sb, d, base, tx) && commit != Synced)
        || (ExposedAfter(sb, d, base, tx) && commit != NotSubmitted))
  }

  /** What is durable at the start of each batch. */
  predicate StageInv(sb: Superblock, s: State) {
    && s.todo != [] && Started(sb, s) && Journaled(sb, s.durable)
    && (forall b :: b in s.pending ==> b in s.todo[0].writes && s.pending[b] == s.todo[0].writes[b])
    && var sel := Selected(sb, s.base).value;
       var m := s.tx.metadata;
       match s.todo[0].stage
       case OrderedData =>
         && s.todo == [Batch(OrderedData, s.tx.ordered)] + BodyBatches(sb, sel, m)
         && s.durable == s.base && s.commit == NotSubmitted
       case JournalBody =>
         && s.todo == BodyBatches(sb, sel, m)
         && s.durable == WithOrdered(s.base, s.tx) && s.commit == NotSubmitted
       case ControlExposure =>
         && s.todo == ExposeBatches(sb, sel, m)
         && Selected(sb, s.durable) == Some(sel) && BodyIn(sb, s.durable, sel, m)
         && HomeAgrees(sb, s.durable, WithOrdered(s.base, s.tx), {}) && s.commit == NotSubmitted
         && Unrecorded(sb, s.durable, sel, m)
       case CommitRecorded =>
         && s.todo == CommitBatches(sb, sel, m)
         && Exposed(sb, s.durable, sel, m) && Unrecorded(sb, s.durable, sel, m)
         && HomeAgrees(sb, s.durable, WithOrdered(s.base, s.tx), {})
         && s.commit == (if s.pending == map[] then NotSubmitted else Submitted)
       case HomeBlocks =>
         && s.todo == ReplayBatches(sb, sel.copy, m, Place(sb, sel, m).clean)
         && Exposed(sb, s.durable, sel, m) && Recorded(sb, s.durable, sel, m)
         && HomeAgrees(sb, s.durable, WithOrdered(s.base, s.tx), m.Keys)
         && s.commit != NotSubmitted
       case Checkpoint =>
         && s.todo == DiscardBatches(sb, sel.copy, Place(sb, sel, m).clean)
         && Exposed(sb, s.durable, sel, m)
         && (|| (Recorded(sb, s.durable, sel, m) && HomeAgrees(sb, s.durable, AfterImage(s.base, s.tx), {})
                 && s.commit != NotSubmitted)
             || (Unrecorded(sb, s.durable, sel, m) && HomeAgrees(sb, s.durable, s.base, s.tx.ordered.Keys)
                 && s.commit != Synced))
  }

  predicate Inv(sb: Superblock, s: State) {
    if s.todo == []
    then
      && s.pending == map[] && ImageInv(sb, s.durable, s.base, s.tx, s.commit)
      && (s.up ==> Clean(sb, s.durable))
    else StageInv(sb, s)
  }
}
