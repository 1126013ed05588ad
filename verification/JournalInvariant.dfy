/** Why the journal protocol's invariant holds over every run. */
module JournalInvariant {
  import opened Bytes
  import opened Order
  import opened JournalFormat
  import opened OndiskFormat
  import opened RingReservation
  import opened Journal
  import opened JournalProtocol

  // ---- Geometry and frames ----

  lemma JournalGeometry(sb: Superblock)
    requires ValidSuperblock(sb)
    ensures RingBlocks(sb) >= MINIMUM_RING_BLOCKS
    ensures sb.journal.start + sb.journal.count <= sb.totalBlocks
    ensures forall copy :: InRegion(ControlBlock(sb, copy), sb.journal)
    ensures forall i :: 0 <= i < RingBlocks(sb) ==> InRegion(RingBlock(sb, i), sb.journal)
    ensures forall b :: InRegion(b, sb.data) ==> !InRegion(b, sb.journal)
  {}

  /** The two images hold the same journal region. */
  ghost predicate SameJournal(sb: Superblock, d: Image, e: Image) {
    forall b :: InRegion(b, sb.journal) ==> At(d, b) == At(e, b)
  }

  lemma SameJournalReads(sb: Superblock, d: Image, e: Image)
    requires ValidSuperblock(sb) && SameJournal(sb, d, e)
    ensures Selected(sb, d) == Selected(sb, e)
    ensures forall copy :: UsableAt(sb, d, copy) == UsableAt(sb, e, copy)
    ensures forall i :: 0 <= i < RingBlocks(sb) ==> RingAt(sb, d, i) == RingAt(sb, e, i)
  {
    hide SelectControl, UsableControl;
    JournalGeometry(sb);
  }

  lemma SameJournalIsJournaled(sb: Superblock, d: Image, e: Image)
    requires Journaled(sb, d) && SameJournal(sb, d, e) && |e| == |d|
    ensures Journaled(sb, e)
  {
    hide SelectControl, UsableControl, DecodeCommit, ValidSuperblock, Selected;
    SameJournalReads(sb, d, e);
    assert forall i :: 0 <= i < RingBlocks(sb) ==> CommitAt(sb, d, i) == CommitAt(sb, e, i);
  }

  lemma PlanFacts(sb: Superblock, sel: Selection, m: Writes)
    requires Plannable(sb, sel, m)
    ensures var p := Place(sb, sel, m).plan;
      && p == PlanFor(sel.control, |m|)
      && p.transactionId == sel.control.nextTransactionId
      && p.exposed.nextTransactionId == p.transactionId + 1
      && p.exposed.generation == NextGeneration(sel.control.generation)
      && p.exposed.usedBlocks == |m| + 2
      && p.exposed.tail == p.descriptorIndex < RingBlocks(sb) && p.commitIndex < RingBlocks(sb)
      && |p.payloadIndices| == |m|
      && p.exposed.ringBlocks == RingBlocks(sb) && p.exposed.uuid == sb.uuid
  {
    hide Advance, ValidControl, ReserveCheck, DescriptorBytes, CommitBytes, ControlBytes, ValidSuperblock;
    ReserveCheckPassed(sel.control, |m|);
    ExposedControlIsValid(sel.control, |m|);
    ReservationIsDistinct(sel.control, |m|);
  }

  predicate InRing(sb: Superblock, b: nat) {
    sb.journal.start + CONTROL_BLOCKS <= b < sb.journal.start + CONTROL_BLOCKS + RingBlocks(sb)
  }

  /** One block of a transaction's body: in the ring, off the COMMIT position, not a COMMIT. */
  lemma BodyBlock(sb: Superblock, sel: Selection, m: Writes, p: Placement, w: Writes, b: nat)
    requires Plannable(sb, sel, m) && PayloadsAreNotCommits(m)
    requires p == Place(sb, sel, m) && w == BodyWrites(sb, p, m) && b in w
    ensures InRing(sb, b) && b != RingBlock(sb, p.plan.commitIndex)
    ensures DecodeCommit(w[b]) == None
  {
    hide Advance, ValidControl, ReserveCheck, DecodeCommit, DecodeDescriptor, DecodeControl, Ascending;
    hide DescriptorBytes, CommitBytes, ControlBytes, ValidSuperblock, ExposedControl, Place, InOrder, DescriptorFor;
    PlanFacts(sb, sel, m);
    PlacementDecodes(sb, sel, m);
    ReservationIsDistinct(sel.control, |m|);
    var positions := p.plan.payloadIndices;
    if b != RingBlock(sb, p.plan.descriptorIndex) {
      var i := PayloadWriteSource(sb, positions, InOrder(m), |m|, b);
      assert InOrder(m)[i] == m[Ascending(m.Keys)[i]];
    }
  }

  /** Where the descriptor and the payloads are in a transaction's body. */
  lemma BodyContents(sb: Superblock, sel: Selection, m: Writes, p: Placement, w: Writes)
    requires Plannable(sb, sel, m)
    requires p.plan == PlanFor(sel.control, |m|) && w == BodyWrites(sb, p, m)
    ensures RingBlock(sb, p.plan.descriptorIndex) in w && w[RingBlock(sb, p.plan.descriptorIndex)] == p.descriptor
    ensures forall i :: 0 <= i < |m| ==>
      RingBlock(sb, p.plan.payloadIndices[i]) in w && w[RingBlock(sb, p.plan.payloadIndices[i])] == InOrder(m)[i]
  {
    hide Advance, ValidControl, ReserveCheck, Ascending;
    hide DescriptorBytes, CommitBytes, ControlBytes, ValidSuperblock, ExposedControl, Place, InOrder, DescriptorFor;
    PlanFacts(sb, sel, m);
    ReservationIsDistinct(sel.control, |m|);
    PayloadWritesAt(sb, p.plan.payloadIndices, InOrder(m), |m|);
  }

  // ---- The A/B control ----

  lemma SelectedIsUsable(sb: Superblock, d: Image, sel: Selection)
    requires Selected(sb, d) == Some(sel)
    ensures UsableAt(sb, d, sel.copy) == Some(sel.control)
  {
    hide UsableControl, CompareGenerations, DecodeControl, ValidControl, At;
  }

  /** Writing the successor to the other copy selects it and keeps the old one as a fallback. */
  lemma ControlWritten(sb: Superblock, d: Image, e: Image, sel: Selection, next: JournalControl)
    requires ValidSuperblock(sb) && Selected(sb, d) == Some(sel)
    requires At(e, ControlBlock(sb, sel.copy)) == At(d, ControlBlock(sb, sel.copy))
    requires DecodeControl(At(e, ControlBlock(sb, Other(sel.copy)))) == Some(next)
    requires next.ringBlocks == RingBlocks(sb) && next.uuid == sb.uuid
    requires next.generation == NextGeneration(sel.control.generation)
    ensures Selected(sb, e) == Some(Selection(next, Other(sel.copy)))
    ensures ControlOrder(sb, e)
  {
    hide DecodeControl, ValidControl, CompareGenerations, ValidSuperblock;
    JournalGeometry(sb);
    SelectedIsUsable(sb, d, sel);
    SuccessorIsNewer(sel.control.generation);
  }

  /** A torn write of the other copy leaves the selected one in charge. */
  lemma ControlTorn(sb: Superblock, d: Image, e: Image, sel: Selection)
    requires ValidSuperblock(sb) && Selected(sb, d) == Some(sel)
    requires At(e, ControlBlock(sb, sel.copy)) == At(d, ControlBlock(sb, sel.copy))
    requires DecodeControl(At(e, ControlBlock(sb, Other(sel.copy)))) == None
    ensures Selected(sb, e) == Some(sel)
    ensures ControlOrder(sb, e)
  {
    hide DecodeControl, ValidControl, CompareGenerations, ValidSuperblock;
    JournalGeometry(sb);
    SelectedIsUsable(sb, d, sel);
  }

  // ---- Recovery of an exposed transaction ----

  lemma {:induction false} PayloadsOf(sb: Superblock, d: Image, entries: seq<DescriptorEntry>, m: Writes, n: nat)
    requires n <= |entries| == |m|
    requires forall i :: 0 <= i < |m| ==>
      entries[i].homeBlock == Ascending(m.Keys)[i] && RingAt(sb, d, entries[i].payloadRingIndex) == InOrder(m)[i]
    ensures forall i :: 0 <= i < n ==> Ascending(m.Keys)[i] in Payloads(sb, d, entries, n)
    ensures forall b :: b in Payloads(sb, d, entries, n) ==> b in m && Payloads(sb, d, entries, n)[b] == m[b]
  {
    hide Ascending, InOrder, RingAt;
    if n > 0 {
      PayloadsOf(sb, d, entries, m, n - 1);
      assert InOrder(m)[n - 1] == m[Ascending(m.Keys)[n - 1]];
    }
  }

  /** One descriptor entry points at its home block and its payload, also when the ring wraps. */
  lemma EntryFacts(sb: Superblock, sel: Selection, m: Writes, p: Placement, i: nat)
    requires Plannable(sb, sel, m) && p == Place(sb, sel, m) && i < |m|
    ensures var e := DescriptorFor(sb, p.plan, m).entries[i];
      && e.homeBlock == Ascending(m.Keys)[i] && MetadataTarget(sb, e.homeBlock)
      && e.payloadRingIndex == p.plan.payloadIndices[i] == Advance(p.plan.exposed.tail, i + 1, p.plan.exposed.ringBlocks)
      && e.payloadCrc == BlockCrc(InOrder(m)[i])
  {
    hide ValidControl, ReserveCheck, Ascending, Advance, BlockCrc;
    hide DescriptorBytes, CommitBytes, ControlBytes, ValidSuperblock, Place;
    PlanFacts(sb, sel, m);
    ReserveCheckPassed(sel.control, |m|);
    assert Ascending(m.Keys)[i] in m;
  }

  /** The descriptor the writer placed passes every test of recovery. */
  lemma DescriptorAccepted(sb: Superblock, d: Image, sel: Selection, m: Writes, p: Placement, r: DescriptorRecord)
    requires Plannable(sb, sel, m)
    requires p == Place(sb, sel, m) && BodyIn(sb, d, sel, m) && r == DescriptorFor(sb, p.plan, m)
    ensures RingAt(sb, d, p.plan.exposed.tail) == p.descriptor
    ensures DescriptorFitsControl(sb, p.plan.exposed, r)
    ensures PayloadsIntact(sb, d, r.entries)
    ensures |r.entries| == |m| && Payloads(sb, d, r.entries, |m|) == m
  {
    hide ValidControl, ReserveCheck, Ascending, Advance, BlockCrc, Entries;
    hide DescriptorBytes, CommitBytes, ControlBytes, ValidSuperblock, Place, InOrder, BodyWrites, RingAt, Payloads;
    hide MetadataTarget;
    PlanFacts(sb, sel, m);
    BodyContents(sb, sel, m, p, BodyWrites(sb, p, m));
    ReserveCheckPassed(sel.control, |m|);
    forall i | 0 <= i < |m|
      ensures r.entries[i].homeBlock == Ascending(m.Keys)[i] && MetadataTarget(sb, r.entries[i].homeBlock)
      ensures r.entries[i].payloadRingIndex == Advance(p.plan.exposed.tail, i + 1, p.plan.exposed.ringBlocks)
      ensures RingAt(sb, d, r.entries[i].payloadRingIndex) == InOrder(m)[i]
      ensures r.entries[i].payloadCrc == BlockCrc(InOrder(m)[i])
    {
      EntryFacts(sb, sel, m, p, i);
      RingAtIs(sb, d, p.plan.payloadIndices[i]);
    }
    RingAtIs(sb, d, p.plan.descriptorIndex);
    PayloadsAre(sb, d, r.entries, m);
  }

  lemma PayloadsAre(sb: Superblock, d: Image, entries: seq<DescriptorEntry>, m: Writes)
    requires |entries| == |m|
    requires forall i :: 0 <= i < |m| ==>
      entries[i].homeBlock == Ascending(m.Keys)[i] && RingAt(sb, d, entries[i].payloadRingIndex) == InOrder(m)[i]
    ensures Payloads(sb, d, entries, |m|) == m
  {
    hide Ascending, InOrder, RingAt, Payloads;
    PayloadsOf(sb, d, entries, m, |m|);
    forall b | b in m
      ensures b in Payloads(sb, d, entries, |m|)
    {
      assert b in Ascending(m.Keys);
    }
  }

  lemma RingAtIs(sb: Superblock, d: Image, i: nat)
    ensures RingAt(sb, d, i) == At(d, RingBlock(sb, i))
  {}

  /** Recovery finds an exposed transaction committed exactly when its COMMIT is in place. */
  lemma ClassifyExposed(sb: Superblock, d: Image, sel: Selection, m: Writes)
    requires Plannable(sb, sel, m) && PayloadsAreNotCommits(m) && Exposed(sb, d, sel, m)
    ensures Recorded(sb, d, sel, m) ==> Classify(sb, d, Place(sb, sel, m).plan.exposed) == Committed(m)
    ensures Unrecorded(sb, d, sel, m) ==> Classify(sb, d, Place(sb, sel, m).plan.exposed) == Uncommitted
  {
    hide ValidControl, ReserveCheck, DecodeCommit, DecodeDescriptor, DecodeControl, Ascending, Advance;
    hide DescriptorBytes, CommitBytes, ControlBytes, ValidSuperblock, Place, BodyWrites, RingAt, BodyIn;
    hide DescriptorFitsControl, PayloadsIntact, Payloads;
    var p := Place(sb, sel, m);
    PlanFacts(sb, sel, m);
    PlacementDecodes(sb, sel, m);
    DescriptorAccepted(sb, d, sel, m, p, DescriptorFor(sb, p.plan, m));
    ReserveCheckPassed(sel.control, |m|);
  }

  /** Another COMMIT block with the number of this transaction stands where its own goes. */
  predicate ForeignCommit(sb: Superblock, d: Image, sel: Selection, m: Writes) {
    var p := Place(sb, sel, m);
    && CommitAt(sb, d, p.plan.commitIndex).Some? && CommitAt(sb, d, p.plan.commitIndex).value.transactionId == p.plan.transactionId
    && CommitAt(sb, d, p.plan.commitIndex) != DecodeCommit(p.commit)
  }

  /** Recovery calls an exposed transaction corrupt exactly when a foreign COMMIT is in its place. */
  lemma ClassifyForeign(sb: Superblock, d: Image, sel: Selection, m: Writes)
    requires Plannable(sb, sel, m) && PayloadsAreNotCommits(m) && Exposed(sb, d, sel, m)
    ensures Classify(sb, d, Place(sb, sel, m).plan.exposed) == Corrupt <==> ForeignCommit(sb, d, sel, m)
  {
    hide ValidControl, ReserveCheck, DecodeCommit, DecodeDescriptor, DecodeControl, Ascending, Advance;
    hide DescriptorBytes, CommitBytes, ControlBytes, ValidSuperblock, Place, BodyWrites, RingAt, BodyIn;
    hide DescriptorFitsControl, PayloadsIntact, Payloads;
    var p := Place(sb, sel, m);
    PlanFacts(sb, sel, m);
    PlacementDecodes(sb, sel, m);
    DescriptorAccepted(sb, d, sel, m, p, DescriptorFor(sb, p.plan, m));
    ReserveCheckPassed(sel.control, |m|);
  }

  // ---- What one batch, written partly or fully, leaves behind ----

  /** `e` is `d` with some of the blocks of `w` written, torn or not. */
  predicate Partly(sb: Superblock, d: Image, w: Writes, e: Image) {
    Settles(sb, d, w, e)
  }

  lemma SettlesWithin(sb: Superblock, d: Image, pending: Writes, w: Writes, e: Image)
    requires Settles(sb, d, pending, e)
    requires forall b :: b in pending ==> b in w && pending[b] == w[b]
    ensures Partly(sb, d, w, e)
  {
    hide TornBlock;
  }

  lemma OverlayIsPartly(sb: Superblock, d: Image, w: Writes)
    ensures Partly(sb, d, w, Overlay(d, w))
  {
    hide TornBlock;
  }

  /** Writes outside the journal keep it. */
  lemma HomeWritesKeepJournal(sb: Superblock, d: Image, w: Writes, e: Image)
    requires ValidSuperblock(sb) && Partly(sb, d, w, e)
    requires forall b :: b in w ==> !InRegion(b, sb.journal)
    ensures SameJournal(sb, d, e)
    ensures HomeAgrees(sb, e, d, w.Keys)
  {
    hide TornBlock, ValidSuperblock;
  }

  lemma ReadyFacts(sb: Superblock, base: Image, tx: Transaction)
    requires Ready(sb, base, tx)
    ensures Clean(sb, base)
    ensures forall b :: b in tx.ordered ==> !InRegion(b, sb.journal)
    ensures forall b :: b in tx.metadata ==> !InRegion(b, sb.journal)
  {
    hide Selected, Journaled, PayloadsAreNotCommits, ValidControl, ValidSuperblock, Advance;
    JournalGeometry(sb);
    ReserveCheckPassed(Selected(sb, base).value.control, |tx.metadata|);
  }

  /** Ordered data: the old state stays selected and only the ordered targets change. */
  lemma OrderedBatch(sb: Superblock, base: Image, tx: Transaction, e: Image)
    requires Ready(sb, base, tx) && Partly(sb, base, tx.ordered, e)
    ensures Journaled(sb, e) && SameJournal(sb, base, e) && CleanBefore(sb, e, base, tx)
  {
    hide Selected, TornBlock, ValidSuperblock, Acceptable, Journaled, HomeAgrees;
    ReadyFacts(sb, base, tx);
    assert ValidSuperblock(sb) by { JournaledIsValid(sb, base); }
    HomeWritesKeepJournal(sb, base, tx.ordered, e);
    SettledLength(sb, base, tx.ordered, e);
    SameJournalIsJournaled(sb, base, e);
    SameJournalReads(sb, base, e);
  }

  lemma JournaledIsValid(sb: Superblock, d: Image)
    requires Journaled(sb, d)
    ensures ValidSuperblock(sb) && |d| == sb.totalBlocks && Selected(sb, d).Some?
  {}

  lemma SettledLength(sb: Superblock, d: Image, w: Writes, e: Image)
    requires Partly(sb, d, w, e)
    ensures |e| == |d|
  {}

  /** A COMMIT at one ring position after a partial write of blocks that are not COMMITs. */
  lemma NoNewCommit(sb: Superblock, d: Image, w: Writes, e: Image, i: nat)
    requires ValidSuperblock(sb) && |d| == sb.totalBlocks && Partly(sb, d, w, e) && i < RingBlocks(sb)
    requires RingBlock(sb, i) in w ==> DecodeCommit(w[RingBlock(sb, i)]) == None
    ensures CommitAt(sb, e, i) == CommitAt(sb, d, i) || CommitAt(sb, e, i) == None
    ensures RingBlock(sb, i) !in w ==> RingAt(sb, e, i) == RingAt(sb, d, i)
  {
    hide DecodeCommit, DecodeControl, ValidSuperblock;
    JournalGeometry(sb);
  }

  /** Journal body: nothing selected, nothing committed, the home blocks untouched. */
  lemma BodyBatch(sb: Superblock, base: Image, tx: Transaction, d: Image, w: Writes, e: Image)
    requires Ready(sb, base, tx) && d == WithOrdered(base, tx)
    requires var sel := Selected(sb, base).value; w == BodyWrites(sb, Place(sb, sel, tx.metadata), tx.metadata)
    requires Partly(sb, d, w, e)
    ensures Journaled(sb, e) && Selected(sb, e) == Selected(sb, base)
    ensures HomeAgrees(sb, e, WithOrdered(base, tx), {}) && HomeAgrees(sb, e, base, tx.ordered.Keys)
    ensures Unrecorded(sb, e, Selected(sb, base).value, tx.metadata)
  {
    hide Selected, DecodeCommit, DecodeControl, ValidSuperblock, Place, BodyWrites, Plannable, SelectControl;
    hide UsableControl, Partly, UsableAt, CommitAt, HomeAgrees;
    var sel := Selected(sb, base).value;
    var m := tx.metadata;
    var p := Place(sb, sel, m);
    PlanFacts(sb, sel, m);
    JournaledIsValid(sb, base);
    OrderedBatch(sb, base, tx, d) by { OverlayIsPartly(sb, base, tx.ordered); }
    SameJournalReads(sb, base, d);
    SettledLength(sb, d, w, e);
    forall b | b in w
      ensures InRing(sb, b) && b != RingBlock(sb, p.plan.commitIndex) && DecodeCommit(w[b]) == None
    {
      BodyBlock(sb, sel, m, p, w, b);
    }
    RingWritesKeepControls(sb, d, w, e);
    forall i | 0 <= i < RingBlocks(sb)
      ensures CommitAt(sb, e, i) == CommitAt(sb, d, i) || CommitAt(sb, e, i) == None
    {
      NoNewCommit(sb, d, w, e, i);
    }
    NoNewCommit(sb, d, w, e, p.plan.commitIndex);
    SameCommits(sb, base, d);
    HomeAgreesTrans(sb, e, d, base, tx.ordered.Keys);
  }

  lemma SameCommits(sb: Superblock, d: Image, e: Image)
    requires ValidSuperblock(sb) && SameJournal(sb, d, e)
    ensures forall i :: 0 <= i < RingBlocks(sb) ==> CommitAt(sb, d, i) == CommitAt(sb, e, i)
  {
    hide DecodeCommit, Selected, UsableAt;
    SameJournalReads(sb, d, e);
  }

  lemma HomeAgreesTrans(sb: Superblock, e: Image, d: Image, base: Image, except: set<nat>)
    requires HomeAgrees(sb, e, d, {}) && HomeAgrees(sb, d, base, except)
    ensures HomeAgrees(sb, e, base, except)
  {}

  /** Ring writes keep both control copies and every home block. */
  lemma RingWritesKeepControls(sb: Superblock, d: Image, w: Writes, e: Image)
    requires ValidSuperblock(sb) && |d| == sb.totalBlocks && Partly(sb, d, w, e)
    requires forall b :: b in w ==> InRing(sb, b)
    ensures Selected(sb, e) == Selected(sb, d)
    ensures forall copy :: UsableAt(sb, e, copy) == UsableAt(sb, d, copy)
    ensures HomeAgrees(sb, e, d, {})
  {
    hide TornBlock, ValidSuperblock, SelectControl, UsableControl;
    JournalGeometry(sb);
    assert forall copy :: At(e, ControlBlock(sb, copy)) == At(d, ControlBlock(sb, copy));
  }

  lemma BodyWrittenIn(sb: Superblock, d: Image, w: Writes, sel: Selection, m: Writes)
    requires w == BodyWrites(sb, Place(sb, sel, m), m) && Plannable(sb, sel, m) && PayloadsAreNotCommits(m)
    requires |d| == sb.totalBlocks
    ensures BodyIn(sb, Overlay(d, w), sel, m)
  {
    hide Place, BodyWrites, PayloadsAreNotCommits, DecodeCommit, ReserveCheck;
    JournalGeometry(sb);
    forall b | b in w
      ensures At(Overlay(d, w), b) == w[b]
    {
      BodyBlock(sb, sel, m, Place(sb, sel, m), w, b);
    }
  }

  /** Blocks other than a transaction's body leave the body in place. */
  lemma BodyKept(sb: Superblock, d: Image, w: Writes, e: Image, sel: Selection, m: Writes)
    requires Plannable(sb, sel, m) && PayloadsAreNotCommits(m) && |d| == sb.totalBlocks
    requires BodyIn(sb, d, sel, m) && Partly(sb, d, w, e)
    requires forall b :: b in w ==> !InRing(sb, b) || b == RingBlock(sb, Place(sb, sel, m).plan.commitIndex)
    ensures BodyIn(sb, e, sel, m)
  {
    hide Place, BodyWrites, PayloadsAreNotCommits, DecodeCommit, DecodeControl, ReserveCheck;
    JournalGeometry(sb);
    PlanFacts(sb, sel, m);
    var body := BodyWrites(sb, Place(sb, sel, m), m);
    forall b | b in body
      ensures At(e, b) == body[b]
    {
      BodyBlock(sb, sel, m, Place(sb, sel, m), body, b);
    }
  }

  /** One control copy written: nothing else changes. */
  lemma ControlBatchFrame(sb: Superblock, d: Image, copy: Copy, v: Block, e: Image)
    requires ValidSuperblock(sb) && |d| == sb.totalBlocks
    requires Partly(sb, d, Single(ControlBlock(sb, copy), v), e)
    ensures |e| == |d| && HomeAgrees(sb, e, d, {})
    ensures At(e, ControlBlock(sb, Other(copy))) == At(d, ControlBlock(sb, Other(copy)))
    ensures forall i :: 0 <= i < RingBlocks(sb) ==> RingAt(sb, e, i) == RingAt(sb, d, i)
    ensures || At(e, ControlBlock(sb, copy)) == At(d, ControlBlock(sb, copy))
            || At(e, ControlBlock(sb, copy)) == v
            || DecodeControl(At(e, ControlBlock(sb, copy))) == None
    ensures At(e, ControlBlock(sb, copy)) == At(d, ControlBlock(sb, copy)) ==> SameJournal(sb, d, e)
  {
    hide DecodeControl, DecodeCommit, ValidSuperblock;
    JournalGeometry(sb);
  }

  /** After a control write the image is journaled if its new selection allows the COMMITs there. */
  lemma ControlBatchJournaled(sb: Superblock, d: Image, e: Image)
    requires ValidSuperblock(sb) && |d| == |e| == sb.totalBlocks
    requires Journaled(sb, d) && ControlOrder(sb, e)
    requires forall i :: 0 <= i < RingBlocks(sb) ==> RingAt(sb, e, i) == RingAt(sb, d, i)
    requires Selected(sb, d).value.control.nextTransactionId <= Selected(sb, e).value.control.nextTransactionId
    ensures Journaled(sb, e)
  {
    hide Selected, DecodeCommit, ValidSuperblock, UsableAt;
    assert forall i :: 0 <= i < RingBlocks(sb) ==> CommitAt(sb, e, i) == CommitAt(sb, d, i);
  }

  /** Control exposure: either still clean, or exposed with the COMMIT position empty. */
  lemma ExposeBatch(sb: Superblock, base: Image, tx: Transaction, d: Image, e: Image)
    requires Ready(sb, base, tx) && Journaled(sb, d)
    requires var sel := Selected(sb, base).value; var m := tx.metadata;
      && Selected(sb, d) == Some(sel) && BodyIn(sb, d, sel, m) && Unrecorded(sb, d, sel, m)
      && Partly(sb, d, Single(ControlBlock(sb, Other(sel.copy)), Place(sb, sel, m).exposed), e)
    ensures Journaled(sb, e) && HomeAgrees(sb, e, d, {})
    ensures var sel := Selected(sb, base).value; var m := tx.metadata;
      && (Clean(sb, e) || (Exposed(sb, e, sel, m) && Unrecorded(sb, e, sel, m)))
      && (At(e, ControlBlock(sb, Other(sel.copy))) == Place(sb, sel, m).exposed ==>
            Exposed(sb, e, sel, m) && Unrecorded(sb, e, sel, m))
  {
    hide Selected, DecodeCommit, DecodeControl, DecodeDescriptor, ValidSuperblock, Place, BodyWrites, Plannable;
    hide Partly, BodyIn, HomeAgrees, ControlOrder, DescriptorFor, SameJournal;
    var sel := Selected(sb, base).value;
    var m := tx.metadata;
    var p := Place(sb, sel, m);
    var copy := Other(sel.copy);
    JournaledIsValid(sb, d);
    hide Unrecorded, NextGeneration;
    ReadyFacts(sb, base, tx);
    PlanFacts(sb, sel, m);
    PlacementDecodes(sb, sel, m);
    ControlBatchFrame(sb, d, copy, p.exposed, e);
    SlotKept(sb, d, e, sel, m);
    ControlIsNotInRing(sb, copy, p.exposed);
    BodyKept(sb, d, Single(ControlBlock(sb, copy), p.exposed), e, sel, m);
    if At(e, ControlBlock(sb, copy)) == p.exposed {
      ControlWritten(sb, d, e, sel, p.plan.exposed);
      ControlBatchJournaled(sb, d, e);
    } else if DecodeControl(At(e, ControlBlock(sb, copy))) == None {
      ControlTorn(sb, d, e, sel);
      ControlBatchJournaled(sb, d, e);
    } else {
      SameJournalIsJournaled(sb, d, e);
      SameJournalReads(sb, d, e);
    }
  }

  lemma ControlIsNotInRing(sb: Superblock, copy: Copy, v: Block)
    ensures forall b :: b in Single(ControlBlock(sb, copy), v) ==> !InRing(sb, b)
  {}

  /** COMMIT: recorded, or the position still shows no COMMIT of this transaction. */
  lemma CommitBatch(sb: Superblock, base: Image, tx: Transaction, d: Image, e: Image)
    requires Ready(sb, base, tx) && Journaled(sb, d)
    requires var sel := Selected(sb, base).value; var m := tx.metadata; var p := Place(sb, sel, m);
      && Exposed(sb, d, sel, m) && Unrecorded(sb, d, sel, m)
      && Partly(sb, d, Single(RingBlock(sb, p.plan.commitIndex), p.commit), e)
    ensures Journaled(sb, e) && HomeAgrees(sb, e, d, {})
    ensures var sel := Selected(sb, base).value; var m := tx.metadata;
      && Exposed(sb, e, sel, m)
      && (Recorded(sb, e, sel, m) || Unrecorded(sb, e, sel, m))
  {
    hide Selected, DecodeCommit, DecodeControl, DecodeDescriptor, ValidSuperblock, Place, BodyWrites, Plannable;
    hide Partly, BodyIn, HomeAgrees, UsableAt, DescriptorFor;
    var sel := Selected(sb, base).value;
    var m := tx.metadata;
    var p := Place(sb, sel, m);
    var w := Single(RingBlock(sb, p.plan.commitIndex), p.commit);
    JournaledIsValid(sb, d);
    PlanFacts(sb, sel, m);
    PlacementDecodes(sb, sel, m);
    SettledLength(sb, d, w, e);
    RingWritesKeepControls(sb, d, w, e);
    BodyKept(sb, d, w, e, sel, m);
    CommitBatchAt(sb, d, p.plan.commitIndex, p.commit, e);
  }

  lemma CommitBatchAt(sb: Superblock, d: Image, index: nat, v: Block, e: Image)
    requires ValidSuperblock(sb) && |d| == sb.totalBlocks && index < RingBlocks(sb)
    requires Partly(sb, d, Single(RingBlock(sb, index), v), e)
    ensures forall i :: 0 <= i < RingBlocks(sb) && i != index ==> CommitAt(sb, e, i) == CommitAt(sb, d, i)
    ensures || CommitAt(sb, e, index) == CommitAt(sb, d, index)
            || CommitAt(sb, e, index) == None
            || RingAt(sb, e, index) == v
  {
    hide DecodeCommit, DecodeControl, ValidSuperblock;
    JournalGeometry(sb);
  }

  /** Home replay: the journal keeps saying "committed" until the checkpoint. */
  lemma HomeBatch(sb: Superblock, base: Image, tx: Transaction, d: Image, e: Image)
    requires Ready(sb, base, tx) && Journaled(sb, d)
    requires var sel := Selected(sb, base).value; var m := tx.metadata;
      Exposed(sb, d, sel, m) && Recorded(sb, d, sel, m) && Partly(sb, d, m, e)
    requires HomeAgrees(sb, d, WithOrdered(base, tx), tx.metadata.Keys)
    ensures Journaled(sb, e)
    ensures var sel := Selected(sb, base).value; var m := tx.metadata;
      Exposed(sb, e, sel, m) && Recorded(sb, e, sel, m)
    ensures HomeAgrees(sb, e, WithOrdered(base, tx), tx.metadata.Keys)
  {
    hide Selected, DecodeCommit, DecodeControl, ValidSuperblock, Place, BodyWrites, Plannable;
    hide Partly, BodyIn, UsableAt;
    var sel := Selected(sb, base).value;
    var m := tx.metadata;
    JournaledIsValid(sb, d);
    ReadyFacts(sb, base, tx);
    PlanFacts(sb, sel, m);
    SettledLength(sb, d, m, e);
    HomeWritesKeepJournal(sb, d, m, e);
    SameJournalIsJournaled(sb, d, e);
    SameJournalReads(sb, d, e);
    HomeIsNotInRing(sb, m);
    BodyKept(sb, d, m, e, sel, m);
  }

  lemma HomeIsNotInRing(sb: Superblock, m: Writes)
    requires ValidSuperblock(sb) && forall b :: b in m ==> !InRegion(b, sb.journal)
    ensures forall b :: b in m ==> !InRing(sb, b)
  {}

  lemma SlotKept(sb: Superblock, d: Image, e: Image, sel: Selection, m: Writes)
    requires forall i :: 0 <= i < RingBlocks(sb) ==> RingAt(sb, e, i) == RingAt(sb, d, i)
    requires Place(sb, sel, m).plan.commitIndex < RingBlocks(sb)
    ensures Recorded(sb, d, sel, m) ==> Recorded(sb, e, sel, m)
    ensures Unrecorded(sb, d, sel, m) ==> Unrecorded(sb, e, sel, m)
  {
    hide DecodeCommit, Place, RingAt;
  }

  /** Checkpoint: either still exposed exactly as before, or clean. */
  lemma CheckpointBatch(sb: Superblock, base: Image, tx: Transaction, d: Image, e: Image)
    requires Ready(sb, base, tx) && Journaled(sb, d)
    requires var sel := Selected(sb, base).value; var m := tx.metadata;
      && Exposed(sb, d, sel, m)
      && Partly(sb, d, Single(ControlBlock(sb, sel.copy), Place(sb, sel, m).clean), e)
    ensures Journaled(sb, e) && HomeAgrees(sb, e, d, {})
    ensures var sel := Selected(sb, base).value; var m := tx.metadata;
      && (Clean(sb, e) || Exposed(sb, e, sel, m))
      && (Recorded(sb, d, sel, m) ==> Recorded(sb, e, sel, m))
      && (Unrecorded(sb, d, sel, m) ==> Unrecorded(sb, e, sel, m))
      && (At(e, ControlBlock(sb, sel.copy)) == Place(sb, sel, m).clean ==> Clean(sb, e))
  {
    hide Selected, DecodeCommit, DecodeControl, DecodeDescriptor, ValidSuperblock, Place, BodyWrites, Plannable;
    hide Partly, BodyIn, HomeAgrees, ControlOrder, DescriptorFor, SameJournal;
    var sel := Selected(sb, base).value;
    var m := tx.metadata;
    var p := Place(sb, sel, m);
    var exposed := Selection(p.plan.exposed, Other(sel.copy));
    hide Recorded, Unrecorded, NextGeneration;
    JournaledIsValid(sb, d);
    PlanFacts(sb, sel, m);
    PlacementDecodes(sb, sel, m);
    ControlBatchFrame(sb, d, sel.copy, p.clean, e);
    SlotKept(sb, d, e, sel, m);
    ControlIsNotInRing(sb, sel.copy, p.clean);
    BodyKept(sb, d, Single(ControlBlock(sb, sel.copy), p.clean), e, sel, m);
    if At(e, ControlBlock(sb, sel.copy)) == p.clean {
      ControlWritten(sb, d, e, exposed, CleanControl(p.plan.exposed));
      ControlBatchJournaled(sb, d, e);
    } else if DecodeControl(At(e, ControlBlock(sb, sel.copy))) == None {
      ControlTorn(sb, d, e, exposed);
      ControlBatchJournaled(sb, d, e);
    } else {
      SameJournalIsJournaled(sb, d, e);
      SameJournalReads(sb, d, e);
    }
  }
}
