/** The invariant over whole runs of the journal, and what it means: crash atomicity,
    recovery that never refuses, no stale replay, and the A/B control rule. */
module JournalRuns {
  import opened Bytes
  import opened JournalFormat
  import opened OndiskFormat
  import opened RingReservation
  import opened Journal
  import opened JournalProtocol
  import opened JournalInvariant

  // ---- Each step keeps the invariant ----

  lemma WriteKeepsInv(sb: Superblock, s: State, b: nat, t: State)
    requires Inv(sb, s) && Write(s, b, t)
    ensures Inv(sb, t)
  {
    hide Ready, Journaled, Exposed, Recorded, Unrecorded, BodyIn, HomeAgrees, Place, Selected, Clean;
    hide CommitBatches, ExposeBatches, BodyBatches, ReplayBatches, DiscardBatches;
    assert b in t.pending;
  }

  /** The pending writes of any stage settle into an image the invariant allows. */
  lemma StageSettles(sb: Superblock, s: State, e: Image)
    requires StageInv(sb, s) && Settles(sb, s.durable, s.pending, e)
    ensures ImageInv(sb, e, s.base, s.tx, s.commit)
  {
    hide Selected, Place, Settles, Plannable, TornBlock, BodyIn, Acceptable, WithOrdered, AfterImage;
    hide Journaled, Clean, Recorded, Unrecorded, HomeAgrees, Exposed;
    JournaledIsValid(sb, s.base);
    var sel := Selected(sb, s.base).value;
    var m := s.tx.metadata;
    SettlesWithin(sb, s.durable, s.pending, s.todo[0].writes, e);
    match s.todo[0].stage {
      case OrderedData =>
        OrderedBatch(sb, s.base, s.tx, e);
      case JournalBody =>
        BodyBatch(sb, s.base, s.tx, s.durable, s.todo[0].writes, e);
        ReadyFacts(sb, s.base, s.tx);
        SameSelectionIsClean(sb, s.base, e);
      case ControlExposure =>
        ExposeBatch(sb, s.base, s.tx, s.durable, e);
        OrderedDoneIsBefore(sb, s.durable, s.base, s.tx);
        HomeAgreesTrans(sb, e, s.durable, s.base, s.tx.ordered.Keys);
      case CommitRecorded =>
        CommitBatch(sb, s.base, s.tx, s.durable, e);
        OrderedDoneIsBefore(sb, s.durable, s.base, s.tx);
        HomeAgreesTrans(sb, e, s.durable, s.base, s.tx.ordered.Keys);
        HomeAgreesTrans(sb, e, s.durable, WithOrdered(s.base, s.tx), {});
        HomeAgreesWider(sb, e, WithOrdered(s.base, s.tx), {}, m.Keys);
        if s.commit == NotSubmitted {
          NothingPending(sb, s.durable, e) by { assert s.pending == map[]; }
        }
      case HomeBlocks =>
        HomeBatch(sb, s.base, s.tx, s.durable, e);
      case Checkpoint =>
        CheckpointBatch(sb, s.base, s.tx, s.durable, e);
        if Recorded(sb, s.durable, sel, m) && HomeAgrees(sb, s.durable, AfterImage(s.base, s.tx), {}) && s.commit != NotSubmitted {
          HomeAgreesTrans(sb, e, s.durable, AfterImage(s.base, s.tx), {});
          AfterIsOrderedDone(sb, e, s.base, s.tx);
        } else {
          HomeAgreesTrans(sb, e, s.durable, s.base, s.tx.ordered.Keys);
        }
    }
  }

  lemma SameSelectionIsClean(sb: Superblock, d: Image, e: Image)
    requires Selected(sb, d) == Selected(sb, e) && Clean(sb, d)
    ensures Clean(sb, e)
  {}

  lemma NothingPending(sb: Superblock, d: Image, e: Image)
    requires Settles(sb, d, map[], e)
    ensures e == d
  {}

  lemma OrderedDoneIsBefore(sb: Superblock, d: Image, base: Image, tx: Transaction)
    requires HomeAgrees(sb, d, WithOrdered(base, tx), {})
    ensures HomeAgrees(sb, d, base, tx.ordered.Keys)
  {}

  lemma AfterIsOrderedDone(sb: Superblock, d: Image, base: Image, tx: Transaction)
    requires HomeAgrees(sb, d, AfterImage(base, tx), {})
    ensures HomeAgrees(sb, d, WithOrdered(base, tx), tx.metadata.Keys)
  {}

  lemma HomeAgreesWider(sb: Superblock, d: Image, e: Image, small: set<nat>, large: set<nat>)
    requires HomeAgrees(sb, d, e, small) && small <= large
    ensures HomeAgrees(sb, d, e, large)
  {}

  lemma CrashKeepsInv(sb: Superblock, s: State, t: State)
    requires Inv(sb, s) && Crash(sb, s, t)
    ensures Inv(sb, t)
  {
    hide StageInv, ImageInv, Settles, Clean;
    if s.todo == [] {
      NothingPending(sb, s.durable, t.durable);
    } else {
      StageSettles(sb, s, t.durable);
    }
  }

  lemma Tail(x: Batch, ys: seq<Batch>)
    ensures ([x] + ys)[1..] == ys
  {}

  lemma SyncedControl(d: Image, b: nat, v: Block)
    requires b < |d|
    ensures At(Overlay(d, Single(b, v)), b) == v
  {}

  lemma SyncedHome(sb: Superblock, d: Image, base: Image, tx: Transaction)
    requires HomeAgrees(sb, d, WithOrdered(base, tx), tx.metadata.Keys)
    ensures HomeAgrees(sb, Overlay(d, tx.metadata), AfterImage(base, tx), {})
  {}

  lemma SyncKeepsInv(sb: Superblock, s: State, t: State)
    requires Inv(sb, s) && Sync(s, t)
    ensures Inv(sb, t)
  {
    hide Selected, Place, Settles, Plannable, TornBlock, BodyIn, Acceptable, Partly, BodyWrites, Single;
    hide Journaled, Clean, Recorded, Unrecorded, HomeAgrees, Exposed, AfterImage;
    JournaledIsValid(sb, s.base);
    JournaledIsValid(sb, s.durable);
    JournalGeometry(sb);
    var sel := Selected(sb, s.base).value;
    var m := s.tx.metadata;
    var d, w, e := s.durable, s.todo[0].writes, t.durable;
    var p := Place(sb, sel, m);
    OverlayIsPartly(sb, d, w);
    Tail(s.todo[0], s.todo[1..]);
    match s.todo[0].stage {
      case OrderedData =>
        OrderedBatch(sb, s.base, s.tx, e);
        Tail(s.todo[0], BodyBatches(sb, sel, m));
      case JournalBody =>
        BodyBatch(sb, s.base, s.tx, d, w, e);
        BodyWrittenIn(sb, d, w, sel, m) by { AcceptableFacts(sb, s.base, s.tx); }
        Tail(s.todo[0], ExposeBatches(sb, sel, m));
      case ControlExposure =>
        ExposeBatch(sb, s.base, s.tx, d, e);
        SyncedControl(d, ControlBlock(sb, Other(sel.copy)), p.exposed);
        HomeAgreesTrans(sb, e, d, WithOrdered(s.base, s.tx), {});
        Tail(s.todo[0], CommitBatches(sb, sel, m));
      case CommitRecorded =>
        CommitBatch(sb, s.base, s.tx, d, e);
        SyncedCommit(sb, d, sel, m) by { AcceptableFacts(sb, s.base, s.tx); }
        HomeAgreesTrans(sb, e, d, WithOrdered(s.base, s.tx), {});
        HomeAgreesWider(sb, e, WithOrdered(s.base, s.tx), {}, m.Keys);
        Tail(s.todo[0], ReplayBatches(sb, sel.copy, m, p.clean));
      case HomeBlocks =>
        HomeBatch(sb, s.base, s.tx, d, e);
        SyncedHome(sb, d, s.base, s.tx);
        Tail(s.todo[0], DiscardBatches(sb, sel.copy, p.clean));
      case Checkpoint =>
        CheckpointBatch(sb, s.base, s.tx, d, e);
        SyncedControl(d, ControlBlock(sb, sel.copy), p.clean);
        if Recorded(sb, d, sel, m) && HomeAgrees(sb, d, AfterImage(s.base, s.tx), {}) && s.commit != NotSubmitted {
          HomeAgreesTrans(sb, e, d, AfterImage(s.base, s.tx), {});
        } else {
          HomeAgreesTrans(sb, e, d, s.base, s.tx.ordered.Keys);
        }
    }
  }

  lemma AcceptableFacts(sb: Superblock, base: Image, tx: Transaction)
    requires Ready(sb, base, tx)
    ensures Selected(sb, base).Some? && Plannable(sb, Selected(sb, base).value, tx.metadata)
    ensures PayloadsAreNotCommits(tx.metadata)
  {
    hide Selected, Plannable, Journaled, PayloadsAreNotCommits;
  }

  lemma SyncedCommit(sb: Superblock, d: Image, sel: Selection, m: Writes)
    requires Plannable(sb, sel, m) && |d| == sb.totalBlocks
    ensures var p := Place(sb, sel, m);
      Recorded(sb, Overlay(d, Single(RingBlock(sb, p.plan.commitIndex), p.commit)), sel, m)
  {
    hide Place, ReserveCheck;
    PlanFacts(sb, sel, m);
    JournalGeometry(sb);
  }

  lemma OpenKeepsInv(sb: Superblock, s: State, t: State)
    requires Inv(sb, s) && Open(sb, s, t)
    ensures Inv(sb, t)
    ensures Clean(sb, s.durable) ==> t.todo == []
  {
    hide Place, Selected, Exposed, Acceptable, Recorded, Unrecorded, HomeAgrees, Journaled, RecoveryScript, AfterImage;
    RecoveryOf(sb, s.durable, s.base, s.tx, s.commit);
    JournaledIsValid(sb, s.durable);
    assert t.todo == [] || t.todo[0].stage == HomeBlocks || t.todo[0].stage == Checkpoint;
  }

  /** What recovery decides about an exposed transaction. */
  lemma ExposedRecovery(sb: Superblock, d: Image, base: Image, tx: Transaction)
    requires Ready(sb, base, tx) && Exposed(sb, d, Selected(sb, base).value, tx.metadata)
    ensures var sel, m := Selected(sb, base).value, tx.metadata;
      && (Unrecorded(sb, d, sel, m) ==>
          RecoveryScript(sb, d) == Some(DiscardBatches(sb, sel.copy, Place(sb, sel, m).clean)))
      && (Recorded(sb, d, sel, m) ==>
          RecoveryScript(sb, d) == Some(ReplayBatches(sb, sel.copy, m, Place(sb, sel, m).clean)))
  {
    hide Selected, Plannable, BodyIn, Acceptable, Recorded, Unrecorded, Journaled, Classify;
    hide ControlBytes, DescriptorBytes, CommitBytes, ExposedControl;
    AcceptableFacts(sb, base, tx);
    ClassifyExposed(sb, d, Selected(sb, base).value, tx.metadata);
  }

  /** What recovery decides on every image the invariant allows. */
  lemma RecoveryOf(sb: Superblock, d: Image, base: Image, tx: Transaction, commit: CommitHistory)
    requires ImageInv(sb, d, base, tx, commit)
    ensures Clean(sb, d) ==> RecoveryScript(sb, d) == Some([])
    ensures ExposedBefore(sb, d, base, tx) ==>
      var sel := Selected(sb, base).value;
      RecoveryScript(sb, d) == Some(DiscardBatches(sb, sel.copy, Place(sb, sel, tx.metadata).clean))
    ensures ExposedAfter(sb, d, base, tx) ==>
      var sel := Selected(sb, base).value;
      RecoveryScript(sb, d) == Some(ReplayBatches(sb, sel.copy, tx.metadata, Place(sb, sel, tx.metadata).clean))
    ensures RecoveryScript(sb, d).Some?
  {
    hide Selected, Place, Exposed, Acceptable, Recorded, Unrecorded, HomeAgrees, Journaled, Classify;
    JournaledIsValid(sb, d);
    if Clean(sb, d) {
      ClassifyClean(sb, d);
    }
    if ExposedBefore(sb, d, base, tx) || ExposedAfter(sb, d, base, tx) {
      ExposedRecovery(sb, d, base, tx);
    }
  }

  lemma ClassifyClean(sb: Superblock, d: Image)
    requires Clean(sb, d)
    ensures Classify(sb, d, Selected(sb, d).value.control) == Empty
  {
    hide Selected;
  }

  lemma BeginKeepsInv(sb: Superblock, s: State, t: State)
    requires Inv(sb, s) && Begin(sb, s, t.tx, t)
    ensures Inv(sb, t)
  {
    hide Selected, Place, Plannable, HomeAgrees, Journaled, BodyWrites;
    JournaledIsValid(sb, s.durable);
    assert Overlay(s.durable, map[]) == s.durable;
  }

  lemma NextKeepsInv(sb: Superblock, s: State, t: State)
    requires Inv(sb, s) && Next(sb, s, t)
    ensures Inv(sb, t)
  {
    hide Inv, Write, Sync, Crash, Open, Begin;
    if b :| Write(s, b, t) {
      WriteKeepsInv(sb, s, b, t);
    } else if Sync(s, t) {
      SyncKeepsInv(sb, s, t);
    } else if Fail(s, t) {
      FailKeepsInv(sb, s, t);
    } else if Crash(sb, s, t) {
      CrashKeepsInv(sb, s, t);
    } else if Open(sb, s, t) {
      OpenKeepsInv(sb, s, t);
    } else {
      BeginKeepsInv(sb, s, t);
    }
  }

  lemma FailKeepsInv(sb: Superblock, s: State, t: State)
    requires Inv(sb, s) && Fail(s, t)
    ensures Inv(sb, t)
  {
    hide ImageInv, Ready, Journaled, Exposed, Recorded, Unrecorded, BodyIn, HomeAgrees, Place, Selected, Clean;
    hide CommitBatches, ExposeBatches, BodyBatches, ReplayBatches, DiscardBatches;
  }

  // ---- Whole runs ----

  function FormattedControl(sb: Superblock): JournalControl {
    JournalControl(RingBlocks(sb), sb.uuid, 0, 0, 0, 0, 0, 1, 0, 0, 0)
  }

  /** Two identical clean controls, as `mkfs` writes them, and a ring without COMMIT blocks. */
  predicate Formatted(sb: Superblock, d: Image) {
    && ValidSuperblock(sb) && |d| == sb.totalBlocks
    && At(d, ControlBlock(sb, A)) == ControlBytes(FormattedControl(sb))
    && At(d, ControlBlock(sb, B)) == ControlBytes(FormattedControl(sb))
    && forall i :: 0 <= i < RingBlocks(sb) ==> CommitAt(sb, d, i) == None
  }

  predicate Init(sb: Superblock, s: State) {
    && Formatted(sb, s.durable)
    && s == State(s.durable, map[], [], false, s.durable, Transaction(map[], map[], map[]), 0, NotSubmitted)
  }

  ghost predicate Run(sb: Superblock, run: seq<State>) {
    && |run| > 0 && Init(sb, run[0])
    && forall i :: 0 < i < |run| ==> Next(sb, run[i - 1], run[i])
  }

  /** Both control copies as `mkfs` writes them. */
  lemma FormattedSelects(sb: Superblock, d: Image)
    requires ValidSuperblock(sb) && forall copy :: At(d, ControlBlock(sb, copy)) == ControlBytes(FormattedControl(sb))
    ensures Selected(sb, d) == Some(Selection(FormattedControl(sb), A)) && RecoveryScript(sb, d) == Some([])
  {
    hide DecodeControl, ControlBytes, ValidSuperblock;
    ControlRoundTrip(FormattedControl(sb)) by { FormattedControlIsValid(sb); }
  }

  lemma FormattedIsClean(sb: Superblock, d: Image)
    requires Formatted(sb, d)
    ensures Journaled(sb, d) && Clean(sb, d)
  {
    hide DecodeControl, DecodeCommit, ControlBytes, ValidSuperblock;
    JournalGeometry(sb);
    ControlRoundTrip(FormattedControl(sb)) by { FormattedControlIsValid(sb); }
  }

  lemma FormattedControlIsValid(sb: Superblock)
    requires ValidSuperblock(sb)
    ensures ValidControl(FormattedControl(sb))
  {
    JournalGeometry(sb);
  }

  lemma InitHasInv(sb: Superblock, s: State)
    requires Init(sb, s)
    ensures Inv(sb, s)
  {
    hide Formatted, Journaled, Clean;
    FormattedIsClean(sb, s.durable);
  }

  lemma {:induction false} RunHasInv(sb: Superblock, run: seq<State>, k: nat)
    requires Run(sb, run) && k < |run|
    ensures Inv(sb, run[k])
  {
    hide Inv, Next, Init;
    if k == 0 {
      InitHasInv(sb, run[0]);
    } else {
      RunHasInv(sb, run, k - 1);
      assert Next(sb, run[k - 1], run[k]);
      NextKeepsInv(sb, run[k - 1], run[k]);
    }
  }

  /** Recovery is total: no crash point of any run leaves an image that recovery calls corrupt. */
  lemma RecoveryNeverRefuses(sb: Superblock, run: seq<State>, k: nat, e: Image)
    requires Run(sb, run) && k < |run| && Settles(sb, run[k].durable, run[k].pending, e)
    ensures RecoveryScript(sb, e).Some?
  {
    hide StageInv, ImageInv, Settles, Clean, RecoveryScript, Run;
    RunHasInv(sb, run, k);
    var s := run[k];
    if s.todo == [] {
      NothingPending(sb, s.durable, e);
    } else {
      StageSettles(sb, s, e);
    }
    RecoveryOf(sb, e, s.base, s.tx, s.commit);
  }

  /** Once recovery or a transaction has finished, a second recovery writes nothing. */
  lemma SecondRecoveryIsNoOp(sb: Superblock, run: seq<State>, k: nat)
    requires Run(sb, run) && k < |run| && run[k].up && run[k].todo == []
    ensures RecoveryScript(sb, run[k].durable) == Some([])
  {
    hide ImageInv, Clean, RecoveryScript, Run;
    RunHasInv(sb, run, k);
    RecoveryOf(sb, run[k].durable, run[k].base, run[k].tx, run[k].commit);
  }

  lemma InvIsJournaled(sb: Superblock, s: State)
    requires Inv(sb, s)
    ensures Journaled(sb, s.durable)
  {
    hide Journaled, Clean, Ready, Selected, Place;
  }

  /** `sel` is the control that the batch at hand writes over the copy that is not selected. */
  predicate PendingControl(sb: Superblock, s: State, sel: Selection) {
    && Selected(sb, s.durable).Some?
    && sel.copy == Other(Selected(sb, s.durable).value.copy)
    && sel.control.generation == NextGeneration(Selected(sb, s.durable).value.control.generation)
    && ControlBlock(sb, sel.copy) in s.pending && s.pending[ControlBlock(sb, sel.copy)] == ControlBytes(sel.control)
  }

  /** The A/B rule: whatever a crash makes of any state of any run, one copy is selected, and the other
      is unusable, identical, or exactly one generation (modulo 2^64) behind. The selected control is the
      one from before, or its successor that was being written to the other copy. */
  lemma ControlRule(sb: Superblock, run: seq<State>, k: nat, e: Image)
    requires Run(sb, run) && k < |run| && Settles(sb, run[k].durable, run[k].pending, e)
    ensures ControlOrder(sb, run[k].durable) && ControlOrder(sb, e)
    ensures Selected(sb, e) == Selected(sb, run[k].durable) || PendingControl(sb, run[k], Selected(sb, e).value)
  {
    hide Run, StageInv, Settles, Selected, PendingControl, Clean, CleanBefore, CleanAfter, ExposedBefore, ExposedAfter, ControlOrder;
    hide CommitsBelow;
    RunHasInv(sb, run, k);
    InvIsJournaled(sb, run[k]);
    JournaledIsValid(sb, run[k].durable);
    var s := run[k];
    if s.todo == [] {
      NothingPending(sb, s.durable, e);
    } else {
      StageSettles(sb, s, e);
      StageControl(sb, s, e);
    }
  }

  lemma StageControl(sb: Superblock, s: State, e: Image)
    requires StageInv(sb, s) && Settles(sb, s.durable, s.pending, e)
    ensures Selected(sb, e) == Selected(sb, s.durable)
      || (Selected(sb, e).Some? && PendingControl(sb, s, Selected(sb, e).value))
  {
    hide Selected, Place, Settles, Plannable, TornBlock, BodyIn, Acceptable, WithOrdered, AfterImage, BodyWrites, Single;
    hide Journaled, Clean, Recorded, Unrecorded, HomeAgrees, PendingControl, ControlBytes, DecodeControl, CommitBatches, ReplayBatches;
    hide BodyBatches, ValidSuperblock, NextGeneration, DecodeCommit, DecodeDescriptor, PayloadsAreNotCommits;
    JournaledIsValid(sb, s.base);
    JournaledIsValid(sb, s.durable);
    AcceptableFacts(sb, s.base, s.tx);
    var sel, m := Selected(sb, s.base).value, s.tx.metadata;
    var p := Place(sb, sel, m);
    PlacedControls(sb, sel, m);
    match s.todo[0].stage {
      case ControlExposure =>
        ControlSettles(sb, s, e, sel, p.plan.exposed);
      case Checkpoint =>
        ControlSettles(sb, s, e, Selection(p.plan.exposed, Other(sel.copy)), CleanControl(p.plan.exposed));
      case _ =>
        PlainStage(sb, s, sel, m);
        NoControlPending(sb, s.durable, s.pending, e);
    }
  }

  lemma PlacedControls(sb: Superblock, sel: Selection, m: Writes)
    requires Plannable(sb, sel, m)
    ensures var p := Place(sb, sel, m); var exposed, clean := p.plan.exposed, CleanControl(p.plan.exposed);
      && p.exposed == ControlBytes(exposed) && p.clean == ControlBytes(clean)
      && DecodeControl(p.exposed) == Some(exposed) && DecodeControl(p.clean) == Some(clean)
      && exposed.ringBlocks == RingBlocks(sb) && exposed.uuid == sb.uuid
      && exposed.generation == NextGeneration(sel.control.generation)
  {
    hide ControlBytes, DecodeControl, DecodeCommit, DecodeDescriptor, CommitBytes, DescriptorBytes, ExposedControl, Plannable;
    PlanFacts(sb, sel, m);
    PlacementDecodes(sb, sel, m);
  }

  /** The other stages leave both control blocks alone. */
  lemma PlainStage(sb: Superblock, s: State, sel: Selection, m: Writes)
    requires StageInv(sb, s) && Selected(sb, s.base) == Some(sel) && m == s.tx.metadata
    requires Plannable(sb, sel, m) && PayloadsAreNotCommits(m)
    requires s.todo[0].stage != ControlExposure && s.todo[0].stage != Checkpoint
    ensures forall copy :: ControlBlock(sb, copy) !in s.pending
  {
    hide Selected, Place, BodyIn, Acceptable, WithOrdered, AfterImage, BodyWrites, Exposed, DecodeCommit;
    hide Journaled, Clean, Recorded, Unrecorded, HomeAgrees;
    ReadyFacts(sb, s.base, s.tx);
    JournalGeometry(sb);
    forall copy
      ensures ControlBlock(sb, copy) !in s.todo[0].writes
    {
      if s.todo[0].stage == JournalBody && ControlBlock(sb, copy) in s.todo[0].writes {
        BodyBlock(sb, sel, m, Place(sb, sel, m), s.todo[0].writes, ControlBlock(sb, copy));
      }
    }
  }

  lemma NoControlPending(sb: Superblock, d: Image, w: Writes, e: Image)
    requires Settles(sb, d, w, e) && forall copy :: ControlBlock(sb, copy) !in w
    ensures Selected(sb, e) == Selected(sb, d)
  {
    hide SelectControl, TornBlock;
    assert forall copy :: At(e, ControlBlock(sb, copy)) == At(d, ControlBlock(sb, copy));
  }

  /** A control write that may be torn or lost. */
  lemma ControlSettles(sb: Superblock, s: State, e: Image, sel: Selection, next: JournalControl)
    requires ValidSuperblock(sb) && |s.durable| == sb.totalBlocks && Selected(sb, s.durable) == Some(sel)
    requires s.todo != [] && s.todo[0].writes == Single(ControlBlock(sb, Other(sel.copy)), ControlBytes(next))
    requires forall b :: b in s.pending ==> b in s.todo[0].writes && s.pending[b] == s.todo[0].writes[b]
    requires Settles(sb, s.durable, s.pending, e)
    requires DecodeControl(ControlBytes(next)) == Some(next) && next.ringBlocks == RingBlocks(sb) && next.uuid == sb.uuid
    requires next.generation == NextGeneration(sel.control.generation)
    ensures Selected(sb, e) == Selected(sb, s.durable)
      || (Selected(sb, e).Some? && PendingControl(sb, s, Selected(sb, e).value))
  {
    hide Selected, DecodeControl, ControlBytes, ValidSuperblock, NextGeneration, ControlOrder;
    var d, b := s.durable, ControlBlock(sb, Other(sel.copy));
    JournalGeometry(sb);
    assert At(e, ControlBlock(sb, sel.copy)) == At(d, ControlBlock(sb, sel.copy));
    if At(e, b) == At(d, b) {
      SameControls(sb, d, e);
    } else if DecodeControl(At(e, b)) == None {
      ControlTorn(sb, d, e, sel);
    } else {
      ControlWritten(sb, d, e, sel, next);
    }
  }

  lemma SameControls(sb: Superblock, d: Image, e: Image)
    requires At(e, ControlBlock(sb, A)) == At(d, ControlBlock(sb, A)) && At(e, ControlBlock(sb, B)) == At(d, ControlBlock(sb, B))
    ensures Selected(sb, e) == Selected(sb, d)
  {
    hide SelectControl;
  }

  /** No stale replay: every COMMIT in the ring is older than the next transaction, and recovery
      replays nothing but the latest transaction, and that only if its COMMIT was submitted. */
  lemma NoStaleReplay(sb: Superblock, run: seq<State>, k: nat, e: Image, images: Writes)
    requires Run(sb, run) && k < |run| && Settles(sb, run[k].durable, run[k].pending, e)
    ensures Selected(sb, e).Some?
    ensures CommitsBelow(sb, e, Selected(sb, e).value.control.nextTransactionId)
    ensures Classify(sb, e, Selected(sb, e).value.control) == Committed(images) ==>
      images == run[k].tx.metadata && run[k].commit != NotSubmitted
  {
    hide StageInv, Settles, Run, Selected, Place, Classify, HomeAgrees, Plannable, BodyIn;
    hide CommitsBelow, Recorded, Unrecorded, ControlOrder;
    RunHasInv(sb, run, k);
    var s := run[k];
    if s.todo == [] {
      NothingPending(sb, s.durable, e);
    } else {
      StageSettles(sb, s, e);
    }
    JournaledIsValid(sb, e);
    if Clean(sb, e) {
      ClassifyClean(sb, e);
    } else {
      AcceptableFacts(sb, s.base, s.tx);
      ClassifyExposed(sb, e, Selected(sb, s.base).value, s.tx.metadata);
    }
  }

  // ---- Crash atomicity ----

  ghost predicate BeginsAt(sb: Superblock, run: seq<State>, k: nat) {
    k + 1 < |run| && Begin(sb, run[k], run[k + 1].tx, run[k + 1])
  }

  ghost predicate SomeWrite(s: State, t: State) {
    exists b :: Write(s, b, t)
  }

  /** Step `k` hands the COMMIT block to the disk. */
  ghost predicate SubmitsCommit(run: seq<State>, k: nat) {
    && k + 1 < |run| && run[k].todo != [] && run[k].todo[0].stage == CommitRecorded
    && SomeWrite(run[k], run[k + 1])
  }

  /** Step `k` is the sync after which `WriteCommit` returns 0. */
  ghost predicate CommitReturns(run: seq<State>, k: nat) {
    && k + 1 < |run| && run[k].todo != [] && run[k].todo[0].stage == CommitRecorded
    && Sync(run[k], run[k + 1])
  }

  /** Only `Begin` changes the recorded transaction; only the two COMMIT steps advance its history. */
  lemma StepHistory(sb: Superblock, run: seq<State>, k: nat)
    requires k + 1 < |run| && Inv(sb, run[k]) && Next(sb, run[k], run[k + 1]) && !BeginsAt(sb, run, k)
    ensures run[k + 1].base == run[k].base && run[k + 1].tx == run[k].tx && run[k + 1].started == run[k].started
    ensures CommitReturns(run, k) ==> run[k + 1].commit == Synced
    ensures run[k].commit == Synced ==> run[k + 1].commit == Synced
    ensures run[k].commit == NotSubmitted && !SubmitsCommit(run, k) ==> run[k + 1].commit == NotSubmitted
  {
    hide Begin, Ready, Journaled, Exposed, Recorded, Unrecorded, BodyIn, HomeAgrees, Place, Selected, Clean;
    hide Settles, RecoveryScript, ExposeBatches, BodyBatches, ReplayBatches, DiscardBatches, ImageInv;
    var s, t := run[k], run[k + 1];
    if b :| Write(s, b, t) {
    } else if Sync(s, t) {
      if s.todo[0].stage == CommitRecorded {
        SyncedCommitWasSubmitted(sb, s);
      }
    }
  }

  lemma SyncedCommitWasSubmitted(sb: Superblock, s: State)
    requires StageInv(sb, s) && s.todo[0].stage == CommitRecorded && s.pending == s.todo[0].writes
    ensures s.commit == Submitted
  {
    hide Acceptable, Journaled, Exposed, Recorded, Unrecorded, BodyIn, HomeAgrees, Place, Selected, Clean;
    hide ReplayBatches;
    JournaledIsValid(sb, s.base);
    assert RingBlock(sb, Place(sb, Selected(sb, s.base).value, s.tx.metadata).plan.commitIndex) in s.todo[0].writes;
  }

  lemma BeginFacts(sb: Superblock, run: seq<State>, k: nat)
    requires BeginsAt(sb, run, k)
    ensures run[k].up && run[k].todo == []
    ensures run[k + 1].base == run[k].durable && run[k + 1].commit == NotSubmitted
  {
    hide Acceptable, Script, Selected;
  }

  lemma {:induction false} SinceBegin(sb: Superblock, run: seq<State>, i: nat, j: nat)
    requires Run(sb, run) && i < j < |run| && BeginsAt(sb, run, i)
    requires forall k :: i < k < j ==> !BeginsAt(sb, run, k)
    ensures run[j].base == run[i].durable && run[j].tx == run[i + 1].tx
    ensures (exists k :: i < k < j && CommitReturns(run, k)) ==> run[j].commit == Synced
    ensures (forall k :: i < k < j ==> !SubmitsCommit(run, k)) ==> run[j].commit == NotSubmitted
    decreases j
  {
    hide Inv, Next, Init, CommitReturns, SubmitsCommit, BeginsAt;
    if j == i + 1 {
      BeginFacts(sb, run, i);
    } else {
      SinceBegin(sb, run, i, j - 1);
      RunHasInv(sb, run, j - 1);
      assert !BeginsAt(sb, run, j - 1) && Next(sb, run[j - 1], run[j - 1 + 1]);
      StepHistory(sb, run, j - 1);
    }
  }

  /** Crash atomicity. Between the start of a transaction and the start of the next there may be any
      number of I/O failures, crashes and interrupted recoveries. The first idle state afterwards has
      either the home blocks from before (free blocks chosen for new data aside) or all blocks of the
      transaction; which one is decided by the COMMIT block. */
  lemma CrashAtomicity(sb: Superblock, run: seq<State>, i: nat, j: nat)
    requires Run(sb, run) && i < j < |run| && BeginsAt(sb, run, i)
    requires forall k :: i < k < j ==> !BeginsAt(sb, run, k)
    requires run[j].up && run[j].todo == []
    ensures var before, after, tx := run[i].durable, run[j].durable, run[i + 1].tx;
      && Clean(sb, after)
      && (HomeAgrees(sb, after, before, tx.ordered.Keys) || HomeAgrees(sb, after, AfterImage(before, tx), {}))
      && ((exists k :: i < k < j && CommitReturns(run, k)) ==> HomeAgrees(sb, after, AfterImage(before, tx), {}))
      && ((forall k :: i < k < j ==> !SubmitsCommit(run, k)) ==> HomeAgrees(sb, after, before, tx.ordered.Keys))
  {
    hide Journaled, Clean, HomeAgrees, Run, BeginsAt, CommitReturns, SubmitsCommit, AfterImage, Selected, Place;
    SinceBegin(sb, run, i, j);
    RunHasInv(sb, run, j);
    assert run[j].commit == NotSubmitted || run[j].commit == Submitted || run[j].commit == Synced;
    if ExposedBefore(sb, run[j].durable, run[j].base, run[j].tx) || ExposedAfter(sb, run[j].durable, run[j].base, run[j].tx) {
      ExposedIsNotClean(sb, run[j].durable, run[j].base, run[j].tx);
    }
  }

  lemma ExposedIsNotClean(sb: Superblock, d: Image, base: Image, tx: Transaction)
    requires Ready(sb, base, tx) && Exposed(sb, d, Selected(sb, base).value, tx.metadata)
    ensures !Clean(sb, d)
  {
    hide Selected, Plannable, Place, BodyIn, Journaled;
    PlanFacts(sb, Selected(sb, base).value, tx.metadata);
  }

  // ---- Any invariant of the home blocks is preserved over whole runs ----

  /** The transaction keeps `P` whether or not it commits: neither the ordered data it writes into
      place beforehand nor its after-image breaks `P`. */
  ghost predicate KeepsP(sb: Superblock, P: Image -> bool, d: Image, tx: Transaction) {
    && (forall e: Image :: HomeAgrees(sb, e, d, tx.ordered.Keys) ==> P(e))
    && (forall e: Image :: HomeAgrees(sb, e, AfterImage(d, tx), {}) ==> P(e))
  }

  ghost predicate KeepsInRun(sb: Superblock, P: Image -> bool, run: seq<State>) {
    forall k: nat :: BeginsAt(sb, run, k) && P(run[k].durable) ==> KeepsP(sb, P, run[k].durable, run[k + 1].tx)
  }

  /** Nothing to do, nothing unsynced, nothing in the journal. */
  predicate Quiet(sb: Superblock, s: State) {
    s.todo == [] && s.pending == map[] && Clean(sb, s.durable)
  }

  /** Until the next transaction starts, failures, crashes and recoveries leave a quiet image alone. */
  lemma QuietStays(sb: Superblock, run: seq<State>, k: nat)
    requires k + 1 < |run| && Inv(sb, run[k]) && Next(sb, run[k], run[k + 1]) && !BeginsAt(sb, run, k)
    requires Quiet(sb, run[k])
    ensures Quiet(sb, run[k + 1]) && run[k + 1].durable == run[k].durable
  {
    hide Begin, Inv, Clean, RecoveryScript, Settles;
    var s, t := run[k], run[k + 1];
    if Crash(sb, s, t) {
      NothingPending(sb, s.durable, t.durable);
    } else if Open(sb, s, t) {
      OpenKeepsInv(sb, s, t);
    }
  }

  /** Every idle state of every run satisfies any home invariant that holds in some quiet state before
      it, for example after formatting, and is kept by each transaction taken on its own. */
  lemma {:induction false} RunsPreserve(sb: Superblock, P: Image -> bool, run: seq<State>, i: nat, j: nat)
    requires Run(sb, run) && i <= j < |run| && Quiet(sb, run[i])
    requires forall e: Image :: HomeAgrees(sb, e, run[i].durable, {}) ==> P(e)
    requires KeepsInRun(sb, P, run)
    ensures (Quiet(sb, run[j]) && run[j].durable == run[i].durable) || KeepsP(sb, P, run[j].base, run[j].tx)
    ensures run[j].up && run[j].todo == [] ==> P(run[j].durable)
    decreases j
  {
    hide Inv, Next, BeginsAt, HomeAgrees, AfterImage, Quiet, Init;
    SameHome(sb, run[i].durable);
    if i < j {
      RunsPreserve(sb, P, run, i, j - 1);
      RunHasInv(sb, run, j - 1);
      assert Next(sb, run[j - 1], run[j - 1 + 1]);
      if BeginsAt(sb, run, j - 1) {
        BeginFacts(sb, run, j - 1);
        assert KeepsP(sb, P, run[j - 1].durable, run[j].tx);
      } else {
        StepHistory(sb, run, j - 1);
        if !KeepsP(sb, P, run[j - 1].base, run[j - 1].tx) {
          QuietStays(sb, run, j - 1);
        }
      }
      RunHasInv(sb, run, j);
      if run[j].up && run[j].todo == [] {
        IdleIsBeforeOrAfter(sb, run[j]);
      }
    }
  }

  lemma SameHome(sb: Superblock, d: Image)
    ensures HomeAgrees(sb, d, d, {})
  {}

  /** The count of started transactions tells which transaction each state of a run belongs to. */
  lemma {:induction false} StartedCounts(sb: Superblock, run: seq<State>, i: nat, j: nat)
    requires Run(sb, run) && i <= j < |run|
    ensures run[i].started <= run[j].started
    ensures run[i].started == run[j].started ==> run[j].base == run[i].base && run[j].tx == run[i].tx
    decreases j
  {
    hide Inv, Next, BeginsAt, Init;
    if i < j {
      StartedCounts(sb, run, i, j - 1);
      RunHasInv(sb, run, j - 1);
      assert Next(sb, run[j - 1], run[j - 1 + 1]);
      if BeginsAt(sb, run, j - 1) {
        BeginCounts(sb, run, j - 1);
      } else {
        StepHistory(sb, run, j - 1);
      }
    }
  }

  lemma BeginCounts(sb: Superblock, run: seq<State>, k: nat)
    requires BeginsAt(sb, run, k)
    ensures run[k + 1].started == run[k].started + 1
  {
    hide Acceptable, Script, Selected;
  }

  lemma IdleIsBeforeOrAfter(sb: Superblock, s: State)
    requires Inv(sb, s) && s.up && s.todo == []
    ensures HomeAgrees(sb, s.durable, s.base, s.tx.ordered.Keys)
      || HomeAgrees(sb, s.durable, AfterImage(s.base, s.tx), {})
  {
    hide Journaled, Clean, HomeAgrees, AfterImage, Selected, Place;
    if ExposedBefore(sb, s.durable, s.base, s.tx) || ExposedAfter(sb, s.durable, s.base, s.tx) {
      ExposedIsNotClean(sb, s.durable, s.base, s.tx);
    }
  }

  // ---- Recovery can always finish ----

  /** The pending writes belong to the batch at the head of the work list. */
  predicate Working(s: State) {
    && s.up
    && if s.todo == [] then s.pending == map[]
       else forall b :: b in s.pending ==> b in s.todo[0].writes && s.pending[b] == s.todo[0].writes[b]
  }

  function Remaining(s: State): set<nat> {
    if s.todo == [] then {} else s.todo[0].writes.Keys - s.pending.Keys
  }

  ghost predicate Continues(sb: Superblock, s: State, more: seq<State>) {
    && (more != [] ==> Next(sb, s, more[0]))
    && forall i :: 0 < i < |more| ==> Next(sb, more[i - 1], more[i])
  }

  /** The next write or sync of the batch at hand. */
  lemma WorkStep(sb: Superblock, s: State) returns (t: State)
    requires Working(s) && s.todo != []
    ensures Next(sb, s, t) && Working(t)
    ensures |t.todo| < |s.todo| || (t.todo == s.todo && |Remaining(t)| < |Remaining(s)|)
  {
    hide Next, Remaining;
    if Remaining(s) == {} {
      t := SyncStep(sb, s);
    } else {
      var b :| b in Remaining(s);
      t := WriteStep(sb, s, b);
    }
  }

  lemma SyncStep(sb: Superblock, s: State) returns (t: State)
    requires Working(s) && s.todo != [] && Remaining(s) == {}
    ensures Next(sb, s, t) && Working(t) && |t.todo| < |s.todo|
  {
    hide Crash, Open, Begin, Overlay, Write;
    assert forall b :: b in s.todo[0].writes && b !in s.pending ==> b in Remaining(s);
    assert s.pending == s.todo[0].writes;
    t := s.(durable := Overlay(s.durable, s.pending), pending := map[], todo := s.todo[1..],
            commit := if s.todo[0].stage == CommitRecorded then Synced else s.commit);
    assert Sync(s, t);
  }

  lemma WriteStep(sb: Superblock, s: State, b: nat) returns (t: State)
    requires Working(s) && s.todo != [] && b in Remaining(s)
    ensures Next(sb, s, t) && Working(t) && t.todo == s.todo && |Remaining(t)| < |Remaining(s)|
    ensures Write(s, b, t)
  {
    hide Crash, Open, Begin, Sync;
    t := s.(pending := s.pending[b := s.todo[0].writes[b]],
            commit := if s.todo[0].stage == CommitRecorded then Submitted else s.commit);
    assert Write(s, b, t);
    assert Remaining(t) == Remaining(s) - {b};
  }

  lemma Prepend(sb: Superblock, s: State, t: State, rest: seq<State>)
    requires Next(sb, s, t) && Continues(sb, t, rest)
    ensures Continues(sb, s, [t] + rest)
  {
    hide Next;
    forall i | 0 < i < |[t] + rest|
      ensures Next(sb, ([t] + rest)[i - 1], ([t] + rest)[i])
    {
      if i > 1 {
        assert ([t] + rest)[i] == rest[i - 1] && ([t] + rest)[i - 1] == rest[i - 2];
        assert 0 < i - 1 < |rest|;
      }
    }
  }

  lemma Append(sb: Superblock, run: seq<State>, more: seq<State>)
    requires Run(sb, run) && Continues(sb, run[|run| - 1], more)
    ensures Run(sb, run + more)
  {
    hide Next, Init;
    forall i | 0 < i < |run + more|
      ensures Next(sb, (run + more)[i - 1], (run + more)[i])
    {
      if i > |run| {
        assert (run + more)[i] == more[i - |run|] && (run + more)[i - 1] == more[i - 1 - |run|];
        assert 0 < i - |run| < |more|;
      }
    }
  }

  /** Without failures the work list runs to its end. */
  lemma {:induction false} WorkFinishes(sb: Superblock, s: State) returns (more: seq<State>)
    requires Working(s)
    ensures Continues(sb, s, more)
    ensures var last := if more == [] then s else more[|more| - 1]; last.up && last.todo == []
    decreases |s.todo|, |Remaining(s)|
  {
    hide Next, Remaining;
    if s.todo == [] {
      more := [];
    } else {
      var t := WorkStep(sb, s);
      var rest := WorkFinishes(sb, t);
      more := [t] + rest;
      Prepend(sb, s, t, rest);
    }
  }

  /** The state once the batch at hand has been written and synced. */
  ghost function Advanced(s: State): State {
    if s.todo == [] then s
    else s.(durable := Overlay(s.durable, s.todo[0].writes), pending := map[], todo := s.todo[1..],
            commit := if s.todo[0].stage == CommitRecorded then Synced else s.commit)
  }

  ghost predicate HeadIs(s: State, stage: Stage, w: Writes) {
    s.todo != [] && s.todo[0] == Batch(stage, w)
  }

  function LastOf(s: State, more: seq<State>): State {
    if more == [] then s else more[|more| - 1]
  }

  lemma ContinuesJoin(sb: Superblock, s: State, a: seq<State>, b: seq<State>)
    requires Continues(sb, s, a) && Continues(sb, LastOf(s, a), b)
    ensures Continues(sb, s, a + b) && LastOf(s, a + b) == LastOf(LastOf(s, a), b)
  {
    hide Next;
    if a == [] {
      assert a + b == b;
    }
    forall i | 0 < i < |a + b|
      ensures Next(sb, (a + b)[i - 1], (a + b)[i])
    {
      if i > |a| {
        assert (a + b)[i] == b[i - |a|] && (a + b)[i - 1] == b[i - |a| - 1];
        assert 0 < i - |a| < |b|;
      }
    }
  }

  /** The state once the batch at hand has been written, but not synced. */
  function Sent(s: State): State {
    if s.todo == [] || Remaining(s) == {} then s
    else s.(pending := s.todo[0].writes, commit := if s.todo[0].stage == CommitRecorded then Submitted else s.commit)
  }

  /** The batch at hand can be written in full. */
  lemma {:induction false} BatchSent(sb: Superblock, s: State) returns (more: seq<State>)
    requires Working(s) && s.todo != []
    ensures Continues(sb, s, more) && LastOf(s, more) == Sent(s)
    decreases |Remaining(s)|
  {
    hide Next, Write, Working, Remaining, Sent;
    if Remaining(s) == {} {
      assert Sent(s) == s by { NothingToSend(s); }
      more := [];
    } else {
      var b :| b in Remaining(s);
      var t := WriteStep(sb, s, b);
      SentAlike(s, b, t);
      var rest := BatchSent(sb, t);
      more := [t] + rest;
      Prepend(sb, s, t, rest);
    }
  }

  lemma NothingToSend(s: State)
    requires Remaining(s) == {}
    ensures Sent(s) == s
  {}

  lemma SentAlike(s: State, b: nat, t: State)
    requires Working(s) && s.todo != [] && b in Remaining(s) && Write(s, b, t)
    ensures Sent(t) == Sent(s)
  {
    if Remaining(t) == {} {
      AllSent(t);
    }
  }

  lemma AllSent(s: State)
    requires s.todo != [] && Remaining(s) == {}
    requires forall b :: b in s.pending ==> b in s.todo[0].writes && s.pending[b] == s.todo[0].writes[b]
    ensures s.pending == s.todo[0].writes
  {
    assert forall b :: b in s.todo[0].writes && b !in s.pending ==> b in Remaining(s);
  }

  /** The batch at hand can be written and synced. */
  lemma BatchDone(sb: Superblock, s: State) returns (more: seq<State>)
    requires Working(s) && s.todo != []
    ensures Continues(sb, s, more) && LastOf(s, more) == Advanced(s) && Working(Advanced(s))
  {
    hide Next, Sync, Overlay, Remaining;
    var sent := BatchSent(sb, s);
    var t := LastOf(s, sent);
    if Remaining(s) == {} {
      AllSent(s);
    }
    assert Next(sb, t, Advanced(s)) by { SyncIsNext(sb, t); }
    ContinuesJoin(sb, s, sent, [Advanced(s)]);
    more := sent + [Advanced(s)];
  }

  lemma SyncIsNext(sb: Superblock, s: State)
    requires s.up && s.todo != [] && s.pending == s.todo[0].writes
    ensures Next(sb, s, Advanced(s))
  {
    hide Crash, Open, Begin, Overlay, Write;
    assert Sync(s, Advanced(s));
  }

  lemma CrashOrOpenIsNext(sb: Superblock, s: State, t: State)
    requires Crash(sb, s, t) || Open(sb, s, t)
    ensures Next(sb, s, t)
  {}

  /** From every state of every run the system can get back to idle: after a failure it can crash,
      reopen, and finish recovery, which is never refused. */
  lemma RunsCanFinish(sb: Superblock, run: seq<State>) returns (more: seq<State>)
    requires Run(sb, run)
    ensures Run(sb, run + more)
    ensures var last := (run + more)[|run + more| - 1]; last.up && last.todo == []
  {
    hide Next, Init, Inv, RecoveryScript;
    var s := run[|run| - 1];
    RunHasInv(sb, run, |run| - 1);
    if s.up {
      InvIsWorking(sb, s);
      more := WorkFinishes(sb, s);
    } else {
      var c := s.(pending := map[], todo := [], up := false);
      assert Settles(sb, s.durable, s.pending, s.durable);
      RecoveryNeverRefuses(sb, run, |run| - 1, s.durable);
      var t := c.(todo := RecoveryScript(sb, c.durable).value, up := true);
      CrashOrOpenIsNext(sb, s, c);
      CrashOrOpenIsNext(sb, c, t);
      var rest := WorkFinishes(sb, t);
      Prepend(sb, c, t, rest);
      Prepend(sb, s, c, [t] + rest);
      more := [c] + ([t] + rest);
    }
    Append(sb, run, more);
  }

  lemma InvIsWorking(sb: Superblock, s: State)
    requires Inv(sb, s) && s.up
    ensures Working(s)
  {
    hide Ready, Journaled, Exposed, Recorded, Unrecorded, BodyIn, HomeAgrees, Place, Selected, Clean, ImageInv;
  }
}
