/** What the protocol does outside its assumptions: when recovery refuses an image, and when reopening an
    image that has not settled loses atomicity. */
module JournalLimits {
  import opened Bytes
  import opened JournalFormat
  import opened OndiskFormat
  import opened RingReservation
  import opened Journal
  import opened JournalProtocol
  import opened JournalInvariant
  import opened JournalRuns

  // ---- A transaction up to its exposure ----

  /** The image once the data, the journal body and the exposed control of a transaction are durable. */
  function ExposedImage(sb: Superblock, base: Image, sel: Selection, tx: Transaction): Image {
    var p := Place(sb, sel, tx.metadata);
    Overlay(Overlay(WithOrdered(base, tx), BodyWrites(sb, p, tx.metadata)), Single(ControlBlock(sb, Other(sel.copy)), p.exposed))
  }

  /** Whatever the ring holds, the transaction is exposed and its COMMIT position is as it was. */
  lemma ExposedImageIs(sb: Superblock, base: Image, tx: Transaction)
    requires ValidSuperblock(sb) && |base| == sb.totalBlocks && Acceptable(sb, base, tx)
    ensures var sel, m := Selected(sb, base).value, tx.metadata; var d := ExposedImage(sb, base, sel, tx);
      && Exposed(sb, d, sel, m) && |d| == sb.totalBlocks
      && CommitAt(sb, d, Place(sb, sel, m).plan.commitIndex) == CommitAt(sb, base, Place(sb, sel, m).plan.commitIndex)
  {
    hide Selected, ValidSuperblock, Place, BodyWrites, Plannable, PayloadsAreNotCommits, BodyIn, RingAt, Overlay, Exposed, OrderedTargets;
    AcceptableParts(sb, base, tx);
    var sel, m := Selected(sb, base).value, tx.metadata;
    var p := Place(sb, sel, m);
    PlanFacts(sb, sel, m);
    var one := WithOrdered(base, tx);
    OrderedKeeps(sb, base, tx);
    var two := Overlay(one, BodyWrites(sb, p, m));
    BodyKeeps(sb, one, sel, m);
    ControlExposes(sb, two, sel, m);
  }

  lemma OrderedKeeps(sb: Superblock, base: Image, tx: Transaction)
    requires ValidSuperblock(sb) && |base| == sb.totalBlocks && OrderedTargets(sb, tx)
    ensures var one := WithOrdered(base, tx);
      && |one| == |base| && Selected(sb, one) == Selected(sb, base)
      && forall i :: 0 <= i < RingBlocks(sb) ==> RingAt(sb, one, i) == RingAt(sb, base, i)
  {
    hide Selected, ValidSuperblock, UsableAt, SameJournal, RingAt, HomeAgrees, Partly;
    JournalGeometry(sb);
    var one := WithOrdered(base, tx);
    OverlayIsPartly(sb, base, tx.ordered);
    HomeWritesKeepJournal(sb, base, tx.ordered, one);
    SameJournalReads(sb, base, one);
  }

  lemma BodyKeeps(sb: Superblock, one: Image, sel: Selection, m: Writes)
    requires Plannable(sb, sel, m) && PayloadsAreNotCommits(m) && |one| == sb.totalBlocks
    ensures var p := Place(sb, sel, m); var two := Overlay(one, BodyWrites(sb, p, m));
      && Selected(sb, two) == Selected(sb, one) && BodyIn(sb, two, sel, m) && |two| == |one|
      && RingAt(sb, two, p.plan.commitIndex) == RingAt(sb, one, p.plan.commitIndex)
  {
    hide Selected, DecodeCommit, Place, BodyWrites, PayloadsAreNotCommits, Partly, BodyIn, UsableAt, HomeAgrees, RingAt, ReserveCheck;
    var p := Place(sb, sel, m);
    var body := BodyWrites(sb, p, m);
    var two := Overlay(one, body);
    PlanFacts(sb, sel, m);
    OverlayIsPartly(sb, one, body);
    BodyInRing(sb, sel, m, p, body);
    RingWritesKeepControls(sb, one, body, two);
    BodyWrittenIn(sb, one, body, sel, m);
    NoNewCommit(sb, one, body, two, p.plan.commitIndex);
  }

  lemma ControlExposes(sb: Superblock, two: Image, sel: Selection, m: Writes)
    requires Plannable(sb, sel, m) && PayloadsAreNotCommits(m) && |two| == sb.totalBlocks
    requires Selected(sb, two) == Some(sel) && BodyIn(sb, two, sel, m)
    ensures var p := Place(sb, sel, m); var d := Overlay(two, Single(ControlBlock(sb, Other(sel.copy)), p.exposed));
      && Exposed(sb, d, sel, m) && |d| == sb.totalBlocks
      && RingAt(sb, d, p.plan.commitIndex) == RingAt(sb, two, p.plan.commitIndex)
  {
    hide Selected, DecodeControl, Place, PayloadsAreNotCommits, Partly, BodyIn, HomeAgrees, RingAt, ControlOrder, SameJournal;
    hide CleanControl, NextGeneration, ControlBytes;
    var p := Place(sb, sel, m);
    var copy := Other(sel.copy);
    var w := Single(ControlBlock(sb, copy), p.exposed);
    var d := Overlay(two, w);
    PlanFacts(sb, sel, m);
    PlacedControls(sb, sel, m);
    JournalGeometry(sb);
    OverlayIsPartly(sb, two, w);
    ControlBatchFrame(sb, two, copy, p.exposed, d);
    SyncedControl(two, ControlBlock(sb, copy), p.exposed);
    ControlWritten(sb, two, d, sel, p.plan.exposed);
    ControlIsNotInRing(sb, copy, p.exposed);
    BodyKept(sb, two, w, d, sel, m);
  }

  lemma BodyInRing(sb: Superblock, sel: Selection, m: Writes, p: Placement, w: Writes)
    requires Plannable(sb, sel, m) && PayloadsAreNotCommits(m) && p == Place(sb, sel, m) && w == BodyWrites(sb, p, m)
    ensures forall b :: b in w ==> InRing(sb, b) && b != RingBlock(sb, p.plan.commitIndex)
  {
    hide Plannable, PayloadsAreNotCommits, Place, BodyWrites, DecodeCommit;
    forall b | b in w
      ensures InRing(sb, b) && b != RingBlock(sb, p.plan.commitIndex)
    {
      BodyBlock(sb, sel, m, p, w, b);
    }
  }

  /** An idle process can take a transaction that far. */
  lemma ExposedPath(sb: Superblock, s: State, tx: Transaction) returns (more: seq<State>)
    requires s.up && s.todo == [] && s.pending == map[] && Acceptable(sb, s.durable, tx)
    ensures Continues(sb, s, more)
    ensures var sel, t := Selected(sb, s.durable).value, LastOf(s, more);
      && t.up && t.pending == map[] && t.todo == CommitBatches(sb, sel, tx.metadata)
      && t.durable == ExposedImage(sb, s.durable, sel, tx) && t.base == s.durable && t.tx == tx
  {
    hide Next, Acceptable, Selected, Place, BodyWrites, Single, Overlay, CommitBatches, Plannable, PayloadsAreNotCommits;
    AcceptableParts(sb, s.durable, tx);
    var sel, m := Selected(sb, s.durable).value, tx.metadata;
    var t := s.(todo := Script(sb, sel, tx), base := s.durable, tx := tx, started := s.started + 1, commit := NotSubmitted);
    BeginIsNext(sb, s, tx, t);
    var first := [t];
    if tx.ordered == map[] {
      NothingOrdered(s.durable, tx);
    } else {
      Tail(Batch(OrderedData, tx.ordered), BodyBatches(sb, sel, m));
      var a := BatchDone(sb, t);
      ContinuesJoin(sb, s, first, a);
      first := first + a;
    }
    var body := LastOf(s, first);
    Tail(BodyBatches(sb, sel, m)[0], ExposeBatches(sb, sel, m));
    var b := BatchDone(sb, body);
    ContinuesJoin(sb, s, first, b);
    var exposing := Advanced(body);
    Tail(ExposeBatches(sb, sel, m)[0], CommitBatches(sb, sel, m));
    var c := BatchDone(sb, exposing);
    ContinuesJoin(sb, s, first + b, c);
    more := first + b + c;
  }

  lemma BeginIsNext(sb: Superblock, s: State, tx: Transaction, t: State)
    requires s.up && s.todo == [] && Acceptable(sb, s.durable, tx)
    requires t == s.(todo := Script(sb, Selected(sb, s.durable).value, tx), base := s.durable, tx := tx,
                     started := s.started + 1, commit := NotSubmitted)
    ensures Next(sb, s, t) && Continues(sb, s, [t])
  {
    hide Write, Sync, Crash, Open, Acceptable, Script, Selected;
    assert Begin(sb, s, t.tx, t);
  }

  lemma NothingOrdered(d: Image, tx: Transaction)
    requires tx.ordered == map[]
    ensures WithOrdered(d, tx) == d
  {}

  // ---- Why the ring has to start without COMMIT blocks ----

  /** Recovery of an exposed transaction is refused if and only if another COMMIT block with its number
      stands in its place. */
  lemma RefusedByForeignCommit(sb: Superblock, d: Image, sel: Selection, m: Writes)
    requires Plannable(sb, sel, m) && PayloadsAreNotCommits(m) && Exposed(sb, d, sel, m)
    ensures RecoveryScript(sb, d) == None <==> ForeignCommit(sb, d, sel, m)
  {
    hide Selected, Plannable, BodyIn, Classify, ForeignCommit, PayloadsAreNotCommits;
    hide ControlBytes, DescriptorBytes, CommitBytes, ExposedControl;
    ClassifyForeign(sb, d, sel, m);
  }

  /** The first transaction on any image: recovery after a crash between its exposure and its COMMIT is
      refused if and only if the image already held a foreign COMMIT with its number in that place. */
  lemma CrashBeforeCommit(sb: Superblock, s: State, tx: Transaction) returns (more: seq<State>)
    requires ValidSuperblock(sb) && |s.durable| == sb.totalBlocks && s.up && s.todo == [] && s.pending == map[]
    requires Acceptable(sb, s.durable, tx)
    ensures Continues(sb, s, more)
    ensures var t := LastOf(s, more);
      && !t.up && t.todo == [] && t.pending == map[] && t.tx == tx
      && (RecoveryScript(sb, t.durable) == None <==> ForeignCommit(sb, s.durable, Selected(sb, s.durable).value, tx.metadata))
  {
    hide Next, Acceptable, Selected, Place, ValidSuperblock, ExposedImage, RecoveryScript, Exposed, ForeignCommit, Plannable;
    hide PayloadsAreNotCommits, CommitAt;
    AcceptableParts(sb, s.durable, tx);
    var sel, m := Selected(sb, s.durable).value, tx.metadata;
    var path := ExposedPath(sb, s, tx);
    var t := LastOf(s, path);
    var c := t.(pending := map[], todo := [], up := false);
    CrashKeepingAll(sb, t, c);
    ContinuesJoin(sb, s, path, [c]);
    more := path + [c];
    ExposedImageIs(sb, s.durable, tx);
    RefusedByForeignCommit(sb, t.durable, sel, m);
    SameForeign(sb, s.durable, t.durable, sel, m);
  }

  lemma CrashKeepingAll(sb: Superblock, t: State, c: State)
    requires t.pending == map[] && c == t.(pending := map[], todo := [], up := false)
    ensures Next(sb, t, c) && Continues(sb, t, [c])
  {
    hide TornBlock, Write, Sync, Open, Begin;
    assert Crash(sb, t, c);
  }

  lemma AcceptableParts(sb: Superblock, d: Image, tx: Transaction)
    requires Acceptable(sb, d, tx)
    ensures Selected(sb, d).Some? && Plannable(sb, Selected(sb, d).value, tx.metadata) && PayloadsAreNotCommits(tx.metadata)
  {
    hide Selected, Plannable, PayloadsAreNotCommits;
  }

  lemma SameForeign(sb: Superblock, d: Image, e: Image, sel: Selection, m: Writes)
    requires CommitAt(sb, e, Place(sb, sel, m).plan.commitIndex) == CommitAt(sb, d, Place(sb, sel, m).plan.commitIndex)
    ensures ForeignCommit(sb, e, sel, m) == ForeignCommit(sb, d, sel, m)
  {
    hide Place, CommitAt, DecodeCommit;
  }

  // ---- Why a reopened image has to be settled ----

  /** A process that dies after writing COMMIT but before its sync, and is reopened over the same page
      cache, replays the transaction; losing power in the middle of that replay can then lose the
      COMMIT and keep some of the home blocks, which the next recovery takes for the old state. */
  lemma UnsettledReopenIsNotAtomic(sb: Superblock, s: State, h: nat, k: nat)
    requires StageInv(sb, s) && s.todo[0].stage == CommitRecorded && s.pending == s.todo[0].writes
    requires h in s.tx.metadata && k in s.tx.metadata && h != k
    requires At(s.base, h) != s.tx.metadata[h] && At(s.base, k) != s.tx.metadata[k]
    ensures var sel, m := Selected(sb, s.base).value, s.tx.metadata;
      RecoveryScript(sb, Overlay(s.durable, s.pending)) == Some(ReplayBatches(sb, sel.copy, m, Place(sb, sel, m).clean))
    ensures var sel, m := Selected(sb, s.base).value, s.tx.metadata;
      var e := Overlay(s.durable, Single(h, m[h]));
      && Settles(sb, s.durable, s.pending[h := m[h]], e)
      && RecoveryScript(sb, e) == Some(DiscardBatches(sb, sel.copy, Place(sb, sel, m).clean))
      && !HomeAgrees(sb, e, s.base, s.tx.ordered.Keys)
      && !HomeAgrees(sb, e, AfterImage(s.base, s.tx), {})
  {
    hide Selected, Place, Exposed, Journaled, RecoveryScript, Recorded, Unrecorded, Acceptable, HomeAgrees;
    hide ReplayBatches, DiscardBatches, AfterImage, Settles, Partly, Single, CommitBatches;
    JournaledIsValid(sb, s.base);
    var sel, m := Selected(sb, s.base).value, s.tx.metadata;
    var view := Overlay(s.durable, s.pending);
    PendingCommit(sb, s);
    OverlayIsPartly(sb, s.durable, s.pending);
    CommitBatch(sb, s.base, s.tx, s.durable, view) by { PartlyIsSettles(sb, s.durable, s.pending, view); }
    JournaledIsValid(sb, s.durable);
    SyncedCommit(sb, s.durable, sel, m) by { AcceptableFacts(sb, s.base, s.tx); }
    ExposedRecovery(sb, view, s.base, s.tx);
    var e := Overlay(s.durable, Single(h, m[h]));
    LostCommit(sb, s.durable, s.pending, h, m[h]);
    HomeChangeKeepsExposure(sb, s.durable, s.base, s.tx, h, e);
    ExposedRecovery(sb, e, s.base, s.tx);
    NeitherBeforeNorAfter(sb, s.durable, s.base, s.tx, h, k);
  }

  lemma PartlyIsSettles(sb: Superblock, d: Image, w: Writes, e: Image)
    ensures Partly(sb, d, w, e) == Settles(sb, d, w, e)
  {}

  lemma PendingCommit(sb: Superblock, s: State)
    requires StageInv(sb, s) && s.todo[0].stage == CommitRecorded && s.pending == s.todo[0].writes
    ensures var p := Place(sb, Selected(sb, s.base).value, s.tx.metadata);
      s.pending == Single(RingBlock(sb, p.plan.commitIndex), p.commit)
  {
    hide Selected, Place, Exposed, Journaled, Recorded, Unrecorded, Acceptable, HomeAgrees, ReplayBatches, Single;
  }

  lemma LostCommit(sb: Superblock, d: Image, pending: Writes, h: nat, v: Block)
    ensures Settles(sb, d, pending[h := v], Overlay(d, Single(h, v)))
    ensures Partly(sb, d, Single(h, v), Overlay(d, Single(h, v)))
  {
    hide TornBlock;
  }

  lemma HomeChangeKeepsExposure(sb: Superblock, d: Image, base: Image, tx: Transaction, h: nat, e: Image)
    requires Ready(sb, base, tx) && Journaled(sb, d) && h in tx.metadata
    requires Partly(sb, d, Single(h, tx.metadata[h]), e)
    requires Exposed(sb, d, Selected(sb, base).value, tx.metadata)
    requires Unrecorded(sb, d, Selected(sb, base).value, tx.metadata)
    ensures Exposed(sb, e, Selected(sb, base).value, tx.metadata)
    ensures Unrecorded(sb, e, Selected(sb, base).value, tx.metadata)
  {
    hide Selected, DecodeCommit, DecodeControl, ValidSuperblock, Place, BodyWrites, Plannable;
    hide Partly, BodyIn, UsableAt, Unrecorded, Journaled;
    var sel, m, w := Selected(sb, base).value, tx.metadata, Single(h, tx.metadata[h]);
    JournaledIsValid(sb, d);
    ReadyFacts(sb, base, tx);
    PlanFacts(sb, sel, m);
    SettledLength(sb, d, w, e);
    HomeWritesKeepJournal(sb, d, w, e);
    SameJournalReads(sb, d, e);
    HomeIsNotInRing(sb, w);
    BodyKept(sb, d, w, e, sel, m);
    SlotKept(sb, d, e, sel, m);
  }

  lemma NeitherBeforeNorAfter(sb: Superblock, d: Image, base: Image, tx: Transaction, h: nat, k: nat)
    requires Ready(sb, base, tx) && HomeAgrees(sb, d, WithOrdered(base, tx), {})
    requires h in tx.metadata && k in tx.metadata && h != k
    requires At(base, h) != tx.metadata[h] && At(base, k) != tx.metadata[k]
    ensures var e := Overlay(d, Single(h, tx.metadata[h]));
      !HomeAgrees(sb, e, base, tx.ordered.Keys) && !HomeAgrees(sb, e, AfterImage(base, tx), {})
  {
    hide Selected, Journaled, ValidSuperblock, ReserveCheck, PayloadsAreNotCommits;
    var e := Overlay(d, Single(h, tx.metadata[h]));
    assert MetadataTarget(sb, h) && MetadataTarget(sb, k);
    assert e[h] == tx.metadata[h] && e[k] == base[k];
  }

  /** Every run has such a state ahead of it, for every transaction it could start. */
  lemma UnsyncedCommitIsReached(sb: Superblock, run: seq<State>, tx: Transaction) returns (more: seq<State>)
    requires Run(sb, run) && run[|run| - 1].up && run[|run| - 1].todo == [] && Acceptable(sb, run[|run| - 1].durable, tx)
    ensures Run(sb, run + more)
    ensures var s := (run + more)[|run + more| - 1];
      && StageInv(sb, s) && s.todo[0].stage == CommitRecorded && s.pending == s.todo[0].writes
      && s.base == run[|run| - 1].durable && s.tx == tx
  {
    hide Run, Next, Acceptable, Selected, Place, StageInv, ImageInv, Clean, ExposedImage, Single, ReplayBatches, Plannable, Sent;
    hide PayloadsAreNotCommits;
    RunIsLong(sb, run);
    var s := run[|run| - 1];
    RunHasInv(sb, run, |run| - 1);
    AcceptableParts(sb, s.durable, tx);
    var path := ExposedPath(sb, s, tx);
    var t := LastOf(s, path);
    var sent := BatchSent(sb, t);
    CommitIsSent(sb, t, Selected(sb, s.durable).value, tx.metadata);
    ContinuesJoin(sb, s, path, sent);
    more := path + sent;
    Append(sb, run, more);
    var u := (run + more)[|run + more| - 1];
    assert u == LastOf(s, more) by { EndOf(run, more); }
    RunHasInv(sb, run + more, |run + more| - 1);
  }

  lemma RunIsLong(sb: Superblock, run: seq<State>)
    requires Run(sb, run)
    ensures run != []
  {
    hide Next, Init;
  }

  lemma EndOf(run: seq<State>, more: seq<State>)
    requires run != []
    ensures (run + more)[|run + more| - 1] == LastOf(run[|run| - 1], more)
  {}

  lemma CommitIsSent(sb: Superblock, t: State, sel: Selection, m: Writes)
    requires t.todo == CommitBatches(sb, sel, m) && t.pending == map[]
    ensures Sent(t) == t.(pending := t.todo[0].writes, commit := Submitted) && t.todo[0].stage == CommitRecorded
  {
    hide Place, ReplayBatches;
    var b := RingBlock(sb, Place(sb, sel, m).plan.commitIndex);
    assert b in Remaining(t);
  }

  /** What recovery makes of an image: its batches, all applied. */
  function Applied(d: Image, batches: seq<Batch>): Image
    decreases |batches|
  {
    if batches == [] then d else Applied(Overlay(d, batches[0].writes), batches[1..])
  }

  /** Recovery brings the image to the state before the transaction, or to the state after it. */
  predicate RecoversTo(sb: Superblock, e: Image, base: Image, tx: Transaction) {
    && RecoveryScript(sb, e).Some?
    && var r := Applied(e, RecoveryScript(sb, e).value);
       HomeAgrees(sb, r, base, tx.ordered.Keys) || HomeAgrees(sb, r, AfterImage(base, tx), {})
  }

  function HomeWrites(m: Writes, written: set<nat>): Writes {
    map h | h in m && h in written :: m[h]
  }

  /** A process that reopens over an unsynced COMMIT sees it and starts to replay. A power loss is then
      harmless if and only if it has written no home block yet: recovery would have to sync first. */
  lemma UnsettledReopen(sb: Superblock, s: State, written: set<nat>)
    requires StageInv(sb, s) && s.todo[0].stage == CommitRecorded && s.pending == s.todo[0].writes && written <= s.tx.metadata.Keys
    ensures (forall e :: Settles(sb, s.durable, s.pending + HomeWrites(s.tx.metadata, written), e) ==> RecoversTo(sb, e, s.base, s.tx))
      <==> written == {}
  {
    hide StageInv, Settles, RecoversTo;
    if written == {} {
      assert s.pending + HomeWrites(s.tx.metadata, written) == s.pending;
      forall e | Settles(sb, s.durable, s.pending, e)
        ensures RecoversTo(sb, e, s.base, s.tx)
      {
        SettledCommitRecovers(sb, s, e);
      }
    } else {
      var h :| h in written;
      var v := Neither(At(s.base, h), s.tx.metadata[h]);
      var e := Overlay(s.durable, Single(h, v));
      TornHome(sb, s, written, h, v);
      TornHomeIsNeither(sb, s, h, v);
      assert Settles(sb, s.durable, s.pending + HomeWrites(s.tx.metadata, written), e) && !RecoversTo(sb, e, s.base, s.tx);
    }
  }

  /** A block that is neither of the two. */
  function Neither(x: Block, y: Block): (v: Block)
    ensures v != x && v != y
  {
    var a, b, c := Zeros(BLOCK_SIZE)[0 := 1], Zeros(BLOCK_SIZE)[0 := 2], Zeros(BLOCK_SIZE)[0 := 3];
    assert a[0] == 1 && b[0] == 2 && c[0] == 3;
    if a != x && a != y then a else if b != x && b != y then b else c
  }

  lemma SettledCommitRecovers(sb: Superblock, s: State, e: Image)
    requires StageInv(sb, s) && s.todo[0].stage == CommitRecorded && Settles(sb, s.durable, s.pending, e)
    ensures RecoversTo(sb, e, s.base, s.tx)
  {
    hide Selected, Place, Settles, BodyIn, Acceptable, AfterImage, RecoveryScript, Partly, ReplayBatches, DiscardBatches;
    hide Journaled, Recorded, Unrecorded, HomeAgrees, Exposed, Single, Applied;
    JournaledIsValid(sb, s.base);
    var sel, m := Selected(sb, s.base).value, s.tx.metadata;
    SettlesWithin(sb, s.durable, s.pending, s.todo[0].writes, e);
    CommitBatch(sb, s.base, s.tx, s.durable, e);
    ExposedRecovery(sb, e, s.base, s.tx);
    HomeAgreesTrans(sb, e, s.durable, WithOrdered(s.base, s.tx), {});
    if Recorded(sb, e, sel, m) {
      ReplayApplied(sb, e, s.base, s.tx, sel.copy, Place(sb, sel, m).clean);
    } else {
      DiscardApplied(sb, e, s.base, s.tx, sel.copy, Place(sb, sel, m).clean);
    }
  }

  lemma ReplayApplied(sb: Superblock, e: Image, base: Image, tx: Transaction, copy: Copy, clean: Block)
    requires ValidSuperblock(sb) && HomeAgrees(sb, e, WithOrdered(base, tx), {})
    ensures HomeAgrees(sb, Applied(e, ReplayBatches(sb, copy, tx.metadata, clean)), AfterImage(base, tx), {})
  {
    hide ValidSuperblock;
    JournalGeometry(sb);
    var batches, rest := ReplayBatches(sb, copy, tx.metadata, clean), DiscardBatches(sb, copy, clean);
    Tail(batches[0], rest);
    assert Applied(e, batches) == Applied(Overlay(e, tx.metadata), rest);
    AppliedOne(sb, Overlay(e, tx.metadata), copy, clean);
  }

  lemma DiscardApplied(sb: Superblock, e: Image, base: Image, tx: Transaction, copy: Copy, clean: Block)
    requires ValidSuperblock(sb) && HomeAgrees(sb, e, WithOrdered(base, tx), {})
    ensures HomeAgrees(sb, Applied(e, DiscardBatches(sb, copy, clean)), base, tx.ordered.Keys)
  {
    hide ValidSuperblock;
    JournalGeometry(sb);
    AppliedOne(sb, e, copy, clean);
  }

  lemma AppliedOne(sb: Superblock, e: Image, copy: Copy, clean: Block)
    ensures Applied(e, DiscardBatches(sb, copy, clean)) == Overlay(e, Single(ControlBlock(sb, copy), clean))
  {
    hide Overlay, Single;
    assert DiscardBatches(sb, copy, clean)[1..] == [];
  }

  lemma TornHome(sb: Superblock, s: State, written: set<nat>, h: nat, v: Block)
    requires StageInv(sb, s) && written <= s.tx.metadata.Keys && h in written
    ensures Settles(sb, s.durable, s.pending + HomeWrites(s.tx.metadata, written), Overlay(s.durable, Single(h, v)))
    ensures Partly(sb, s.durable, Single(h, s.tx.metadata[h]), Overlay(s.durable, Single(h, v)))
  {
    hide Selected, Place, BodyIn, Acceptable, AfterImage, Journaled, Recorded, Unrecorded, HomeAgrees, Exposed, DecodeControl, DecodeCommit;
    ReadyFacts(sb, s.base, s.tx);
  }

  lemma TornHomeIsNeither(sb: Superblock, s: State, h: nat, v: Block)
    requires StageInv(sb, s) && s.todo[0].stage == CommitRecorded && h in s.tx.metadata
    requires v != At(s.base, h) && v != s.tx.metadata[h]
    requires Partly(sb, s.durable, Single(h, s.tx.metadata[h]), Overlay(s.durable, Single(h, v)))
    ensures !RecoversTo(sb, Overlay(s.durable, Single(h, v)), s.base, s.tx)
  {
    hide Selected, Place, BodyIn, Acceptable, AfterImage, RecoveryScript, Partly, ReplayBatches, DiscardBatches, Overlay;
    hide Journaled, Recorded, Unrecorded, HomeAgrees, Exposed, Single, Applied;
    JournaledIsValid(sb, s.base);
    var sel, m, e := Selected(sb, s.base).value, s.tx.metadata, Overlay(s.durable, Single(h, v));
    JournaledIsValid(sb, s.durable);
    HomeChangeKeepsExposure(sb, s.durable, s.base, s.tx, h, e);
    ExposedRecovery(sb, e, s.base, s.tx);
    TornStays(sb, s.durable, s.base, s.tx, h, v, sel.copy, Place(sb, sel, m).clean);
  }

  lemma TornStays(sb: Superblock, d: Image, base: Image, tx: Transaction, h: nat, v: Block, copy: Copy, clean: Block)
    requires Ready(sb, base, tx) && |d| == sb.totalBlocks && h in tx.metadata && v != At(base, h) && v != tx.metadata[h]
    ensures var r := Applied(Overlay(d, Single(h, v)), DiscardBatches(sb, copy, clean));
      !HomeAgrees(sb, r, base, tx.ordered.Keys) && !HomeAgrees(sb, r, AfterImage(base, tx), {})
  {
    hide Ready, Applied, DiscardBatches, HomeAgrees, AfterImage, Overlay;
    var e := Overlay(d, Single(h, v));
    HomeTarget(sb, base, tx, h);
    AppliedOne(sb, e, copy, clean);
    DiffersAt(sb, Overlay(e, Single(ControlBlock(sb, copy), clean)), base, tx, h) by {
      KeptAt(sb, d, h, v, copy, clean);
    }
  }

  lemma HomeTarget(sb: Superblock, base: Image, tx: Transaction, h: nat)
    requires Ready(sb, base, tx) && h in tx.metadata
    ensures ValidSuperblock(sb) && h < sb.totalBlocks == |base| && !InRegion(h, sb.journal) && h !in tx.ordered
  {
    hide Selected, ReserveCheck, PayloadsAreNotCommits, ValidSuperblock, CommitsBelow, ControlOrder;
    assert MetadataTarget(sb, h);
  }

  lemma KeptAt(sb: Superblock, d: Image, h: nat, v: Block, copy: Copy, clean: Block)
    requires ValidSuperblock(sb) && h < |d| && !InRegion(h, sb.journal)
    ensures At(Overlay(Overlay(d, Single(h, v)), Single(ControlBlock(sb, copy), clean)), h) == v
  {
    hide ValidSuperblock;
    JournalGeometry(sb);
  }

  lemma DiffersAt(sb: Superblock, r: Image, base: Image, tx: Transaction, h: nat)
    requires h < |base| && h in tx.metadata && h !in tx.ordered && !InRegion(h, sb.journal)
    requires At(r, h) != At(base, h) && At(r, h) != tx.metadata[h]
    ensures !HomeAgrees(sb, r, base, tx.ordered.Keys) && !HomeAgrees(sb, r, AfterImage(base, tx), {})
  {}
}
