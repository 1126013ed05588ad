/** The life of an image: formatted, opened, served, lost to a crash, opened again. */
module Lifecycle {
  import opened Bytes
  import opened Errors
  import opened JournalFormat
  import opened OndiskFormat
  import opened RingReservation
  import opened Journal
  import opened JournalProtocol
  import opened JournalInvariant
  import opened JournalRuns
  import opened JournalStore
  import opened JournalLimits
  import opened StoreOps
  import opened StoreRuns
  import opened Backend
  import opened Mkfs
  import opened ConsistencyCheck
  import opened LedgerFormat
  import opened LedgerImage

  const NOTHING_STARTED := Transaction(map[], map[], map[])

  function Unopened(e: Image): State {
    State(e, map[], [], false, e, NOTHING_STARTED, 0, NotSubmitted)
  }

  // ---- Formatting over an older image ----

  /** Formatting over a file that held an older image, then one transaction of as many blocks as a stale
      COMMIT asks for, then a crash before its own COMMIT: recovery is refused if and only if the old file
      had a COMMIT with number 1, other than the transaction's own, right behind the place of its payloads. */
  lemma ReformatCrash(
    sb: Superblock, o: Options, was: Image, e: Image, inodeBits: seq<byte>, blockBits: seq<byte>, tx: Transaction)
    returns (more: seq<State>)
    requires IsFormat(sb, o, was, e, inodeBits, blockBits) && Acceptable(sb, e, tx)
    ensures Selected(sb, e) == Some(Selection(FormattedControl(sb), A)) && Continues(sb, Unopened(e), more)
    ensures var t, slot := LastOf(Unopened(e), more), |tx.metadata| + 1;
      && !t.up && t.todo == [] && t.pending == map[] && t.tx == tx
      && (RecoveryScript(sb, t.durable) == None <==>
          && CommitAt(sb, was, slot).Some? && CommitAt(sb, was, slot).value.transactionId == 1
          && CommitAt(sb, was, slot) != DecodeCommit(Place(sb, Selection(FormattedControl(sb), A), tx.metadata).commit))
  {
    hide IsFormat, Acceptable, Selected, RecoveryScript, ValidSuperblock, Next, DecodeCommit, ControlBytes, Place, RingAt, ForeignCommit;
    FormatJournal(sb, o, was, e, inodeBits, blockBits);
    FormattedSelects(sb, e);
    var sel, m := Selection(FormattedControl(sb), A), tx.metadata;
    AcceptableParts(sb, e, tx);
    var s := Unopened(e).(up := true);
    OpenFresh(sb, e);
    var rest := CrashBeforeCommit(sb, s, tx);
    ContinuesJoin(sb, Unopened(e), [s], rest);
    more := [s] + rest;
    FirstSlot(sb, m);
    SameForeign(sb, was, e, sel, m);
    ForeignIs(sb, was, sel, m);
  }

  lemma OpenFresh(sb: Superblock, e: Image)
    requires RecoveryScript(sb, e) == Some([])
    ensures Continues(sb, Unopened(e), [Unopened(e).(up := true)])
  {
    hide RecoveryScript, Write, Sync, Crash, Begin;
    assert JournalProtocol.Open(sb, Unopened(e), Unopened(e).(up := true));
  }

  /** The first transaction has number 1, and its COMMIT goes behind its descriptor and payloads. */
  lemma FirstSlot(sb: Superblock, m: Writes)
    requires Plannable(sb, Selection(FormattedControl(sb), A), m)
    ensures var p := Place(sb, Selection(FormattedControl(sb), A), m).plan;
      p.transactionId == 1 && p.commitIndex == |m| + 1 < RingBlocks(sb)
  {
    hide Place, ValidControl, ValidSuperblock, ReserveCheck, ExposedControl, PayloadIndices, Advance, MetadataTarget;
    var c := FormattedControl(sb);
    PlanFacts(sb, Selection(c, A), m);
    ReserveCheckPassed(c, |m|);
    AdvanceWithinTurn(0, |m| + 1, c.ringBlocks);
  }

  lemma ForeignIs(sb: Superblock, d: Image, sel: Selection, m: Writes)
    ensures var p := Place(sb, sel, m); var c := CommitAt(sb, d, p.plan.commitIndex);
      ForeignCommit(sb, d, sel, m) <==> c.Some? && c.value.transactionId == p.plan.transactionId && c != DecodeCommit(p.commit)
  {
    hide Place, CommitAt, DecodeCommit;
  }

  /** A transaction of one block, such as the record of a rejected request makes. */
  function OneBlock(sb: Superblock, e: Image): Transaction {
    Transaction(Single(sb.data.start, At(e, sb.data.start)), map[], Single(sb.data.start, ZERO))
  }

  lemma OneBlockIsAcceptable(sb: Superblock, e: Image)
    requires ValidSuperblock(sb) && Selected(sb, e) == Some(Selection(FormattedControl(sb), A))
    ensures Acceptable(sb, e, OneBlock(sb, e)) && |OneBlock(sb, e).metadata| == 1
  {
    hide Selected, DecodeCommit;
    JournalGeometry(sb);
    FormattedControlIsValid(sb);
    ZeroIsPlain();
  }

  lemma ZeroIsPlain()
    ensures DecodeCommit(ZERO) == None
  {
    hide DecodeCommit;
    CommitShape(ZERO);
  }

  /** An input on which it happens: the file held an image with another identity, and the COMMIT of its
      first transaction, of one block, is still in ring slot 2. After formatting over it and losing one
      such transaction, the new image cannot be opened again. */
  lemma ReformatOverOldImage(
    sb: Superblock, o: Options, was: Image, e: Image, inodeBits: seq<byte>, blockBits: seq<byte>, stale: CommitRecord)
    returns (more: seq<State>)
    requires IsFormat(sb, o, was, e, inodeBits, blockBits)
    requires ValidCommit(stale) && stale.transactionId == 1 && stale.uuid != sb.uuid && RingAt(sb, was, 2) == CommitBytes(stale)
    ensures Continues(sb, Unopened(e), more)
    ensures var t := LastOf(Unopened(e), more); !t.up && t.todo == [] && RecoveryScript(sb, t.durable) == None
  {
    hide IsFormat, Acceptable, Selected, RecoveryScript, ValidSuperblock, DecodeCommit, ControlBytes, CommitBytes, Place, Plannable;
    hide Continues, PayloadsAreNotCommits, OneBlock, DescriptorFor, DecodeControl, DecodeDescriptor;
    FormatJournal(sb, o, was, e, inodeBits, blockBits);
    FormattedSelects(sb, e);
    OneBlockIsAcceptable(sb, e);
    var tx, sel := OneBlock(sb, e), Selection(FormattedControl(sb), A);
    more := ReformatCrash(sb, o, was, e, inodeBits, blockBits, tx);
    CommitRoundTrip(stale);
    AcceptableParts(sb, e, tx);
    PlacementDecodes(sb, sel, tx.metadata);
  }

  // ---- The base case of every run ----

  /** A formatted image starts a run of the store, if the ring it took over holds no COMMIT block. */
  lemma FormatServes(sb: Superblock, o: Options, was: Image, e: Image, inodeBits: seq<byte>, blockBits: seq<byte>)
    requires IsFormat(sb, o, was, e, inodeBits, blockBits) && NoCommits(sb, was)
    ensures ServedRun(sb, [Unopened(e)])
  {
    hide IsFormat, Formatted, Sound, History, NoCommits, Next;
    FormatIsFormatted(sb, o, was, e, inodeBits, blockBits);
    FormatIsSound(sb, o, was, e, inodeBits, blockBits);
  }

  /** `mkfs`, then `Open`: a new store, unless the layout is refused or a read fails. */
  method NewStore(o: Options, was: Image) returns (r: Option<Result<ObjectBackend>>)
    requires |was| == o.totalBlocks && (BuildLayout(o).Some? ==> NoCommits(BuildLayout(o).value, was))
    ensures r.Some? <==> CanFormat(o)
    ensures r.Some? ==> match r.value
      case Success(backend) => backend.Valid() && backend.Usable() && Some(backend.device.sb) == BuildLayout(o)
      case Failure(errno) => errno == EIO
  {
    hide IsFormat, Formatted, Sound, History, NoCommits, ServedRun, Run, BuildLayout, ValidSuperblock, ObjectBackend.Valid;
    var formatted; ghost var inodeBits, blockBits;
    formatted, inodeBits, blockBits := FormatImage(o, was);
    if formatted == None {
      return None;
    }
    var sb, e := formatted.value.0, formatted.value.1;
    FormatServes(sb, o, was, e, inodeBits, blockBits);
    FormatIsFormatted(sb, o, was, e, inodeBits, blockBits);
    var device := new Device(sb, e);
    var backend := Backend.Open(device);
    r := Some(backend);
  }

  /** A power loss in any state, then `Open`. `e` is what the disk makes of the unsynced writes. */
  method Restart(device: Device, e: Image) returns (r: Result<ObjectBackend>)
    requires device.Valid() && ServedRun(device.sb, device.run) && Settles(device.sb, device.durable, device.pending, e)
    modifies device
    ensures device.Valid() && ServedRun(device.sb, device.run) && Extends(old(device.run), device.run)
    ensures device.failures == old(device.failures) + (if r == Failure(EIO) then 1 else 0)
    ensures match r
      case Success(backend) => backend.device == device && backend.Valid() && backend.Usable()
      case Failure(errno) => errno == EIO || (errno == ENOTSUP && device.sb.featureIncompat > LEDGER_FEATURE)
  {
    hide ServedRun, Run, Settles, ObjectBackend.Valid;
    ghost var was := device.run;
    device.PowerLoss(e);
    ServedStill(device.sb, was, device.run);
    r := Backend.Open(device);
  }

  // ---- What the checker says of a served image ----

  lemma ServedImagesPass(sb: Superblock, run: seq<State>, j: nat)
    requires ServedRun(sb, run) && j < |run| && Idle(run[j]) && sb.featureIncompat <= LEDGER_FEATURE
    ensures Passes(sb, run[j].durable)
  {
    hide ServedRun, Run, Sound, JournalProtocol.Clean;
    StoreStaysSound(sb, run, j);
    ServedIsRun(sb, run);
    IdleIsQuiet(sb, run, j);
  }

  lemma ServedIsRun(sb: Superblock, run: seq<State>)
    requires ServedRun(sb, run)
    ensures Run(sb, run) && run != []
  {
    hide StoreRun, Sound, Next, Init;
  }

  /** The checker finds nothing wrong with the image of a usable backend. */
  method CheckServed(backend: ObjectBackend) returns (r: Result<Verdict>)
    requires backend.Valid() && backend.Usable() && backend.device.sb.featureIncompat <= LEDGER_FEATURE
    ensures r == Success(HealthyImage)
  {
    hide ServedRun, Run, Sound, Passes, ObjectBackend.Indexed, HasLedger, ValidSuperblock;
    ghost var device := backend.device;
    ServedImagesPass(device.sb, device.run, |device.run| - 1);
    ServingIsSound(device.sb, device.run);
    SoundSize(device.sb, device.durable);
    r := CheckImage(backend.device.sb, backend.device.durable);
  }
}
