/** `JournalControlStore`: the object that runs one transaction, or recovery, against a device that
    may fail at any write or sync (src/journal/journal_control_store.cpp,
    src/journal/journal_recovery.cpp, src/journal/journal_transaction_executor.cpp).

    The device accepts a write or a sync only where the crash protocol allows it, and records every
    accepted step; so whatever the store does to the image is a run of the protocol, and the
    theorems about runs apply to it. */
module JournalStore {
  import opened Bytes
  import opened Order
  import opened Errors
  import opened JournalFormat
  import opened OndiskFormat
  import opened RingReservation
  import opened Journal
  import opened JournalProtocol
  import opened JournalInvariant
  import opened JournalRuns

  datatype Status = Ok | Fails(errno: Errno)

  function ReserveErrno(error: ReserveError): Errno {
    match error
    case InvalidControl | NoPayload => EINVAL
    case Busy => EBUSY
    case TooManyPayloads => E2BIG
    case RingTooSmall => ENOSPC
    case IdsExhausted => EOVERFLOW
  }

  lemma ExtendRun(sb: Superblock, run: seq<State>, t: State)
    requires Run(sb, run) && Next(sb, run[|run| - 1], t)
    ensures Run(sb, run + [t])
  {
    hide Next, Init;
  }

  /** `b` continues the run `a`. */
  ghost predicate Extends(a: seq<State>, b: seq<State>) {
    a <= b
  }

  lemma ExtendsSelf(a: seq<State>)
    ensures Extends(a, a)
  {}

  lemma ExtendsTrans(a: seq<State>, b: seq<State>, c: seq<State>)
    requires Extends(a, b) && Extends(b, c)
    ensures Extends(a, c)
  {}

  lemma WriteOfPlainBatch(s: State, b: nat, t: State)
    requires Write(s, b, t) && s.todo[0].stage != CommitRecorded
    ensures t == s.(pending := s.pending[b := s.todo[0].writes[b]])
  {}

  /** Which control the store works from at each stage. */
  lemma StageSelected(sb: Superblock, s: State)
    requires Inv(sb, s) && s.todo != []
    ensures Ready(sb, s.base, s.tx) && Selected(sb, s.base).Some?
    ensures var sel, m := Selected(sb, s.base).value, s.tx.metadata;
      Selected(sb, s.durable) ==
        match s.todo[0].stage
        case OrderedData | JournalBody | ControlExposure => Some(sel)
        case _ => Some(Selection(Place(sb, sel, m).plan.exposed, Other(sel.copy)))
  {
    hide Selected, Place, Acceptable, Journaled, BodyIn, Recorded, Unrecorded, HomeAgrees, BodyBatches, ExposeBatches;
    hide CommitBatches, ReplayBatches, DiscardBatches, WithOrdered, AfterImage;
    JournaledIsValid(sb, s.base);
    if s.todo[0].stage == JournalBody {
      OverlayIsPartly(sb, s.base, s.tx.ordered);
      OrderedBatch(sb, s.base, s.tx, Overlay(s.base, s.tx.ordered));
      SameJournalReads(sb, s.base, Overlay(s.base, s.tx.ordered));
      assert WithOrdered(s.base, s.tx) == Overlay(s.base, s.tx.ordered) by { WithOrderedIsOverlay(s.base, s.tx); }
    }
  }

  lemma WithOrderedIsOverlay(base: Image, tx: Transaction)
    ensures WithOrdered(base, tx) == Overlay(base, tx.ordered)
  {}

  /** The image file. Any operation may fail, and `failures` counts those that did; a failed write may
      still reach the disk. */
  class Device {
    const sb: Superblock
    var failures: nat
    var durable: Image
    var pending: Writes
    ghost var run: seq<State>

    ghost predicate Valid()
      reads this
    {
      && run != [] && Run(sb, run)
      && Last().durable == durable && Last().pending == pending
    }

    ghost function Last(): State
      reads this
      requires run != []
    {
      run[|run| - 1]
    }

    /** A device that has just been formatted. */
    constructor (sb: Superblock, d: Image)
      requires Formatted(sb, d)
      ensures Valid() && this.sb == sb && durable == d && pending == map[] && failures == 0
      ensures run == [State(d, map[], [], false, d, Transaction(map[], map[], map[]), 0, NotSubmitted)]
    {
      hide Formatted;
      this.sb := sb;
      failures := 0;
      durable := d;
      pending := map[];
      run := [State(d, map[], [], false, d, Transaction(map[], map[], map[]), 0, NotSubmitted)];
    }

    /** The process is gone and the disk has made `e` of the unsynced writes. */
    method PowerLoss(e: Image)
      requires Valid() && Settles(sb, durable, pending, e)
      modifies this
      ensures Valid() && durable == e && pending == map[] && Last().todo == [] && !Last().up
      ensures Extends(old(run), run) && SameTransaction(old(Last()), Last()) && failures == old(failures)
    {
      hide Run, Inv, Write, Sync, Open, Begin, Settles;
      ghost var s := Last();
      ghost var t := s.(durable := e, pending := map[], todo := [], up := false);
      assert Crash(sb, s, t);
      ExtendRun(sb, run, t);
      durable := e;
      pending := map[];
      run := run + [t];
    }

    method Pread(b: nat) returns (r: Option<Block>)
      requires Valid() && pending == map[]
      modifies this`failures
      ensures failures == old(failures) + (if r == None then 1 else 0)
      ensures r.Some? ==> r.value == At(durable, b)
    {
      if * {
        failures := failures + 1;
        return None;
      }
      r := Some(At(durable, b));
    }

    /** `DuplicateFd`. */
    method Duplicate() returns (ok: bool)
      modifies this`failures
      ensures failures == old(failures) + (if ok then 0 else 1)
    {
      ok := *;
      if !ok {
        failures := failures + 1;
      }
    }

    method Pwrite(b: nat, v: Block) returns (ok: bool)
      requires Valid() && Last().up && Last().todo != []
      requires b in Last().todo[0].writes && Last().todo[0].writes[b] == v && b !in pending
      modifies this
      ensures Valid() && durable == old(durable) && pending == old(pending)[b := v]
      ensures failures == old(failures) + (if ok then 0 else 1)
      ensures ok ==> Write(old(Last()), b, Last()) && |run| == |old(run)| + 1
      ensures !ok ==> !Last().up
      ensures Extends(old(run), run) && SameTransaction(old(Last()), Last())
    {
      hide Run, Inv, Crash, Open, Begin, Sync;
      ghost var s := Last();
      ghost var t := s.(pending := s.pending[b := v],
                        commit := if s.todo[0].stage == CommitRecorded then Submitted else s.commit);
      assert Write(s, b, t);
      ExtendRun(sb, run, t);
      pending := pending[b := v];
      run := run + [t];
      ok := *;
      if !ok {
        failures := failures + 1;
        ExtendRun(sb, run, t.(up := false));
        run := run + [t.(up := false)];
      }
    }

    /** Writes the blocks of a batch in ascending order. */
    method PwriteAll(w: Writes) returns (ok: bool)
      requires Valid() && Last().up && Last().todo != [] && pending == map[]
      requires Last().todo[0].writes == w && Last().todo[0].stage != CommitRecorded
      modifies this
      ensures Valid() && Extends(old(run), run) && SameTransaction(old(Last()), Last())
      ensures failures == old(failures) + (if ok then 0 else 1)
      ensures ok ==> Last() == old(Last()).(pending := w)
      ensures !ok ==> !Last().up
    {
      hide Run, Write, Ascending, Extends;
      var keys := Ascending(w.Keys);
      ghost var s := Last();
      ExtendsSelf(run);
      for i := 0 to |keys|
        invariant Valid() && Extends(old(run), run) && failures == old(failures)
        invariant Last() == s.(pending := pending)
        invariant forall k :: 0 <= k < i ==> keys[k] in pending
        invariant forall b :: b in pending ==> b in w && pending[b] == w[b] && (i < |keys| ==> b < keys[i])
      {
        ghost var before, mid := Last(), run;
        ok := Pwrite(keys[i], w[keys[i]]);
        ExtendsTrans(old(run), mid, run);
        if !ok {
          return;
        }
        WriteOfPlainBatch(before, keys[i], Last());
      }
      assert forall b :: b in w ==> b in keys;
      assert pending == w;
      ok := true;
    }

    /** `fdatasync`: flushes everything pending, or fails with an unknown part flushed. */
    method Fdatasync() returns (ok: bool)
      requires Valid() && Last().up && Last().todo != [] && pending == Last().todo[0].writes
      modifies this
      ensures Valid() && failures == old(failures) + (if ok then 0 else 1)
      ensures ok ==> Sync(old(Last()), Last()) && |run| == |old(run)| + 1
      ensures !ok ==> !Last().up
      ensures Extends(old(run), run) && SameTransaction(old(Last()), Last())
    {
      hide Run, Inv, Crash, Open, Begin, Write;
      ghost var s := Last();
      ok := *;
      if ok {
        ghost var t := s.(durable := Overlay(s.durable, s.pending), pending := map[], todo := s.todo[1..],
                          commit := if s.todo[0].stage == CommitRecorded then Synced else s.commit);
        assert Sync(s, t);
        ExtendRun(sb, run, t);
        durable := Overlay(durable, pending);
        pending := map[];
        run := run + [t];
      } else {
        failures := failures + 1;
        ExtendRun(sb, run, s.(up := false));
        run := run + [s.(up := false)];
      }
    }

    /** Record that a transaction starts; the image does not change. */
    ghost method StartTransaction(tx: Transaction)
      requires Valid() && Last().todo == [] && pending == map[]
      requires Clean(sb, durable) && Acceptable(sb, durable, tx)
      modifies this`run
      ensures Valid() && old(run) < run
      ensures var t := Last();
        && t.up && t.base == durable && t.tx == tx && t.started == old(Last()).started + 1 && t.commit == NotSubmitted
        && t.todo == Script(sb, Selected(sb, durable).value, tx)
    {
      hide Run, Inv, Crash, Write, Sync, Acceptable, Script, Selected;
      if !Last().up {
        StartRecovery();
      }
      ghost var s := Last();
      ghost var t := s.(todo := Script(sb, Selected(sb, s.durable).value, tx), base := s.durable, tx := tx,
                        started := s.started + 1, commit := NotSubmitted);
      assert Begin(sb, s, tx, t);
      ExtendRun(sb, run, t);
      run := run + [t];
    }

    /** Record that recovery starts on a reopened image; it is never refused. */
    ghost method StartRecovery()
      requires Valid() && !Last().up && Last().todo == [] && pending == map[]
      modifies this`run
      ensures Valid() && Extends(old(run), run)
      ensures RecoveryScript(sb, durable).Some?
      ensures Last() == old(Last()).(todo := RecoveryScript(sb, durable).value, up := true)
      ensures Clean(sb, durable) ==> Last().todo == []
    {
      hide Run, Inv, Crash, Write, Sync, Begin, RecoveryScript, Clean;
      ghost var s := Last();
      assert Settles(sb, s.durable, map[], s.durable);
      RecoveryNeverRefuses(sb, run, |run| - 1, s.durable);
      ghost var t := s.(todo := RecoveryScript(sb, s.durable).value, up := true);
      assert Open(sb, s, t);
      RunHasInv(sb, run, |run| - 1);
      OpenKeepsInv(sb, s, t);
      ExtendRun(sb, run, t);
      run := run + [t];
    }
  }

  /** `DurableJournalBody`. */
  datatype DurableBody = DurableBody(reservation: Reservation, entryCount: u32, descriptorChecksum: u32)

  /** A method stops at the first operation that fails, so it meets one failure at most. */
  function Lost(r: Status): nat {
    if r == Fails(EIO) || r == Fails(EMFILE) then 1 else 0
  }

  datatype Phase = Fresh | BodyDurable | ControlExposed | CommitDurable | Retired | Uncertain

  class JournalControlStore {
    const sb: Superblock
    const device: Device
    var current: JournalControl
    var copy: Copy
    var body: Option<DurableBody>
    var images: Writes
    var commitDurable: bool
    var checkpointed: bool
    var reloadRequired: bool
    var validated: Option<Writes>

    /** The fields mirror the protocol state. */
    ghost predicate Valid()
      reads this, device
    {
      && device.sb == sb && device.Valid()
      && if reloadRequired then !device.Last().up else Mirrors(device.Last())
    }

    ghost predicate Mirrors(s: State)
      reads this
    {
      && AtPhase(sb, s, Progress(), current, copy)
      && (body == None ==> !commitDurable && !checkpointed)
      && (checkpointed ==> commitDurable)
      && BodyMatches(sb, s, body, images)
    }

    /** How far the store's one transaction has got. */
    function Progress(): Phase
      reads this
    {
      if reloadRequired then Uncertain
      else if body == None then Fresh
      else if checkpointed then Retired
      else if commitDurable then CommitDurable
      else if current.usedBlocks != 0 then ControlExposed
      else BodyDurable
    }

    constructor (device: Device, selected: Selection)
      requires device.Valid() && device.pending == map[] && device.Last().todo == []
      requires Selected(device.sb, device.durable) == Some(selected)
      ensures Valid() && this.device == device && this.sb == device.sb
      ensures body == None && !reloadRequired && validated == None && current == selected.control
    {
      hide Selected, Run;
      sb := device.sb;
      this.device := device;
      current := selected.control;
      copy := selected.copy;
      body := None;
      images := map[];
      commitDurable := false;
      checkpointed := false;
      reloadRequired := false;
      validated := None;
    }

    lemma FreshIsQuiet()
      requires Valid() && Progress() == Fresh
      ensures device.pending == map[] && device.Last().todo == []
    {
      hide Run, Selected, BodyMatches;
      FreshFacts(sb, device.Last(), current, copy);
    }

    /** One block, then one sync. */
    method WriteOne(target: nat, bytes: Block) returns (ok: bool)
      requires device.sb == sb && device.Valid() && !reloadRequired && Ongoing(device.Last(), target, bytes)
      modifies device, this`reloadRequired
      ensures device.Valid() && Extends(old(device.run), device.run) && SameTransaction(old(device.Last()), device.Last())
      ensures device.failures == old(device.failures) + (if ok then 0 else 1)
      ensures ok ==> !reloadRequired && device.Last() == Advanced(old(device.Last()))
      ensures !ok ==> reloadRequired && !device.Last().up
    {
      hide Run, Sync, Write, Advanced;
      ghost var s := device.Last();
      ok := device.Pwrite(target, bytes);
      if ok {
        ghost var t := device.Last();
        OneBlockBatch(s, target, bytes, t);
        ok := device.Fdatasync();
        if ok {
          SyncOfOneBlock(s, target, bytes, t, device.Last());
        }
      }
      reloadRequired := !ok;
    }

    /** `PersistNext`: writes the successor control over the copy that is not current. */
    method PersistNext(next: JournalControl) returns (r: Status)
      requires device.sb == sb && device.Valid() && !reloadRequired
      requires Ongoing(device.Last(), ControlBlock(sb, Other(copy)), ControlBytes(next))
      requires Selected(sb, device.durable) == Some(Selection(current, copy))
      modifies device, this`current, this`copy, this`reloadRequired
      ensures device.Valid() && Extends(old(device.run), device.run) && SameTransaction(old(device.Last()), device.Last())
      ensures device.failures == old(device.failures) + Lost(r)
      ensures match r
        case Ok =>
          && !reloadRequired && current == next && copy == Other(old(copy))
          && Selected(sb, device.durable) == Some(Selection(current, copy))
          && device.Last() == Advanced(old(device.Last()))
        case Fails(errno) =>
          if Successor(sb, old(current), next) then errno == EIO && reloadRequired && !device.Last().up
          else errno == EINVAL && !reloadRequired && device.run == old(device.run)
    {
      hide Run, Inv, Selected, ControlBytes, Successor, Journaled;
      if !Successor(sb, current, next) {
        return Fails(EINVAL);
      }
      ghost var s := device.Last();
      RunHasInv(sb, device.run, |device.run| - 1);
      InvIsJournaled(sb, s);
      var ok := WriteOne(ControlBlock(sb, Other(copy)), ControlBytes(next));
      if !ok {
        return Fails(EIO);
      }
      PersistedControl(sb, s.durable, Selection(current, copy), next);
      current := next;
      copy := Other(copy);
      r := Ok;
    }

    /** `ExposeDurableBody`: the next control names the body that is already durable. */
    method ExposeDurableBody() returns (r: Status)
      requires Valid()
      modifies device, this`current, this`copy, this`reloadRequired
      ensures Valid() && Extends(old(device.run), device.run) && SameTransaction(old(device.Last()), device.Last())
      ensures r == Ok ==> old(Progress()) == BodyDurable && Progress() == ControlExposed
      ensures old(Progress()) == BodyDurable ==>
        (r == Ok || (r == Fails(EIO) && Progress() == Uncertain)) && device.failures == old(device.failures) + Lost(r)
      ensures old(Progress()) != BodyDurable ==>
        r.Fails? && Progress() == old(Progress()) && device.run == old(device.run) && device.failures == old(device.failures)
    {
      hide Run, Inv, Selected, Place, ControlBytes, Successor, Ready;
      if reloadRequired {
        return Fails(EIO);
      }
      if current.usedBlocks != 0 {
        return Fails(EBUSY);
      }
      if body == None {
        return Fails(EPERM);
      }
      var next := body.value.reservation.exposed;
      ghost var s := device.Last();
      PhaseUse(sb, s, Progress(), current, copy);
      if checkpointed {
        NotSuccessorAgain(sb, s, current, copy);
      }
      if !Successor(sb, current, next) {
        return Fails(EINVAL);
      }
      ExposeStep(sb, s, current, copy);
      r := PersistNext(next);
    }

    /** `WriteCommit`: the one block that decides the transaction. */
    method WriteCommit() returns (r: Status)
      requires Valid()
      modifies device, this`commitDurable, this`reloadRequired
      ensures Valid() && Extends(old(device.run), device.run) && SameTransaction(old(device.Last()), device.Last())
      ensures r == Ok ==> old(Progress()) == ControlExposed && Progress() == CommitDurable
      ensures old(Progress()) == ControlExposed ==>
        (r == Ok || (r == Fails(EIO) && Progress() == Uncertain)) && device.failures == old(device.failures) + Lost(r)
      ensures old(Progress()) != ControlExposed ==>
        r.Fails? && Progress() == old(Progress()) && device.run == old(device.run) && device.failures == old(device.failures)
    {
      hide Run, Inv, Selected, Place, Ready, CommitBytes, CommitOf;
      if reloadRequired {
        return Fails(EIO);
      }
      if body == None {
        return Fails(EPERM);
      }
      if commitDurable {
        return Fails(EALREADY);
      }
      ghost var s := device.Last();
      PhaseUse(sb, s, Progress(), current, copy);
      if current != body.value.reservation.exposed {
        return Fails(EPERM);
      }
      var record := CommitOf(sb, body.value);
      CommitStep(sb, s, current, copy, record);
      var target := RingBlock(sb, body.value.reservation.commitIndex);
      var ok := WriteOne(target, CommitBytes(record));
      if !ok {
        return Fails(EIO);
      }
      RunHasInv(sb, device.run, |device.run| - 1);
      CommittedPhase(sb, s, current, copy);
      commitDurable := true;
      r := Ok;
    }

    /** `CompleteCommittedTransaction`: home blocks first, then the clean control. */
    method CompleteCommittedTransaction() returns (r: Status)
      requires Valid()
      modifies device, this`current, this`copy, this`checkpointed, this`reloadRequired
      ensures Valid() && Extends(old(device.run), device.run) && SameTransaction(old(device.Last()), device.Last())
      ensures r == Ok ==> old(Progress()) == CommitDurable && Progress() == Retired
      ensures old(Progress()) == CommitDurable ==>
        (r == Ok || (r == Fails(EIO) && Progress() == Uncertain)) && device.failures == old(device.failures) + Lost(r)
      ensures old(Progress()) != CommitDurable ==>
        r.Fails? && Progress() == old(Progress()) && device.run == old(device.run) && device.failures == old(device.failures)
    {
      hide Run, Inv, Selected, Place, Ready, Successor, AtPhase, Advanced;
      if reloadRequired {
        return Fails(EIO);
      }
      ghost var s := device.Last();
      PhaseUse(sb, s, Progress(), current, copy);
      if body == None || !commitDurable || images == map[] {
        return Fails(EPERM);
      }
      if checkpointed {
        return Fails(EALREADY);
      }
      r := ReplayCommitted();
    }

    /** The writing part of `CompleteCommittedTransaction`. */
    method ReplayCommitted() returns (r: Status)
      requires Valid() && Progress() == CommitDurable
      modifies device, this`current, this`copy, this`checkpointed, this`reloadRequired
      ensures Valid() && Extends(old(device.run), device.run) && SameTransaction(old(device.Last()), device.Last())
      ensures (r == Ok && Progress() == Retired) || (r == Fails(EIO) && Progress() == Uncertain)
      ensures device.failures == old(device.failures) + Lost(r)
    {
      hide Run, Inv, Selected, Place, Ready, ControlBytes, Successor, AtPhase, HeadIs, CleanControl, Ongoing;
      ghost var s := device.Last();
      ReplayStep(sb, s, current, copy);
      var ok := WriteBatch(HomeBlocks, images);
      if !ok {
        return Fails(EIO);
      }
      RunHasInv(sb, device.run, |device.run| - 1);
      RetireStep(sb, s, current, copy);
      r := PersistNext(CleanControl(current));
      if r == Ok {
        checkpointed := true;
      }
    }

    /** The last three steps of a transaction, stopping at the first that fails. */
    method PublishBody() returns (r: Status)
      requires Valid() && Progress() == BodyDurable
      modifies device, this`current, this`copy, this`commitDurable, this`checkpointed, this`reloadRequired
      ensures Valid() && Extends(old(device.run), device.run) && SameTransaction(old(device.Last()), device.Last())
      ensures (r == Ok && Progress() == Retired) || r == Fails(EIO)
      ensures device.failures == old(device.failures) + Lost(r)
    {
      hide Run, AtPhase, BodyMatches;
      r := ExposeDurableBody();
      if r == Ok {
        r := WriteCommit();
      }
      if r == Ok {
        r := CompleteCommittedTransaction();
      }
    }

    /** Compares every before-image with the block on the device. */
    method CheckBeforeImages(before: Writes) returns (r: Status)
      requires device.Valid() && device.pending == map[]
      modifies device`failures
      ensures device.failures == old(device.failures) + Lost(r)
      ensures r == Ok ==> MatchesImage(device.durable, before)
      ensures r == Fails(ESTALE) ==> !MatchesImage(device.durable, before)
      ensures r == Ok || r == Fails(ESTALE) || r == Fails(EIO)
    {
      hide Run, Ascending;
      var keys := Ascending(before.Keys);
      for i := 0 to |keys|
        invariant device.failures == old(device.failures)
        invariant forall k :: 0 <= k < i ==> At(device.durable, keys[k]) == before[keys[k]]
      {
        var block := device.Pread(keys[i]);
        if block == None {
          return Fails(EIO);
        }
        if block.value != before[keys[i]] {
          return Fails(ESTALE);
        }
      }
      r := Ok;
    }

    /** The payload loop of `WriteUnexposedBody`. */
    method WritePayloads(ghost s: State, plan: Reservation, m: Writes, descriptor: Block) returns (ok: bool)
      requires device.Valid() && s.up && HeadIs(s, JournalBody, BodyPart(sb, plan, m, descriptor, |m|))
      requires Selected(sb, s.base).Some? && Plannable(sb, Selected(sb, s.base).value, m)
      requires plan == Place(sb, Selected(sb, s.base).value, m).plan
      requires device.Last() == s.(pending := BodyPart(sb, plan, m, descriptor, 0))
      modifies device
      ensures device.Valid() && Extends(old(device.run), device.run) && SameTransaction(s, device.Last())
      ensures device.failures == old(device.failures) + (if ok then 0 else 1)
      ensures ok ==> device.Last() == s.(pending := BodyPart(sb, plan, m, descriptor, |m|))
      ensures !ok ==> !device.Last().up
    {
      hide Run, Selected, Place, Write, BodyPart, Ascending, Plannable;
      var homes := Ascending(m.Keys);
      for i := 0 to |homes|
        invariant device.Valid() && Extends(old(device.run), device.run) && device.failures == old(device.failures)
        invariant device.Last() == s.(pending := BodyPart(sb, plan, m, descriptor, i))
      {
        BodyProgress(sb, Selected(sb, s.base).value, m, plan, descriptor, i);
        ghost var before := device.Last();
        ok := device.Pwrite(RingBlock(sb, plan.payloadIndices[i]), m[homes[i]]);
        if !ok {
          return;
        }
        WriteOfPlainBatch(before, RingBlock(sb, plan.payloadIndices[i]), device.Last());
      }
      ok := true;
    }

    /** `WriteUnexposedBody`: descriptor and payloads into the reserved positions, then one sync. */
    method WriteUnexposedBody(plan: Reservation, m: Writes) returns (r: Status)
      requires device.sb == sb && device.Valid() && !reloadRequired
      requires AtBody(sb, device.Last(), plan, m)
      modifies device, this`body, this`images, this`reloadRequired
      ensures device.Valid() && Extends(old(device.run), device.run) && SameTransaction(old(device.Last()), device.Last())
      ensures (r == Ok || r == Fails(EIO)) && device.failures == old(device.failures) + Lost(r)
      ensures r == Ok ==> !reloadRequired && device.Last() == Advanced(old(device.Last()))
      ensures r == Ok ==> BodyMatches(sb, device.Last(), body, images) && body.Some?
      ensures r.Fails? ==> reloadRequired && !device.Last().up
    {
      hide Run, Selected, Place, DescriptorBytes, Write, Sync, BodyPart, AtBody, Ascending, Entries, InOrder;
      hide DescriptorChecksum, Plannable, BodyMatches, Advanced;
      ghost var s := device.Last();
      BodyStep(sb, s, plan, m);
      PlacedDescriptor(sb, Selected(sb, s.base).value, m, plan);
      var entries := BuildEntries(m, plan.payloadIndices);
      var descriptor := DescriptorBytes(DescriptorRecord(plan.transactionId, sb.uuid, (|m| + 2) % 0x1_0000_0000, 0, entries));
      DescriptorInBody(sb, plan, m, descriptor);
      var ok := device.Pwrite(RingBlock(sb, plan.descriptorIndex), descriptor);
      if !ok {
        reloadRequired := true;
        return Fails(EIO);
      }
      WriteOfPlainBatch(s, RingBlock(sb, plan.descriptorIndex), device.Last());
      BodyStart(sb, plan, m, descriptor);
      ok := WritePayloads(s, plan, m, descriptor);
      if !ok {
        reloadRequired := true;
        return Fails(EIO);
      }
      ghost var t := device.Last();
      ok := device.Fdatasync();
      if !ok {
        reloadRequired := true;
        return Fails(EIO);
      }
      SyncOfBatch(s, t.pending, t, device.Last());
      BodyIsDurable(sb, s, plan, m, descriptor);
      body := Some(DurableBody(plan, |m| % 0x1_0000_0000, DescriptorChecksum(descriptor)));
      images := m;
      r := Ok;
    }

    /** `WriteOrderedDataAndUnexposedBody`: checks the plan against the image, then new data into place
        and the journal body into the ring. A plan that fails a check changes nothing. */
    method WriteOrderedDataAndUnexposedBody(totalBlocks: nat, uuid: Uuid, tx: Transaction) returns (r: Status)
      requires Valid() && PayloadsAreNotCommits(tx.metadata)
      modifies device, this`body, this`images, this`reloadRequired
      ensures Valid() && Extends(old(device.run), device.run)
      ensures r == Ok ==> old(Progress()) == Fresh && Progress() == BodyDurable
      ensures r == Ok || Progress() == Uncertain != old(Progress()) ==> BegunOnce(old(device.Last()), device.Last(), tx)
      ensures r.Fails? && Progress() != Uncertain ==> Progress() == old(Progress())
      ensures r.Fails? && Progress() == old(Progress()) ==> device.run == old(device.run)
      ensures old(Progress()) == Fresh ==> device.failures == old(device.failures) + Lost(r)
      ensures old(Progress()) == Fresh && Admitted(sb, old(device.durable), current, totalBlocks, uuid, tx) ==>
        r == Ok || r == Fails(EIO)
      ensures !Admitted(sb, old(device.durable), current, totalBlocks, uuid, tx) ==> r.Fails?
      ensures r != Fails(EMFILE)
    {
      hide Run, Inv, Selected, Admitted, AtBody, AtPhase, BodyMatches, Advanced, PlanFor, Ready;
      var plan;
      r, plan := Admit(totalBlocks, uuid, tx);
      if r.Fails? {
        return;
      }
      r := WriteAdmitted(totalBlocks, uuid, tx, plan);
    }

    /** What `WriteOrderedDataAndUnexposedBody` does with an admitted plan. */
    method WriteAdmitted(ghost totalBlocks: nat, ghost uuid: Uuid, tx: Transaction, plan: Reservation) returns (r: Status)
      requires Valid() && Progress() == Fresh && PayloadsAreNotCommits(tx.metadata)
      requires Admitted(sb, device.durable, current, totalBlocks, uuid, tx) && plan == PlanFor(current, |tx.metadata|)
      modifies device, this`body, this`images, this`reloadRequired
      ensures Valid() && old(device.run) < device.run
      ensures (r == Ok && Progress() == BodyDurable) || (r == Fails(EIO) && Progress() == Uncertain)
      ensures BegunOnce(old(device.Last()), device.Last(), tx) && device.failures == old(device.failures) + Lost(r)
    {
      hide Run, Inv, Selected, Admitted, AtBody, AtPhase, BodyMatches, Advanced, PlanFor, Ready, HeadIs, Script, Acceptable;
      hide Clean, PayloadsAreNotCommits;
      ghost var idle := device.Last();
      FreshFacts(sb, idle, current, copy);
      RunHasInv(sb, device.run, |device.run| - 1);
      AdmittedIsAcceptable(sb, idle, current, copy, totalBlocks, uuid, tx);
      device.StartTransaction(tx);
      ghost var s := device.Last();
      if tx.ordered == map[] {
        StartWithoutData(sb, s, current, copy, tx, plan);
      } else {
        StartWithData(sb, s, current, copy, tx, plan);
        var ok := WriteBatch(OrderedData, tx.ordered);
        if !ok {
          return Fails(EIO);
        }
      }
      ghost var t := device.Last();
      r := WriteUnexposedBody(plan, tx.metadata);
      if r == Ok {
        RunHasInv(sb, device.run, |device.run| - 1);
        BodyDurablePhase(sb, t, plan, tx.metadata, current, copy);
      }
    }

    /** The checks of `WriteOrderedDataAndUnexposedBody`, in its order; nothing is written. */
    method Admit(totalBlocks: nat, uuid: Uuid, tx: Transaction) returns (r: Status, plan: Reservation)
      requires Valid()
      modifies device`failures
      ensures r == Ok ==> Progress() == Fresh && Admitted(sb, device.durable, current, totalBlocks, uuid, tx)
      ensures r == Ok ==> plan == PlanFor(current, |tx.metadata|)
      ensures r != Fails(EMFILE)
      ensures Progress() == Fresh ==> device.failures == old(device.failures) + Lost(r)
      ensures Progress() == Fresh && Admitted(sb, device.durable, current, totalBlocks, uuid, tx) ==>
        r == Ok || r == Fails(EIO)
      ensures Progress() == Fresh ==> AnswersAdmission(sb, device.durable, current, totalBlocks, uuid, tx, r)
    {
      hide Run, Selected, ReserveCheck, PlanFor, Covered, MatchesImage, AtPhase, BodyMatches;
      plan := PlanFor(current, |tx.metadata|);
      if tx.metadata == map[] {
        EmptyIsRefused(current);
        return Fails(EINVAL), plan;
      }
      if reloadRequired {
        return Fails(EIO), plan;
      }
      if current.usedBlocks != 0 || body.Some? {
        if current.usedBlocks != 0 {
          BusyIsRefused(current, |tx.metadata|);
        }
        return Fails(EBUSY), plan;
      }
      if totalBlocks != sb.totalBlocks || uuid != sb.uuid {
        return Fails(ESTALE), plan;
      }
      var covered := CheckTargets(sb, tx);
      if !covered {
        return Fails(EINVAL), plan;
      }
      var reserved := PlanRingReservation(current, |tx.metadata|);
      FreshFacts(sb, device.Last(), current, copy);
      SelectedMatches(sb, device.durable);
      if reserved.Refused? {
        return Fails(ReserveErrno(reserved.error)), plan;
      }
      plan := reserved.plan;
      r := CheckBeforeImages(tx.before);
    }

    /** A batch in ascending order, then one sync. */
    method WriteBatch(ghost stage: Stage, w: Writes) returns (ok: bool)
      requires device.sb == sb && device.Valid() && !reloadRequired
      requires device.Last().up && device.Last().pending == map[]
      requires HeadIs(device.Last(), stage, w) && stage != CommitRecorded
      modifies device, this`reloadRequired
      ensures device.Valid() && Extends(old(device.run), device.run) && SameTransaction(old(device.Last()), device.Last())
      ensures device.failures == old(device.failures) + (if ok then 0 else 1)
      ensures ok ==> !reloadRequired && device.Last() == Advanced(old(device.Last()))
      ensures !ok ==> reloadRequired && !device.Last().up
    {
      hide Run, Sync, Advanced;
      ghost var s := device.Last();
      ok := device.PwriteAll(w);
      if ok {
        ghost var t := device.Last();
        ok := device.Fdatasync();
        if ok {
          SyncOfBatch(s, w, t, device.Last());
        }
      }
      if !ok {
        reloadRequired := true;
      }
    }

    // ---- Recovery ----

    /** The descriptor entries name the positions right after the tail and legal home blocks. */
    method CheckEntries(entries: seq<DescriptorEntry>) returns (ok: bool)
      ensures ok <==> EntriesFollowTail(sb, current, entries)
    {
      hide Advance, MetadataTarget;
      for i := 0 to |entries|
        invariant EntriesFollowTail(sb, current, entries[..i])
      {
        if entries[i].payloadRingIndex != Advance(current.tail, i + 1, current.ringBlocks) {
          return false;
        }
        if !MetadataTarget(sb, entries[i].homeBlock) {
          return false;
        }
      }
      assert entries[..|entries|] == entries;
      ok := true;
    }

    /** Reads every payload and compares its checksum with the descriptor's. */
    method ReadPayloads(entries: seq<DescriptorEntry>) returns (r: Status, payloads: Writes)
      requires device.Valid() && device.pending == map[]
      modifies device`failures
      ensures device.failures == old(device.failures) + Lost(r)
      ensures r == Ok ==> PayloadsIntact(sb, device.durable, entries)
      ensures r == Ok ==> payloads == Payloads(sb, device.durable, entries, |entries|)
      ensures r == Fails(EUCLEAN) ==> !PayloadsIntact(sb, device.durable, entries)
      ensures r == Ok || r == Fails(EUCLEAN) || r == Fails(EIO)
    {
      hide Run, BlockCrc;
      payloads := map[];
      for i := 0 to |entries|
        invariant payloads == Payloads(sb, device.durable, entries, i) && device.failures == old(device.failures)
        invariant forall k :: 0 <= k < i ==>
          BlockCrc(RingAt(sb, device.durable, entries[k].payloadRingIndex)) == entries[k].payloadCrc
      {
        var payload := device.Pread(RingBlock(sb, entries[i].payloadRingIndex));
        if payload == None {
          return Fails(EIO), map[];
        }
        if BlockCrc(payload.value) != entries[i].payloadCrc {
          return Fails(EUCLEAN), map[];
        }
        payloads := payloads[entries[i].homeBlock := payload.value];
      }
      r := Ok;
    }

    /** `ClassifyRecovery`: reads only what the selected control exposes, and publishes a committed
        transaction for `ResolveRecovery`. */
    method ClassifyRecovery() returns (r: Status, state: Recovery)
      requires Valid()
      modifies this`validated, device`failures
      ensures Valid() && device.run == old(device.run) && Progress() == old(Progress())
      ensures reloadRequired ==> r == Fails(EIO)
      ensures !reloadRequired ==> device.failures == old(device.failures) + Lost(r)
      ensures !reloadRequired && r != Fails(EIO) ==>
        var found := Classify(sb, device.durable, current);
        if found == Corrupt then r == Fails(EUCLEAN) else r == Ok && state == found
      ensures validated == if r == Ok && state.Committed? then Some(state.images) else None
    {
      hide Run, AtPhase, BodyMatches, Classify;
      r, state := ClassifyCurrent();
      validated := if r == Ok && state.Committed? then Some(state.images) else None;
      assert device.run == old(device.run) && device.Valid();
    }

    /** The reading part of `ClassifyRecovery`. */
    method ClassifyCurrent() returns (r: Status, state: Recovery)
      requires Valid()
      modifies device`failures
      ensures reloadRequired ==> r == Fails(EIO)
      ensures !reloadRequired ==> device.failures == old(device.failures) + Lost(r)
      ensures r == Ok ==> state == Classify(sb, device.durable, current) != Corrupt
      ensures r == Fails(EUCLEAN) ==> Classify(sb, device.durable, current) == Corrupt
      ensures r == Ok || r == Fails(EUCLEAN) || r == Fails(EIO)
    {
      hide Run, Classify, AtPhase, BodyMatches;
      r, state := Fails(EIO), Corrupt;
      if !reloadRequired {
        PhasePending(sb, device.Last(), Progress(), current, copy);
        r, state := ClassifyExposed();
      }
    }

    /** Classifies what the selected control exposes. */
    method ClassifyExposed() returns (r: Status, state: Recovery)
      requires device.Valid() && device.pending == map[]
      modifies device`failures
      ensures device.failures == old(device.failures) + Lost(r)
      ensures r == Ok ==> state == Classify(sb, device.durable, current) != Corrupt
      ensures r == Fails(EUCLEAN) ==> Classify(sb, device.durable, current) == Corrupt
      ensures r == Ok || r == Fails(EUCLEAN) || r == Fails(EIO)
    {
      hide Run, DecodeDescriptor, ClassifyDescriptor;
      state := Corrupt;
      if current.usedBlocks == 0 {
        return Ok, Empty;
      }
      if current.nextTransactionId <= 1 {
        return Fails(EUCLEAN), state;
      }
      var block := device.Pread(RingBlock(sb, current.tail));
      if block == None {
        return Fails(EIO), state;
      }
      var descriptor := DecodeDescriptor(block.value);
      if descriptor == None {
        return Fails(EUCLEAN), state;
      }
      r, state := ClassifyExposedTransaction(descriptor.value, block.value);
    }

    /** The part of `ClassifyRecovery` that follows the descriptor. */
    method ClassifyExposedTransaction(descriptor: DescriptorRecord, block: Block) returns (r: Status, state: Recovery)
      requires device.Valid() && device.pending == map[] && block == RingAt(sb, device.durable, current.tail)
      modifies device`failures
      ensures device.failures == old(device.failures) + Lost(r)
      ensures r == Ok ==> state == ClassifyDescriptor(sb, device.durable, current, descriptor) != Corrupt
      ensures r == Fails(EUCLEAN) ==> ClassifyDescriptor(sb, device.durable, current, descriptor) == Corrupt
      ensures r == Ok || r == Fails(EUCLEAN) || r == Fails(EIO)
      ensures r.Fails? ==> state == Corrupt
    {
      hide Run, DecodeCommit, Advance, DescriptorChecksum, Payloads, PayloadsIntact, CommitMatches, DescriptorFitsControl;
      state := Corrupt;
      var fits := CheckDescriptor(descriptor);
      if !fits {
        return Fails(EUCLEAN), state;
      }
      var payloads;
      r, payloads := ReadPayloads(descriptor.entries);
      if r.Fails? {
        return;
      }
      var position := Advance(current.tail, |descriptor.entries| + 1, current.ringBlocks);
      var commitBlock := device.Pread(RingBlock(sb, position));
      if commitBlock == None {
        return Fails(EIO), state;
      }
      var commit := DecodeCommit(commitBlock.value);
      if commit == None || commit.value.transactionId != descriptor.transactionId {
        return Ok, Uncommitted;
      }
      if !CommitMatches(descriptor, DescriptorChecksum(block), current.tail, commit.value) {
        return Fails(EUCLEAN), state;
      }
      state := Recovery.Committed(payloads);
    }

    method CheckDescriptor(descriptor: DescriptorRecord) returns (ok: bool)
      ensures ok <==> DescriptorFitsControl(sb, current, descriptor)
    {
      hide Advance, EntriesFollowTail;
      if descriptor.uuid != sb.uuid || descriptor.transactionId != current.nextTransactionId - 1
         || descriptor.blockCount != current.usedBlocks {
        return false;
      }
      ok := CheckEntries(descriptor.entries);
      if ok {
        ok := Advance(current.tail, |descriptor.entries| + 2, current.ringBlocks) == current.head;
      }
    }

    /** `ResolveRecovery`. On an image left by any run of the protocol only an I/O error stops it; when
        it succeeds the journal is empty, and a committed transaction is in place. */
    method ResolveRecovery() returns (r: Status, action: RecoveryAction)
      requires Valid()
      modifies device, this`current, this`copy, this`reloadRequired, this`validated
      ensures Valid() && Extends(old(device.run), device.run) && SameTransaction(old(device.Last()), device.Last())
      ensures old(Progress()) == Fresh ==> (r == Ok || r == Fails(EIO)) && device.failures == old(device.failures) + Lost(r)
      ensures r == Ok ==> old(Progress()) == Fresh && Progress() == Fresh && Clean(sb, device.durable)
      ensures r == Ok ==> var d := old(device.durable);
        match Classify(sb, d, old(current))
        case Empty => action == NoAction && device.durable == d
        case Uncommitted => action == Discarded && HomeAgrees(sb, device.durable, d, {})
        case Committed(images) => action == ReplayedAndCheckpointed && HomeAgrees(sb, device.durable, Overlay(d, images), {})
        case Corrupt => false
    {
      hide Run, Inv, AtPhase, BodyMatches, Classify, Selected, RecoveryScript, HomeAgrees, Clean, ControlBytes, Successor;
      action := NoAction;
      if reloadRequired {
        return Fails(EIO), action;
      }
      if body.Some? || commitDurable {
        return Fails(EBUSY), action;
      }
      ghost var s := device.Last();
      RunHasInv(sb, device.run, |device.run| - 1);
      FreshFacts(sb, s, current, copy);
      NeverCorrupt(sb, device.run, current, copy);
      var state;
      r, state := ClassifyRecovery();
      if r.Fails? {
        return;
      }
      if state == Empty {
        EmptyIsClean(sb, s, current, copy);
        return;
      }
      r, action := FinishRecovery(state);
      if r == Ok {
        validated := None;
      }
    }

    /** The writing part of `ResolveRecovery`. */
    method FinishRecovery(state: Recovery) returns (r: Status, action: RecoveryAction)
      requires Valid() && Progress() == Fresh
      requires state == Classify(sb, device.durable, current) && (state.Uncommitted? || state.Committed?)
      requires validated == if state.Committed? then Some(state.images) else None
      modifies device, this`current, this`copy, this`reloadRequired
      ensures Valid() && Extends(old(device.run), device.run) && SameTransaction(old(device.Last()), device.Last())
      ensures (r == Ok && Progress() == Fresh && Clean(sb, device.durable)) || (r == Fails(EIO) && Progress() == Uncertain)
      ensures device.failures == old(device.failures) + Lost(r)
      ensures r == Ok ==> var d := old(device.durable);
        match state
        case Committed(images) => action == ReplayedAndCheckpointed && HomeAgrees(sb, device.durable, Overlay(d, images), {})
        case _ => action == Discarded && HomeAgrees(sb, device.durable, d, {})
    {
      hide Run, AtPhase, Classify, HomeAgrees, Clean, AtReplay, AtRetire, Overlay, Extends, BodyMatches;
      ghost var before := device.run;
      OpenForRecovery(state);
      ghost var started := device.run;
      if state.Committed? {
        action := ReplayedAndCheckpointed;
        r := ReplayAndRetire(validated.value);
      } else {
        action := Discarded;
        r := RetireExposed();
      }
      ExtendsTrans(before, started, device.run);
    }

    /** Records that recovery starts, with the work its classification asks for. */
    ghost method OpenForRecovery(state: Recovery)
      requires Valid() && Progress() == Fresh
      requires state == Classify(sb, device.durable, current) && (state.Uncommitted? || state.Committed?)
      modifies device`run
      ensures device.sb == sb && device.Valid() && Extends(old(device.run), device.run) && SameTransaction(old(device.Last()), device.Last())
      ensures state.Uncommitted? ==> AtRetire(sb, device.Last(), current, copy)
      ensures state.Committed? ==> AtReplay(sb, device.Last(), current, copy, state.images)
    {
      hide Run, Inv, AtPhase, Classify, Selected, RecoveryScript, Clean, AtReplay, AtRetire, HeadIs, Extends, BodyMatches;
      ghost var idle := device.Last();
      RunHasInv(sb, device.run, |device.run| - 1);
      FreshFacts(sb, idle, current, copy);
      NotCleanIsDown(sb, idle, current, copy);
      device.StartRecovery();
      RecoveryStep(sb, idle, device.Last(), current, copy);
    }

    /** Home blocks, then the clean control. */
    method ReplayAndRetire(blocks: Writes) returns (r: Status)
      requires device.sb == sb && device.Valid() && !reloadRequired && AtReplay(sb, device.Last(), current, copy, blocks)
      requires body == None && !commitDurable && !checkpointed
      modifies device, this`current, this`copy, this`reloadRequired
      ensures Valid() && Extends(old(device.run), device.run) && SameTransaction(old(device.Last()), device.Last())
      ensures (r == Ok && Progress() == Fresh && Clean(sb, device.durable)) || (r == Fails(EIO) && Progress() == Uncertain)
      ensures device.failures == old(device.failures) + Lost(r)
      ensures r == Ok ==> HomeAgrees(sb, device.durable, Overlay(old(device.durable), blocks), {})
    {
      hide Run, AtPhase, Selected, HomeAgrees, Clean, AtReplay, AtRetire, Overlay, Extends;
      var ok := ReplayHome(blocks);
      if !ok {
        return Fails(EIO);
      }
      ghost var replayed := device.run;
      r := RetireExposed();
      ExtendsTrans(old(device.run), replayed, device.run);
    }

    /** The home blocks of `ResolveRecovery`. */
    method ReplayHome(blocks: Writes) returns (ok: bool)
      requires device.sb == sb && device.Valid() && !reloadRequired && AtReplay(sb, device.Last(), current, copy, blocks)
      modifies device, this`reloadRequired
      ensures device.Valid() && Extends(old(device.run), device.run) && SameTransaction(old(device.Last()), device.Last())
      ensures device.failures == old(device.failures) + (if ok then 0 else 1)
      ensures ok ==> !reloadRequired && AtRetire(sb, device.Last(), current, copy)
      ensures ok ==> device.durable == Overlay(old(device.durable), blocks)
      ensures !ok ==> reloadRequired && !device.Last().up
    {
      hide Run, Inv, Selected, ControlBytes, Advanced, AtRetire, Overlay, CleanControl, DiscardBatches;
      ghost var s := device.Last();
      RunHasInv(sb, device.run, |device.run| - 1);
      ok := WriteBatch(HomeBlocks, blocks);
      if ok {
        RunHasInv(sb, device.run, |device.run| - 1);
        ReplayedStep(sb, s, current, copy, blocks);
      }
    }

    /** The clean control of `ResolveRecovery`. */
    method RetireExposed() returns (r: Status)
      requires device.sb == sb && device.Valid() && !reloadRequired
      requires body == None && !commitDurable && !checkpointed && AtRetire(sb, device.Last(), current, copy)
      modifies device, this`current, this`copy, this`reloadRequired
      ensures Valid() && Extends(old(device.run), device.run) && SameTransaction(old(device.Last()), device.Last())
      ensures (r == Ok && Progress() == Fresh && Clean(sb, device.durable)) || (r == Fails(EIO) && Progress() == Uncertain)
      ensures device.failures == old(device.failures) + Lost(r)
      ensures r == Ok ==> HomeAgrees(sb, device.durable, old(device.durable), {})
    {
      hide Run, Inv, AtPhase, Selected, HomeAgrees, Clean, ControlBytes, Successor, Advanced, AtRetire, Journaled;
      hide ValidSuperblock, Ongoing, CleanControl;
      ghost var t := device.Last();
      RunHasInv(sb, device.run, |device.run| - 1);
      InvIsJournaled(sb, t);
      JournaledIsValid(sb, t.durable);
      RetiredStep(sb, t, current, copy);
      r := PersistNext(CleanControl(current));
    }
  }

  /** `AdoptLockedFd`: reads both control copies and selects one. On an image left by any run of the
      protocol a copy is always selected, so only a read error can prevent it. */
  method Adopt(device: Device) returns (store: Option<JournalControlStore>)
    requires device.Valid() && device.pending == map[] && device.Last().todo == []
    modifies device`failures
    ensures device.failures == old(device.failures) + (if store == None then 1 else 0)
    ensures Selected(device.sb, device.durable).Some?
    ensures store.Some? ==>
      && fresh(store.value) && store.value.device == device && store.value.Valid() && store.value.Progress() == Fresh
      && store.value.current == Selected(device.sb, device.durable).value.control
  {
    hide Run, UsableControl, SelectControl, AtPhase, BodyMatches;
    assert Settles(device.sb, device.durable, map[], device.durable);
    ControlRule(device.sb, device.run, |device.run| - 1, device.durable);
    var a := device.Pread(ControlBlock(device.sb, A));
    if a == None {
      return None;
    }
    var b := device.Pread(ControlBlock(device.sb, B));
    if b == None {
      return None;
    }
    var selected := SelectControl(a.value, b.value, device.sb.uuid, RingBlocks(device.sb));
    assert selected == Selected(device.sb, device.durable);
    var adopted := new JournalControlStore(device, selected.value);
    store := Some(adopted);
  }

  lemma RunSelects(device: Device)
    requires device.Valid()
    ensures Selected(device.sb, device.durable).Some?
  {
    hide Run, Inv, Selected, ControlOrder;
    RunHasInv(device.sb, device.run, |device.run| - 1);
    InvIsJournaled(device.sb, device.Last());
    JournaledIsValid(device.sb, device.durable);
  }

  /** `ExecuteJournalTransaction`: the four steps in order, stopping at the first failure. Every failure
      asks for fail-closed, except that the descriptor could not be duplicated (`EMFILE`). Success means
      the whole transaction is in place; a failure after the checks leaves the device inside a run whose
      latest transaction is this one. */
  method ExecuteJournalTransaction(device: Device, totalBlocks: nat, uuid: Uuid, tx: Transaction)
    returns (r: Status, failClosed: bool)
    requires device.Valid() && device.pending == map[] && device.Last().todo == []
    requires PayloadsAreNotCommits(tx.metadata)
    modifies device
    ensures device.Valid() && Extends(old(device.run), device.run)
    ensures failClosed <==> r.Fails? && r != Fails(EMFILE)
    ensures r == Fails(EMFILE) ==> device.run == old(device.run)
    ensures device.failures == old(device.failures) + Lost(r)
    ensures Selected(device.sb, old(device.durable)).Some?
    ensures Admitted(device.sb, old(device.durable), Selected(device.sb, old(device.durable)).value.control, totalBlocks, uuid, tx) ==>
      r == Ok || r == Fails(EIO) || r == Fails(EMFILE)
    ensures r == Ok ==>
      && device.Last().up && device.Last().todo == [] && Clean(device.sb, device.durable)
      && HomeAgrees(device.sb, device.durable, AfterImage(old(device.durable), tx), {})
    ensures device.run == old(device.run) || BegunOnce(old(device.Last()), device.Last(), tx)
  {
    hide Run, Inv, AtPhase, BodyMatches, HomeAgrees, Clean, AfterImage, Admitted, Selected;
    RunSelects(device);
    failClosed := false;
    var duplicated := device.Duplicate();
    if !duplicated {
      return Fails(EMFILE), failClosed;
    }
    failClosed := true;
    var store := Adopt(device);
    if store == None {
      return Fails(EIO), failClosed;
    }
    var journal := store.value;
    r := journal.WriteOrderedDataAndUnexposedBody(totalBlocks, uuid, tx);
    if r == Ok {
      r := journal.PublishBody();
    }
    if r == Ok {
      RunHasInv(device.sb, device.run, |device.run| - 1);
      RetiredIsAfter(device.sb, device.Last(), journal.current, journal.copy);
      failClosed := false;
    }
  }

  lemma RetiredIsAfter(sb: Superblock, s: State, current: JournalControl, copy: Copy)
    requires AtPhase(sb, s, Retired, current, copy) && Inv(sb, s)
    ensures s.up && s.todo == [] && Clean(sb, s.durable) && HomeAgrees(sb, s.durable, AfterImage(s.base, s.tx), {})
  {
    hide Journaled, Clean, HomeAgrees, AfterImage, Selected, Place;
    if ExposedAfter(sb, s.durable, s.base, s.tx) {
      ExposedIsNotClean(sb, s.durable, s.base, s.tx);
    }
  }

  datatype RecoveryAction = NoAction | Discarded | ReplayedAndCheckpointed

  lemma NeverCorrupt(sb: Superblock, run: seq<State>, current: JournalControl, copy: Copy)
    requires run != [] && Run(sb, run) && run[|run| - 1].todo == [] && run[|run| - 1].pending == map[]
    requires Selected(sb, run[|run| - 1].durable) == Some(Selection(current, copy))
    ensures Classify(sb, run[|run| - 1].durable, current) != Corrupt
  {
    hide Run, Inv, Selected, Classify;
    var d := run[|run| - 1].durable;
    assert Settles(sb, d, map[], d);
    RecoveryNeverRefuses(sb, run, |run| - 1, d);
  }

  lemma EmptyIsClean(sb: Superblock, s: State, current: JournalControl, copy: Copy)
    requires Selected(sb, s.durable) == Some(Selection(current, copy)) && Classify(sb, s.durable, current) == Empty
    ensures Clean(sb, s.durable)
  {
    hide Selected, ClassifyDescriptor;
  }

  lemma NotCleanIsDown(sb: Superblock, s: State, current: JournalControl, copy: Copy)
    requires Inv(sb, s) && s.todo == [] && Selected(sb, s.durable) == Some(Selection(current, copy))
    requires Classify(sb, s.durable, current) != Empty
    ensures !s.up
  {
    hide Selected, ClassifyDescriptor, ImageInv;
  }

  /** Only the clean control is left to write. */
  ghost predicate AtRetire(sb: Superblock, s: State, current: JournalControl, copy: Copy) {
    && s.up && s.pending == map[] && Selected(sb, s.durable) == Some(Selection(current, copy))
    && s.todo == DiscardBatches(sb, Other(copy), ControlBytes(CleanControl(current)))
  }

  /** The home blocks are left to write, then the clean control. */
  ghost predicate AtReplay(sb: Superblock, s: State, current: JournalControl, copy: Copy, images: Writes) {
    && s.up && s.pending == map[] && Selected(sb, s.durable) == Some(Selection(current, copy))
    && s.todo == ReplayBatches(sb, Other(copy), images, ControlBytes(CleanControl(current)))
  }

  lemma RecoveryStep(sb: Superblock, idle: State, s: State, current: JournalControl, copy: Copy)
    requires idle.pending == map[] && Selected(sb, idle.durable) == Some(Selection(current, copy))
    requires RecoveryScript(sb, idle.durable).Some?
    requires s == idle.(todo := RecoveryScript(sb, idle.durable).value, up := true)
    ensures match Classify(sb, idle.durable, current)
      case Uncommitted => AtRetire(sb, s, current, copy)
      case Committed(images) => s.up && s.pending == map[] && AtReplay(sb, s, current, copy, images) && HeadIs(s, HomeBlocks, images)
      case _ => true
  {
    hide Selected, Classify, ControlBytes, DiscardBatches;
  }

  lemma ReplayedStep(sb: Superblock, s: State, current: JournalControl, copy: Copy, images: Writes)
    requires AtReplay(sb, s, current, copy, images) && Inv(sb, s) && Inv(sb, Advanced(s))
    ensures s.up && s.pending == map[]
    ensures AtRetire(sb, Advanced(s), current, copy)
    ensures Advanced(s).durable == Overlay(s.durable, images)
  {
    hide Selected, ControlBytes, Inv, Place, Ready;
    Tail(s.todo[0], DiscardBatches(sb, Other(copy), ControlBytes(CleanControl(current))));
    StageSelected(sb, s);
    StageSelected(sb, Advanced(s));
  }

  lemma RetiredStep(sb: Superblock, t: State, current: JournalControl, copy: Copy)
    requires AtRetire(sb, t, current, copy) && ValidSuperblock(sb) && |t.durable| == sb.totalBlocks
    ensures Selected(sb, t.durable) == Some(Selection(current, copy))
    ensures Ongoing(t, ControlBlock(sb, Other(copy)), ControlBytes(CleanControl(current)))
    ensures Successor(sb, current, CleanControl(current))
    ensures var u := Advanced(t);
      Selected(sb, u.durable) == Some(Selection(CleanControl(current), Other(copy))) ==>
        AtPhase(sb, u, Fresh, CleanControl(current), Other(copy)) && Clean(sb, u.durable)
    ensures HomeAgrees(sb, Advanced(t).durable, t.durable, {})
  {
    hide Selected, ControlBytes, Successor, ValidControl, ValidSuperblock;
    SelectedMatches(sb, t.durable);
    CleanIsSuccessor(sb, current);
    JournalGeometry(sb);
  }

  /** Descriptor entries, one per metadata block in ascending order. */
  method BuildEntries(m: Writes, positions: seq<u32>) returns (entries: seq<DescriptorEntry>)
    requires |positions| == |m|
    ensures entries == Entries(m, positions)
  {
    hide Ascending, BlockCrc;
    var homes := Ascending(m.Keys);
    entries := [];
    for i := 0 to |homes|
      invariant |entries| == i
      invariant forall k :: 0 <= k < i ==> entries[k] == Entry(m, homes[k], positions[k])
    {
      entries := entries + [DescriptorEntry(homes[i] % 0x1_0000_0000, positions[i], BlockCrc(m[homes[i]]), 0)];
    }
  }

  /** The checks a plan has to pass before anything is written. */
  predicate Admitted(sb: Superblock, d: Image, current: JournalControl, totalBlocks: nat, uuid: Uuid, tx: Transaction) {
    && totalBlocks == sb.totalBlocks && uuid == sb.uuid
    && Covered(sb, tx) && ReserveCheck(current, |tx.metadata|) == None && MatchesImage(d, tx.before)
  }

  /** Which check turns a transaction down when no other one is under way in this store. */
  ghost predicate AnswersAdmission(
    sb: Superblock, d: Image, current: JournalControl, totalBlocks: nat, uuid: Uuid, tx: Transaction, r: Status)
  {
    if |tx.metadata| == 0 then r == Fails(EINVAL)
    else if current.usedBlocks != 0 then r == Fails(EBUSY)
    else if totalBlocks != sb.totalBlocks || uuid != sb.uuid then r == Fails(ESTALE)
    else if !Covered(sb, tx) then r == Fails(EINVAL)
    else if |tx.metadata| > 252 then r == Fails(E2BIG)
    else if |tx.metadata| + 2 > current.ringBlocks then r == Fails(ENOSPC)
    else if current.nextTransactionId == 0xFFFF_FFFF_FFFF_FFFF then r == Fails(EOVERFLOW)
    else if MatchesImage(d, tx.before) then r == Ok || r == Fails(EIO)
    else r == Fails(ESTALE) || r == Fails(EIO)
  }

  lemma EmptyIsRefused(current: JournalControl)
    ensures ReserveCheck(current, 0) != None
  {}

  lemma BusyIsRefused(current: JournalControl, n: nat)
    requires current.usedBlocks != 0
    ensures ReserveCheck(current, n) != None
  {}

  lemma FreshFacts(sb: Superblock, s: State, current: JournalControl, copy: Copy)
    requires AtPhase(sb, s, Fresh, current, copy)
    ensures s.todo == [] && s.pending == map[] && Selected(sb, s.durable) == Some(Selection(current, copy))
  {}

  lemma SelectedMatches(sb: Superblock, d: Image)
    requires Selected(sb, d).Some?
    ensures var c := Selected(sb, d).value.control; c.uuid == sb.uuid && c.ringBlocks == RingBlocks(sb) && ValidControl(c)
  {
    hide DecodeControl, ValidControl;
  }

  lemma AdmittedIsAcceptable(sb: Superblock, s: State, current: JournalControl, copy: Copy, totalBlocks: nat,
                             uuid: Uuid, tx: Transaction)
    requires Inv(sb, s) && s.todo == [] && Selected(sb, s.durable) == Some(Selection(current, copy))
    requires Admitted(sb, s.durable, current, totalBlocks, uuid, tx) && PayloadsAreNotCommits(tx.metadata)
    ensures Clean(sb, s.durable) && Acceptable(sb, s.durable, tx) && Ready(sb, s.durable, tx)
  {
    hide Inv, ReserveCheck, MetadataTarget, InRegion, ValidControl, ValidSuperblock, Journaled, Selected, PayloadsAreNotCommits;
    hide At, RingBlocks;
    SelectedMatches(sb, s.durable);
    InvIsJournaled(sb, s);
    JournaledIsValid(sb, s.durable);
    ReserveCheckPassed(current, |tx.metadata|);
  }

  /** A transaction of this plan has just started from the selected control. */
  ghost predicate AtStart(sb: Superblock, s: State, current: JournalControl, copy: Copy, tx: Transaction, plan: Reservation) {
    && Ready(sb, s.base, tx) && Selected(sb, s.base) == Some(Selection(current, copy))
    && plan == PlanFor(current, |tx.metadata|)
    && s.up && s.pending == map[] && s.tx == tx && s.todo == Script(sb, Selection(current, copy), tx)
  }

  /** The first batch of a transaction is its ordered data if there is any, else its journal body. */
  lemma StartWithoutData(sb: Superblock, s: State, current: JournalControl, copy: Copy, tx: Transaction, plan: Reservation)
    requires AtStart(sb, s, current, copy, tx, plan) && tx.ordered == map[]
    ensures AtBody(sb, s, plan, tx.metadata)
  {
    hide Selected, Ready, BodyBatches, PlanFor;
    PlanOfPlace(sb, Selection(current, copy), tx.metadata);
  }

  lemma StartWithData(sb: Superblock, s: State, current: JournalControl, copy: Copy, tx: Transaction, plan: Reservation)
    requires AtStart(sb, s, current, copy, tx, plan) && tx.ordered != map[]
    ensures HeadIs(s, OrderedData, tx.ordered) && AtBody(sb, Advanced(s), plan, tx.metadata)
  {
    hide Selected, Ready, BodyBatches, PlanFor, Place, Overlay;
    PlanOfPlace(sb, Selection(current, copy), tx.metadata);
    Tail(s.todo[0], BodyBatches(sb, Selection(current, copy), tx.metadata));
  }

  lemma PlanOfPlace(sb: Superblock, sel: Selection, m: Writes)
    ensures Place(sb, sel, m).plan == PlanFor(sel.control, |m|)
  {}

  lemma BodyDurablePhase(sb: Superblock, s: State, plan: Reservation, m: Writes, current: JournalControl, copy: Copy)
    requires AtBody(sb, s, plan, m) && Inv(sb, Advanced(s))
    requires Selected(sb, s.base) == Some(Selection(current, copy))
    ensures current.usedBlocks == 0
    ensures AtPhase(sb, Advanced(s), BodyDurable, current, copy)
  {
    hide Inv, Selected, Ready, Place, Plannable;
    Tail(s.todo[0], ExposeBatches(sb, Selection(current, copy), m));
    StageSelected(sb, Advanced(s));
    ReadyIsPlannable(sb, s.base, s.tx);
    PlannableIsEmpty(sb, Selection(current, copy), m);
  }

  /** The journal body is the batch at hand. */
  ghost predicate AtBody(sb: Superblock, s: State, plan: Reservation, m: Writes) {
    && s.up && s.pending == map[] && Ready(sb, s.base, s.tx) && Selected(sb, s.base).Some? && m == s.tx.metadata
    && plan == Place(sb, Selected(sb, s.base).value, m).plan
    && s.todo == BodyBatches(sb, Selected(sb, s.base).value, m)
  }

  /** The descriptor and the first `i` payloads. */
  function BodyPart(sb: Superblock, plan: Reservation, m: Writes, descriptor: Block, i: nat): Writes {
    if i <= |m| == |plan.payloadIndices|
    then PayloadWrites(sb, plan.payloadIndices, InOrder(m), i)[RingBlock(sb, plan.descriptorIndex) := descriptor]
    else map[]
  }

  lemma BodyStart(sb: Superblock, plan: Reservation, m: Writes, descriptor: Block)
    requires |m| == |plan.payloadIndices|
    ensures BodyPart(sb, plan, m, descriptor, 0) == map[RingBlock(sb, plan.descriptorIndex) := descriptor]
  {}

  lemma BodyStep(sb: Superblock, s: State, plan: Reservation, m: Writes)
    requires AtBody(sb, s, plan, m)
    ensures s.up && s.pending == map[] && Selected(sb, s.base).Some?
    ensures Plannable(sb, Selected(sb, s.base).value, m) && |plan.payloadIndices| == |m|
    ensures var p := Place(sb, Selected(sb, s.base).value, m);
      && plan == p.plan && HeadIs(s, JournalBody, BodyPart(sb, plan, m, p.descriptor, |m|))
  {
    hide Selected, Ready, Plannable, Place, DescriptorBytes, ExposeBatches, PayloadWrites;
    ReadyIsPlannable(sb, s.base, s.tx);
    PlanFacts(sb, Selected(sb, s.base).value, m);
  }

  lemma PlacedDescriptor(sb: Superblock, sel: Selection, m: Writes, plan: Reservation)
    requires plan == Place(sb, sel, m).plan && |plan.payloadIndices| == |m|
    ensures Place(sb, sel, m).descriptor == DescriptorBytes(DescriptorRecord(
      plan.transactionId, sb.uuid, (|m| + 2) % 0x1_0000_0000, 0, Entries(m, plan.payloadIndices)))
  {
    hide DescriptorBytes, CommitBytes, ControlBytes, Entries, ExposedControl, Advance;
  }

  lemma DescriptorInBody(sb: Superblock, plan: Reservation, m: Writes, descriptor: Block)
    requires |plan.payloadIndices| == |m|
    ensures var b := RingBlock(sb, plan.descriptorIndex);
      b in BodyPart(sb, plan, m, descriptor, |m|) && BodyPart(sb, plan, m, descriptor, |m|)[b] == descriptor
  {}

  lemma BodyIsDurable(sb: Superblock, s: State, plan: Reservation, m: Writes, descriptor: Block)
    requires AtBody(sb, s, plan, m) && descriptor == Place(sb, Selected(sb, s.base).value, m).descriptor
    ensures BodyMatches(sb, Advanced(s),
                        Some(DurableBody(plan, |m| % 0x1_0000_0000, DescriptorChecksum(descriptor))), m)
  {
    hide Selected, Ready, Place, BodyBatches;
  }

  lemma BodyProgress(sb: Superblock, sel: Selection, m: Writes, plan: Reservation, descriptor: Block, i: nat)
    requires Plannable(sb, sel, m) && plan == Place(sb, sel, m).plan && i < |m|
    ensures |plan.payloadIndices| == |m|
    ensures var b, v := RingBlock(sb, plan.payloadIndices[i]), m[Ascending(m.Keys)[i]];
      && b !in BodyPart(sb, plan, m, descriptor, i)
      && BodyPart(sb, plan, m, descriptor, i + 1) == BodyPart(sb, plan, m, descriptor, i)[b := v]
      && b in BodyPart(sb, plan, m, descriptor, |m|) && BodyPart(sb, plan, m, descriptor, |m|)[b] == v
  {
    hide Plannable, Place, InOrder, PayloadWrites;
    PlanFacts(sb, sel, m);
    DistinctPositions(sb, sel, m, plan);
    PartProgress(sb, plan.payloadIndices, plan.descriptorIndex, InOrder(m), descriptor, i);
  }

  lemma PartProgress(sb: Superblock, positions: seq<u32>, first: u32, payloads: seq<Block>, descriptor: Block, i: nat)
    requires i < |positions| == |payloads|
    requires forall i :: 0 <= i < |positions| ==> positions[i] != first
    requires forall i, j :: 0 <= i < j < |positions| ==> positions[i] != positions[j]
    ensures var b, v, d := RingBlock(sb, positions[i]), payloads[i], RingBlock(sb, first);
      && b !in PayloadWrites(sb, positions, payloads, i)[d := descriptor]
      && PayloadWrites(sb, positions, payloads, i + 1)[d := descriptor]
         == PayloadWrites(sb, positions, payloads, i)[d := descriptor][b := v]
      && b in PayloadWrites(sb, positions, payloads, |payloads|)
      && PayloadWrites(sb, positions, payloads, |payloads|)[d := descriptor][b] == v
  {
    var b := RingBlock(sb, positions[i]);
    PayloadWritesAt(sb, positions, payloads, |payloads|);
    if b in PayloadWrites(sb, positions, payloads, i) {
      var k := PayloadWriteSource(sb, positions, payloads, i, b);
      assert false;
    }
  }

  lemma DistinctPositions(sb: Superblock, sel: Selection, m: Writes, plan: Reservation)
    requires Plannable(sb, sel, m) && plan == PlanFor(sel.control, |m|)
    ensures forall i :: 0 <= i < |m| ==> plan.payloadIndices[i] != plan.descriptorIndex
    ensures forall i, j :: 0 <= i < j < |m| ==> plan.payloadIndices[i] != plan.payloadIndices[j]
  {
    hide Advance, ValidControl, ReserveCheck, ValidSuperblock, Place;
    PlanFacts(sb, sel, m);
    ReservationIsDistinct(sel.control, |m|);
  }

  function BodyOf(sb: Superblock, sel: Selection, m: Writes): DurableBody {
    var p := Place(sb, sel, m);
    DurableBody(p.plan, |m| % 0x1_0000_0000, DescriptorChecksum(p.descriptor))
  }

  /** The target checks of `WriteOrderedDataAndUnexposedBody`, block by block. */
  method CheckTargets(sb: Superblock, tx: Transaction) returns (ok: bool)
    ensures ok <==> Covered(sb, tx)
  {
    hide Ascending, OrderedTarget, MetadataTarget;
    ok := CheckOrderedTargets(sb, tx);
    if ok {
      ok := CheckMetadataTargets(sb, tx);
    }
    if ok {
      ok := tx.before.Keys == tx.ordered.Keys + tx.metadata.Keys;
    }
  }

  method CheckOrderedTargets(sb: Superblock, tx: Transaction) returns (ok: bool)
    ensures ok <==> forall b :: b in tx.ordered ==> OrderedTarget(sb, tx, b)
  {
    hide Ascending, OrderedTarget;
    var keys := Ascending(tx.ordered.Keys);
    for i := 0 to |keys|
      invariant forall k :: 0 <= k < i ==> OrderedTarget(sb, tx, keys[k])
    {
      if !OrderedTarget(sb, tx, keys[i]) {
        return false;
      }
    }
    ok := true;
  }

  method CheckMetadataTargets(sb: Superblock, tx: Transaction) returns (ok: bool)
    ensures ok <==> forall b :: b in tx.metadata ==> MetadataTarget(sb, b) && b in tx.before
  {
    hide Ascending, MetadataTarget;
    var keys := Ascending(tx.metadata.Keys);
    for i := 0 to |keys|
      invariant forall k :: 0 <= k < i ==> MetadataTarget(sb, keys[k]) && keys[k] in tx.before
    {
      if !MetadataTarget(sb, keys[i]) || keys[i] !in tx.before {
        return false;
      }
    }
    ok := true;
  }

  predicate OrderedTarget(sb: Superblock, tx: Transaction, b: nat) {
    InRegion(b, sb.data) && b in tx.before && b !in tx.metadata
  }

  /** Ordered blocks are data, metadata blocks are legal targets, and the before-images cover
      exactly the blocks the transaction changes. */
  predicate Covered(sb: Superblock, tx: Transaction) {
    && (forall b :: b in tx.ordered ==> OrderedTarget(sb, tx, b))
    && (forall b :: b in tx.metadata ==> MetadataTarget(sb, b) && b in tx.before)
    && tx.before.Keys == tx.ordered.Keys + tx.metadata.Keys
  }

  predicate MatchesImage(d: Image, before: Writes) {
    forall b :: b in before ==> At(d, b) == before[b]
  }

  ghost predicate BodyMatches(sb: Superblock, s: State, body: Option<DurableBody>, images: Writes) {
    body.Some? ==>
      && Selected(sb, s.base).Some? && images == s.tx.metadata
      && body == Some(BodyOf(sb, Selected(sb, s.base).value, images))
  }

  /** The COMMIT record for a durable body. */
  function CommitOf(sb: Superblock, b: DurableBody): CommitRecord {
    CommitRecord(b.reservation.transactionId, sb.uuid, b.entryCount, (b.entryCount + 2) % 0x1_0000_0000,
                 b.reservation.descriptorIndex, b.descriptorChecksum)
  }

  /** The checks of `PersistNext`: same identity, exact successor generation, encodable. */
  predicate Successor(sb: Superblock, current: JournalControl, next: JournalControl) {
    && next == current.(generation := next.generation, head := next.head, tail := next.tail,
                        usedBlocks := next.usedBlocks, nextTransactionId := next.nextTransactionId)
    && next.uuid == sb.uuid && next.ringBlocks == RingBlocks(sb)
    && next.generation == NextGeneration(current.generation)
    && ValidControl(next)
  }

  /** The batch at hand is one block that is still to be written. */
  ghost predicate Ongoing(s: State, b: nat, v: Block) {
    s.up && s.pending == map[] && s.todo != [] && s.todo[0].writes == Single(b, v)
  }

  lemma OneBlockBatch(s: State, b: nat, v: Block, t: State)
    requires Ongoing(s, b, v) && Write(s, b, t)
    ensures t.up && t.todo == s.todo && t.pending == Single(b, v) && t.durable == s.durable
  {}

  lemma SyncOfOneBlock(s: State, b: nat, v: Block, t: State, u: State)
    requires Ongoing(s, b, v) && Write(s, b, t) && t.pending == Single(b, v) && Sync(t, u)
    ensures u == Advanced(s)
  {}

  /** Steps between two starts keep the recorded transaction. */
  ghost predicate SameTransaction(s: State, t: State) {
    s.base == t.base && s.tx == t.tx && s.started == t.started
  }

  /** Exactly one transaction was started since `s`. */
  ghost predicate BegunOnce(s: State, t: State, tx: Transaction) {
    t.base == s.durable && t.tx == tx && t.started == s.started + 1
  }

  lemma ExposedIsSuccessor(sb: Superblock, sel: Selection, m: Writes)
    requires Plannable(sb, sel, m)
    ensures Successor(sb, sel.control, Place(sb, sel, m).plan.exposed)
  {
    hide Advance, ValidControl, ReserveCheck, DescriptorBytes, CommitBytes, ControlBytes, ValidSuperblock;
    ExposedControlIsValid(sel.control, |m|);
  }

  lemma CleanIsSuccessor(sb: Superblock, exposed: JournalControl)
    requires ValidControl(exposed) && exposed.uuid == sb.uuid && exposed.ringBlocks == RingBlocks(sb)
    ensures Successor(sb, exposed, CleanControl(exposed))
    ensures !Successor(sb, CleanControl(exposed), exposed)
  {
    CleanControlIsValid(exposed);
    hide ValidControl;
  }

  // ---- One store, phase by phase ----

  ghost predicate AtPhase(sb: Superblock, s: State, phase: Phase, current: JournalControl, copy: Copy) {
    && s.pending == map[] && Selected(sb, s.durable) == Some(Selection(current, copy))
    && if phase == Fresh then s.todo == []
       else
         && s.up && Ready(sb, s.base, s.tx)
         && Selected(sb, s.base).Some?
         && var sel, m := Selected(sb, s.base).value, s.tx.metadata;
            var p := Place(sb, sel, m);
            match phase
            case BodyDurable => s.todo == ExposeBatches(sb, sel, m) && current == sel.control && copy == sel.copy
            case ControlExposed =>
              s.todo == CommitBatches(sb, sel, m) && current == p.plan.exposed && copy == Other(sel.copy)
            case CommitDurable =>
              && s.todo == ReplayBatches(sb, sel.copy, m, p.clean)
              && current == p.plan.exposed && copy == Other(sel.copy) && s.commit == Synced
            case Retired =>
              && s.todo == [] && current == CleanControl(p.plan.exposed) && copy == sel.copy && s.commit == Synced
            case _ => false
  }

  lemma ReadyIsPlannable(sb: Superblock, base: Image, tx: Transaction)
    requires Ready(sb, base, tx)
    ensures Selected(sb, base).Some? && Plannable(sb, Selected(sb, base).value, tx.metadata)
    ensures ValidControl(Place(sb, Selected(sb, base).value, tx.metadata).plan.exposed)
  {
    hide Selected, Journaled, PayloadsAreNotCommits, ReserveCheck, ValidControl, ValidSuperblock;
    hide DescriptorBytes, CommitBytes, ControlBytes, Advance;
    ExposedControlIsValid(Selected(sb, base).value.control, |tx.metadata|);
  }

  lemma PhaseUse(sb: Superblock, s: State, phase: Phase, current: JournalControl, copy: Copy)
    requires AtPhase(sb, s, phase, current, copy)
    ensures phase != Fresh ==> s.tx.metadata != map[]
    ensures phase == ControlExposed || phase == CommitDurable ==> current.usedBlocks != 0
    ensures phase == BodyDurable ==>
      current.usedBlocks == 0 && Successor(sb, current, Place(sb, Selected(sb, s.base).value, s.tx.metadata).plan.exposed)
  {
    hide Selected, Ready, Place, Plannable, CommitBatches, ExposeBatches, ReplayBatches, Successor, ReserveCheck;
    if phase != Fresh {
      var sel, m := Selected(sb, s.base).value, s.tx.metadata;
      ReadyIsPlannable(sb, s.base, s.tx);
      PlanFacts(sb, sel, m);
      ExposedIsSuccessor(sb, sel, m);
      PlannableIsEmpty(sb, sel, m);
    }
  }

  lemma PlannableIsEmpty(sb: Superblock, sel: Selection, m: Writes)
    requires Plannable(sb, sel, m)
    ensures sel.control.usedBlocks == 0 && m != map[]
  {
    hide ValidSuperblock, ValidControl;
    ReserveCheckPassed(sel.control, |m|);
  }

  lemma PhasePending(sb: Superblock, s: State, phase: Phase, current: JournalControl, copy: Copy)
    requires AtPhase(sb, s, phase, current, copy)
    ensures s.pending == map[] && Selected(sb, s.durable) == Some(Selection(current, copy))
  {
    hide Selected, Ready, Place;
  }

  lemma ExposeStep(sb: Superblock, s: State, current: JournalControl, copy: Copy)
    requires AtPhase(sb, s, BodyDurable, current, copy)
    ensures var p := Place(sb, Selected(sb, s.base).value, s.tx.metadata);
      && Ongoing(s, ControlBlock(sb, Other(copy)), ControlBytes(p.plan.exposed))
      && Successor(sb, current, p.plan.exposed) && p.plan.exposed.usedBlocks != 0
      && (Selected(sb, Advanced(s).durable) == Some(Selection(p.plan.exposed, Other(copy))) ==>
          AtPhase(sb, Advanced(s), ControlExposed, p.plan.exposed, Other(copy)))
  {
    hide Selected, Ready, Plannable, CommitBatches, Successor, ControlBytes, CommitBytes, DescriptorBytes;
    var sel, m := Selected(sb, s.base).value, s.tx.metadata;
    ReadyIsPlannable(sb, s.base, s.tx);
    PlanFacts(sb, sel, m);
    ExposedIsSuccessor(sb, sel, m);
    Tail(s.todo[0], CommitBatches(sb, sel, m));
  }

  lemma CommitStep(sb: Superblock, s: State, current: JournalControl, copy: Copy, record: CommitRecord)
    requires AtPhase(sb, s, ControlExposed, current, copy)
    requires record == CommitOf(sb, BodyOf(sb, Selected(sb, s.base).value, s.tx.metadata))
    ensures Ongoing(s, RingBlock(sb, Place(sb, Selected(sb, s.base).value, s.tx.metadata).plan.commitIndex),
                    CommitBytes(record))
  {
    hide Selected, Ready, Plannable, ReplayBatches, ControlBytes, CommitBytes, DescriptorBytes, Advance, ExposedControl;
    var sel, m := Selected(sb, s.base).value, s.tx.metadata;
    ReadyIsPlannable(sb, s.base, s.tx);
    SizeFits(sb, sel, m);
  }

  lemma SizeFits(sb: Superblock, sel: Selection, m: Writes)
    requires Plannable(sb, sel, m)
    ensures |m| % 0x1_0000_0000 == |m| && (|m| + 2) % 0x1_0000_0000 == |m| + 2
  {
    hide ValidSuperblock, ValidControl;
    ReserveCheckPassed(sel.control, |m|);
  }

  lemma CommittedPhase(sb: Superblock, s: State, current: JournalControl, copy: Copy)
    requires AtPhase(sb, s, ControlExposed, current, copy) && Inv(sb, Advanced(s))
    ensures AtPhase(sb, Advanced(s), CommitDurable, current, copy)
  {
    hide Inv, Selected, Ready, Place;
    var sel, m := Selected(sb, s.base).value, s.tx.metadata;
    Tail(s.todo[0], ReplayBatches(sb, sel.copy, m, Place(sb, sel, m).clean));
    StageSelected(sb, Advanced(s));
  }

  lemma NotSuccessorAgain(sb: Superblock, s: State, current: JournalControl, copy: Copy)
    requires AtPhase(sb, s, Retired, current, copy)
    ensures !Successor(sb, current, Place(sb, Selected(sb, s.base).value, s.tx.metadata).plan.exposed)
  {
    hide Selected, Ready, Plannable, Place, Successor, ValidControl;
    var sel, m := Selected(sb, s.base).value, s.tx.metadata;
    ReadyIsPlannable(sb, s.base, s.tx);
    PlanFacts(sb, sel, m);
    CleanIsSuccessor(sb, Place(sb, sel, m).plan.exposed);
  }

  lemma SyncOfBatch(s: State, w: Writes, t: State, u: State)
    requires s.todo != [] && s.todo[0].writes == w && t == s.(pending := w) && Sync(t, u)
    ensures u == Advanced(s)
  {}

  lemma ReplayStep(sb: Superblock, s: State, current: JournalControl, copy: Copy)
    requires AtPhase(sb, s, CommitDurable, current, copy)
    ensures HeadIs(s, HomeBlocks, s.tx.metadata) && s.up && s.pending == map[]
  {
    hide Selected, Ready, Place, DiscardBatches;
  }

  lemma RetireStep(sb: Superblock, s: State, current: JournalControl, copy: Copy)
    requires AtPhase(sb, s, CommitDurable, current, copy) && Inv(sb, Advanced(s))
    ensures var t, clean := Advanced(s), CleanControl(current);
      && Selected(sb, t.durable) == Some(Selection(current, copy))
      && Ongoing(t, ControlBlock(sb, Other(copy)), ControlBytes(clean)) && Successor(sb, current, clean)
      && (Selected(sb, Advanced(t).durable) == Some(Selection(clean, Other(copy))) ==>
          AtPhase(sb, Advanced(t), Retired, clean, Other(copy)))
  {
    hide Inv, Selected, Ready, ControlBytes, CommitBytes, DescriptorBytes, Successor, ValidControl, Plannable, Advance;
    var sel, m := Selected(sb, s.base).value, s.tx.metadata;
    Tail(s.todo[0], DiscardBatches(sb, sel.copy, Place(sb, sel, m).clean));
    StageSelected(sb, Advanced(s));
    ReadyIsPlannable(sb, s.base, s.tx);
    PlanFacts(sb, sel, m);
    CleanIsSuccessor(sb, current);
  }

  /** Writing the exact successor over the other copy makes it the selected one. */
  lemma PersistedControl(sb: Superblock, d: Image, sel: Selection, next: JournalControl)
    requires Journaled(sb, d) && Selected(sb, d) == Some(sel) && Successor(sb, sel.control, next)
    ensures var e := Overlay(d, Single(ControlBlock(sb, Other(sel.copy)), ControlBytes(next)));
      Selected(sb, e) == Some(Selection(next, Other(sel.copy)))
  {
    hide Selected, ControlBytes, DecodeControl, Single, ValidControl;
    JournaledIsValid(sb, d);
    JournalGeometry(sb);
    var target := ControlBlock(sb, Other(sel.copy));
    var e := Overlay(d, Single(target, ControlBytes(next)));
    SyncedControl(d, target, ControlBytes(next));
    ControlRoundTrip(next);
    assert At(e, ControlBlock(sb, sel.copy)) == At(d, ControlBlock(sb, sel.copy)) by {
      OtherBlockKept(d, target, ControlBytes(next), ControlBlock(sb, sel.copy));
    }
    ControlWritten(sb, d, e, sel, next);
  }

  lemma OtherBlockKept(d: Image, b: nat, v: Block, c: nat)
    requires b != c
    ensures At(Overlay(d, Single(b, v)), c) == At(d, c)
  {}
}
