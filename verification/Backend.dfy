/** The object store service: idempotent creation and replacement (src/object/object_backend.cpp). */
module Backend {
  import opened Bytes
  import opened Errors
  import opened OndiskFormat
  import opened Journal
  import opened JournalProtocol
  import opened JournalRuns
  import opened JournalStore
  import opened RingReservation
  import opened Bitmap
  import opened ImageView
  import opened ImageEdit
  import opened Directory
  import opened FilePlan
  import opened FilePlanner
  import opened ObjectPlan
  import opened ObjectPlanner
  import opened Health
  import opened LedgerFormat
  import opened Ledger
  import opened LedgerImage
  import opened LedgerPlan
  import opened StoreOps
  import opened StoreRuns
  import opened StoreEffects
  import opened PlainBlocks

  datatype Version = Version(inode: u32, generation: u64)

  const NO_VERSION := Version(0, 0)

  datatype Outcome = NotApplied | Committed | Unknown

  datatype Mutation = Mutation(outcome: Outcome, committed: Version, current: Version)

  const NOTHING := Mutation(NotApplied, NO_VERSION, NO_VERSION)

  datatype Disposition = Executed | Replayed | RequestIdConflict | LedgerFull

  datatype Identity = Identity(id: RequestId, fingerprint: Fingerprint)

  datatype Reply = Reply(errno: Option<Errno>, mutation: Mutation, disposition: Disposition)

  function CommittedRecord(operation: byte, identity: Identity, version: Version): LedgerRecord {
    LedgerRecord(operation, COMMITTED, identity.id, identity.fingerprint, OK, version.inode, version.generation, 0, 0, 0)
  }

  function RejectedRecord(operation: byte, identity: Identity, code: u32, current: Version): LedgerRecord {
    LedgerRecord(operation, NOT_APPLIED, identity.id, identity.fingerprint, code, 0, 0, current.inode, current.generation, 0)
  }

  /** What a recorded request is answered with: its first result, or a conflict when the id comes with
      another operation or another fingerprint. */
  function ReplayOf(r: LedgerRecord, operation: byte, identity: Identity): Reply {
    if r.operation != operation || r.fingerprint != identity.fingerprint then
      Reply(Some(EALREADY), NOTHING, RequestIdConflict)
    else if r.kind == COMMITTED then
      Reply(None, Mutation(Outcome.Committed, Version(r.committedInode, r.committedGeneration), NO_VERSION), Replayed)
    else
      var mutation := Mutation(NotApplied, NO_VERSION, Version(r.currentInode, r.currentGeneration));
      Reply(Some(if r.code == ALREADY_EXISTS then EEXIST else if r.code == VERSION_MISMATCH then ESTALE
                 else if r.code == NOT_FOUND then ENOENT else EUCLEAN), mutation, Replayed)
  }

  /** The request is answered without being executed: no identity, no ledger, already recorded, or no
      slot to record it in. */
  function Screen(hasLedger: bool, capacity: nat, records: map<RequestId, LedgerRecord>, operation: byte, identity: Identity)
    : Option<Reply>
  {
    if AllZero(identity.id) then Some(Reply(Some(EINVAL), NOTHING, Executed))
    else if !hasLedger then Some(Reply(Some(ENOTSUP), NOTHING, Executed))
    else if identity.id in records then Some(ReplayOf(records[identity.id], operation, identity))
    else if |records| == capacity then Some(Reply(Some(ENOSPC), NOTHING, LedgerFull))
    else None
  }

  class ObjectBackend {
    const device: Device
    const ledger: RequestLedgerIndex?
    var reader: Option<Image>
    var fatal: Option<Errno>

    predicate Usable()
      reads this
    {
      fatal == None && reader.Some?
    }

    /** The device is in a run of the store. A usable backend reads the current image, which is idle,
        and its index is the index of the durable history. */
    ghost predicate Valid()
      reads this, device, ledger
    {
      && (ledger != null <==> HasLedger(device.sb))
      && (Usable() ==> Current())
      && device.Valid() && ServedRun(device.sb, device.run)
    }

    ghost predicate Current()
      reads this, device, ledger
    {
      device.run != [] && Serving(device.sb, device.Last()) && reader == Some(device.durable) && Indexed()
    }

    ghost predicate Indexed()
      reads this, device, ledger
    {
      ledger != null ==> ledger.Indexes(Capacity(LedgerBytes(device.sb, device.durable)), History(device.sb, device.durable))
    }

    constructor (device: Device, ledger: RequestLedgerIndex?, reader: Image)
      ensures this.device == device && this.ledger == ledger && this.reader == Some(reader) && fatal == None
    {
      this.device := device;
      this.ledger := ledger;
      this.reader := Some(reader);
      this.fatal := None;
    }

    method FailClosed(errno: Errno)
      modifies this
      ensures !Usable()
    {
      reader := None;
      fatal := Some(errno);
    }

    /** `ApplyLocked`: a committed transaction is followed by a new reader; any failure of the executor
        leaves the outcome unknown and closes the backend, unless it failed before it touched the device. */
    method Apply(tx: Transaction, ghost op: Op) returns (e: Option<Errno>, outcome: Outcome)
      requires Valid() && Usable() && OpPlanned(device.sb, device.durable, op) && tx == OpTx(op)
      requires PayloadsAreNotCommits(tx.metadata)
      modifies this, device
      ensures device.Valid() && ServedRun(device.sb, device.run)
      ensures outcome.NotApplied? <==> e == Some(EMFILE)
      ensures Usable() <==> e == None || outcome.NotApplied?
      ensures e == None ==> outcome.Committed? && reader == Some(device.durable)
      ensures outcome.NotApplied? ==> Valid() && device.run == old(device.run)
      ensures Carried(device.sb, old(device.Last()), device.Last(), op, outcome)
      ensures !Usable() || e == Some(EMFILE) ==> Excused(device.sb, old(device.durable), op, old(device.failures), device.failures)
    {
      hide OpPlanned, OpTx, ServedRun, AfterImage, HomeAgrees, History, HasLedger, Clean, Run, PayloadsAreNotCommits;
      hide Inv, Admitted, Selected, ReserveCheck, LedgerBytes, RequestLedgerIndex.Indexes;
      ghost var was := device.run;
      NotAdmitted(device.sb, was, op);
      var r, failClosed := ExecuteJournalTransaction(device, device.sb.totalBlocks, device.sb.uuid, tx);
      StoreTxOf(device.sb, was[|was| - 1].durable, op);
      ServedAgain(device.sb, was, device.run, tx);
      if failClosed {
        FailClosed(r.errno);
        return Some(r.errno), Unknown;
      }
      if r.Fails? {
        return Some(r.errno), NotApplied;
      }
      outcome := Outcome.Committed;
      IdleServes(device.sb, device.run);
      var again := device.Pread(0);
      if again == None {
        FailClosed(EIO);
        return Some(EIO), outcome;
      }
      reader := Some(device.durable);
      e := None;
    }

    /** `PublishLedgerRecordLocked`. */
    method Publish(record: LedgerRecord, ghost rs: seq<LedgerRecord>) returns (e: Option<Errno>)
      requires ledger != null && ledger.Indexes(ledger.capacity, rs)
      modifies this, ledger
      ensures e == None <==>
        |rs| < old(ledger.capacity) && record.sequence == |rs| + 1 && ValidRecord(record) && !Known(rs, record.id)
      ensures e == None ==>
        ledger.Indexes(old(ledger.capacity), rs + [record]) && reader == old(reader) && fatal == old(fatal)
      ensures e.Some? ==> !Usable()
    {
      hide ValidRecord, Known, RecordMap, IdsUnique;
      e := ledger.AppendCommitted(record, rs);
      if e.Some? {
        FailClosed(e.value);
      }
    }

    /** A change and its record in one transaction, then the record in the index. Nothing happens if the
        record is invalid; otherwise the operation is committed, or its outcome is unknown and the
        backend is closed. */
    method CommitWithRecord(tx: Transaction, record: LedgerRecord, ghost change: Change)
      returns (e: Option<Errno>, outcome: Outcome, ghost op: Op)
      requires Valid() && Usable() && ledger != null && BitmapsPlain(device.sb, tx.metadata)
      requires ChangePlanned(device.sb, device.durable, change) && tx == ChangeTx(change)
      requires |History(device.sb, device.durable)| < ledger.capacity && !Known(History(device.sb, device.durable), record.id)
      modifies this, device, ledger
      ensures Valid()
      ensures Tried(device.sb, old(device.Last()), device.Last(), Usable(), change, record, e, outcome, op)
      ensures !Usable() || e == Some(EMFILE) ==> Excused(device.sb, old(device.durable), op, old(device.failures), device.failures)
    {
      hide Excused;
      hide Valid, ServedRun, ChangePlanned, ChangeTx, History, Known, ValidRecord, OpTx, RecordsWith, HasLedger, Sound;
      hide HasHistory;
      hide NextRecord, Numbered, PlainPut, PlainReplace, BitmapsPlain;
      hide Carried, Device.Valid, Tried, LedgerBytes, RequestLedgerIndex.Indexes;
      ReadyForRecords();
      ghost var sb, s := device.sb, device.Last();
      var planned, numbered;
      planned, numbered, op := PlanHere(tx, record, change);
      if planned == None {
        TriedNothing(sb, s, change, record, op);
        return Some(EINVAL), NotApplied, op;
      }
      e, outcome := ApplyRecorded(planned.value, numbered, op, change);
      HasRun();
      TriedIs(sb, s, device.Last(), Usable(), change, record, e, outcome, op);
    }

    method PlanHere(tx: Transaction, record: LedgerRecord, ghost change: Change)
      returns (planned: Option<Transaction>, numbered: LedgerRecord, ghost op: Op)
      requires Valid() && Usable() && ledger != null
      requires ChangePlanned(device.sb, device.durable, change) && tx == ChangeTx(change)
      requires |History(device.sb, device.durable)| < ledger.capacity && !Known(History(device.sb, device.durable), record.id)
      ensures numbered == NextRecord(device.sb, device.durable, record) && numbered.id == record.id
      ensures planned.Some? <==> ValidRecord(numbered)
      ensures planned.Some? ==> planned.value == OpTx(op) && RecordsWith(device.sb, device.durable, op, change, numbered)
    {
      hide Valid, ServedRun, ChangePlanned, ChangeTx, History, Known, ValidRecord, OpTx, RecordsWith, HasLedger, Sound;
      hide HasHistory;
      hide NextRecord, Numbered, LedgerBytes, Device.Valid, RequestLedgerIndex.Indexes;
      ReadyForRecords();
      NextRecordIs(device.sb, device.durable, record, ledger.nextSequence);
      numbered := Numbered(record, ledger.nextSequence);
      var r;
      r, op := PlanRecord(device.sb, reader.value, ledger, tx, record, change);
      planned := if r.Success? then Some(r.value) else None;
    }

    /** `CheckRequestLocked`, in terms of the durable history. */
    ghost function Screened(operation: byte, identity: Identity): Option<Reply>
      reads this, device
    {
      var sb, d := device.sb, device.durable;
      Screen(HasLedger(sb), Capacity(LedgerBytes(sb, d)), RecordMap(History(sb, d)), operation, identity)
    }

    /** The reply of a closed backend, or of a request that is not executed. */
    ghost function Immediate(operation: byte, identity: Identity): Option<Reply>
      reads this, device
    {
      if !Usable() then Some(Reply(Some(EIO), NOTHING, Executed)) else Screened(operation, identity)
    }

    method CheckRequest(operation: byte, identity: Identity) returns (r: Option<Reply>)
      requires Valid() && Usable()
      ensures r == Screened(operation, identity)
      ensures r == None ==> ledger != null && |History(device.sb, device.durable)| < ledger.capacity
      ensures r == None ==> !Known(History(device.sb, device.durable), identity.id) && !AllZero(identity.id)
    {
      hide ServedRun, History, Known, RecordMap, LedgerBytes, ReplayOf, Run, HasLedger, Serving, AllZero;
      if AllZero(identity.id) {
        return Some(Reply(Some(EINVAL), NOTHING, Executed));
      }
      if ledger == null {
        return Some(Reply(Some(ENOTSUP), NOTHING, Executed));
      }
      IndexHas(History(device.sb, device.durable), identity.id);
      IndexSize(History(device.sb, device.durable));
      if identity.id in ledger.records {
        return Some(ReplayOf(ledger.records[identity.id], operation, identity));
      }
      if ledger.IsFull() {
        return Some(Reply(Some(ENOSPC), NOTHING, LedgerFull));
      }
      r := None;
    }

    /** A rejection is recorded too, so that a retry gets the same answer whatever happened since. */
    method Reject(record: LedgerRecord, errno: Errno, version: Version) returns (reply: Reply, ghost op: Op)
      requires Valid() && Usable() && ledger != null
      requires |History(device.sb, device.durable)| < ledger.capacity && !Known(History(device.sb, device.durable), record.id)
      requires errno != EMFILE
      modifies this, device, ledger
      ensures Valid()
      ensures Rejected(device.sb, old(device.Last()), device.Last(), Usable(), record, errno, version, reply, op)
      ensures !Usable() || reply.errno == Some(EMFILE) ==> Excused(device.sb, old(device.durable), op, old(device.failures), device.failures)
    {
      hide Excused;
      hide Valid, History, Known, HasLedger, PlainPut, PlainReplace, BitmapsPlain, Device.Valid, Tried, Rejected, RejectionReply;
      hide Sound, HasHistory, LedgerBytes, RequestLedgerIndex.Indexes, ChangePlanned, ChangeTx;
      ReadyForRecords();
      NoChangeIsPlanned(device.sb, device.durable);
      NothingJournaled(device.sb);
      ghost var s := device.Last();
      var e, outcome;
      e, outcome, op := CommitWithRecord(ChangeTx(NoChange), record, NoChange);
      HasRun();
      RejectedIs(device.sb, s, device.Last(), Usable(), record, errno, version, e, outcome, op);
      reply := RejectionReply(e, outcome, errno, version);
    }

    /** Commits a change that was planned on the current image, with the record of its request. */
    method Execute(tx: Transaction, operation: byte, identity: Identity, version: Version, current: Version, ghost change: Change)
      returns (reply: Reply, ghost op: Op)
      requires Valid() && Usable() && ledger != null && BitmapsPlain(device.sb, tx.metadata)
      requires ChangePlanned(device.sb, device.durable, change) && tx == ChangeTx(change)
      requires |History(device.sb, device.durable)| < ledger.capacity && !Known(History(device.sb, device.durable), identity.id)
      requires (operation == CREATE || operation == REPLACE) && !AllZero(identity.id) && version.inode != 0 && version.generation != 0
      modifies this, device, ledger
      ensures Valid()
      ensures Accepted(device.sb, old(device.Last()), device.Last(), Usable(), change, operation, identity, version, current, reply, op)
      ensures op.change == change
      ensures !Usable() || reply.errno == Some(EMFILE) ==> Excused(device.sb, old(device.durable), op, old(device.failures), device.failures)
    {
      hide Excused;
      hide Valid, History, Known, HasLedger, PlainPut, PlainReplace;
      hide BitmapsPlain, Device.Valid, Tried, Accepted, AcceptReply, CommittedRecord;
      hide Sound, HasHistory, LedgerBytes, RequestLedgerIndex.Indexes, ChangePlanned, ChangeTx;
      ReadyForRecords();
      ghost var s := device.Last();
      var record := CommittedRecord(operation, identity, version);
      CommittedRecordIs(operation, identity, version);
      var e, outcome;
      e, outcome, op := CommitWithRecord(tx, record, change);
      HasRun();
      AcceptedIs(device.sb, s, device.Last(), Usable(), change, operation, identity, version, current, e, outcome, op);
      reply := AcceptReply(e, outcome, version, current);
      AcceptedChange(device.sb, s, device.Last(), Usable(), change, operation, identity, version, current, reply, op);
    }

    /** `PutIfAbsentIdempotent`. */
    method PutIfAbsentIdempotent(c: Creation, identity: Identity) returns (reply: Reply, ghost op: Op)
      requires Valid() && (Usable() ==> PlainPut(device.sb, device.durable, c))
      modifies this, device, ledger
      ensures Valid()
      ensures old(Immediate(CREATE, identity)).Some? ==> Some(reply) == old(Immediate(CREATE, identity)) && device.run == old(device.run)
      ensures old(Immediate(CREATE, identity)) == None ==>
        PutExecuted(device.sb, old(device.Last()), device.Last(), Usable(), c, identity, reply, op)
      ensures old(Immediate(CREATE, identity)) == None && (!Usable() || reply.errno == Some(EMFILE)) ==>
        Excused(device.sb, old(device.durable), op, old(device.failures), device.failures)
    {
      hide Excused;
      hide Valid, History, Known, HasLedger, PlainPut, PlainReplace, BitmapsPlain, Device.Valid, PutExecuted, Screened;
      op := Op(NoChange, None);
      if !Usable() {
        return Reply(Some(EIO), NOTHING, Executed), op;
      }
      var screened := CheckRequest(CREATE, identity);
      if screened.Some? {
        return screened.value, op;
      }
      reply, op := PutNew(c, identity);
    }

    /** The part of `PutIfAbsentIdempotent` that executes a new request. */
    method PutNew(c: Creation, identity: Identity) returns (reply: Reply, ghost op: Op)
      requires Valid() && Usable() && ledger != null && PlainPut(device.sb, device.durable, c) && !AllZero(identity.id)
      requires |History(device.sb, device.durable)| < ledger.capacity && !Known(History(device.sb, device.durable), identity.id)
      modifies this, device, ledger
      ensures Valid()
      ensures PutExecuted(device.sb, old(device.Last()), device.Last(), Usable(), c, identity, reply, op)
      ensures !Usable() || reply.errno == Some(EMFILE) ==> Excused(device.sb, old(device.durable), op, old(device.failures), device.failures)
    {
      hide HasSpace, CreationFits;
      hide Excused;
      hide Valid, History, Known, HasLedger, PlainPut, PlainReplace;
      hide BitmapsPlain, Device.Valid, Sound, HasHistory, LedgerBytes, RequestLedgerIndex.Indexes;
      hide CreationError, Creatable, Created, ReadInode, AllZero, PutExecuted, ResolveRegular, ValidSuperblock;
      ReadyForRecords();
      SoundSize(device.sb, device.durable);
      SpaceIs(device.sb, device.durable, c);
      var made := PrepareNewRootObject(device.sb, reader.value, c);
      if made.Success? {
        PlannedPut(device.sb, device.durable, c, made.value);
        reply, op := CreateObject(made.value, c, identity);
      } else {
        reply, op := RefuseCreate(c, identity, made.errno);
      }
    }

    method CreateObject(made: NewPlan, c: Creation, identity: Identity) returns (reply: Reply, ghost op: Op)
      requires Valid() && Usable() && ledger != null && BitmapsPlain(device.sb, made.tx.metadata) && !AllZero(identity.id)
      requires |History(device.sb, device.durable)| < ledger.capacity && !Known(History(device.sb, device.durable), identity.id)
      requires CreationError(device.sb, device.durable, c) == None && HasSpace(device.sb, device.durable, c)
      requires ReadInode(device.sb, device.durable, device.sb.rootInode).Success?
      requires var root := ReadInode(device.sb, device.durable, device.sb.rootInode).value;
        Creatable(device.sb, device.durable, root, c) && Created(device.sb, device.durable, root, c, made)
      modifies this, device, ledger
      ensures Valid()
      ensures PutExecuted(device.sb, old(device.Last()), device.Last(), Usable(), c, identity, reply, op)
      ensures !Usable() || reply.errno == Some(EMFILE) ==> Excused(device.sb, old(device.durable), op, old(device.failures), device.failures)
    {
      hide HasSpace;
      hide Excused;
      hide Valid, History, Known, HasLedger, PlainPut, PlainReplace;
      hide BitmapsPlain, Device.Valid, Sound, HasHistory, LedgerBytes, RequestLedgerIndex.Indexes;
      hide CreationError, ChangePlanned, ChangeTx, Creatable, Created, ReadInode, Accepted, AllZero, PutExecuted;
      HasRun();
      ghost var sb, s := device.sb, device.Last();
      ghost var change := NewObject(ReadInode(sb, s.durable, sb.rootInode).value, c, made);
      CreationIsPlanned(sb, s.durable, change);
      reply, op := Execute(made.tx, CREATE, identity, Version(made.number, 1), NO_VERSION, change);
      HasRun();
      PutAccepted(sb, s, device.Last(), Usable(), c, identity, reply, op);
    }

    method RefuseCreate(c: Creation, identity: Identity, errno: Errno) returns (reply: Reply, ghost op: Op)
      requires Valid() && Usable() && ledger != null
      requires |History(device.sb, device.durable)| < ledger.capacity && !Known(History(device.sb, device.durable), identity.id)
      requires match CreationError(device.sb, device.durable, c)
        case Some(why) => errno == why
        case None => errno == ENOSPC && !HasSpace(device.sb, device.durable, c)
      modifies this, device, ledger
      ensures Valid()
      ensures PutExecuted(device.sb, old(device.Last()), device.Last(), Usable(), c, identity, reply, op)
      ensures !Usable() || reply.errno == Some(EMFILE) ==> Excused(device.sb, old(device.durable), op, old(device.failures), device.failures)
    {
      hide HasSpace;
      hide Excused;
      hide Valid, History, Known, HasLedger, PlainPut, PlainReplace;
      hide BitmapsPlain, Device.Valid, Sound, HasHistory, LedgerBytes, RequestLedgerIndex.Indexes;
      hide CreationError, ResolveRegular, Rejected, RejectedRecord, PutExecuted;
      ReadyForRecords();
      ghost var sb, s := device.sb, device.Last();
      op := Op(NoChange, None);
      var found := ResolveRegular(device.sb, reader.value, c.name);
      if errno == EEXIST && found.Success? {
        var version := VersionOf(found.value);
        RejectedRecordIs(CREATE, identity, ALREADY_EXISTS, version);
        reply, op := Reject(RejectedRecord(CREATE, identity, ALREADY_EXISTS, version), EEXIST, version);
        HasRun();
        PutRejected(sb, s, device.Last(), Usable(), c, identity, reply, op);
      } else {
        OtherErrors(sb, s.durable, c);
        reply := Reply(Some(if errno == EEXIST then found.errno else errno), NOTHING, Executed);
        PutRefused(sb, s, c, identity, reply, op);
      }
    }

    /** `ReplaceIfVersionIdempotent`. Callers must not name the ledger file. */
    method ReplaceIfVersionIdempotent(u: Replacement, identity: Identity) returns (reply: Reply, ghost op: Op)
      requires Valid() && (Usable() ==> PlainReplace(device.sb, device.durable, u)) && u.name != LEDGER_NAME
      modifies this, device, ledger
      ensures Valid()
      ensures old(Immediate(REPLACE, identity)).Some? ==> Some(reply) == old(Immediate(REPLACE, identity)) && device.run == old(device.run)
      ensures old(Immediate(REPLACE, identity)) == None ==>
        ReplaceExecuted(device.sb, old(device.Last()), device.Last(), Usable(), u, identity, reply, op)
      ensures old(Immediate(REPLACE, identity)) == None && (!Usable() || reply.errno == Some(EMFILE)) ==>
        Excused(device.sb, old(device.durable), op, old(device.failures), device.failures)
    {
      hide Excused;
      hide Valid, History, Known, HasLedger, PlainPut, PlainReplace, BitmapsPlain, Device.Valid, ReplaceExecuted, Screened;
      op := Op(NoChange, None);
      if !Usable() {
        return Reply(Some(EIO), NOTHING, Executed), op;
      }
      var screened := CheckRequest(REPLACE, identity);
      if screened.Some? {
        return screened.value, op;
      }
      reply, op := Replace(u, identity);
    }

    /** The part of `ReplaceIfVersionIdempotent` that executes a new request. */
    method Replace(u: Replacement, identity: Identity) returns (reply: Reply, ghost op: Op)
      requires Valid() && Usable() && ledger != null && PlainReplace(device.sb, device.durable, u)
      requires !AllZero(identity.id) && u.name != LEDGER_NAME
      requires |History(device.sb, device.durable)| < ledger.capacity && !Known(History(device.sb, device.durable), identity.id)
      modifies this, device, ledger
      ensures Valid()
      ensures ReplaceExecuted(device.sb, old(device.Last()), device.Last(), Usable(), u, identity, reply, op)
      ensures !Usable() || reply.errno == Some(EMFILE) ==> Excused(device.sb, old(device.durable), op, old(device.failures), device.failures)
    {
      hide Excused;
      hide Valid, History, Known, HasLedger, PlainPut, PlainReplace;
      hide BitmapsPlain, Device.Valid, Sound, HasHistory, LedgerBytes, RequestLedgerIndex.Indexes;
      hide ResolveRegular, AllZero, ReplaceExecuted;
      ReadyForRecords();
      var found := ResolveRegular(device.sb, reader.value, u.name);
      if found.Success? && u.expected == VersionOf(found.value) {
        reply, op := ReplaceCurrent(u, identity, found.value);
      } else {
        reply, op := RefuseReplace(u, identity, found);
      }
    }

    method RefuseReplace(u: Replacement, identity: Identity, found: Result<Found>) returns (reply: Reply, ghost op: Op)
      requires Valid() && Usable() && ledger != null
      requires |History(device.sb, device.durable)| < ledger.capacity && !Known(History(device.sb, device.durable), identity.id)
      requires found == ResolveRegular(device.sb, device.durable, u.name)
      requires found.Success? ==> u.expected != VersionOf(found.value)
      modifies this, device, ledger
      ensures Valid()
      ensures ReplaceExecuted(device.sb, old(device.Last()), device.Last(), Usable(), u, identity, reply, op)
      ensures !Usable() || reply.errno == Some(EMFILE) ==> Excused(device.sb, old(device.durable), op, old(device.failures), device.failures)
    {
      hide Excused;
      hide Valid, History, Known, HasLedger, PlainPut, PlainReplace;
      hide BitmapsPlain, Device.Valid, ResolveRegular, Rejected, RejectedRecord, RequestError;
      hide Accepted;
      HasRun();
      op := Op(NoChange, None);
      NotADescriptorError(device.sb, device.durable, u.name);
      if found.Failure? && found.errno != ENOENT {
        return Reply(Some(found.errno), NOTHING, Executed), op;
      }
      var version := if found.Success? then VersionOf(found.value) else NO_VERSION;
      var code, errno := if found.Success? then VERSION_MISMATCH else NOT_FOUND, if found.Success? then ESTALE else ENOENT;
      RejectedRecordIs(REPLACE, identity, code, version);
      reply, op := Reject(RejectedRecord(REPLACE, identity, code, version), errno, version);
    }

    method ReplaceCurrent(u: Replacement, identity: Identity, f: Found) returns (reply: Reply, ghost op: Op)
      requires Valid() && Usable() && ledger != null && PlainReplace(device.sb, device.durable, u)
      requires |History(device.sb, device.durable)| < ledger.capacity && !Known(History(device.sb, device.durable), identity.id)
      requires Success(f) == ResolveRegular(device.sb, device.durable, u.name) && u.expected == VersionOf(f)
      requires !AllZero(identity.id) && u.name != LEDGER_NAME
      modifies this, device, ledger
      ensures Valid()
      ensures ReplaceExecuted(device.sb, old(device.Last()), device.Last(), Usable(), u, identity, reply, op)
      ensures !Usable() || reply.errno == Some(EMFILE) ==> Excused(device.sb, old(device.durable), op, old(device.failures), device.failures)
    {
      hide SpaceSuffices;
      hide Excused;
      hide Valid, History, Known, HasLedger, PlainPut, PlainReplace;
      hide BitmapsPlain, Device.Valid, Sound, HasHistory, LedgerBytes, RequestLedgerIndex.Indexes;
      hide ResolveRegular, AllZero, RequestError, ChangePlanned, ChangeTx, Accepts, Planned, ReadInode, Accepted, ReplaceExecuted;
      ReadyForRecords();
      ghost var sb, s := device.sb, device.Last();
      SoundSize(sb, device.durable);
      ResolvedIsRead(sb, device.durable, u.name);
      var req := RequestOf(u);
      op := Op(NoChange, None);
      var plan := PrepareFileMutation(device.sb, reader.value, f.number, req);
      if plan.Failure? {
        NoDescriptorError(sb, s.durable, f.number, req);
        reply := Reply(Some(plan.errno), Mutation(NotApplied, NO_VERSION, VersionOf(f)), Executed);
        ReplaceRefused(sb, s, u, identity, f, reply, op);
        return;
      }
      ghost var change := FileChange(f.number, f.inode, req, plan.value);
      ReplaceIsPlanned(sb, s.durable, u, f, change);
      PlannedReplace(sb, s.durable, u, f, plan.value);
      reply, op := Execute(plan.value.tx, REPLACE, identity, Version(f.number, plan.value.inode.generation), VersionOf(f), change);
      HasRun();
      ReplaceAccepted(sb, s, device.Last(), Usable(), u, identity, f, reply, op);
    }

    /** `Get`: the whole object, and the inode it was read from. */
    method Get(name: Name) returns (r: Result<Found>, data: seq<byte>)
      requires Valid()
      ensures !Usable() ==> r == Failure(EIO)
      ensures Usable() ==> r == ResolveRegular(device.sb, device.durable, name)
      ensures Usable() && r.Success? ==> data == Contents(device.durable, r.value.inode)
    {
      hide ServedRun, Run, Serving, HasLedger, Indexed, ResolveRegular, ReadInode, Contents;
      data := [];
      if !Usable() {
        return Failure(EIO), data;
      }
      r := ResolveRegular(device.sb, reader.value, name);
      if r.Success? {
        ResolvedIsRead(device.sb, device.durable, name);
        ResolvedIsRegular(device.sb, device.durable, name);
        var read := ReadFile(device.sb, reader.value, r.value.number, 0, r.value.inode.size);
        data := read.value;
      }
    }

    lemma HasRun()
      requires Valid()
      ensures device.run != [] && device.Last().durable == device.durable
    {
      hide ServedRun, Run, Indexed, Serving, HasLedger;
    }

    lemma ReadyForRecords()
      requires Valid() && Usable() && ledger != null
      ensures var sb, d := device.sb, device.durable;
        && reader == Some(d) && Sound(sb, d) && HasHistory(sb, d) && HasLedger(sb) && device.run != [] && device.Last().durable == d
        && ledger.Indexes(Capacity(LedgerBytes(sb, d)), History(sb, d)) && ledger.nextSequence == |History(sb, d)| + 1
    {
      hide ServedRun, Sound, HasHistory, History, IdsUnique, RecordMap, Run;
      ServingIsSound(device.sb, device.run);
    }

    /** `ApplyLocked` of a planned operation, and the publication of its record. */
    method ApplyRecorded(tx: Transaction, record: LedgerRecord, ghost op: Op, ghost change: Change)
      returns (e: Option<Errno>, outcome: Outcome)
      requires Valid() && Usable() && ledger != null && BitmapsPlain(device.sb, ChangeTx(change).metadata)
      requires RecordsWith(device.sb, device.durable, op, change, record) && tx == OpTx(op)
      requires |History(device.sb, device.durable)| < ledger.capacity && !Known(History(device.sb, device.durable), record.id)
      modifies this, device, ledger
      ensures Valid()
      ensures outcome.NotApplied? ==> device.run == old(device.run) && Usable() && e == Some(EMFILE)
      ensures !outcome.NotApplied? ==> e != Some(EMFILE) && (Usable() <==> e == None) && (e == None ==> outcome.Committed?)
      ensures Carried(device.sb, old(device.Last()), device.Last(), op, outcome)
      ensures !Usable() || e == Some(EMFILE) ==> Excused(device.sb, old(device.durable), op, old(device.failures), device.failures)
    {
      hide Excused;
      hide Valid, ServedRun, History, Known, ValidRecord, OpTx, RecordsWith, Sound, HasHistory, Carried, HasLedger, Indexed;
      hide Serving, Leaves;
      hide LedgerBytes, PayloadsAreNotCommits, IdsUnique, RecordMap, PlainPut, PlainReplace, BitmapsPlain, Run, OpPlanned;
      ghost var sb, d, rs := device.sb, device.durable, History(device.sb, device.durable);
      ReadyForRecords();
      PlannedPayloads(sb, d, op, change, record);
      ghost var s := device.Last();
      e, outcome := Apply(tx, op);
      ghost var t := device.Last();
      assert Carried(sb, s, t, op, outcome);
      if e == None {
        CommittedServes(sb, s, t, op);
        PublishedIndex(sb, d, op, change, record, device.durable);
        PublishCommitted(record, rs);
      } else if !outcome.NotApplied? {
        ClosedIsValid();
      }
    }

    lemma ClosedIsValid()
      requires device.Valid() && ServedRun(device.sb, device.run) && (ledger != null <==> HasLedger(device.sb)) && !Usable()
      ensures Valid()
    {
      hide ServedRun, Indexed, Serving, Run;
    }

    /** After a commit the index follows the durable history. */
    method PublishCommitted(record: LedgerRecord, ghost rs: seq<LedgerRecord>)
      requires device.Valid() && ServedRun(device.sb, device.run) && HasLedger(device.sb) && ledger != null
      requires Usable() && Serving(device.sb, device.Last()) && reader == Some(device.durable)
      requires ledger.Indexes(Capacity(LedgerBytes(device.sb, device.durable)), rs)
      requires History(device.sb, device.durable) == rs + [record]
      requires |rs| < ledger.capacity && record.sequence == |rs| + 1 && ValidRecord(record) && !Known(rs, record.id)
      modifies this, ledger
      ensures Valid() && Usable() && unchanged(device)
    {
      hide ServedRun, History, Known, ValidRecord, HasLedger, Indexed, Serving, LedgerBytes, IdsUnique, RecordMap, Run;
      var e := Publish(record, rs);
      IndexedAgain(rs + [record]);
    }

    lemma IndexedAgain(rs: seq<LedgerRecord>)
      requires ledger != null && rs == History(device.sb, device.durable)
      requires ledger.Indexes(Capacity(LedgerBytes(device.sb, device.durable)), rs)
      ensures Indexed()
    {}
  }

  /** What a transaction leaves: committed, the image of the operation; otherwise a device that either
      never started it or is somewhere in the middle of it. */
  ghost predicate Carried(sb: Superblock, s: State, t: State, op: Op, outcome: Outcome) {
    && (outcome.Committed? ==> Serving(sb, t) && Leaves(sb, s.durable, op, t.durable))
    && (t == s || BegunOnce(s, t, OpTx(op)))
  }

  /** Why a request is not carried out: an operation on the device failed, or the ring is too small for the transaction. */
  ghost predicate Excused(sb: Superblock, d: Image, op: Op, before: nat, after: nat) {
    after > before || (Selected(sb, d).Some? ==> ReserveCheck(Selected(sb, d).value.control, |OpTx(op).metadata|) != None)
  }

  /** The executor refuses a planned operation only for want of ring space. */
  lemma NotAdmitted(sb: Superblock, run: seq<State>, op: Op)
    requires ServedRun(sb, run) && run != [] && Serving(sb, run[|run| - 1]) && OpPlanned(sb, run[|run| - 1].durable, op)
    ensures var d := run[|run| - 1].durable;
      Selected(sb, d).Some? && !Admitted(sb, d, Selected(sb, d).value.control, sb.totalBlocks, sb.uuid, OpTx(op)) ==>
        ReserveCheck(Selected(sb, d).value.control, |OpTx(op).metadata|) != None
  {
    hide ServedRun, Serving, Sound, Healthy, OpPlanned, Selected, Admitted, ReserveCheck, OpTx;
    var d := run[|run| - 1].durable;
    ServingIsSound(sb, run);
    SoundIsHealthy(sb, d);
    if Selected(sb, d).Some? {
      OpIsAdmitted(sb, d, op, Selected(sb, d).value.control);
    }
  }

  lemma NoChangeIsPlanned(sb: Superblock, d: Image)
    ensures ChangePlanned(sb, d, NoChange)
  {}

  /** How `CommitWithRecord` ends. */
  ghost predicate Tried(
    sb: Superblock, s: State, t: State, usable: bool, change: Change, record: LedgerRecord, e: Option<Errno>, outcome: Outcome, op: Op)
  {
    if !ValidRecord(NextRecord(sb, s.durable, record)) then outcome.NotApplied? && e == Some(EINVAL) && t == s && usable
    else
      && RecordsWith(sb, s.durable, op, change, NextRecord(sb, s.durable, record)) && Carried(sb, s, t, op, outcome)
      && (outcome.NotApplied? ==> t == s && usable && e == Some(EMFILE))
      && (!outcome.NotApplied? ==> e != Some(EMFILE) && (usable <==> e == None) && (e == None ==> outcome.Committed?))
  }

  lemma TriedNothing(sb: Superblock, s: State, change: Change, record: LedgerRecord, op: Op)
    requires !ValidRecord(NextRecord(sb, s.durable, record))
    ensures Tried(sb, s, s, true, change, record, Some(EINVAL), NotApplied, op)
  {
    hide ValidRecord, NextRecord, RecordsWith, Carried;
  }

  lemma TriedIs(
    sb: Superblock, s: State, t: State, usable: bool, change: Change, record: LedgerRecord, e: Option<Errno>, outcome: Outcome, op: Op)
    requires ValidRecord(NextRecord(sb, s.durable, record))
    requires outcome.NotApplied? ==> t == s && usable && e == Some(EMFILE)
    requires !outcome.NotApplied? ==> e != Some(EMFILE) && (usable <==> e == None) && (e == None ==> outcome.Committed?)
    requires RecordsWith(sb, s.durable, op, change, NextRecord(sb, s.durable, record)) && Carried(sb, s, t, op, outcome)
    ensures Tried(sb, s, t, usable, change, record, e, outcome, op)
  {
    hide ValidRecord, NextRecord, RecordsWith, Carried;
  }

  function RejectionReply(e: Option<Errno>, outcome: Outcome, errno: Errno, version: Version): Reply {
    if outcome.Unknown? then Reply(e, Mutation(Unknown, NO_VERSION, NO_VERSION), Executed)
    else Reply(Some(if e == None then errno else e.value), Mutation(NotApplied, NO_VERSION, version), Executed)
  }

  lemma RejectedIs(
    sb: Superblock, s: State, t: State, usable: bool, record: LedgerRecord, errno: Errno, version: Version,
    e: Option<Errno>, outcome: Outcome, op: Op)
    requires Tried(sb, s, t, usable, NoChange, record, e, outcome, op)
    ensures Rejected(sb, s, t, usable, record, errno, version, RejectionReply(e, outcome, errno, version), op)
    ensures RejectionReply(e, outcome, errno, version).errno == Some(EMFILE) ==> errno == EMFILE || e == Some(EMFILE)
  {
    hide ValidRecord, NextRecord, RecordsWith, Carried;
  }

  /** A recorded rejection changes nothing but the ledger. */
  ghost predicate Rejected(
    sb: Superblock, s: State, t: State, usable: bool, record: LedgerRecord, errno: Errno, version: Version, reply: Reply, op: Op)
  {
    if !ValidRecord(NextRecord(sb, s.durable, record)) then
      reply == Reply(Some(EINVAL), Mutation(NotApplied, NO_VERSION, version), Executed) && t == s && usable
    else
      && RecordsWith(sb, s.durable, op, NoChange, NextRecord(sb, s.durable, record))
      && reply.disposition == Executed && reply.errno.Some?
      && if reply.mutation.outcome.Unknown? then
           reply.mutation == Mutation(Unknown, NO_VERSION, NO_VERSION) && !usable && Carried(sb, s, t, op, Unknown)
         else
           && reply.mutation == Mutation(NotApplied, NO_VERSION, version)
           && (|| (Carried(sb, s, t, op, Outcome.Committed) && (usable ==> reply.errno == Some(errno)))
               || (t == s && usable && reply.errno == Some(EMFILE)))
  }

  /** `current` is the version reported when nothing was applied. */
  function AcceptReply(e: Option<Errno>, outcome: Outcome, version: Version, current: Version): Reply {
    Reply(e,
          match outcome
          case Committed => Mutation(Outcome.Committed, version, version)
          case Unknown => Mutation(Unknown, NO_VERSION, NO_VERSION)
          case NotApplied => Mutation(NotApplied, NO_VERSION, current),
          Executed)
  }

  /** An executed request: committed with the version it made, or unknown and the backend closed, or not
      even started. */
  ghost predicate Accepted(
    sb: Superblock, s: State, t: State, usable: bool, change: Change, operation: byte, identity: Identity, version: Version,
    current: Version, reply: Reply, op: Op)
  {
    && RecordsWith(sb, s.durable, op, change, NextRecord(sb, s.durable, CommittedRecord(operation, identity, version)))
    && Carried(sb, s, t, op, reply.mutation.outcome) && reply.disposition == Executed
    && (reply.errno == None ==> reply.mutation.outcome.Committed?)
    && match reply.mutation.outcome
       case Committed => reply.mutation == Mutation(Outcome.Committed, version, version) && (usable <==> reply.errno == None)
       case Unknown => reply.mutation == Mutation(Unknown, NO_VERSION, NO_VERSION) && !usable
       case NotApplied => reply.mutation == Mutation(NotApplied, NO_VERSION, current) && reply.errno == Some(EMFILE) && t == s && usable
  }

  lemma AcceptedChange(
    sb: Superblock, s: State, t: State, usable: bool, change: Change, operation: byte, identity: Identity, version: Version,
    current: Version, reply: Reply, op: Op)
    requires Accepted(sb, s, t, usable, change, operation, identity, version, current, reply, op)
    ensures op.change == change
  {
    hide OpPlanned, Carried, NextRecord, CommittedRecord;
  }

  lemma CommittedRecordIs(operation: byte, identity: Identity, version: Version)
    ensures CommittedRecord(operation, identity, version).id == identity.id
  {}

  lemma RejectedRecordIs(operation: byte, identity: Identity, code: u32, version: Version)
    ensures RejectedRecord(operation, identity, code, version).id == identity.id
  {}

  /** The record of a committed change is always valid. */
  lemma CommittedIsValid(sb: Superblock, d: Image, operation: byte, identity: Identity, version: Version)
    requires (operation == CREATE || operation == REPLACE) && !AllZero(identity.id) && version.inode != 0 && version.generation != 0
    requires |History(sb, d)| < 0xFFFF_FFFF
    ensures ValidRecord(NextRecord(sb, d, CommittedRecord(operation, identity, version)))
  {
    hide History, AllZero;
  }

  lemma AcceptedIs(
    sb: Superblock, s: State, t: State, usable: bool, change: Change, operation: byte, identity: Identity, version: Version,
    current: Version, e: Option<Errno>, outcome: Outcome, op: Op)
    requires Tried(sb, s, t, usable, change, CommittedRecord(operation, identity, version), e, outcome, op)
    requires (operation == CREATE || operation == REPLACE) && !AllZero(identity.id) && version.inode != 0 && version.generation != 0
    requires Sound(sb, s.durable) && HasHistory(sb, s.durable)
    ensures Accepted(sb, s, t, usable, change, operation, identity, version, current, AcceptReply(e, outcome, version, current), op)
    ensures AcceptReply(e, outcome, version, current).errno == e
  {
    hide ValidRecord, NextRecord, RecordsWith, Carried, CommittedRecord, Sound, HasHistory, History, AllZero;
    HistoryIsSmall(sb, s.durable);
    CommittedIsValid(sb, s.durable, operation, identity, version);
  }

  lemma HistoryIsSmall(sb: Superblock, d: Image)
    requires Sound(sb, d) && HasHistory(sb, d)
    ensures |History(sb, d)| < 0xFFFF_FFFF
  {
    hide Sound, History, HasHistory, SpaceHealthy, FileAt, ReadInode, DecodeSlot, LookupRoot;
    SoundIsHealthy(sb, d);
    LedgerOnParts(sb, d, History(sb, d));
    LedgerIsUsed(sb, d);
    UsedIsReadable(sb, d, LEDGER_INODE);
    ReadInodeIsSmall(sb, d, LEDGER_INODE);
  }

  lemma SoundSize(sb: Superblock, d: Image)
    requires Sound(sb, d)
    ensures ValidSuperblock(sb) && |d| == sb.totalBlocks
  {
    hide Sound, ValidSuperblock;
    SoundIsHealthy(sb, d);
    ValidOf(sb, d);
  }

  lemma CreationIsPlanned(sb: Superblock, d: Image, change: Change)
    requires change.NewObject? && Creatable(sb, d, change.root, change.c) && Created(sb, d, change.root, change.c, change.made)
    ensures ChangePlanned(sb, d, change) && ChangeTx(change) == change.made.tx && change.made.number != 0
  {
    hide Creatable, FilePlanned, RootPlanned, EntryPlaced, BlocksPlanned, Realizes, TestBit, Free, RegionBytes;
  }

  function VersionOf(f: Found): Version {
    Version(f.number, f.inode.generation)
  }

  /** `ResolveRegularLocked`. */
  function ResolveRegular(sb: Superblock, d: Image, name: Name): Result<Found> {
    if !ValidName(name) then Failure(EINVAL)
    else
      match LookupRoot(sb, d, name)
      case Failure(errno) => Failure(errno)
      case Success(f) => if IsRegular(f.inode.mode) then Success(f) else Failure(EISDIR)
  }

  /** A reply without any effect. */
  ghost predicate NoEffect(s: State, t: State, usable: bool, errno: Errno, current: Version, reply: Reply) {
    reply == Reply(Some(errno), Mutation(NotApplied, NO_VERSION, current), Executed) && t == s && usable
  }

  /** What a creation asks of the image: no bitmap block it journals decodes as a COMMIT block. */
  ghost predicate PlainPut(sb: Superblock, d: Image, c: Creation) {
    ReadInode(sb, d, sb.rootInode).Success? ==> PlainCreation(sb, d, ReadInode(sb, d, sb.rootInode).value, c)
  }

  ghost predicate PlainReplace(sb: Superblock, d: Image, u: Replacement) {
    match ResolveRegular(sb, d, u.name)
    case Failure(_) => true
    case Success(f) => PlainChange(sb, d, f.number, f.inode, RequestOf(u))
  }

  lemma PlannedPut(sb: Superblock, d: Image, c: Creation, made: NewPlan)
    requires PlainPut(sb, d, c) && ReadInode(sb, d, sb.rootInode).Success?
    requires Created(sb, d, ReadInode(sb, d, sb.rootInode).value, c, made)
    ensures BitmapsPlain(sb, made.tx.metadata)
  {
    hide ReadInode, Created, BitmapsPlain;
  }

  lemma PlannedReplace(sb: Superblock, d: Image, u: Replacement, f: Found, p: Plan)
    requires PlainReplace(sb, d, u) && Success(f) == ResolveRegular(sb, d, u.name)
    requires Planned(sb, d, f.number, f.inode, RequestOf(u), p)
    ensures BitmapsPlain(sb, p.tx.metadata)
  {
    hide ResolveRegular, Planned, BitmapsPlain;
  }

  lemma NothingJournaled(sb: Superblock)
    ensures BitmapsPlain(sb, ChangeTx(NoChange).metadata)
  {}

  predicate HasSpace(sb: Superblock, d: Image, c: Creation) {
    var root := ReadInode(sb, d, sb.rootInode);
    root.Success? && CreationFits(sb, d, root.value, c)
  }

  lemma SpaceIs(sb: Superblock, d: Image, c: Creation)
    requires ValidSuperblock(sb) && |d| == sb.totalBlocks
    ensures CreationError(sb, d, c) == None ==>
      ReadInode(sb, d, sb.rootInode).Success? && HasSpace(sb, d, c) == CreationFits(sb, d, ReadInode(sb, d, sb.rootInode).value, c)
  {
    hide CreationError, ReadInode, ValidSuperblock, Creatable, CreationFits;
    if CreationError(sb, d, c) == None {
      NoErrorMeansCreatable(sb, d, c);
    }
  }

  lemma NotADescriptorError(sb: Superblock, d: Image, name: Name)
    ensures ResolveRegular(sb, d, name) != Failure(EMFILE)
  {
    hide InodeAt, MappingHolds, Listable, DirEntries, IndexOf, InodeUsed, ValidName;
  }

  lemma OtherErrors(sb: Superblock, d: Image, c: Creation)
    ensures CreationError(sb, d, c) != Some(EMFILE) && ResolveRegular(sb, d, c.name) != Failure(EMFILE)
  {
    hide InodeAt, MappingHolds, Listable, DirEntries, InodeUsed;
    hide WellFormed, NameIn, ValidName, RegionBytes, LookupRoot, ResolveRegular;
    NotADescriptorError(sb, d, c.name);
  }

  lemma NoDescriptorError(sb: Superblock, d: Image, n: nat, req: Request)
    ensures RequestError(sb, d, n, req) != Some(EMFILE)
  {
    hide InodeAt, MappingHolds, InodeUsed, WellFormed, RegionBytes, OwnBlocksDistinct;
  }

  /** What a new creation request comes to. */
  ghost predicate PutExecuted(sb: Superblock, s: State, t: State, usable: bool, c: Creation, identity: Identity, reply: Reply, op: Op) {
    match CreationError(sb, s.durable, c)
    case None =>
      if !HasSpace(sb, s.durable, c)
      then NoEffect(s, t, usable, ENOSPC, NO_VERSION, reply)
      else
        (&& op.change.NewObject? && op.change.c == c
         && Accepted(sb, s, t, usable, op.change, CREATE, identity, Version(op.change.made.number, 1), NO_VERSION, reply, op))
    case Some(errno) =>
      if errno != EEXIST then NoEffect(s, t, usable, errno, NO_VERSION, reply)
      else
        match ResolveRegular(sb, s.durable, c.name)
        case Failure(why) => NoEffect(s, t, usable, why, NO_VERSION, reply)
        case Success(f) =>
          Rejected(sb, s, t, usable, RejectedRecord(CREATE, identity, ALREADY_EXISTS, VersionOf(f)), EEXIST, VersionOf(f), reply, op)
  }

  lemma PutAccepted(sb: Superblock, s: State, t: State, usable: bool, c: Creation, identity: Identity, reply: Reply, op: Op)
    requires CreationError(sb, s.durable, c) == None && HasSpace(sb, s.durable, c) && op.change.NewObject? && op.change.c == c
    requires Accepted(sb, s, t, usable, op.change, CREATE, identity, Version(op.change.made.number, 1), NO_VERSION, reply, op)
    ensures PutExecuted(sb, s, t, usable, c, identity, reply, op)
  {
    hide HasSpace;
    hide CreationError, Accepted;
  }

  lemma PutRejected(sb: Superblock, s: State, t: State, usable: bool, c: Creation, identity: Identity, reply: Reply, op: Op)
    requires CreationError(sb, s.durable, c) == Some(EEXIST) && ResolveRegular(sb, s.durable, c.name).Success?
    requires var version := VersionOf(ResolveRegular(sb, s.durable, c.name).value);
      Rejected(sb, s, t, usable, RejectedRecord(CREATE, identity, ALREADY_EXISTS, version), EEXIST, version, reply, op)
    ensures PutExecuted(sb, s, t, usable, c, identity, reply, op)
  {
    hide HasSpace;
    hide CreationError, Rejected, ResolveRegular;
  }

  lemma PutRefused(sb: Superblock, s: State, c: Creation, identity: Identity, reply: Reply, op: Op)
    requires var error := CreationError(sb, s.durable, c);
      var found := ResolveRegular(sb, s.durable, c.name);
      var errno := if error == None then ENOSPC else if error == Some(EEXIST) && found.Failure? then found.errno else error.value;
      (error == Some(EEXIST) ==> found.Failure?) && (error == None ==> !HasSpace(sb, s.durable, c)) && reply == Reply(Some(errno), NOTHING, Executed)
    ensures PutExecuted(sb, s, s, true, c, identity, reply, op)
  {
    hide HasSpace;
    hide CreationError, Rejected, ResolveRegular, Accepted;
  }

  datatype Replacement = Replacement(name: Name, expected: Version, data: seq<byte>, timestamp: u64)

  function RequestOf(u: Replacement): Request {
    Request(ReplaceAll, 0, u.data, u.expected.generation, u.timestamp)
  }

  /** What a new replacement request comes to. */
  ghost predicate ReplaceExecuted(sb: Superblock, s: State, t: State, usable: bool, u: Replacement, identity: Identity, reply: Reply, op: Op) {
    match ResolveRegular(sb, s.durable, u.name)
    case Failure(errno) =>
      if errno == ENOENT
      then Rejected(sb, s, t, usable, RejectedRecord(REPLACE, identity, NOT_FOUND, NO_VERSION), ENOENT, NO_VERSION, reply, op)
      else NoEffect(s, t, usable, errno, NO_VERSION, reply)
    case Success(f) =>
      if u.expected != VersionOf(f)
      then Rejected(sb, s, t, usable, RejectedRecord(REPLACE, identity, VERSION_MISMATCH, VersionOf(f)), ESTALE, VersionOf(f), reply, op)
      else
        match RequestError(sb, s.durable, f.number, RequestOf(u))
        case Some(errno) => NoEffect(s, t, usable, errno, VersionOf(f), reply)
        case None =>
          if !SpaceSuffices(sb, s.durable, f.inode, RequestOf(u)) then NoEffect(s, t, usable, ENOSPC, VersionOf(f), reply)
          else
             (&& op.change.FileChange? && op.change.n == f.number && op.change.i == f.inode && op.change.req == RequestOf(u)
              && Accepted(sb, s, t, usable, op.change, REPLACE, identity, Version(f.number, op.change.p.inode.generation), VersionOf(f), reply, op))
  }

  lemma ReplaceRefused(sb: Superblock, s: State, u: Replacement, identity: Identity, f: Found, reply: Reply, op: Op)
    requires Success(f) == ResolveRegular(sb, s.durable, u.name) && u.expected == VersionOf(f)
    requires var error := RequestError(sb, s.durable, f.number, RequestOf(u));
      && (error == None ==> !SpaceSuffices(sb, s.durable, f.inode, RequestOf(u)))
      && reply == Reply(Some(if error == None then ENOSPC else error.value), Mutation(NotApplied, NO_VERSION, VersionOf(f)), Executed)
    ensures ReplaceExecuted(sb, s, s, true, u, identity, reply, op)
  {
    hide SpaceSuffices;
    hide ResolveRegular, RequestError, Rejected, Accepted;
  }

  lemma ReplaceAccepted(
    sb: Superblock, s: State, t: State, usable: bool, u: Replacement, identity: Identity, f: Found, reply: Reply, op: Op)
    requires Success(f) == ResolveRegular(sb, s.durable, u.name) && u.expected == VersionOf(f)
    requires RequestError(sb, s.durable, f.number, RequestOf(u)) == None && SpaceSuffices(sb, s.durable, f.inode, RequestOf(u))
    requires op.change.FileChange? && op.change.n == f.number && op.change.i == f.inode && op.change.req == RequestOf(u)
    requires Accepted(sb, s, t, usable, op.change, REPLACE, identity, Version(f.number, op.change.p.inode.generation), VersionOf(f), reply, op)
    ensures ReplaceExecuted(sb, s, t, usable, u, identity, reply, op)
  {
    hide SpaceSuffices;
    hide ResolveRegular, RequestError, Rejected, Accepted;
  }

  lemma ReplaceIsPlanned(sb: Superblock, d: Image, u: Replacement, f: Found, change: Change)
    requires Sound(sb, d) && HasHistory(sb, d) && Success(f) == ResolveRegular(sb, d, u.name) && u.name != LEDGER_NAME
    requires change.FileChange? && change.n == f.number && change.i == f.inode && change.req == RequestOf(u)
    requires Accepts(sb, d, f.number, f.inode, RequestOf(u)) && Planned(sb, d, f.number, f.inode, RequestOf(u), change.p)
    ensures ChangePlanned(sb, d, change) && ChangeTx(change) == change.p.tx
    ensures f.number != 0 && change.p.inode.generation != 0
  {
    hide Sound, HasHistory, LookupRoot, Accepts, Planned, ReadInode, InodeAt, Contents, Written, WellFormed;
    NotTheLedger(sb, d, u.name);
    AcceptedInode(sb, d, f.number, f.inode, RequestOf(u));
    PlanWritesFile(sb, d, f.number, f.inode, RequestOf(u), change.p);
  }

  lemma ResolvedIsRead(sb: Superblock, d: Image, name: Name)
    requires ResolveRegular(sb, d, name).Success?
    ensures ReadInode(sb, d, ResolveRegular(sb, d, name).value.number) == Success(ResolveRegular(sb, d, name).value.inode)
  {
    hide LookupRoot, ReadInode;
    FoundIsFile(sb, d, name);
  }

  lemma ResolvedIsRegular(sb: Superblock, d: Image, name: Name)
    requires ResolveRegular(sb, d, name).Success?
    ensures IsRegular(ResolveRegular(sb, d, name).value.inode.mode)
    ensures Window(Contents(d, ResolveRegular(sb, d, name).value.inode), 0, ResolveRegular(sb, d, name).value.inode.size)
         == Contents(d, ResolveRegular(sb, d, name).value.inode)
  {
    hide LookupRoot;
  }

  /** No other name leads to the ledger. */
  lemma NotTheLedger(sb: Superblock, d: Image, name: Name)
    requires Sound(sb, d) && HasHistory(sb, d) && LookupRoot(sb, d, name).Success? && name != LEDGER_NAME
    ensures LookupRoot(sb, d, name).value.number != LEDGER_INODE
  {
    hide Sound, HasHistory, History, LookupRoot, NamespaceOf, Healthy, FileAt, InodeUsed, LedgerFile, LedgerIs;
    SoundIsHealthy(sb, d);
    LedgerOnParts(sb, d, History(sb, d));
    LedgerIsUsed(sb, d);
    LookupHealthy(sb, d, name);
    if LookupRoot(sb, d, name).value.number == LEDGER_INODE {
      OneName(sb, d, name, LEDGER_NAME, LEDGER_INODE);
    }
  }

  lemma OneName(sb: Superblock, d: Image, a: Name, b: Name, n: nat)
    requires Healthy(sb, d)
    requires ListedAs(NamespaceOf(sb, d), sb.rootInode, a, n) && ListedAs(NamespaceOf(sb, d), sb.rootInode, b, n)
    ensures a == b
  {
    hide SpaceHealthy, NamespaceOf, EntriesHealthy, LinksHealthy, Reachable, FileAt, InodeUsed, DirEntries;
    var ns, root := NamespaceOf(sb, d), sb.rootInode;
    var j :| 0 <= j < |ns[root].entries| && ns[root].entries[j].name == a && ns[root].entries[j].inode == n;
    var k :| 0 <= k < |ns[root].entries| && ns[root].entries[k].name == b && ns[root].entries[k].inode == n;
    assert Refers(ns, root, j, n) && Refers(ns, root, k, n);
  }

  lemma CommittedServes(sb: Superblock, s: State, t: State, op: Op)
    requires Carried(sb, s, t, op, Outcome.Committed)
    ensures Serving(sb, t) && Leaves(sb, s.durable, op, t.durable)
  {
    hide Leaves, Serving, OpTx;
  }

  lemma ServingIsSound(sb: Superblock, run: seq<State>)
    requires ServedRun(sb, run) && run != [] && Serving(sb, run[|run| - 1])
    ensures Sound(sb, run[|run| - 1].durable)
    ensures HasLedger(sb) ==> HasHistory(sb, run[|run| - 1].durable)
  {
    hide ServedRun, Sound, HasHistory, History;
    StoreStaysSound(sb, run, |run| - 1);
    if HasLedger(sb) {
      SoundHasHistory(sb, run[|run| - 1].durable);
    }
  }

  lemma PlannedPayloads(sb: Superblock, d: Image, op: Op, change: Change, record: LedgerRecord)
    requires Sound(sb, d) && HasHistory(sb, d) && RecordsWith(sb, d, op, change, record) && BitmapsPlain(sb, ChangeTx(change).metadata)
    ensures OpPlanned(sb, d, op) && PayloadsAreNotCommits(OpTx(op).metadata)
  {
    hide OpPlanned, OpTx, PayloadsAreNotCommits, Sound, HasHistory, BitmapsPlain, ChangeTx;
    SoundIsHealthy(sb, d);
    OpIsPlain(sb, d, op);
  }

  /** The durable history is the one the index is about to have. */
  lemma PublishedIndex(sb: Superblock, d: Image, op: Op, change: Change, record: LedgerRecord, e: Image)
    requires Sound(sb, d) && HasHistory(sb, d) && RecordsWith(sb, d, op, change, record) && Leaves(sb, d, op, e)
    ensures History(sb, e) == History(sb, d) + [record] && Capacity(LedgerBytes(sb, e)) == Capacity(LedgerBytes(sb, d))
    ensures record.sequence == |History(sb, d)| + 1 && ValidRecord(record)
  {
    hide Sound, HasHistory, History, OpTx, HomeAgrees, LedgerBytes, ChangePlanned, Known, AfterImage;
    IsWithEffect(sb, d, e, op);
    LedgerInodeIsKept(sb, d, op, e);
    AppendIdentity(sb, d, op.append.value);
  }

  /** `Open`: recovery, then a reader, then the ledger scan. On the image of any run of the store it fails
      only for an I/O error or an unsupported feature, and the index it builds is the durable history. */
  method Open(device: Device) returns (r: Result<ObjectBackend>)
    requires device.Valid() && ServedRun(device.sb, device.run) && device.pending == map[] && device.Last().todo == []
    modifies device
    ensures device.Valid() && ServedRun(device.sb, device.run) && Extends(old(device.run), device.run)
    ensures device.failures == old(device.failures) + (if r == Failure(EIO) then 1 else 0)
    ensures r.Failure? ==> r.errno == EIO || (r.errno == ENOTSUP && device.sb.featureIncompat > LEDGER_FEATURE)
    ensures r.Success? ==> fresh(r.value) && r.value.device == device && r.value.Valid() && r.value.Usable()
  {
    hide ServedRun, Run, Sound, HasHistory, History, LedgerOn, LedgerError, RecordMap, IdsUnique, LedgerBytes;
    var recovered := Recover(device);
    if !recovered {
      return Failure(EIO);
    }
    var image := device.Pread(0);
    if image == None {
      return Failure(EIO);
    }
    if device.sb.featureIncompat > LEDGER_FEATURE {
      return Failure(ENOTSUP);
    }
    ServingIsSound(device.sb, device.run);
    var index: RequestLedgerIndex? := null;
    if device.sb.featureIncompat % 2 == 1 {
      var scanned; ghost var rs;
      scanned, rs := ScanRequestLedger(device.sb, device.durable);
      ScanFindsHistory(device.sb, device.durable, scanned.Success?, rs);
      index := scanned.value;
    }
    var backend := new ObjectBackend(device, index, device.durable);
    r := Success(backend);
  }

  /** The recovery part of `Open`. */
  method Recover(device: Device) returns (ok: bool)
    requires device.Valid() && ServedRun(device.sb, device.run) && device.pending == map[] && device.Last().todo == []
    modifies device
    ensures device.Valid() && ServedRun(device.sb, device.run) && Extends(old(device.run), device.run)
    ensures device.failures == old(device.failures) + (if ok then 0 else 1)
    ensures ok ==> Serving(device.sb, device.Last())
  {
    hide ServedRun, Run, Clean, Classify, AtPhase, BodyMatches, HomeAgrees, RecoveryScript, Selected, Overlay;
    hide JournalControlStore.Mirrors;
    ghost var was := device.run;
    var store := Adopt(device);
    if store == None {
      return false;
    }
    var r, action := store.value.ResolveRecovery();
    ServedStill(device.sb, was, device.run);
    if r.Fails? {
      return false;
    }
    store.value.FreshIsQuiet();
    if !device.Last().up {
      ghost var again := device.run;
      device.StartRecovery();
      ServedStill(device.sb, again, device.run);
    }
    ok := true;
  }

  lemma ServedStill(sb: Superblock, a: seq<State>, b: seq<State>)
    requires ServedRun(sb, a) && Run(sb, b) && Extends(a, b) && a != [] && b != []
    requires b[|b| - 1].started == a[|a| - 1].started
    ensures ServedRun(sb, b)
  {
    hide Run, ServedRun;
    ServedRunExtends(sb, a, b, a[|a| - 1].tx);
  }

  /** A sound image has exactly one history, and the scan finds it. */
  lemma ScanFindsHistory(sb: Superblock, d: Image, found: bool, rs: seq<LedgerRecord>)
    requires Sound(sb, d) && sb.featureIncompat == LEDGER_FEATURE
    requires found ==> LedgerOn(sb, d, rs)
    requires !found ==> forall ts :: !LedgerOn(sb, d, ts)
    ensures found && rs == History(sb, d)
  {
    hide LedgerOn, Healthy;
    if found {
      HistoryIs(sb, d, rs);
    }
  }

  /** Prepares the append and merges it into the transaction of a change. */
  method PlanRecord(sb: Superblock, d: Image, index: RequestLedgerIndex, tx: Transaction, record: LedgerRecord, ghost change: Change)
    returns (r: Result<Transaction>, ghost op: Op)
    requires Sound(sb, d) && HasHistory(sb, d) && index.Indexes(Capacity(LedgerBytes(sb, d)), History(sb, d))
    requires ChangePlanned(sb, d, change) && tx == ChangeTx(change)
    requires |History(sb, d)| < index.capacity && !Known(History(sb, d), record.id)
    ensures r.Success? <==> ValidRecord(NextRecord(sb, d, record))
    ensures r.Success? ==> r.value == OpTx(op) && RecordsWith(sb, d, op, change, NextRecord(sb, d, record))
    ensures r.Failure? ==> r.errno == EINVAL
  {
    hide ChangePlanned, ChangeTx, History, Known, ValidRecord, LookupRoot, AppendError, AppendPlanned, WellFormedAppend, Merged;
    hide Sound, HasHistory, Touches, RecordsWith, RecordMap, IdsUnique, LedgerBytes, ValidSuperblock, Numbered;
    ghost var rs := History(sb, d);
    SoundIsHealthy(sb, d);
    ValidOf(sb, d);
    AppendErrorOfLedger(sb, d, rs, record, Capacity(LedgerBytes(sb, d)));
    IndexSize(rs);
    op := Op(change, None);
    var append := PrepareRequestLedgerAppend(sb, d, index, record);
    if append.Failure? {
      return Failure(append.errno), op;
    }
    op := Op(change, Some(append.value));
    RecordJoins(sb, d, change, append.value, record);
    r := MergeRequestLedgerAppend(append.value, sb.totalBlocks, sb.uuid, tx);
  }

  /** The operation makes this change and appends this record. */
  ghost predicate RecordsWith(sb: Superblock, d: Image, op: Op, change: Change, record: LedgerRecord) {
    OpPlanned(sb, d, op) && op.change == change && op.append.Some? && op.append.value.record == record
  }

  /** The record with the sequence number the ledger gives it. */
  ghost function NextRecord(sb: Superblock, d: Image, record: LedgerRecord): LedgerRecord {
    Numbered(record, |History(sb, d)| + 1)
  }

  lemma NextRecordIs(sb: Superblock, d: Image, record: LedgerRecord, n: nat)
    requires n == |History(sb, d)| + 1
    ensures NextRecord(sb, d, record) == Numbered(record, n) && Numbered(record, n).id == record.id
  {
    hide History;
  }

  /** A planned append joins the change: the merge is not refused. */
  lemma RecordJoins(sb: Superblock, d: Image, change: Change, p: AppendPlan, record: LedgerRecord)
    requires Sound(sb, d) && HasHistory(sb, d) && ChangePlanned(sb, d, change) && AppendPlanned(sb, d, p)
    requires p.sequence == |History(sb, d)| + 1 && p.record == Numbered(record, p.sequence) && !Known(History(sb, d), record.id)
    ensures WellFormedAppend(p) && p.totalBlocks == sb.totalBlocks && p.uuid == sb.uuid && !Touches(ChangeTx(change), p.physical)
    ensures RecordsWith(sb, d, Op(change, Some(p)), change, p.record)
    ensures OpTx(Op(change, Some(p))) == Merged(ChangeTx(change), p)
  {
    hide Sound, HasHistory, ChangePlanned, ChangeTx, LedgerOn, Touches, WellFormedAppend, Owned, DataBlock, FileAt, History;
    hide Known, Merged;
    hide AppendPlanned, LedgerFile, Healthy, SpaceHealthy, NamesHealthy;
    SoundIsHealthy(sb, d);
    LedgerOnParts(sb, d, History(sb, d));
    AppendBlockIsOwned(sb, d, p);
    AppendIdentity(sb, d, p);
    ChangeAvoidsLedger(sb, d, change, p.physical);
  }

  lemma AppendIdentity(sb: Superblock, d: Image, p: AppendPlan)
    requires AppendPlanned(sb, d, p)
    ensures WellFormedAppend(p) && p.totalBlocks == sb.totalBlocks && p.uuid == sb.uuid
  {
    hide WellFormedAppend, FileAt, MapBlock, At;
  }

  /** Nothing to do, and the process is up. */
  ghost predicate Serving(sb: Superblock, s: State) {
    Idle(s) && s.pending == map[]
  }

  lemma StoreTxOf(sb: Superblock, d: Image, op: Op)
    requires OpPlanned(sb, d, op)
    ensures StoreTx(sb, d, OpTx(op))
  {
    hide OpPlanned, OpTx;
  }

  lemma IdleServes(sb: Superblock, run: seq<State>)
    requires run != [] && Run(sb, run) && Idle(run[|run| - 1])
    ensures Serving(sb, run[|run| - 1])
  {
    hide Run, Clean;
    IdleIsQuiet(sb, run, |run| - 1);
  }

  lemma ServedAgain(sb: Superblock, a: seq<State>, b: seq<State>, tx: Transaction)
    requires ServedRun(sb, a) && Run(sb, b) && Extends(a, b) && a != [] && b != []
    requires b == a || BegunOnce(a[|a| - 1], b[|b| - 1], tx)
    requires StoreTx(sb, a[|a| - 1].durable, tx)
    ensures ServedRun(sb, b)
  {
    hide Run, StoreTx, ServedRun;
    ServedRunExtends(sb, a, b, tx);
  }
}
