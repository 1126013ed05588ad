/** What retrying a request means: the first answer again, and no second effect, also across crashes. */
module Retries {
  import opened Bytes
  import opened Errors
  import opened OndiskFormat
  import opened Journal
  import opened JournalProtocol
  import opened JournalRuns
  import opened ImageView
  import opened Directory
  import opened FilePlan
  import opened Health
  import opened LedgerFormat
  import opened Ledger
  import opened LedgerImage
  import opened LedgerPlan
  import opened StoreOps
  import opened StoreRuns
  import opened StoreEffects
  import opened Backend

  /** A recorded request is answered from its record, however full the ledger is. */
  lemma RetryIsReplayed(capacity: nat, rs: seq<LedgerRecord>, k: nat, operation: byte, identity: Identity)
    requires IdsUnique(rs) && k < |rs| && rs[k].id == identity.id && !AllZero(identity.id)
    ensures Screen(true, capacity, RecordMap(rs), operation, identity) == Some(ReplayOf(rs[k], operation, identity))
  {
    hide RecordMap, AllZero;
    IndexFinds(rs, k);
  }

  /** How an executed request is answered: with the version it made, or with a rejection. */
  datatype Answer = Made(version: Version) | TurnedDown(code: u32, current: Version)

  predicate Possible(a: Answer) {
    match a
    case Made(version) => version.inode != 0 && version.generation != 0
    case TurnedDown(code, _) => code == ALREADY_EXISTS || code == VERSION_MISMATCH || code == NOT_FOUND
  }

  function FirstReply(a: Answer): Reply {
    match a
    case Made(version) => AcceptReply(None, Outcome.Committed, version, NO_VERSION)
    case TurnedDown(code, current) =>
      RejectionReply(None, Outcome.Committed, if code == ALREADY_EXISTS then EEXIST else if code == VERSION_MISMATCH then ESTALE else ENOENT,
                     current)
  }

  function RecordOf(operation: byte, identity: Identity, a: Answer): LedgerRecord {
    match a
    case Made(version) => CommittedRecord(operation, identity, version)
    case TurnedDown(code, current) => RejectedRecord(operation, identity, code, current)
  }

  /** A replay repeats the errno, the outcome and the committed version of the first answer. It is the
      first answer exactly for rejections: the replay of a commit leaves out the current version. */
  lemma ReplayIsFirstAnswer(operation: byte, identity: Identity, a: Answer, sequence: nat)
    requires Possible(a)
    ensures var first, again := FirstReply(a), ReplayOf(Numbered(RecordOf(operation, identity, a), sequence), operation, identity);
      && again.disposition == Replayed && again.errno == first.errno
      && again.mutation.outcome == first.mutation.outcome && again.mutation.committed == first.mutation.committed
      && (again.mutation == first.mutation <==> a.TurnedDown?)
  {}

  /** An id that comes back with another operation or other contents is refused. */
  lemma ConflictIsRefused(capacity: nat, rs: seq<LedgerRecord>, k: nat, operation: byte, identity: Identity)
    requires IdsUnique(rs) && k < |rs| && rs[k].id == identity.id && !AllZero(identity.id)
    requires rs[k].operation != operation || rs[k].fingerprint != identity.fingerprint
    ensures Screen(true, capacity, RecordMap(rs), operation, identity) == Some(Reply(Some(EALREADY), NOTHING, RequestIdConflict))
  {
    hide RecordMap, AllZero;
    RetryIsReplayed(capacity, rs, k, operation, identity);
  }

  /** What the store answers to a request on this image. */
  ghost function ScreenOn(sb: Superblock, d: Image, operation: byte, identity: Identity): Option<Reply> {
    Screen(HasLedger(sb), Capacity(LedgerBytes(sb, d)), RecordMap(History(sb, d)), operation, identity)
  }

  /** Once a request is on record, every later retry gets the same answer, whatever requests, failures,
      crashes and recoveries come in between. */
  lemma AnswerIsStable(sb: Superblock, run: seq<State>, i: nat, j: nat, k: nat, operation: byte, identity: Identity)
    requires ServedRun(sb, run) && HasLedger(sb) && i <= j < |run| && Idle(run[i]) && Idle(run[j])
    requires k < |History(sb, run[i].durable)| && History(sb, run[i].durable)[k].id == identity.id && !AllZero(identity.id)
    ensures ScreenOn(sb, run[j].durable, operation, identity)
         == Some(ReplayOf(History(sb, run[i].durable)[k], operation, identity))
  {
    hide ServedRun, History, HasHistory, Sound, AllZero, LedgerBytes, RecordMap, Screen, ReplayOf, LedgerIs, LedgerFile;
    HistoryGrows(sb, run, i, j);
    var rs, d := History(sb, run[j].durable), run[j].durable;
    assert rs[k] == History(sb, run[i].durable)[k];
    LedgerOnParts(sb, d, rs);
    LedgerIsParts(LedgerBytes(sb, d), rs);
    RetryIsReplayed(Capacity(LedgerBytes(sb, d)), rs, k, operation, identity);
  }

  /** A request whose outcome was lost can be retried. After any number of failures, crashes and
      interrupted recoveries either it took effect, and every retry from then on is answered from its
      record, or nothing of it is there and the retry is executed. */
  lemma RetryAfterCrash(
    sb: Superblock, run: seq<State>, i: nat, m: nat, j: nat, op: Op, change: Change, record: LedgerRecord, operation: byte, identity: Identity)
    requires ServedRun(sb, run) && HasLedger(sb) && i < m <= j < |run| && StartsOp(sb, run, i, op) && Idle(run[m]) && Idle(run[j])
    requires forall k :: i < k < m ==> !BeginsAt(sb, run, k)
    requires !AllZero(identity.id) && record.id == identity.id
    requires RecordsWith(sb, run[i].durable, op, change, NextRecord(sb, run[i].durable, record))
    ensures
      || (&& TookEffect(sb, run[i].durable, run[m].durable, op)
          && ScreenOn(sb, run[j].durable, operation, identity)
             == Some(ReplayOf(NextRecord(sb, run[i].durable, record), operation, identity)))
      || (HadNoEffect(sb, run[i].durable, run[m].durable, op) && ScreenOn(sb, run[m].durable, operation, identity) == None)
  {
    hide ServedRun, BeginsAt, TookEffect, HadNoEffect, RecordsWith, NextRecord, AllZero, HasLedger, ScreenOn, ReplayOf, History;
    ChangeAndRecord(sb, run, i, m, op);
    var d := run[m].durable;
    if TookEffect(sb, run[i].durable, d, op) {
      LastRecord(sb, run[i].durable, d, op, change, record);
      AnswerIsStable(sb, run, m, j, |History(sb, run[i].durable)|, operation, identity);
    } else {
      StartIsSound(sb, run, i);
      UndoneIsNew(sb, run[i].durable, d, op, change, record, operation, identity);
    }
  }

  lemma LastRecord(sb: Superblock, d: Image, e: Image, op: Op, change: Change, record: LedgerRecord)
    requires TookEffect(sb, d, e, op) && RecordsWith(sb, d, op, change, NextRecord(sb, d, record))
    ensures var k := |History(sb, d)|;
      k < |History(sb, e)| && History(sb, e)[k] == NextRecord(sb, d, record) && History(sb, e)[k].id == record.id
  {
    hide HomeAgrees, OpPlanned, OpTx, History;
  }

  lemma StartIsSound(sb: Superblock, run: seq<State>, i: nat)
    requires ServedRun(sb, run) && i < |run| && HasLedger(sb) && BeginsAt(sb, run, i)
    ensures Sound(sb, run[i].durable) && HasHistory(sb, run[i].durable)
  {
    hide ServedRun, Sound, HasHistory, BeginsAt;
    BeginFacts(sb, run, i);
    StoreStaysSound(sb, run, i);
    SoundHasHistory(sb, run[i].durable);
  }

  lemma UndoneIsNew(
    sb: Superblock, d: Image, e: Image, op: Op, change: Change, record: LedgerRecord, operation: byte, identity: Identity)
    requires HasLedger(sb) && Sound(sb, d) && HasHistory(sb, d) && HasHistory(sb, e) && HadNoEffect(sb, d, e, op) && !AllZero(identity.id)
    requires RecordsWith(sb, d, op, change, NextRecord(sb, d, record)) && record.id == identity.id
    ensures ScreenOn(sb, e, operation, identity) == None
  {
    hide HasHistory, HomeAgrees, OpPlanned, AllZero, RecordMap, LedgerBytes, LedgerOn, History, Known, Sound, Leaves;
    var rs := History(sb, e);
    NewId(sb, d, op);
    NextRecordIs(sb, d, record, |rs| + 1);
    SlotIsFree(sb, d, op);
    SameCapacity(sb, d, e, op);
    LedgerOnParts(sb, e, rs);
    LedgerIsParts(LedgerBytes(sb, e), rs);
    IndexHas(rs, identity.id);
    IndexSize(rs);
  }

  lemma LedgerIsParts(b: seq<byte>, rs: seq<LedgerRecord>)
    requires LedgerIs(b, rs)
    ensures IdsUnique(rs)
  {
    hide SlotsHold;
  }

  lemma SlotIsFree(sb: Superblock, d: Image, op: Op)
    requires Sound(sb, d) && HasHistory(sb, d) && OpPlanned(sb, d, op) && op.append.Some?
    ensures |History(sb, d)| < Capacity(LedgerBytes(sb, d))
  {
    hide Sound, HasHistory, History, ChangePlanned, AppendPlanned, Known, LedgerFile, LedgerIs, Contents;
    SoundIsHealthy(sb, d);
    LedgerOnParts(sb, d, History(sb, d));
    AppendedContents(sb, d, op.append.value);
  }

  lemma SameCapacity(sb: Superblock, d: Image, e: Image, op: Op)
    requires Sound(sb, d) && HasHistory(sb, d) && OpPlanned(sb, d, op) && HadNoEffect(sb, d, e, op)
    ensures Capacity(LedgerBytes(sb, e)) == Capacity(LedgerBytes(sb, d))
  {
    hide Sound, HasHistory, History, OpPlanned, OpTx, HomeAgrees, SameMeaning, FileAt, LedgerFile, LedgerIs, DataBlock;
    hide InodeUsed, ReadInode;
    SoundIsHealthy(sb, d);
    ValidOf(sb, d);
    forall b | b in OpTx(op).ordered
      ensures sb.data.start <= b && !DataBlock(sb, d, b)
    {
      OpOrderedIsFree(sb, d, op, b);
    }
    HomeSameMeaning(sb, d, e, OpTx(op).ordered.Keys);
    LedgerOnParts(sb, d, History(sb, d));
    LedgerIsUsed(sb, d);
    SameInode(sb, d, e, LEDGER_INODE);
  }

  // ---- What a successful request has done ----

  /** A creation that reports success: the object is there with generation 1 and exactly its data, the
      history has its record, and nothing else has changed. */
  lemma PutIsDone(sb: Superblock, s: State, t: State, usable: bool, identity: Identity, reply: Reply, op: Op)
    requires Sound(sb, s.durable) && HasHistory(sb, s.durable) && op.change.NewObject? && reply.errno == None
    requires Accepted(sb, s, t, usable, op.change, CREATE, identity, Version(op.change.made.number, 1), NO_VERSION, reply, op)
    ensures var c, made, e := op.change.c, op.change.made, t.durable;
      && reply.mutation == Mutation(Outcome.Committed, Version(made.number, 1), Version(made.number, 1))
      && LookupRoot(sb, e, c.name) == Success(Found(made.number, made.file)) && made.file.generation == 1
      && Contents(e, made.file) == c.data
      && History(sb, e) == History(sb, s.durable) + [NextRecord(sb, s.durable, CommittedRecord(CREATE, identity, Version(made.number, 1)))]
  {
    hide Sound, HasHistory, History, LookupRoot, Contents, OpPlanned, NextRecord, CommittedRecord, Leaves;
    CreateIsVisible(sb, s.durable, op, t.durable);
    PublishedIndex(sb, s.durable, op, op.change, op.append.value.record, t.durable);
  }

  /** A replacement that reports success: same name and inode, the next generation holds exactly the new
      data, and the history has its record. */
  lemma ReplaceIsDone(sb: Superblock, s: State, t: State, usable: bool, u: Replacement, identity: Identity, f: Found, reply: Reply, op: Op)
    requires Sound(sb, s.durable) && HasHistory(sb, s.durable) && reply.errno == None
    requires op.change.FileChange? && op.change.n == f.number && op.change.i == f.inode && op.change.req == RequestOf(u)
    requires LookupRoot(sb, s.durable, u.name) == Success(f)
    requires Accepted(sb, s, t, usable, op.change, REPLACE, identity, Version(f.number, op.change.p.inode.generation), VersionOf(f), reply, op)
    ensures var i, e := op.change.p.inode, t.durable;
      && LookupRoot(sb, e, u.name) == Success(Found(f.number, i)) && i.generation == f.inode.generation + 1
      && Contents(e, i) == u.data && reply.mutation.committed == Version(f.number, i.generation)
      && History(sb, e) == History(sb, s.durable) + [NextRecord(sb, s.durable, CommittedRecord(REPLACE, identity, Version(f.number, i.generation)))]
  {
    hide Sound, HasHistory, History, LookupRoot, Contents, OpPlanned, NextRecord, CommittedRecord, Leaves, ReadInode;
    WriteIsVisible(sb, s.durable, op, t.durable);
    NamesAreKept(sb, s.durable, op, t.durable, u.name);
    FoundIsFile(sb, t.durable, u.name);
    ReplacedAll(Contents(s.durable, f.inode), RequestOf(u));
    PublishedIndex(sb, s.durable, op, op.change, op.append.value.record, t.durable);
  }

  lemma ReplacedAll(was: seq<byte>, req: Request)
    requires req.mode == ReplaceAll && req.offset == 0
    ensures Written(was, req) == req.data
  {}
}
