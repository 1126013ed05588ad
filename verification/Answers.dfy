/** What a client is told, in terms of what the image held: every reply of the two idempotent requests
    when no operation on the device fails and the ring has room. */
module Answers {
  import opened Bytes
  import opened Errors
  import opened OndiskFormat
  import opened RingReservation
  import opened Journal
  import opened JournalProtocol
  import opened JournalRuns
  import opened JournalStore
  import opened ImageView
  import opened Directory
  import opened FilePlan
  import opened FilePlanner
  import opened ObjectPlan
  import opened ObjectPlanner
  import opened Health
  import opened LedgerFormat
  import opened Ledger
  import opened LedgerImage
  import opened LedgerPlan
  import opened StoreOps
  import opened StoreRuns
  import opened StoreEffects
  import opened OpSize
  import opened Backend
  import opened Retries
  import opened Bitmap
  import opened ImageEdit
  import opened ObjectView
  import opened ObjectHealth
  import opened FileHealth
  import opened JournalFormat

  // ---- The ring does not refuse ----

  lemma CreationMoves(sb: Superblock, d: Image, r: Inode, c: Creation, p: NewPlan)
    requires Created(sb, d, r, c, p)
    ensures |Moved(d, NewObject(r, c, p))| <= RequiredBlocks(|c.data|) + 4
  {
    hide FilePlanned, RootPlanned, EntryPlaced, BlocksPlanned, BitmapsPlanned, Realizes, GrowthChosen, TakesFirst, RequiredBlocks;
    assert |OldIndirect(r, p)| <= 1;
    TwoSets(p.reserved, OldIndirect(r, p));
  }

  lemma TwoSets(a: set<nat>, b: set<nat>)
    ensures |a + b| <= |a| + |b|
  {}

  lemma ReplacementMoves(sb: Superblock, d: Image, n: nat, i: Inode, req: Request, p: Plan)
    requires Planned(sb, d, n, i, req, p) && req.mode == ReplaceAll && req.offset == 0
    ensures |Moved(d, FileChange(n, i, req, p))| <= RequiredBlocks(|req.data|) + RequiredBlocks(i.size) + 2
  {
    hide DataPlanned, InodePlanned, Realizes, TakesFirst, RequiredBlocks, ReleasedBlocks, MapBlock;
    ReleasedSize(d, i, req);
    TwoSets(p.reserved, ReleasedBlocks(d, i, req));
    NeededSize(i, req);
  }

  lemma NeededSize(i: Inode, req: Request)
    requires req.mode == ReplaceAll && req.offset == 0
    ensures BlocksNeeded(i, req) <= RequiredBlocks(|req.data|) + 1
  {}

  function MappedUpTo(d: Image, i: Inode, n: nat): (s: set<nat>)
    ensures |s| <= n && forall l :: 0 <= l < n ==> MapBlock(d, i, l) as nat in s
  {
    if n == 0 then {} else MappedUpTo(d, i, n - 1) + {MapBlock(d, i, n - 1) as nat}
  }

  lemma ReleasedSize(d: Image, i: Inode, req: Request)
    ensures |ReleasedBlocks(d, i, req)| <= RequiredBlocks(i.size) + 1
  {
    hide MapBlock, Changed, ChangesIndirect;
    var s := MappedUpTo(d, i, RequiredBlocks(i.size));
    SubsetSize(ReleasedBlocks(d, i, req), s + {i.indirect as nat});
    TwoSets(s, {i.indirect as nat});
  }

  lemma FewerAreTaken(sb: Superblock, d: Image, moved: nat, most: nat)
    requires RingTakes(sb, d, most) && moved <= most
    ensures RingTakes(sb, d, moved)
  {
    hide Selected;
  }

  /** With a clean journal and enough ring, only a failure of the device excuses a planned operation. */
  lemma NotExcused(sb: Superblock, d: Image, op: Op, failures: nat)
    requires ValidSuperblock(sb) && Clean(sb, d) && OpPlanned(sb, d, op) && op.append.Some?
    requires RingTakes(sb, d, |Moved(d, op.change)|)
    ensures !Excused(sb, d, op, failures, failures)
  {
    hide OpPlanned, OpTx, Moved, Selected, Smaller, ReserveCheck, ValidControl, ValidSuperblock;
    SelectedMatches(sb, d);
    OpSizeIs(sb, d, op);
    OpIsNotEmpty(sb, d, op);
    ReserveIs(Selected(sb, d).value.control, |OpTx(op).metadata|);
  }

  // ---- Which rejections can be recorded ----

  /** A missing name can always be recorded; a version exactly if it is one, that is, if its inode number
      and its generation are not 0. */
  lemma RejectionIsValid(sb: Superblock, d: Image, operation: byte, identity: Identity, code: u32, current: Version)
    requires !AllZero(identity.id) && |History(sb, d)| < 0xFFFF_FFFF
    requires if operation == CREATE then code == ALREADY_EXISTS else operation == REPLACE && (code == VERSION_MISMATCH || code == NOT_FOUND)
    ensures ValidRecord(NextRecord(sb, d, RejectedRecord(operation, identity, code, current))) <==>
      if code == NOT_FOUND then current == NO_VERSION else current.inode != 0 && current.generation != 0
  {
    hide History, AllZero;
  }

  // ---- Replies ----

  /** Every allocated file but these has its inode and its bytes. */
  ghost predicate Kept(sb: Superblock, d: Image, e: Image, touched: set<nat>) {
    forall k: nat :: InodeUsed(sb, d, k) && k !in touched ==>
      ReadInode(sb, e, k) == Success(FileAt(sb, d, k)) && Contents(e, FileAt(sb, d, k)) == Contents(d, FileAt(sb, d, k))
  }

  ghost predicate Recorded(sb: Superblock, d: Image, e: Image, record: LedgerRecord) {
    History(sb, e) == History(sb, d) + [NextRecord(sb, d, record)]
  }

  ghost predicate Absent(sb: Superblock, d: Image, name: Name) {
    forall n: nat :: !ListedAs(NamespaceOf(sb, d), sb.rootInode, name, n)
  }

  /** Turned down, and the rejection is on record; nothing but the ledger has changed. */
  ghost predicate OnRecord(
    sb: Superblock, s: State, t: State, operation: byte, identity: Identity, code: u32, errno: Errno, current: Version, reply: Reply)
  {
    && reply == Reply(Some(errno), Mutation(NotApplied, NO_VERSION, current), Executed)
    && Recorded(sb, s.durable, t.durable, RejectedRecord(operation, identity, code, current))
    && NamespaceOf(sb, t.durable) == NamespaceOf(sb, s.durable) && Kept(sb, s.durable, t.durable, {LEDGER_INODE})
  }

  /** The request made this version of the name, which holds exactly this data, and is on record. The next
      replacement has to expect the version in the reply. */
  ghost predicate Done(
    sb: Superblock, s: State, t: State, operation: byte, identity: Identity, name: Name, data: seq<byte>, version: Version, reply: Reply)
  {
    var e := t.durable;
    && reply == Reply(None, Mutation(Outcome.Committed, version, version), Executed)
    && ListedAs(NamespaceOf(sb, e), sb.rootInode, name, version.inode) && InodeUsed(sb, e, version.inode)
    && FileAt(sb, e, version.inode).generation == version.generation && IsRegular(FileAt(sb, e, version.inode).mode)
    && Contents(e, FileAt(sb, e, version.inode)) == data
    && Recorded(sb, s.durable, e, CommittedRecord(operation, identity, version))
  }

  ghost predicate PutAnswered(sb: Superblock, s: State, t: State, c: Creation, identity: Identity, reply: Reply) {
    if !NameAllowed(c.name) then NoEffect(s, t, true, EINVAL, NO_VERSION, reply)
    else if |c.data| > 4243456 then NoEffect(s, t, true, EFBIG, NO_VERSION, reply)
    else if Absent(sb, s.durable, c.name) then
      if !HasSpace(sb, s.durable, c) then NoEffect(s, t, true, ENOSPC, NO_VERSION, reply)
      else exists n: u32 :: PutMade(sb, s, t, n, c, identity, reply)
    else
      exists n: u32 :: ListedAs(NamespaceOf(sb, s.durable), sb.rootInode, c.name, n) && PutOverNamed(sb, s, t, n, identity, reply)
  }

  /** The new object is inode `n`, which was free; its name is the only one added to the root. */
  ghost predicate PutMade(sb: Superblock, s: State, t: State, n: u32, c: Creation, identity: Identity, reply: Reply) {
    && OneFileMore(sb, s.durable, t.durable, n, c) && Kept(sb, s.durable, t.durable, {LEDGER_INODE, sb.rootInode})
    && Done(sb, s, t, CREATE, identity, c.name, c.data, Version(n, 1), reply)
  }

  ghost predicate OneFileMore(sb: Superblock, d: Image, e: Image, n: u32, c: Creation) {
    && !InodeUsed(sb, d, n) && MadeFrom(FileAt(sb, e, n), n, c) && OneNameMore(sb, d, e, c.name, n)
    && Touched(FileAt(sb, d, sb.rootInode), FileAt(sb, e, sb.rootInode), c.timestamp)
  }

  /** A creation changes times, size and blocks of the root directory, and nothing else. */
  predicate Touched(was: Inode, now: Inode, timestamp: u64) {
    && now.mtime == timestamp && now.ctime == timestamp
    && now == was.(size := now.size, mtime := now.mtime, ctime := now.ctime, direct := now.direct, indirect := now.indirect)
  }

  /** The attributes a new object gets. */
  predicate MadeFrom(i: Inode, n: u32, c: Creation) {
    && i.number == n && i.mode == 0x8000 + c.permissions % 512 && i.uid == c.uid && i.gid == c.gid && i.linkCount == 1
    && i.size == |c.data| && i.atime == c.timestamp && i.mtime == c.timestamp && i.ctime == c.timestamp && i.flags == 0
  }

  ghost predicate OneNameMore(sb: Superblock, d: Image, e: Image, added: Name, n: nat) {
    forall name: Name, k: nat ::
      ListedAs(NamespaceOf(sb, e), sb.rootInode, name, k) <==>
        ListedAs(NamespaceOf(sb, d), sb.rootInode, name, k) || (name == added && k == n)
  }

  /** The name is taken by inode `n`. */
  ghost predicate PutOverNamed(sb: Superblock, s: State, t: State, n: u32, identity: Identity, reply: Reply) {
    var i := FileAt(sb, s.durable, n);
    if IsDirectory(i.mode) then NoEffect(s, t, true, EISDIR, NO_VERSION, reply)
    else if i.generation == 0 then NoEffect(s, t, true, EINVAL, Version(n, 0), reply)
    else OnRecord(sb, s, t, CREATE, identity, ALREADY_EXISTS, EEXIST, Version(n, i.generation), reply)
  }

  ghost predicate ReplaceAnswered(sb: Superblock, s: State, t: State, u: Replacement, identity: Identity, reply: Reply) {
    if !NameAllowed(u.name) then NoEffect(s, t, true, EINVAL, NO_VERSION, reply)
    else if Absent(sb, s.durable, u.name) then OnRecord(sb, s, t, REPLACE, identity, NOT_FOUND, ENOENT, NO_VERSION, reply)
    else
      exists n: u32 :: ListedAs(NamespaceOf(sb, s.durable), sb.rootInode, u.name, n) && ReplaceNamed(sb, s, t, n, u, identity, reply)
  }

  /** The name leads to inode `n`. */
  ghost predicate ReplaceNamed(sb: Superblock, s: State, t: State, n: u32, u: Replacement, identity: Identity, reply: Reply) {
    var i := FileAt(sb, s.durable, n);
    var current := Version(n, i.generation);
    if IsDirectory(i.mode) then NoEffect(s, t, true, EISDIR, NO_VERSION, reply)
    else if u.expected != current then
      if i.generation == 0 then NoEffect(s, t, true, EINVAL, current, reply)
      else OnRecord(sb, s, t, REPLACE, identity, VERSION_MISMATCH, ESTALE, current, reply)
    else if |u.data| > 4243456 then NoEffect(s, t, true, EFBIG, current, reply)
    else if i.generation == 0xFFFF_FFFF_FFFF_FFFF then NoEffect(s, t, true, EOVERFLOW, current, reply)
    else if !SpaceSuffices(sb, s.durable, i, RequestOf(u)) then NoEffect(s, t, true, ENOSPC, current, reply)
    else ReplaceMade(sb, s, t, n, i.generation + 1, u, identity, reply)
  }

  /** A replacement changes size, times, generation and blocks of the inode, and nothing else. */
  predicate ReplacedFrom(was: Inode, now: Inode, u: Replacement) {
    && now.size == |u.data| && now.mtime == u.timestamp && now.ctime == u.timestamp
    && now == was.(size := now.size, mtime := now.mtime, ctime := now.ctime, generation := now.generation,
                   direct := now.direct, indirect := now.indirect)
  }

  ghost predicate SameButFor(sb: Superblock, d: Image, e: Image, n: u32, u: Replacement) {
    ReplacedFrom(FileAt(sb, d, n), FileAt(sb, e, n), u) && NamespaceOf(sb, e) == NamespaceOf(sb, d)
  }

  ghost predicate ReplaceMade(sb: Superblock, s: State, t: State, n: u32, generation: u64, u: Replacement, identity: Identity, reply: Reply) {
    && SameButFor(sb, s.durable, t.durable, n, u) && Kept(sb, s.durable, t.durable, {LEDGER_INODE, n as nat})
    && Done(sb, s, t, REPLACE, identity, u.name, u.data, Version(n, generation), reply)
  }

  // ---- From the executed request to its answer ----

  lemma OthersKept(sb: Superblock, d: Image, op: Op, e: Image, touched: set<nat>)
    requires Sound(sb, d) && OpPlanned(sb, d, op) && Leaves(sb, d, op, e) && LEDGER_INODE in touched
    requires op.change.NewObject? ==> sb.rootInode in touched
    requires op.change.FileChange? ==> op.change.n in touched
    ensures Kept(sb, d, e, touched)
  {
    hide Sound, OpPlanned, Leaves, InodeUsed, ReadInode, FileAt, Contents;
    forall k: nat | InodeUsed(sb, d, k) && k !in touched
      ensures ReadInode(sb, e, k) == Success(FileAt(sb, d, k)) && Contents(e, FileAt(sb, d, k)) == Contents(d, FileAt(sb, d, k))
    {
      OthersAreKept(sb, d, op, e, k);
    }
  }

  lemma NothingWritten(d: Image)
    ensures AfterImage(d, ChangeTx(NoChange)) == d
  {}

  lemma PlannedRecord(sb: Superblock, d: Image, op: Op, change: Change, record: LedgerRecord)
    requires RecordsWith(sb, d, op, change, record)
    ensures OpPlanned(sb, d, op) && op.change == change && op.append.Some?
  {
    hide OpPlanned;
  }

  lemma CarriedLeaves(sb: Superblock, s: State, t: State, op: Op)
    requires Carried(sb, s, t, op, Outcome.Committed)
    ensures Leaves(sb, s.durable, op, t.durable)
  {
    hide Leaves, Serving;
  }

  /** A rejection that can be recorded is. */
  lemma RejectionIsRecorded(
    sb: Superblock, s: State, t: State, usable: bool, operation: byte, identity: Identity, code: u32, errno: Errno, current: Version,
    reply: Reply, op: Op, failures: nat)
    requires Sound(sb, s.durable) && HasHistory(sb, s.durable) && ValidSuperblock(sb) && Clean(sb, s.durable) && RingTakes(sb, s.durable, 0)
    requires ValidRecord(NextRecord(sb, s.durable, RejectedRecord(operation, identity, code, current)))
    requires Rejected(sb, s, t, usable, RejectedRecord(operation, identity, code, current), errno, current, reply, op)
    requires !usable || reply.errno == Some(EMFILE) ==> Excused(sb, s.durable, op, failures, failures)
    ensures usable && OnRecord(sb, s, t, operation, identity, code, errno, current, reply)
  {
    hide Sound, HasHistory, History, ValidSuperblock, Clean, RingTakes, Excused, ValidRecord, NextRecord, RejectedRecord, RecordsWith;
    hide Carried, NamespaceOf, Kept, OpPlanned, Leaves, AfterImage, Healthy, ChangeTx, LedgerBytes, Capacity;
    var d, record := s.durable, RejectedRecord(operation, identity, code, current);
    PlannedRecord(sb, d, op, NoChange, NextRecord(sb, d, record));
    NotExcused(sb, d, op, failures);
    CarriedLeaves(sb, s, t, op);
    RecordAlone(sb, d, op, record, t.durable);
  }

  /** Recording a rejection changes the history and nothing else. */
  lemma RecordAlone(sb: Superblock, d: Image, op: Op, record: LedgerRecord, e: Image)
    requires Sound(sb, d) && HasHistory(sb, d) && RecordsWith(sb, d, op, NoChange, NextRecord(sb, d, record)) && Leaves(sb, d, op, e)
    ensures Recorded(sb, d, e, record) && NamespaceOf(sb, e) == NamespaceOf(sb, d) && Kept(sb, d, e, {LEDGER_INODE})
  {
    hide Sound, HasHistory, History, NextRecord, OpPlanned, Leaves, NamespaceOf, Kept, AfterImage, Healthy, ChangeTx, LedgerBytes, Capacity;
    PublishedIndex(sb, d, op, NoChange, NextRecord(sb, d, record), e);
    OnlyTheNames(sb, d, op, e);
    NothingWritten(d);
    OthersKept(sb, d, op, e, {LEDGER_INODE});
  }

  /** What a name of a healthy image leads to. */
  lemma ResolvedIs(sb: Superblock, d: Image, name: Name)
    requires Healthy(sb, d)
    ensures match ResolveRegular(sb, d, name)
      case Success(f) =>
        && NameAllowed(name) && ListedAs(NamespaceOf(sb, d), sb.rootInode, name, f.number) && f.inode == FileAt(sb, d, f.number)
        && InodeUsed(sb, d, f.number) && !IsDirectory(f.inode.mode)
      case Failure(errno) =>
        if !NameAllowed(name) then errno == EINVAL
        else if Absent(sb, d, name) then errno == ENOENT
        else errno == EISDIR && exists n: u32 :: ListedAs(NamespaceOf(sb, d), sb.rootInode, name, n) && IsDirectory(FileAt(sb, d, n).mode)
  {
    hide Healthy, LookupRoot, NamespaceOf, InodeUsed, FileAt, ListedAs, ValidName, NameAllowed;
    ValidNameIs(name);
    LookupHealthy(sb, d, name);
    if LookupRoot(sb, d, name).Success? {
      var f := LookupRoot(sb, d, name).value;
      assert ListedAs(NamespaceOf(sb, d), sb.rootInode, name, f.number);
      KindOf(sb, d, f.number);
    }
  }

  lemma KindOf(sb: Superblock, d: Image, n: nat)
    requires Healthy(sb, d) && InodeUsed(sb, d, n)
    ensures IsRegular(FileAt(sb, d, n).mode) <==> !IsDirectory(FileAt(sb, d, n).mode)
  {
    hide SpaceHealthy, NamesHealthy, InodeUsed, FileAt;
    ReadableKind(sb, d, n);
  }

  /** Names are listed once. */
  lemma ListedOnce(sb: Superblock, d: Image, name: Name, n: nat, k: nat)
    requires Healthy(sb, d) && ListedAs(NamespaceOf(sb, d), sb.rootInode, name, n) && ListedAs(NamespaceOf(sb, d), sb.rootInode, name, k)
    ensures n == k
  {
    hide Healthy, NamespaceOf, ListedAs, LookupRoot, FileAt, InodeUsed;
    LookupHealthy(sb, d, name);
  }

  /** A client's view of an idle store: sound, with a ledger, with a clean journal. */
  ghost predicate AtRest(sb: Superblock, d: Image) {
    Sound(sb, d) && HasHistory(sb, d) && ValidSuperblock(sb) && Clean(sb, d)
  }

  /** A planned creation that the ring takes is made. */
  lemma CreationIsMade(
    sb: Superblock, s: State, t: State, usable: bool, c: Creation, identity: Identity, reply: Reply, op: Op, failures: nat)
    requires AtRest(sb, s.durable) && RingTakes(sb, s.durable, RequiredBlocks(|c.data|) + 4)
    requires op.change.NewObject? && op.change.c == c
    requires Accepted(sb, s, t, usable, op.change, CREATE, identity, Version(op.change.made.number, 1), NO_VERSION, reply, op)
    requires !usable || reply.errno == Some(EMFILE) ==> Excused(sb, s.durable, op, failures, failures)
    ensures usable && PutMade(sb, s, t, op.change.made.number, c, identity, reply)
  {
    hide Sound, HasHistory, History, ValidSuperblock, Clean, RingTakes, Excused, NextRecord, CommittedRecord, RecordsWith;
    hide Carried, NamespaceOf, Kept, OpPlanned, Leaves, Healthy, LookupRoot, Contents, FileAt, InodeUsed, ListedAs, Moved, RequiredBlocks;
    var d, e, made := s.durable, t.durable, op.change.made;
    PlannedRecord(sb, d, op, op.change, NextRecord(sb, d, CommittedRecord(CREATE, identity, Version(made.number, 1))));
    PutIsTaken(sb, d, op);
    NotExcused(sb, d, op, failures);
    PutIsDone(sb, s, t, usable, identity, reply, op);
    CarriedLeaves(sb, s, t, op);
    CreateIsVisible(sb, d, op, e);
    OnlyTheNames(sb, d, op, e);
    LookupHealthy(sb, e, c.name);
    OthersKept(sb, d, op, e, {LEDGER_INODE, sb.rootInode});
    WasFree(sb, d, op);
    NewAttributes(sb, d, op);
    OneMoreName(sb, d, op, e);
    RootIsTouched(sb, d, op, e);
  }

  lemma RootIsTouched(sb: Superblock, d: Image, op: Op, e: Image)
    requires Sound(sb, d) && OpPlanned(sb, d, op) && op.change.NewObject? && Leaves(sb, d, op, e) && HasHistory(sb, d)
    ensures Touched(FileAt(sb, d, sb.rootInode), FileAt(sb, e, sb.rootInode), op.change.c.timestamp)
  {
    hide Sound, Created, Creatable, AppendPlanned, HasHistory, History, Known, Healthy, SpaceHealthy, NamesHealthy, Leaves, AfterImage;
    hide DirEntries, FileAt, ReadInode, NamespaceOf, Listable, WithEntry, Contents, Holds, LedgerIs, LedgerBytes, LookupRoot;
    var r, c, p := op.change.root, op.change.c, op.change.made;
    var e1 := AfterImage(d, p.tx);
    SoundIsHealthy(sb, d);
    RootIsFile(sb, d, r, c);
    CreationCreates(sb, d, r, c, p);
    NewHolds(sb, e1, sb.rootInode, p.root, Contents(e1, p.root));
    HealthyRoot(sb, d);
    LedgerOnParts(sb, d, History(sb, d));
    OnlyTheChange(sb, d, op, e, sb.rootInode, p.root, Contents(e1, p.root));
    HoldsFile(sb, e, sb.rootInode, p.root, Contents(e1, p.root));
    NewRootIs(sb, d, r, c, p);
  }

  lemma NewRootIs(sb: Superblock, d: Image, r: Inode, c: Creation, p: NewPlan)
    requires Created(sb, d, r, c, p)
    ensures Touched(r, p.root, c.timestamp)
  {
    hide FilePlanned, EntryPlaced, BlocksPlanned, BitmapsPlanned, FirstChosen, Realizes;
  }

  lemma NewAttributes(sb: Superblock, d: Image, op: Op)
    requires OpPlanned(sb, d, op) && op.change.NewObject?
    ensures MadeFrom(op.change.made.file, op.change.made.number, op.change.c)
  {
    hide Creatable, AppendPlanned, HasHistory, History, Known, LaidOut, RootPlanned, EntryPlaced, BlocksPlanned, BitmapsPlanned, FirstChosen;
    hide Realizes, DirectPointers;
  }

  lemma OneMoreName(sb: Superblock, d: Image, op: Op, e: Image)
    requires Sound(sb, d) && OpPlanned(sb, d, op) && op.change.NewObject? && Leaves(sb, d, op, e)
    ensures OneNameMore(sb, d, e, op.change.c.name, op.change.made.number)
  {
    hide Sound, Created, Creatable, AppendPlanned, HasHistory, History, Known, Healthy, SpaceHealthy, NamesHealthy, Leaves, AfterImage;
    hide DirEntries, FileAt, ReadInode, NamespaceOf, EntryReadable, WithEntry, Contents;
    var r, c, p := op.change.root, op.change.c, op.change.made;
    var e1 := AfterImage(d, p.tx);
    SoundIsHealthy(sb, d);
    CreationKeepsHealth(sb, d, r, c, p);
    HealthyRoot(sb, d);
    HealthyRoot(sb, e1);
    RootIsFile(sb, d, r, c);
    CreationCreates(sb, d, r, c, p);
    OnlyTheNames(sb, d, op, e);
    ReadIsFileAt(sb, e1, sb.rootInode);
    ListedMore(sb, d, e1, DirEntries(d, r).value, DirEntries(e1, p.root).value, NewEntry(p.number, c, 0));
  }

  lemma ListedMore(sb: Superblock, d: Image, e: Image, was: seq<Entry>, now: seq<Entry>, x: Entry)
    requires sb.rootInode in NamespaceOf(sb, d) && NamespaceOf(sb, d)[sb.rootInode].entries == was
    requires sb.rootInode in NamespaceOf(sb, e) && NamespaceOf(sb, e)[sb.rootInode].entries == now
    requires WithEntry(was, now, x)
    ensures OneNameMore(sb, d, e, x.name, x.inode)
  {
    hide NamespaceOf;
    var at :| 0 <= at <= |was| && now == was[..at] + [x] + was[at..];
    forall name: Name, k: nat
      ensures ListedAs(NamespaceOf(sb, e), sb.rootInode, name, k) <==>
        ListedAs(NamespaceOf(sb, d), sb.rootInode, name, k) || (name == x.name && k == x.inode)
    {
      if ListedAs(NamespaceOf(sb, d), sb.rootInode, name, k) {
        var j :| 0 <= j < |was| && was[j].name == name && was[j].inode == k;
        assert now[if j < at then j else j + 1] == was[j];
      }
      if name == x.name && k == x.inode {
        assert now[at] == x;
      }
      if ListedAs(NamespaceOf(sb, e), sb.rootInode, name, k) {
        var j :| 0 <= j < |now| && now[j].name == name && now[j].inode == k;
        assert j == at || now[j] == was[if j < at then j else j - 1];
      }
    }
  }

  lemma PutIsTaken(sb: Superblock, d: Image, op: Op)
    requires OpPlanned(sb, d, op) && op.change.NewObject? && RingTakes(sb, d, RequiredBlocks(|op.change.c.data|) + 4)
    ensures RingTakes(sb, d, |Moved(d, op.change)|)
  {
    hide Created, Creatable, AppendPlanned, HasHistory, History, Known, RingTakes, RequiredBlocks, Moved;
    CreationMoves(sb, d, op.change.root, op.change.c, op.change.made);
    FewerAreTaken(sb, d, |Moved(d, op.change)|, RequiredBlocks(|op.change.c.data|) + 4);
  }

  lemma WasFree(sb: Superblock, d: Image, op: Op)
    requires Sound(sb, d) && OpPlanned(sb, d, op) && op.change.NewObject?
    ensures !InodeUsed(sb, d, op.change.made.number)
  {
    hide Sound, Created, Creatable, AppendPlanned, HasHistory, History, Known, InodeUsed, Healthy;
    SoundIsHealthy(sb, d);
    InodeUsedAfterNew(sb, d, op.change.root, op.change.c, op.change.made, op.change.made.number);
  }

  /** A planned replacement that the ring takes is made. */
  lemma ReplacementIsMade(
    sb: Superblock, s: State, t: State, usable: bool, u: Replacement, identity: Identity, f: Found, reply: Reply, op: Op, failures: nat)
    requires AtRest(sb, s.durable) && LookupRoot(sb, s.durable, u.name) == Success(f) && IsRegular(f.inode.mode)
    requires RingTakes(sb, s.durable, RequiredBlocks(|u.data|) + RequiredBlocks(f.inode.size) + 2)
    requires op.change.FileChange? && op.change.n == f.number && op.change.i == f.inode && op.change.req == RequestOf(u)
    requires Accepted(sb, s, t, usable, op.change, REPLACE, identity, Version(f.number, op.change.p.inode.generation), VersionOf(f), reply, op)
    requires !usable || reply.errno == Some(EMFILE) ==> Excused(sb, s.durable, op, failures, failures)
    ensures usable && op.change.p.inode.generation == f.inode.generation + 1
    ensures ReplaceMade(sb, s, t, f.number, op.change.p.inode.generation, u, identity, reply)
  {
    hide Sound, HasHistory, History, ValidSuperblock, Clean, RingTakes, Excused, NextRecord, CommittedRecord, RecordsWith;
    hide Carried, NamespaceOf, Kept, OpPlanned, Leaves, Healthy, LookupRoot, Contents, FileAt, InodeUsed, ListedAs, Moved, RequiredBlocks;
    hide ReadInode;
    var d, e, i := s.durable, t.durable, op.change.p.inode;
    PlannedRecord(sb, d, op, op.change, NextRecord(sb, d, CommittedRecord(REPLACE, identity, Version(f.number, i.generation))));
    ReplaceIsTaken(sb, d, op);
    NotExcused(sb, d, op, failures);
    ReplaceIsDone(sb, s, t, usable, u, identity, f, reply, op);
    CarriedLeaves(sb, s, t, op);
    OnlyTheNames(sb, d, op, e);
    LookupHealthy(sb, e, u.name);
    OthersKept(sb, d, op, e, {LEDGER_INODE, f.number as nat});
    SoundIsHealthy(sb, d);
    LookupHealthy(sb, d, u.name);
    NewVersion(sb, d, op, u);
    SameNames(sb, d, op);
  }

  lemma SameNames(sb: Superblock, d: Image, op: Op)
    requires Sound(sb, d) && OpPlanned(sb, d, op) && op.change.FileChange?
    ensures NamespaceOf(sb, AfterImage(d, ChangeTx(op.change))) == NamespaceOf(sb, d)
  {
    hide Sound, Accepts, Planned, AppendPlanned, HasHistory, History, Known, Healthy, NamespaceOf, AfterImage;
    SoundIsHealthy(sb, d);
    FilePlanKeepsHealth(sb, d, op.change.n, op.change.i, op.change.req, op.change.p);
  }

  lemma ReplaceIsTaken(sb: Superblock, d: Image, op: Op)
    requires OpPlanned(sb, d, op) && op.change.FileChange? && op.change.req.mode == ReplaceAll && op.change.req.offset == 0
    requires RingTakes(sb, d, RequiredBlocks(|op.change.req.data|) + RequiredBlocks(op.change.i.size) + 2)
    ensures RingTakes(sb, d, |Moved(d, op.change)|)
  {
    hide Planned, Accepts, AppendPlanned, HasHistory, History, Known, RingTakes, RequiredBlocks, Moved;
    ReplacementMoves(sb, d, op.change.n, op.change.i, op.change.req, op.change.p);
    FewerAreTaken(sb, d, |Moved(d, op.change)|, RequiredBlocks(|op.change.req.data|) + RequiredBlocks(op.change.i.size) + 2);
  }

  lemma NewVersion(sb: Superblock, d: Image, op: Op, u: Replacement)
    requires OpPlanned(sb, d, op) && op.change.FileChange? && op.change.req == RequestOf(u)
    ensures ReplacedFrom(op.change.i, op.change.p.inode, u)
  {
    hide DataPlanned, SpacePlanned, Realizes, Accepts, AppendPlanned, HasHistory, History, Known, DirectPointers;
  }

  // ---- The two requests ----

  /** `PutIfAbsentIdempotent`: what an executed creation is answered with, from what the image holds. */
  lemma PutIsAnswered(
    sb: Superblock, s: State, t: State, usable: bool, c: Creation, identity: Identity, reply: Reply, op: Op, failures: nat)
    requires AtRest(sb, s.durable) && !AllZero(identity.id) && RingTakes(sb, s.durable, RequiredBlocks(|c.data|) + 4)
    requires PutExecuted(sb, s, t, usable, c, identity, reply, op)
    requires !usable || reply.errno == Some(EMFILE) ==> Excused(sb, s.durable, op, failures, failures)
    ensures usable && PutAnswered(sb, s, t, c, identity, reply)
  {
    hide AtRest, AllZero, RingTakes, RequiredBlocks, Excused, Accepted, Rejected, CreationError, ResolveRegular, HasSpace, RejectedRecord;
    hide PutMade, PutOverNamed, NamespaceOf, ListedAs, Healthy, NameAllowed, FileAt, Absent, Sound, HasHistory, ValidSuperblock, Clean;
    var d := s.durable;
    RestParts(sb, d);
    RefusalCases(sb, d, c);
    match CreationError(sb, d, c) {
      case None =>
        if HasSpace(sb, d, c) {
          CreationIsMade(sb, s, t, usable, c, identity, reply, op, failures);
          assert PutMade(sb, s, t, op.change.made.number, c, identity, reply);
        }
      case Some(errno) =>
        if errno == EEXIST {
          PutOverNamedIs(sb, s, t, usable, c, identity, reply, op, failures);
        }
    }
  }

  lemma RestParts(sb: Superblock, d: Image)
    requires AtRest(sb, d)
    ensures Sound(sb, d) && HasHistory(sb, d) && ValidSuperblock(sb) && Clean(sb, d) && Healthy(sb, d)
  {
    hide Sound, HasHistory, ValidSuperblock, Clean, Healthy;
    SoundIsHealthy(sb, d);
  }

  lemma RefusalCases(sb: Superblock, d: Image, c: Creation)
    requires Healthy(sb, d)
    ensures CreationError(sb, d, c) ==
      if !NameAllowed(c.name) then Some(EINVAL) else if |c.data| > 4243456 then Some(EFBIG)
      else if Absent(sb, d, c.name) then None else Some(EEXIST)
  {
    hide Healthy, NamespaceOf, ListedAs, CreationError, NameAllowed;
    CreationErrorIs(sb, d, c);
  }

  lemma PutOverNamedIs(
    sb: Superblock, s: State, t: State, usable: bool, c: Creation, identity: Identity, reply: Reply, op: Op, failures: nat)
    requires AtRest(sb, s.durable) && !AllZero(identity.id) && RingTakes(sb, s.durable, RequiredBlocks(|c.data|) + 4)
    requires NameAllowed(c.name) && !Absent(sb, s.durable, c.name)
    requires match ResolveRegular(sb, s.durable, c.name)
      case Failure(why) => NoEffect(s, t, usable, why, NO_VERSION, reply)
      case Success(f) =>
        Rejected(sb, s, t, usable, RejectedRecord(CREATE, identity, ALREADY_EXISTS, VersionOf(f)), EEXIST, VersionOf(f), reply, op)
    requires !usable || reply.errno == Some(EMFILE) ==> Excused(sb, s.durable, op, failures, failures)
    ensures usable
    ensures exists n: u32 :: ListedAs(NamespaceOf(sb, s.durable), sb.rootInode, c.name, n) && PutOverNamed(sb, s, t, n, identity, reply)
  {
    hide AtRest, AllZero, RingTakes, RequiredBlocks, Excused, ResolveRegular, RejectedRecord, NamespaceOf, ListedAs, Healthy, NameAllowed;
    hide FileAt, Absent, InodeUsed, OnRecord, RecordsWith, Carried, ValidRecord, NextRecord, History, Sound, HasHistory, ValidSuperblock, Clean;
    var d := s.durable;
    RestParts(sb, d);
    ResolvedIs(sb, d, c.name);
    match ResolveRegular(sb, d, c.name) {
      case Failure(_) =>
        var n: u32 :| ListedAs(NamespaceOf(sb, d), sb.rootInode, c.name, n) && IsDirectory(FileAt(sb, d, n).mode);
        assert PutOverNamed(sb, s, t, n, identity, reply);
      case Success(f) =>
        HistoryIsSmall(sb, d);
        RejectionIsValid(sb, d, CREATE, identity, ALREADY_EXISTS, VersionOf(f));
        NumberNotZero(sb, d, f.number);
        if f.inode.generation != 0 {
          FewerAreTaken(sb, d, 0, RequiredBlocks(|c.data|) + 4);
          RejectionIsRecorded(sb, s, t, usable, CREATE, identity, ALREADY_EXISTS, EEXIST, VersionOf(f), reply, op, failures);
        }
        assert PutOverNamed(sb, s, t, f.number, identity, reply);
    }
  }

  lemma NumberNotZero(sb: Superblock, d: Image, n: nat)
    requires InodeUsed(sb, d, n)
    ensures n != 0
  {}

  /** The ring has room for the new blocks of a replacement and for those of the object it replaces, if
      there is one. */
  ghost predicate RingTakesBoth(sb: Superblock, d: Image, u: Replacement) {
    && RingTakes(sb, d, 0)
    && forall n: nat :: ListedAs(NamespaceOf(sb, d), sb.rootInode, u.name, n) ==>
         RingTakes(sb, d, RequiredBlocks(|u.data|) + RequiredBlocks(FileAt(sb, d, n).size) + 2)
  }

  /** `ReplaceIfVersionIdempotent`: what an executed replacement is answered with. */
  lemma ReplaceIsAnswered(
    sb: Superblock, s: State, t: State, usable: bool, u: Replacement, identity: Identity, reply: Reply, op: Op, failures: nat)
    requires AtRest(sb, s.durable) && !AllZero(identity.id) && RingTakesBoth(sb, s.durable, u)
    requires ReplaceExecuted(sb, s, t, usable, u, identity, reply, op)
    requires !usable || reply.errno == Some(EMFILE) ==> Excused(sb, s.durable, op, failures, failures)
    ensures usable && ReplaceAnswered(sb, s, t, u, identity, reply)
  {
    hide AtRest, AllZero, RingTakes, RequiredBlocks, Excused, Accepted, Rejected, ResolveRegular, RejectedRecord, NamespaceOf, ListedAs;
    hide Healthy, NameAllowed, FileAt, Absent, InodeUsed, OnRecord, RequestError, SpaceSuffices, ReplaceNamed, History, ValidRecord, NextRecord;
    hide Sound, HasHistory, ValidSuperblock, Clean;
    var d := s.durable;
    RestParts(sb, d);
    ResolvedIs(sb, d, u.name);
    match ResolveRegular(sb, d, u.name) {
      case Success(f) =>
        ReplaceNamedIs(sb, s, t, usable, u, identity, f, reply, op, failures);
        NotAbsent(sb, d, u.name, f.number);
      case Failure(errno) =>
        if !NameAllowed(u.name) {
        } else if Absent(sb, d, u.name) {
          HistoryIsSmall(sb, d);
          RejectionIsValid(sb, d, REPLACE, identity, NOT_FOUND, NO_VERSION);
          RejectionIsRecorded(sb, s, t, usable, REPLACE, identity, NOT_FOUND, ENOENT, NO_VERSION, reply, op, failures);
        } else {
          var n: u32 :| ListedAs(NamespaceOf(sb, d), sb.rootInode, u.name, n) && IsDirectory(FileAt(sb, d, n).mode);
          DirectoryIsRefused(sb, s, t, n, u, identity, reply);
        }
    }
  }

  lemma NotAbsent(sb: Superblock, d: Image, name: Name, n: nat)
    requires ListedAs(NamespaceOf(sb, d), sb.rootInode, name, n)
    ensures !Absent(sb, d, name)
  {
    hide NamespaceOf, ListedAs;
  }

  lemma DirectoryIsRefused(sb: Superblock, s: State, t: State, n: u32, u: Replacement, identity: Identity, reply: Reply)
    requires IsDirectory(FileAt(sb, s.durable, n).mode) && NoEffect(s, t, true, EISDIR, NO_VERSION, reply)
    ensures ReplaceNamed(sb, s, t, n, u, identity, reply)
  {
    hide FileAt, OnRecord, ReplaceMade, SpaceSuffices;
  }

  lemma ReplaceNamedIs(
    sb: Superblock, s: State, t: State, usable: bool, u: Replacement, identity: Identity, f: Found, reply: Reply, op: Op, failures: nat)
    requires AtRest(sb, s.durable) && !AllZero(identity.id)
    requires RingTakes(sb, s.durable, RequiredBlocks(|u.data|) + RequiredBlocks(f.inode.size) + 2)
    requires ResolveRegular(sb, s.durable, u.name) == Success(f)
    requires ReplaceExecuted(sb, s, t, usable, u, identity, reply, op)
    requires !usable || reply.errno == Some(EMFILE) ==> Excused(sb, s.durable, op, failures, failures)
    ensures usable && ReplaceNamed(sb, s, t, f.number, u, identity, reply)
  {
    hide AtRest, AllZero, RingTakes, RequiredBlocks, Excused, Accepted, Rejected, ResolveRegular, RejectedRecord, NamespaceOf, ListedAs;
    hide Healthy, NameAllowed, FileAt, Absent, InodeUsed, OnRecord, RequestError, SpaceSuffices, History, ValidRecord, NextRecord;
    hide Sound, HasHistory, ValidSuperblock, Clean, ReplaceMade, SpaceHealthy, ChangeRefusedFor;
    var d := s.durable;
    RestParts(sb, d);
    SoundIsHealthy(sb, d);
    ResolvedIs(sb, d, u.name);
    NumberNotZero(sb, d, f.number);
    if u.expected != VersionOf(f) {
      FewerAreTaken(sb, d, 0, RequiredBlocks(|u.data|) + RequiredBlocks(f.inode.size) + 2);
      StaleIsRefused(sb, s, t, usable, u, identity, f, reply, op, failures);
    } else {
      RequestErrorIs(sb, d, f.number, RequestOf(u));
      RefusalIs(sb, d, f.number, u);
      if RequestError(sb, d, f.number, RequestOf(u)) == None && SpaceSuffices(sb, d, f.inode, RequestOf(u)) {
        CurrentIsReplaced(sb, s, t, usable, u, identity, f, reply, op, failures);
      }
    }
  }

  lemma CurrentIsReplaced(
    sb: Superblock, s: State, t: State, usable: bool, u: Replacement, identity: Identity, f: Found, reply: Reply, op: Op, failures: nat)
    requires AtRest(sb, s.durable) && ResolveRegular(sb, s.durable, u.name) == Success(f)
    requires RingTakes(sb, s.durable, RequiredBlocks(|u.data|) + RequiredBlocks(f.inode.size) + 2)
    requires op.change.FileChange? && op.change.n == f.number && op.change.i == f.inode && op.change.req == RequestOf(u)
    requires Accepted(sb, s, t, usable, op.change, REPLACE, identity, Version(f.number, op.change.p.inode.generation), VersionOf(f), reply, op)
    requires !usable || reply.errno == Some(EMFILE) ==> Excused(sb, s.durable, op, failures, failures)
    ensures usable && op.change.p.inode.generation == f.inode.generation + 1
    ensures ReplaceMade(sb, s, t, f.number, op.change.p.inode.generation, u, identity, reply)
  {
    hide AtRest, RingTakes, Excused, Accepted, LookupRoot, ReplaceMade, ValidName;
    ReplacementIsMade(sb, s, t, usable, u, identity, f, reply, op, failures);
  }

  /** The checks of the file planner on the file a name leads to. */
  lemma RefusalIs(sb: Superblock, d: Image, n: nat, u: Replacement)
    requires InodeUsed(sb, d, n) && ChangeRefusedFor(sb, d, n, RequestOf(u), RequestError(sb, d, n, RequestOf(u)))
    requires !IsDirectory(FileAt(sb, d, n).mode) && u.expected.generation == FileAt(sb, d, n).generation
    ensures RequestError(sb, d, n, RequestOf(u)) ==
      if |u.data| > 4243456 then Some(EFBIG)
      else if FileAt(sb, d, n).generation == 0xFFFF_FFFF_FFFF_FFFF then Some(EOVERFLOW) else None
  {
    hide FileAt, RequestError, TestBit, RegionBytes;
  }

  lemma StaleIsRefused(
    sb: Superblock, s: State, t: State, usable: bool, u: Replacement, identity: Identity, f: Found, reply: Reply, op: Op, failures: nat)
    requires AtRest(sb, s.durable) && !AllZero(identity.id) && RingTakes(sb, s.durable, 0)
    requires f.number != 0 && f.inode == FileAt(sb, s.durable, f.number) && !IsDirectory(f.inode.mode) && u.expected != VersionOf(f)
    requires Rejected(sb, s, t, usable, RejectedRecord(REPLACE, identity, VERSION_MISMATCH, VersionOf(f)), ESTALE, VersionOf(f), reply, op)
    requires !usable || reply.errno == Some(EMFILE) ==> Excused(sb, s.durable, op, failures, failures)
    ensures usable && ReplaceNamed(sb, s, t, f.number, u, identity, reply)
  {
    hide AtRest, AllZero, RingTakes, Excused, RejectedRecord, FileAt, OnRecord, SpaceSuffices, History, ValidRecord, NextRecord, ReplaceMade;
    hide Sound, HasHistory, ValidSuperblock, Clean, RecordsWith, Carried, Healthy;
    var d := s.durable;
    RestParts(sb, d);
    HistoryIsSmall(sb, d);
    RejectionIsValid(sb, d, REPLACE, identity, VERSION_MISMATCH, VersionOf(f));
    if f.inode.generation != 0 {
      RejectionIsRecorded(sb, s, t, usable, REPLACE, identity, VERSION_MISMATCH, ESTALE, VersionOf(f), reply, op, failures);
    }
  }

  // ---- On the store ----

  lemma ServedIsAtRest(sb: Superblock, run: seq<State>)
    requires ServedRun(sb, run) && run != [] && Serving(sb, run[|run| - 1]) && HasLedger(sb)
    ensures AtRest(sb, run[|run| - 1].durable)
  {
    hide ServedRun, Run, Sound, HasHistory, ValidSuperblock, Clean, HasLedger;
    ServingIsSound(sb, run);
    SoundSize(sb, run[|run| - 1].durable);
    ServedIsQuiet(sb, run, |run| - 1);
  }

  lemma ServedIsQuiet(sb: Superblock, run: seq<State>, k: nat)
    requires ServedRun(sb, run) && k < |run| && Idle(run[k])
    ensures Clean(sb, run[k].durable)
  {
    hide ServedRun, Selected;
    IdleRing(sb, run, k);
  }

  /** When a request is executed at all: it has an id, the store has a ledger, no request with that id is
      on record, and there is a free slot; and what it is answered with otherwise. */
  lemma ExecutedWhen(sb: Superblock, d: Image, operation: byte, identity: Identity)
    requires HasHistory(sb, d)
    ensures var answer, rs := ScreenOn(sb, d, operation, identity), History(sb, d);
      if AllZero(identity.id) then answer == Some(Reply(Some(EINVAL), NOTHING, Executed))
      else if !HasLedger(sb) then answer == Some(Reply(Some(ENOTSUP), NOTHING, Executed))
      else if exists k :: 0 <= k < |rs| && rs[k].id == identity.id then
        exists k :: 0 <= k < |rs| && rs[k].id == identity.id && answer == Some(ReplayOf(rs[k], operation, identity))
      else if |rs| == Capacity(LedgerBytes(sb, d)) then answer == Some(Reply(Some(ENOSPC), NOTHING, LedgerFull))
      else answer == None
  {
    hide History, LedgerBytes, AllZero, HasLedger, RecordMap, ReplayOf, LedgerFile;
    LedgerOnParts(sb, d, History(sb, d));
    LedgerIsParts(LedgerBytes(sb, d), History(sb, d));
    IndexHas(History(sb, d), identity.id);
    IndexSize(History(sb, d));
    if exists k :: 0 <= k < |History(sb, d)| && History(sb, d)[k].id == identity.id {
      var k :| 0 <= k < |History(sb, d)| && History(sb, d)[k].id == identity.id;
      IndexFinds(History(sb, d), k);
    }
  }

  /** The version in the reply of one request is the one the next replacement has to expect. */
  lemma NextReplacement(
    sb: Superblock, s: State, t: State, w: State, operation: byte, first: Identity, name: Name, data: seq<byte>, version: Version, reply: Reply,
    u: Replacement, second: Identity, answer: Reply)
    requires Healthy(sb, t.durable) && Done(sb, s, t, operation, first, name, data, version, reply)
    requires u.name == name && NameAllowed(name) && ReplaceAnswered(sb, t, w, u, second, answer)
    requires |u.data| <= 4243456 && version.generation < 0xFFFF_FFFF_FFFF_FFFF
    ensures u.expected != reply.mutation.committed && version.generation != 0 ==> answer.errno == Some(ESTALE) && answer.mutation.current == version
    ensures u.expected == reply.mutation.committed ==>
      if SpaceSuffices(sb, t.durable, FileAt(sb, t.durable, version.inode), RequestOf(u))
      then answer.errno == None && answer.mutation.committed == Version(version.inode, version.generation + 1)
      else answer.errno == Some(ENOSPC)
  {
    hide Healthy, Recorded, NamespaceOf, ListedAs, FileAt, InodeUsed, Contents, SpaceSuffices, Absent, NameAllowed, Kept;
    var d := t.durable;
    NotAbsent(sb, d, name, version.inode);
    var n: u32 :| ListedAs(NamespaceOf(sb, d), sb.rootInode, name, n) && ReplaceNamed(sb, t, w, n, u, second, answer);
    ListedOnce(sb, d, name, n, version.inode);
    KindOf(sb, d, n);
  }

  lemma ExecutedAtRest(backend: ObjectBackend, operation: byte, identity: Identity)
    requires backend.Valid() && backend.Immediate(operation, identity) == None
    ensures AtRest(backend.device.sb, backend.device.durable) && !AllZero(identity.id)
  {
    hide ServedRun, Run, AtRest, AllZero, HasLedger, Serving, ObjectBackend.Indexed, RecordMap, History, LedgerBytes, ReplayOf;
    ServedIsAtRest(backend.device.sb, backend.device.run);
  }

  /** A creation sent to the store, on which no operation of the device fails and whose ring has room. */
  method Put(backend: ObjectBackend, c: Creation, identity: Identity) returns (reply: Reply)
    requires backend.Valid() && (backend.Usable() ==> PlainPut(backend.device.sb, backend.device.durable, c))
    modifies backend, backend.device, backend.ledger
    ensures backend.Valid()
    ensures var device := backend.device;
      && old(backend.Immediate(CREATE, identity)) == None && device.failures == old(device.failures)
      && RingTakes(device.sb, old(device.durable), RequiredBlocks(|c.data|) + 4) ==>
        backend.Usable() && PutAnswered(device.sb, old(device.Last()), device.Last(), c, identity, reply)
  {
    hide ObjectBackend.Valid, PlainPut, RingTakes, RequiredBlocks, PutAnswered, PutExecuted, Excused, AtRest, AllZero;
    hide ObjectBackend.Screened, Device.Valid;
    ghost var sb, failures, executed := backend.device.sb, backend.device.failures, backend.Immediate(CREATE, identity) == None;
    backend.HasRun();
    ghost var s := backend.device.Last();
    if executed {
      ExecutedAtRest(backend, CREATE, identity);
    }
    ghost var op;
    reply, op := backend.PutIfAbsentIdempotent(c, identity);
    backend.HasRun();
    if executed && backend.device.failures == failures && RingTakes(sb, s.durable, RequiredBlocks(|c.data|) + 4) {
      PutIsAnswered(sb, s, backend.device.Last(), backend.Usable(), c, identity, reply, op, failures);
    }
  }

  /** A replacement sent to the store, on which no operation of the device fails and whose ring has room. */
  method Replace(backend: ObjectBackend, u: Replacement, identity: Identity) returns (reply: Reply)
    requires backend.Valid() && (backend.Usable() ==> PlainReplace(backend.device.sb, backend.device.durable, u)) && u.name != LEDGER_NAME
    modifies backend, backend.device, backend.ledger
    ensures backend.Valid()
    ensures var device := backend.device;
      && old(backend.Immediate(REPLACE, identity)) == None && device.failures == old(device.failures)
      && RingTakesBoth(device.sb, old(device.durable), u) ==>
        backend.Usable() && ReplaceAnswered(device.sb, old(device.Last()), device.Last(), u, identity, reply)
  {
    hide ObjectBackend.Valid, PlainReplace, RingTakesBoth, ReplaceAnswered, ReplaceExecuted, Excused, AtRest, AllZero;
    hide ObjectBackend.Screened, Device.Valid;
    ghost var sb, failures, executed := backend.device.sb, backend.device.failures, backend.Immediate(REPLACE, identity) == None;
    backend.HasRun();
    ghost var s := backend.device.Last();
    if executed {
      ExecutedAtRest(backend, REPLACE, identity);
    }
    ghost var op;
    reply, op := backend.ReplaceIfVersionIdempotent(u, identity);
    backend.HasRun();
    if executed && backend.device.failures == failures && RingTakesBoth(sb, s.durable, u) {
      ReplaceIsAnswered(sb, s, backend.device.Last(), backend.Usable(), u, identity, reply, op, failures);
    }
  }
}
