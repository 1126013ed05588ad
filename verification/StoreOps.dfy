/** What the object store does to an image in one transaction: at most one object change and at most one
    ledger record, together. */
module StoreOps {
  import opened Bytes
  import opened Errors
  import opened JournalFormat
  import opened OndiskFormat
  import opened RingReservation
  import opened Journal
  import opened JournalProtocol
  import opened JournalStore
  import opened Bitmap
  import opened ImageView
  import opened ImageEdit
  import opened Directory
  import opened FilePlan
  import opened FileHealth
  import opened ObjectPlan
  import opened ObjectView
  import opened ObjectHealth
  import opened Health
  import opened LedgerFormat
  import opened Ledger
  import opened LedgerImage
  import opened LedgerPlan
  import opened BlockRewrite

  datatype Change =
    | NoChange
    | NewObject(root: Inode, c: Creation, made: NewPlan)
    | FileChange(n: nat, i: Inode, req: Request, p: Plan)

  function ChangeTx(change: Change): Transaction {
    match change
    case NoChange => Transaction(map[], map[], map[])
    case NewObject(_, _, made) => made.tx
    case FileChange(_, _, _, p) => p.tx
  }

  /** The change was planned on this image, and is not a change of the ledger file. */
  ghost predicate ChangePlanned(sb: Superblock, d: Image, change: Change) {
    match change
    case NoChange => true
    case NewObject(root, c, made) => Creatable(sb, d, root, c) && Created(sb, d, root, c, made)
    case FileChange(n, i, req, p) =>
      && Accepts(sb, d, n, i, req) && Planned(sb, d, n, i, req, p)
      && (sb.featureIncompat == LEDGER_FEATURE ==> n != LEDGER_INODE)
  }

  datatype Op = Op(change: Change, append: Option<AppendPlan>)

  function OpTx(op: Op): Transaction {
    if op.append == None then ChangeTx(op.change) else Merged(ChangeTx(op.change), op.append.value)
  }

  // ---- The history an image holds ----

  ghost predicate HasHistory(sb: Superblock, d: Image) {
    exists rs :: LedgerOn(sb, d, rs)
  }

  ghost function History(sb: Superblock, d: Image): (rs: seq<LedgerRecord>)
    ensures HasHistory(sb, d) ==> LedgerOn(sb, d, rs)
  {
    if HasHistory(sb, d) then var rs :| LedgerOn(sb, d, rs); rs else []
  }

  lemma HistoryIs(sb: Superblock, d: Image, rs: seq<LedgerRecord>)
    requires LedgerOn(sb, d, rs)
    ensures HasHistory(sb, d) && History(sb, d) == rs
  {
    hide LedgerOn;
    LedgerOnIsUnique(sb, d, rs, History(sb, d));
  }

  ghost predicate OpPlanned(sb: Superblock, d: Image, op: Op) {
    && ChangePlanned(sb, d, op.change)
    && (op.append.Some? ==>
          && HasHistory(sb, d) && AppendPlanned(sb, d, op.append.value)
          && op.append.value.sequence == |History(sb, d)| + 1 && !Known(History(sb, d), op.append.value.record.id))
  }

  /** The history once the operation has committed. */
  ghost function HistoryWith(sb: Superblock, d: Image, op: Op): seq<LedgerRecord> {
    if op.append == None then History(sb, d) else History(sb, d) + [op.append.value.record]
  }

  /** What the store keeps true of an image: it is healthy, and has a ledger if it declares one. */
  ghost predicate Sound(sb: Superblock, d: Image) {
    Healthy(sb, d) && (sb.featureIncompat == LEDGER_FEATURE ==> HasHistory(sb, d))
  }

  // ---- A change leaves the ledger alone ----

  lemma NoChangeImage(d: Image)
    ensures AfterImage(d, ChangeTx(NoChange)) == d
  {}

  lemma ChangeKeepsHealth(sb: Superblock, d: Image, change: Change)
    requires Healthy(sb, d) && ChangePlanned(sb, d, change)
    ensures Healthy(sb, AfterImage(d, ChangeTx(change)))
  {
    hide Healthy, Creatable, Created, Accepts, Planned, AfterImage;
    match change
    case NoChange => NoChangeImage(d);
    case NewObject(root, c, made) => CreationKeepsHealth(sb, d, root, c, made);
    case FileChange(n, i, req, p) => FilePlanKeepsHealth(sb, d, n, i, req, p);
  }

  /** The ledger file is not the root directory. */
  lemma LedgerIsNotRoot(sb: Superblock, d: Image)
    requires Healthy(sb, d) && LedgerFile(sb, d)
    ensures sb.rootInode != LEDGER_INODE
  {
    hide Healthy, LedgerFile;
    LedgerIsUsed(sb, d);
    HealthyRoot(sb, d);
  }

  /** What a change leaves of a file. */
  ghost predicate FileKept(sb: Superblock, d: Image, e: Image, n: nat) {
    var i := FileAt(sb, d, n);
    && FileAt(sb, e, n) == i && ReadInode(sb, e, n) == Success(i) && Contents(e, i) == Contents(d, i)
    && (forall l: nat :: MapBlock(e, i, l) == MapBlock(d, i, l)) && (forall b :: b in Owned(d, i) ==> At(e, b) == At(d, b))
  }

  /** A change keeps every file but the one it changes and the directory it lists a new object in. */
  lemma ChangeKeepsFile(sb: Superblock, d: Image, change: Change, k: nat)
    requires SpaceHealthy(sb, d) && ChangePlanned(sb, d, change) && InodeUsed(sb, d, k)
    requires change.NewObject? ==> k != sb.rootInode
    requires change.FileChange? ==> k != change.n
    ensures FileKept(sb, d, AfterImage(d, ChangeTx(change)), k)
  {
    hide SpaceHealthy, Creatable, Created, Accepts, Planned, AfterImage, ReadInode, Contents, Owned, MapBlock, At, InodeUsed;
    hide FileAt, NodeOf, DirEntries, OwnBlocksDistinct;
    UsedIsReadable(sb, d, k);
    match change
    case NoChange => NoChangeImage(d);
    case NewObject(root, c, made) => OtherFilesKept(sb, d, root, c, made, k);
    case FileChange(n, i, req, p) =>
      AcceptedInode(sb, d, n, i, req);
      UsedIsReadable(sb, d, n);
      UsedAreApart(sb, d, n, k);
      FileAtIs(sb, d, n, i);
      PlanKeepsOtherFiles(sb, d, n, i, req, p, k);
      ReadIsFileAt(sb, AfterImage(d, p.tx), k);
  }

  lemma UsedIsReadable(sb: Superblock, d: Image, k: nat)
    requires SpaceHealthy(sb, d) && InodeUsed(sb, d, k)
    ensures ReadInode(sb, d, k) == Success(FileAt(sb, d, k))
  {
    hide BitmapsWellFormed, OwnedBySome, ReadInode, FileAt, OwnBlocksDistinct, Owned, ValidSuperblock, InodeUsed;
  }

  lemma UsedAreApart(sb: Superblock, d: Image, n: nat, k: nat)
    requires SpaceHealthy(sb, d) && InodeUsed(sb, d, k) && InodeUsed(sb, d, n) && n != k
    ensures Owned(d, FileAt(sb, d, k)) !! Owned(d, FileAt(sb, d, n))
  {
    hide BitmapsWellFormed, OwnedBySome, ReadInode, FileAt, OwnBlocksDistinct, Owned, ValidSuperblock, InodeUsed;
  }

  lemma FileAtIs(sb: Superblock, d: Image, n: nat, i: Inode)
    requires InodeAt(sb, d, n) == Some(i)
    ensures FileAt(sb, d, n) == i
  {}

  lemma ReadIsFileAt(sb: Superblock, d: Image, n: nat)
    requires ReadInode(sb, d, n).Success?
    ensures ReadInode(sb, d, n).value == FileAt(sb, d, n) && InodeUsed(sb, d, n)
  {
    hide MappingHolds, InodeAt, InodeUsed;
  }

  /** The root goes on listing what it listed. */
  lemma ChangeKeepsNames(sb: Superblock, d: Image, change: Change, name: Name, n: nat)
    requires Healthy(sb, d) && ChangePlanned(sb, d, change)
    requires ListedAs(NamespaceOf(sb, d), sb.rootInode, name, n)
    ensures ListedAs(NamespaceOf(sb, AfterImage(d, ChangeTx(change))), sb.rootInode, name, n)
  {
    hide Healthy, Creatable, Created, Accepts, Planned, AfterImage, NamespaceOf, ListedAs;
    match change
    case NoChange => NoChangeImage(d);
    case NewObject(root, c, made) => CreationKeepsNames(sb, d, root, c, made, name, n);
    case FileChange(m, i, req, p) => FilePlanKeepsHealth(sb, d, m, i, req, p);
  }

  lemma CreationKeepsNames(sb: Superblock, d: Image, r: Inode, c: Creation, p: NewPlan, name: Name, n: nat)
    requires Healthy(sb, d) && Creatable(sb, d, r, c) && Created(sb, d, r, c, p)
    requires ListedAs(NamespaceOf(sb, d), sb.rootInode, name, n)
    ensures ListedAs(NamespaceOf(sb, AfterImage(d, p.tx)), sb.rootInode, name, n)
  {
    hide Healthy, Creatable, Created, AfterImage, NamespaceOf, WithEntry, DirEntries, SpaceHealthy, FileAt, ReadInode;
    var e := AfterImage(d, p.tx);
    HealthyParts(sb, d);
    HealthyRoot(sb, d);
    CreationCreates(sb, d, r, c, p);
    CreationKeepsHealth(sb, d, r, c, p);
    HealthyRoot(sb, e);
    RootIsFile(sb, d, r, c);
    var k :| 0 <= k < |NamespaceOf(sb, d)[sb.rootInode].entries|
      && NamespaceOf(sb, d)[sb.rootInode].entries[k].name == name && NamespaceOf(sb, d)[sb.rootInode].entries[k].inode == n;
    var j := StillListed(DirEntries(d, r).value, DirEntries(e, p.root).value, NewEntry(p.number, c, 0), k);
  }

  lemma StillListed(was: seq<Entry>, now: seq<Entry>, x: Entry, k: nat) returns (j: nat)
    requires WithEntry(was, now, x) && k < |was|
    ensures j < |now| && now[j] == was[k]
  {
    var at :| 0 <= at <= |was| && now == was[..at] + [x] + was[at..];
    j := if k < at then k else k + 1;
  }

  /** A change keeps the ledger, its blocks and its history. */
  lemma ChangeKeepsLedger(sb: Superblock, d: Image, change: Change, rs: seq<LedgerRecord>)
    requires Healthy(sb, d) && LedgerOn(sb, d, rs) && ChangePlanned(sb, d, change)
    ensures var e := AfterImage(d, ChangeTx(change)); Healthy(sb, e) && LedgerOn(sb, e, rs) && FileKept(sb, d, e, LEDGER_INODE)
  {
    hide Healthy, AfterImage, NamespaceOf, ListedAs, LedgerFile, LedgerIs, FileAt, Contents, MapBlock, At, Owned, ReadInode;
    hide ChangeTx;
    hide SpaceHealthy, NamesHealthy, Creatable, Created, Accepts, Planned;
    HealthyParts(sb, d);
    LedgerIsUsed(sb, d);
    LedgerIsNotRoot(sb, d);
    ChangeKeepsHealth(sb, d, change);
    ChangeKeepsFile(sb, d, change, LEDGER_INODE);
    ChangeKeepsNames(sb, d, change, LEDGER_NAME, LEDGER_INODE);
    SameLedgerFile(sb, d, AfterImage(d, ChangeTx(change)));
  }

  // ---- A change and an append never meet in one block ----

  lemma FilePlanTouches(sb: Superblock, d: Image, n: nat, i: Inode, req: Request, p: Plan, b: nat)
    requires Accepts(sb, d, n, i, req) && Planned(sb, d, n, i, req, p) && DataBlock(sb, d, b)
    ensures !Touches(p.tx, b)
  {
    hide Accepts, DataPlanned, InodePlanned, SpacePlanned, RegionIs, SlotsAre, MatchesImage, BlockUsed, ChangesIndirect;
    hide ValidSuperblock;
    RegionsDisjoint(sb);
    if b in p.tx.ordered {
      OrderedWasFree(sb, d, n, i, req, p, b);
    }
    if ChangesIndirect(i, req) {
      NewIndirectWasFree(sb, d, i, req, p);
    }
  }

  lemma NewIndirectWasFree(sb: Superblock, d: Image, i: Inode, req: Request, p: Plan)
    requires SpacePlanned(sb, d, i, req, p) && ChangesIndirect(i, req)
    ensures !BlockUsed(sb, d, p.inode.indirect)
  {
    hide TestBit, ChangesIndirect, ReleasedBlocks;
    ReservedIsData(sb, d, i, req, p, p.inode.indirect);
  }

  lemma CreationTouches(sb: Superblock, d: Image, r: Inode, c: Creation, p: NewPlan, b: nat)
    requires Creatable(sb, d, r, c) && Created(sb, d, r, c, p) && DataBlock(sb, d, b) && b !in Owned(d, r)
    ensures !Touches(p.tx, b)
  {
    hide Creatable, FilePlanned, RootPlanned, EntryPlaced, BitmapsPlanned, RegionIs, SlotsAre, MatchesImage, BlockUsed;
    hide ValidSuperblock;
    hide BlockImages, Owned, BlocksPlanned;
    RegionsDisjoint(sb);
    DirectoryBlockIsData(sb, d, r, c, p);
    NewWereFree(sb, d, p, b);
    ImagesOfNew(sb, d, r, p, b);
  }

  lemma NewWereFree(sb: Superblock, d: Image, p: NewPlan, b: nat)
    requires BlocksPlanned(sb, d, p) && DataBlock(sb, d, b)
    ensures b !in p.reserved && b !in p.tx.ordered && b !in JournaledBlocks(p)
  {
    hide BlockUsed, JournaledBlocks, Free;
    if b in p.reserved {
      NewIsData(sb, d, p, b);
    }
  }

  /** No block of the ledger is in an object plan, so the merge is never refused. */
  lemma ChangeAvoidsLedger(sb: Superblock, d: Image, change: Change, b: nat)
    requires Healthy(sb, d) && LedgerFile(sb, d) && ChangePlanned(sb, d, change)
    requires b in Owned(d, FileAt(sb, d, LEDGER_INODE)) && DataBlock(sb, d, b)
    ensures !Touches(ChangeTx(change), b)
  {
    hide Healthy, LedgerFile, FileAt, Owned, DataBlock, SpaceHealthy, NamesHealthy, Creatable, Created, Accepts, Planned;
    hide ListedAs, NamespaceOf;
    HealthyParts(sb, d);
    LedgerIsUsed(sb, d);
    LedgerIsNotRoot(sb, d);
    match change
    case NoChange =>
    case NewObject(root, c, made) =>
      RootIsFile(sb, d, root, c);
      UsedAreApart(sb, d, sb.rootInode, LEDGER_INODE);
      CreationTouches(sb, d, root, c, made, b);
    case FileChange(n, i, req, p) => FilePlanTouches(sb, d, n, i, req, p, b);
  }

  lemma AppendBlockIsOwned(sb: Superblock, d: Image, p: AppendPlan)
    requires Healthy(sb, d) && LedgerFile(sb, d) && AppendPlanned(sb, d, p)
    ensures p.physical in Owned(d, FileAt(sb, d, LEDGER_INODE)) && DataBlock(sb, d, p.physical)
  {
    hide Healthy, LedgerFile, FileAt, MapBlock, AppendPlanned, DataBlock;
    AppendIsInLedger(sb, d, p);
  }

  // ---- Whole operations ----

  /** The append plan of the old image is an append plan of the changed image. */
  lemma AppendStillPlanned(sb: Superblock, d: Image, e: Image, p: AppendPlan)
    requires AppendPlanned(sb, d, p) && FileKept(sb, d, e, LEDGER_INODE)
    requires p.physical in Owned(d, FileAt(sb, d, LEDGER_INODE))
    ensures AppendPlanned(sb, e, p)
  {
    hide FileAt, MapBlock, At, WellFormedAppend, Owned, Contents, ReadInode;
  }

  /** A committed operation: the change and the record, both or nothing, on a healthy image. */
  lemma OpCommitted(sb: Superblock, d: Image, op: Op)
    requires Healthy(sb, d) && HasHistory(sb, d) && OpPlanned(sb, d, op)
    ensures var e := AfterImage(d, OpTx(op));
      Healthy(sb, e) && HasHistory(sb, e) && History(sb, e) == HistoryWith(sb, d, op)
  {
    hide Healthy, LedgerOn, HasHistory, History, ChangePlanned, AfterImage, AppendPlanned, Known, FileKept, NamespaceOf;
    hide ChangeTx, Merged;
    hide Rewritten, Owned, DataBlock, LedgerFile;
    var rs, e := History(sb, d), AfterImage(d, ChangeTx(op.change));
    ChangeKeepsLedger(sb, d, op.change, rs);
    if op.append == None {
      HistoryIs(sb, e, rs);
    } else {
      var p := op.append.value;
      LedgerOnParts(sb, d, rs);
      AppendBlockIsOwned(sb, d, p);
      AppendStillPlanned(sb, d, e, p);
      AppendOnImage(sb, e, rs, p);
      MergedImage(d, ChangeTx(op.change), p);
      HistoryIs(sb, AfterImage(d, OpTx(op)), rs + [p.record]);
    }
  }

  lemma LedgerOnParts(sb: Superblock, d: Image, rs: seq<LedgerRecord>)
    requires LedgerOn(sb, d, rs)
    ensures LedgerFile(sb, d) && LedgerIs(LedgerBytes(sb, d), rs) && sb.featureIncompat == LEDGER_FEATURE
  {
    hide LedgerIs, LookupRoot;
  }

  /** New data goes to free blocks, so without a COMMIT nothing has happened. */
  lemma OpOrderedIsFree(sb: Superblock, d: Image, op: Op, b: nat)
    requires OpPlanned(sb, d, op) && b in OpTx(op).ordered
    ensures sb.data.start <= b && !DataBlock(sb, d, b)
  {
    hide Accepts, Planned, Creatable, Created, DataBlock, AppendPlanned, Known, HasHistory, History, BlocksPlanned;
    match op.change
    case NoChange =>
    case NewObject(root, c, made) =>
      CreatedFile(sb, d, root, c, made);
      OrderedFree(sb, d, made, b);
    case FileChange(n, i, req, p) => OrderedWasFree(sb, d, n, i, req, p, b);
  }

  lemma OpUncommitted(sb: Superblock, d: Image, op: Op, e: Image)
    requires Sound(sb, d) && OpPlanned(sb, d, op) && HomeAgrees(sb, e, d, OpTx(op).ordered.Keys)
    ensures Sound(sb, e) && (HasHistory(sb, d) ==> HasHistory(sb, e) && History(sb, e) == History(sb, d))
  {
    hide Healthy, OpPlanned, OpTx, LedgerOn, SameMeaning, HomeAgrees, HasHistory, DataBlock, History;
    HealthyParts(sb, d);
    ValidOf(sb, d);
    forall b | b in OpTx(op).ordered
      ensures sb.data.start <= b && !DataBlock(sb, d, b)
    {
      OpOrderedIsFree(sb, d, op, b);
    }
    HomeSameMeaning(sb, d, e, OpTx(op).ordered.Keys);
    SoundFrame(sb, d, e);
  }

  lemma SoundFrame(sb: Superblock, d: Image, e: Image)
    requires Sound(sb, d) && SameMeaning(sb, d, e)
    ensures Sound(sb, e) && (HasHistory(sb, d) ==> HasHistory(sb, e) && History(sb, e) == History(sb, d))
  {
    hide Healthy, LedgerOn, SameMeaning, HasHistory, History, NamespaceOf;
    HealthFrame(sb, d, e);
    if HasHistory(sb, d) {
      LedgerFrame(sb, d, e, History(sb, d));
      HistoryIs(sb, e, History(sb, d));
    }
  }

  lemma SameHomeIsSound(sb: Superblock, d: Image, e: Image)
    requires Sound(sb, d) && HomeAgrees(sb, e, d, {})
    ensures Sound(sb, e) && (HasHistory(sb, d) ==> HasHistory(sb, e) && History(sb, e) == History(sb, d))
  {
    hide Healthy, SameMeaning, HomeAgrees, HasHistory, History, SpaceHealthy, NamesHealthy, ValidSuperblock;
    HealthyParts(sb, d);
    ValidOf(sb, d);
    HomeSameMeaning(sb, d, e, {});
    SoundFrame(sb, d, e);
  }

  /** A committed operation on a sound image. */
  lemma OpIsSound(sb: Superblock, d: Image, op: Op)
    requires Sound(sb, d) && OpPlanned(sb, d, op)
    ensures Sound(sb, AfterImage(d, OpTx(op)))
    ensures HasHistory(sb, d) ==>
      HasHistory(sb, AfterImage(d, OpTx(op))) && History(sb, AfterImage(d, OpTx(op))) == HistoryWith(sb, d, op)
  {
    hide Healthy, HasHistory, History, AfterImage, AppendPlanned, Known, ChangePlanned, ChangeTx;
    if HasHistory(sb, d) {
      OpCommitted(sb, d, op);
    } else {
      ChangeKeepsHealth(sb, d, op.change);
    }
  }

  // ---- The journal takes every operation it has room for ----

  lemma ChangeIsCovered(sb: Superblock, d: Image, change: Change)
    requires ChangePlanned(sb, d, change)
    ensures Covered(sb, ChangeTx(change)) && MatchesImage(d, ChangeTx(change).before)
  {
    hide Creatable, Created, Accepts, Planned, Covered, MatchesImage;
    match change
    case NoChange => NothingIsCovered(sb, d);
    case NewObject(root, c, made) => CreationIsCovered(sb, d, root, c, made);
    case FileChange(n, i, req, p) => PlanIsCovered(sb, d, n, i, req, p);
  }

  lemma NothingIsCovered(sb: Superblock, d: Image)
    ensures Covered(sb, ChangeTx(NoChange)) && MatchesImage(d, ChangeTx(NoChange).before)
  {}

  lemma OpIsCovered(sb: Superblock, d: Image, op: Op)
    requires Healthy(sb, d) && OpPlanned(sb, d, op)
    ensures Covered(sb, OpTx(op)) && MatchesImage(d, OpTx(op).before)
  {
    hide Healthy, ChangePlanned, ChangeTx, Covered, MatchesImage, AppendPlanned, Known, HasHistory, History, Merged, Owned;
    hide DataBlock, LedgerOn;
    hide Touches, ValidSuperblock, SpaceHealthy, NamesHealthy, LedgerFile;
    ChangeIsCovered(sb, d, op.change);
    if op.append.Some? {
      var p := op.append.value;
      LedgerOnParts(sb, d, History(sb, d));
      AppendBlockIsOwned(sb, d, p);
      ChangeAvoidsLedger(sb, d, op.change, p.physical);
      HealthyParts(sb, d);
      ValidOf(sb, d);
      DataIsInside(sb, d, p.physical);
      AppendBefore(sb, d, p);
      MergedIsCovered(sb, d, ChangeTx(op.change), p);
    }
  }

  lemma AppendBefore(sb: Superblock, d: Image, p: AppendPlan)
    requires AppendPlanned(sb, d, p)
    ensures p.before == At(d, p.physical)
  {
    hide WellFormedAppend, FileAt, MapBlock, At;
  }

  /** On the image it was planned for, an operation passes every check of the journal, except that the
      ring, the descriptor or the transaction numbers may have no room for it. */
  lemma OpIsAdmitted(sb: Superblock, d: Image, op: Op, current: JournalControl)
    requires Healthy(sb, d) && OpPlanned(sb, d, op)
    ensures Admitted(sb, d, current, sb.totalBlocks, sb.uuid, OpTx(op)) <==> ReserveCheck(current, |OpTx(op).metadata|) == None
  {
    hide Healthy, OpPlanned, OpTx, Covered, MatchesImage, ReserveCheck;
    OpIsCovered(sb, d, op);
  }
}
