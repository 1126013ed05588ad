/** What a client sees after a committed operation of the store. */
module StoreEffects {
  import opened Bytes
  import opened Errors
  import opened OndiskFormat
  import opened Journal
  import opened JournalProtocol
  import opened ImageView
  import opened Directory
  import opened FilePlan
  import opened FileHealth
  import opened ObjectPlan
  import opened ObjectView
  import opened ObjectHealth
  import opened Health
  import opened LedgerFormat
  import opened Ledger
  import opened LedgerImage
  import opened LedgerPlan
  import opened BlockRewrite
  import opened StoreOps

  /** The image an operation leaves, whatever the journal region holds. */
  ghost predicate Leaves(sb: Superblock, d: Image, op: Op, e: Image) {
    HomeAgrees(sb, e, AfterImage(d, OpTx(op)), {})
  }

  /** File `k` is allocated and has this inode and these bytes. */
  ghost predicate Holds(sb: Superblock, d: Image, k: nat, i: Inode, bytes: seq<byte>) {
    ReadInode(sb, d, k) == Success(i) && FileAt(sb, d, k) == i && InodeUsed(sb, d, k) && Contents(d, i) == bytes
  }

  /** Appending a record and the journal's own blocks change nothing a client sees but the ledger. */
  lemma OnlyTheChange(sb: Superblock, d: Image, op: Op, e: Image, k: nat, i: Inode, bytes: seq<byte>)
    requires Sound(sb, d) && OpPlanned(sb, d, op) && Leaves(sb, d, op, e)
    requires Holds(sb, AfterImage(d, ChangeTx(op.change)), k, i, bytes) && (op.append.Some? ==> k != LEDGER_INODE)
    ensures Holds(sb, e, k, i, bytes)
  {
    hide Sound, OpPlanned, HomeAgrees, AfterImage, ChangeTx, Merged, SameMeaning, Rewritten, HasHistory, History, Holds;
    var e2 := AfterImage(d, OpTx(op));
    OpIsSound(sb, d, op);
    if op.append.Some? {
      AppendKeepsOthers(sb, d, op, k, i, bytes);
    }
    assert Holds(sb, e2, k, i, bytes);
    SoundIsHealthy(sb, e2);
    HomeSameMeaning(sb, e2, e, {}) by { ValidOf(sb, e2); }
    HoldsFrame(sb, e2, e, k, i, bytes);
  }

  lemma SoundIsHealthy(sb: Superblock, d: Image)
    requires Sound(sb, d)
    ensures Healthy(sb, d) && SpaceHealthy(sb, d) && NamesHealthy(sb, d)
  {
    hide SpaceHealthy, NamesHealthy, HasHistory;
  }

  lemma HoldsFrame(sb: Superblock, d: Image, e: Image, k: nat, i: Inode, bytes: seq<byte>)
    requires SpaceHealthy(sb, d) && SameMeaning(sb, d, e) && Holds(sb, d, k, i, bytes)
    ensures Holds(sb, e, k, i, bytes)
  {
    hide SpaceHealthy, SameMeaning, ReadInode, Contents, InodeUsed, Owned, MapBlock, OwnBlocksDistinct, FileAt;
    SameInode(sb, d, e, k);
    ReadIsFileAt(sb, e, k);
  }

  lemma AppendKeepsOthers(sb: Superblock, d: Image, op: Op, k: nat, i: Inode, bytes: seq<byte>)
    requires Sound(sb, d) && OpPlanned(sb, d, op) && op.append.Some? && k != LEDGER_INODE
    requires Holds(sb, AfterImage(d, ChangeTx(op.change)), k, i, bytes)
    ensures Holds(sb, AfterImage(d, OpTx(op)), k, i, bytes)
  {
    hide Sound, ChangePlanned, AfterImage, ChangeTx, Merged, Rewritten, HasHistory, History, AppendPlanned, FileKept;
    hide LedgerOn, Known;
    hide SpaceHealthy, NamesHealthy, LedgerFile, LedgerIs, ReadInode, Contents, InodeUsed, Owned, MapBlock, OwnBlocksDistinct;
    hide FileAt, NodeOf;
    hide DirEntries, BlockOfFile, Healthy, DataBlock, At;
    var e, p := AfterImage(d, ChangeTx(op.change)), op.append.value;
    SoundIsHealthy(sb, d);
    ChangeKeepsLedger(sb, d, op.change, History(sb, d));
    LedgerOnParts(sb, d, History(sb, d));
    LedgerOnParts(sb, e, History(sb, d));
    AppendBlockIsOwned(sb, d, p);
    AppendStillPlanned(sb, d, e, p);
    AppendIsInLedger(sb, e, p);
    HealthyParts(sb, e);
    FilesStay(sb, e, LEDGER_INODE, p.logical, p.physical, p.after, k);
    MergedImage(d, ChangeTx(op.change), p);
  }

  /** Names resolve as the change left them. */
  lemma OnlyTheNames(sb: Superblock, d: Image, op: Op, e: Image)
    requires Sound(sb, d) && OpPlanned(sb, d, op) && Leaves(sb, d, op, e)
    ensures Healthy(sb, e) && NamespaceOf(sb, e) == NamespaceOf(sb, AfterImage(d, ChangeTx(op.change)))
  {
    hide Sound, OpPlanned, HomeAgrees, AfterImage, ChangeTx, Merged, SameMeaning, Rewritten, HasHistory, History, NamespaceOf;
    hide Healthy;
    var e2 := AfterImage(d, OpTx(op));
    OpIsSound(sb, d, op);
    if op.append.Some? {
      AppendKeepsNames(sb, d, op);
    }
    SoundIsHealthy(sb, e2);
    HomeSameMeaning(sb, e2, e, {}) by { ValidOf(sb, e2); }
    HealthFrame(sb, e2, e);
  }

  lemma AppendKeepsNames(sb: Superblock, d: Image, op: Op)
    requires Sound(sb, d) && OpPlanned(sb, d, op) && op.append.Some?
    ensures NamespaceOf(sb, AfterImage(d, OpTx(op))) == NamespaceOf(sb, AfterImage(d, ChangeTx(op.change)))
  {
    hide Sound, ChangePlanned, AfterImage, ChangeTx, Merged, Rewritten, HasHistory, History, AppendPlanned, FileKept;
    hide LedgerOn, Known;
    hide SpaceHealthy, NamesHealthy, Healthy, NamespaceOf, Owned, DataBlock, LedgerFile, LedgerIs;
    var e, p := AfterImage(d, ChangeTx(op.change)), op.append.value;
    SoundIsHealthy(sb, d);
    ChangeKeepsLedger(sb, d, op.change, History(sb, d));
    LedgerOnParts(sb, d, History(sb, d));
    AppendBlockIsOwned(sb, d, p);
    AppendStillPlanned(sb, d, e, p);
    AppendOnImage(sb, e, History(sb, d), p);
    MergedImage(d, ChangeTx(op.change), p);
  }

  /** A created object can be looked up and read: generation 1, exactly its bytes. */
  lemma CreateIsVisible(sb: Superblock, d: Image, op: Op, e: Image)
    requires Sound(sb, d) && OpPlanned(sb, d, op) && Leaves(sb, d, op, e) && op.change.NewObject?
    ensures var made, c := op.change.made, op.change.c;
      && LookupRoot(sb, e, c.name) == Success(Found(made.number, made.file)) && made.file.generation == 1
      && Contents(e, made.file) == c.data && IsRegular(made.file.mode)
  {
    hide Sound, Creatable, Created, HomeAgrees, AfterImage, LookupRoot, Contents, ReadInode, NamespaceOf, Healthy, ListedAs;
    hide Holds, DirEntries;
    hide WithEntry, OpTx, HasHistory, History, AppendPlanned, Known, SpaceHealthy, NamesHealthy, FileAt, InodeUsed, Leaves;
    var root, made, c := op.change.root, op.change.made, op.change.c;
    var e1 := AfterImage(d, made.tx);
    SoundIsHealthy(sb, d);
    CreationCreates(sb, d, root, c, made);
    NumberIsFresh(sb, d, op);
    NewHolds(sb, e1, made.number, made.file, c.data);
    OnlyTheChange(sb, d, op, e, made.number, made.file, c.data);
    OnlyTheNames(sb, d, op, e);
    NewIsListed(sb, d, root, c, made);
    LookupHealthy(sb, e, c.name);
    HoldsFile(sb, e, made.number, made.file, c.data);
  }

  lemma NewHolds(sb: Superblock, d: Image, n: nat, i: Inode, bytes: seq<byte>)
    requires ReadInode(sb, d, n) == Success(i) && Contents(d, i) == bytes
    ensures Holds(sb, d, n, i, bytes)
  {
    hide ReadInode, Contents, FileAt, InodeUsed;
    ReadIsFileAt(sb, d, n);
  }

  lemma HoldsFile(sb: Superblock, d: Image, n: nat, i: Inode, bytes: seq<byte>)
    requires Holds(sb, d, n, i, bytes)
    ensures FileAt(sb, d, n) == i && Contents(d, i) == bytes && InodeUsed(sb, d, n) && ReadInode(sb, d, n) == Success(i)
  {
    hide ReadInode, Contents, FileAt, InodeUsed;
  }

  /** The new inode was free, so it is not the ledger. */
  lemma NumberIsFresh(sb: Superblock, d: Image, op: Op)
    requires Sound(sb, d) && OpPlanned(sb, d, op) && op.change.NewObject?
    ensures op.append.Some? ==> op.change.made.number != LEDGER_INODE
  {
    hide Sound, Creatable, Created, LedgerOn, HasHistory, History, AppendPlanned, Known, InodeUsed, FileAt, Healthy;
    if op.append.Some? {
      SoundIsHealthy(sb, d);
      LedgerOnParts(sb, d, History(sb, d));
      LedgerIsUsed(sb, d);
      InodeUsedAfterNew(sb, d, op.change.root, op.change.c, op.change.made, op.change.made.number);
    }
  }

  lemma NewIsListed(sb: Superblock, d: Image, r: Inode, c: Creation, p: NewPlan)
    requires Healthy(sb, d) && Creatable(sb, d, r, c) && Created(sb, d, r, c, p)
    ensures ListedAs(NamespaceOf(sb, AfterImage(d, p.tx)), sb.rootInode, c.name, p.number)
  {
    hide Healthy, Creatable, Created, AfterImage, NamespaceOf, DirEntries, SpaceHealthy, FileAt, ReadInode, Contents;
    var e := AfterImage(d, p.tx);
    HealthyParts(sb, d);
    CreationCreates(sb, d, r, c, p);
    CreationKeepsHealth(sb, d, r, c, p);
    HealthyRoot(sb, e);
    RootIsFile(sb, d, r, c);
    RootListing(sb, d, r, c, p);
    var was, now := DirEntries(d, r).value, DirEntries(e, p.root).value;
    var at :| 0 <= at <= |was| && now == was[..at] + [NewEntry(p.number, c, 0)] + was[at..];
    assert now[at] == NewEntry(p.number, c, 0);
  }

  /** A replaced or written object keeps its inode number; the next generation holds the new bytes. */
  lemma WriteIsVisible(sb: Superblock, d: Image, op: Op, e: Image)
    requires Sound(sb, d) && OpPlanned(sb, d, op) && Leaves(sb, d, op, e) && op.change.FileChange?
    ensures var n, i, req, p := op.change.n, op.change.i, op.change.req, op.change.p;
      && ReadInode(sb, e, n) == Success(p.inode) && p.inode.generation == i.generation + 1
      && Contents(e, p.inode) == Written(Contents(d, i), req)
  {
    hide Sound, Accepts, Planned, HomeAgrees, AfterImage, Contents, ReadInode, OpTx, HasHistory, AppendPlanned, Known;
    hide Written, Leaves, Holds;
    var n, i, req, p := op.change.n, op.change.i, op.change.req, op.change.p;
    var e1 := AfterImage(d, p.tx);
    PlanWritesFile(sb, d, n, i, req, p);
    NewHolds(sb, e1, n, p.inode, Written(Contents(d, i), req));
    if op.append.Some? {
      AppendNeedsLedger(sb, d, op);
    }
    OnlyTheChange(sb, d, op, e, n, p.inode, Written(Contents(d, i), req));
    HoldsFile(sb, e, n, p.inode, Written(Contents(d, i), req));
  }

  lemma AppendNeedsLedger(sb: Superblock, d: Image, op: Op)
    requires OpPlanned(sb, d, op) && op.append.Some?
    ensures sb.featureIncompat == LEDGER_FEATURE
  {
    hide ChangePlanned, AppendPlanned, Known, HasHistory, History, LedgerOn;
    LedgerOnParts(sb, d, History(sb, d));
  }

  /** Names keep their inode numbers. */
  lemma NamesAreKept(sb: Superblock, d: Image, op: Op, e: Image, name: Name)
    requires Sound(sb, d) && OpPlanned(sb, d, op) && Leaves(sb, d, op, e) && LookupRoot(sb, d, name).Success?
    ensures LookupRoot(sb, e, name).Success? && LookupRoot(sb, e, name).value.number == LookupRoot(sb, d, name).value.number
  {
    hide Sound, OpPlanned, HomeAgrees, AfterImage, LookupRoot, NamespaceOf, Healthy, ListedAs, OpTx, HasHistory, History;
    hide ChangeTx, Leaves;
    SoundIsHealthy(sb, d);
    LookupHealthy(sb, d, name);
    var n := LookupRoot(sb, d, name).value.number;
    PlannedChange(sb, d, op);
    ChangeKeepsNames(sb, d, op.change, name, n);
    OnlyTheNames(sb, d, op, e);
    LookupHealthy(sb, e, name);
  }

  lemma PlannedChange(sb: Superblock, d: Image, op: Op)
    requires OpPlanned(sb, d, op)
    ensures ChangePlanned(sb, d, op.change)
  {
    hide ChangePlanned, AppendPlanned, Known, HasHistory, History;
  }

  /** Every file the operation is not about keeps its inode and its bytes. */
  lemma OthersAreKept(sb: Superblock, d: Image, op: Op, e: Image, k: nat)
    requires Sound(sb, d) && OpPlanned(sb, d, op) && Leaves(sb, d, op, e) && InodeUsed(sb, d, k)
    requires op.change.NewObject? ==> k != sb.rootInode
    requires op.change.FileChange? ==> k != op.change.n
    requires op.append.Some? ==> k != LEDGER_INODE
    ensures ReadInode(sb, e, k) == Success(FileAt(sb, d, k)) && Contents(e, FileAt(sb, d, k)) == Contents(d, FileAt(sb, d, k))
  {
    hide Sound, ChangePlanned, HomeAgrees, AfterImage, Contents, ReadInode, OpTx, HasHistory, AppendPlanned, Known, Leaves;
    hide Holds, InodeUsed;
    hide FileAt, ChangeTx, Owned, MapBlock, At, History, SpaceHealthy, NamesHealthy;
    SoundIsHealthy(sb, d);
    var e1, i := AfterImage(d, ChangeTx(op.change)), FileAt(sb, d, k);
    ChangeKeepsFile(sb, d, op.change, k);
    NewHolds(sb, e1, k, i, Contents(d, i));
    OnlyTheChange(sb, d, op, e, k, i, Contents(d, i));
    HoldsFile(sb, e, k, i, Contents(d, i));
  }

  /** The ledger keeps its inode, so its capacity; only its contents change. */
  lemma LedgerInodeIsKept(sb: Superblock, d: Image, op: Op, e: Image)
    requires Sound(sb, d) && HasHistory(sb, d) && OpPlanned(sb, d, op) && Leaves(sb, d, op, e)
    ensures FileAt(sb, e, LEDGER_INODE) == FileAt(sb, d, LEDGER_INODE)
    ensures Capacity(LedgerBytes(sb, e)) == Capacity(LedgerBytes(sb, d))
  {
    hide Sound, HomeAgrees, AfterImage, ChangePlanned, ChangeTx, HasHistory, History, FileAt, SameMeaning, OpTx, LedgerOn;
    hide Healthy;
    hide AppendPlanned, Known, InodeUsed, ReadInode, MapBlock, At, Owned, LedgerFile, LedgerIs, FileKept;
    var e2 := AfterImage(d, OpTx(op));
    SoundIsHealthy(sb, d);
    ChangeKeepsLedger(sb, d, op.change, History(sb, d));
    OpIsSound(sb, d, op);
    SoundIsHealthy(sb, e2);
    AppendedInode(sb, d, op);
    LedgerOnParts(sb, e2, History(sb, e2));
    LedgerIsUsed(sb, e2);
    HomeSameMeaning(sb, e2, e, {}) by { ValidOf(sb, e2); }
    SameInode(sb, e2, e, LEDGER_INODE);
  }

  lemma AppendedInode(sb: Superblock, d: Image, op: Op)
    requires Healthy(sb, d) && HasHistory(sb, d) && OpPlanned(sb, d, op)
    ensures FileAt(sb, AfterImage(d, OpTx(op)), LEDGER_INODE) == FileAt(sb, d, LEDGER_INODE)
  {
    hide Sound, ChangePlanned, AfterImage, ChangeTx, Merged, Rewritten, HasHistory, History, AppendPlanned, LedgerOn, Known;
    hide SpaceHealthy, NamesHealthy, LedgerFile, LedgerIs, ReadInode, Contents, InodeUsed, Owned, MapBlock, OwnBlocksDistinct;
    hide FileAt, NodeOf;
    hide DirEntries, BlockOfFile, Healthy, DataBlock, At;
    var e := AfterImage(d, ChangeTx(op.change));
    ChangeKeepsLedger(sb, d, op.change, History(sb, d));
    if op.append.Some? {
      var p := op.append.value;
      LedgerOnParts(sb, d, History(sb, d));
      LedgerOnParts(sb, e, History(sb, d));
      AppendBlockIsOwned(sb, d, p);
      AppendStillPlanned(sb, d, e, p);
      AppendIsInLedger(sb, e, p);
      HealthyParts(sb, e);
      LedgerIsUsed(sb, e);
      FilesStay(sb, e, LEDGER_INODE, p.logical, p.physical, p.after, LEDGER_INODE);
      MergedImage(d, ChangeTx(op.change), p);
    }
  }
}
