/** The request ledger as a file of the image: where it is, how a restart reads it, and what it means
    that an image holds a ledger with a given history (src/object/request_ledger_index.cpp). */
module LedgerImage {
  import opened Bytes
  import opened Errors
  import opened OndiskFormat
  import opened Journal
  import opened JournalProtocol
  import opened ImageView
  import opened Directory
  import opened Health
  import opened ObjectPlan
  import opened LedgerFormat
  import opened Ledger

  const LEDGER_INODE: u32 := 2
  const LEDGER_FEATURE: u64 := 1

  /** ".eufs.request-ledger" */
  const LEDGER_NAME: Name := [46, 101, 117, 102, 115, 46, 114, 101, 113, 117, 101, 115, 116, 45, 108, 101, 100, 103, 101, 114]

  // ---- Looking up a name in the root directory ----

  datatype Found = Found(number: u32, inode: Inode)

  function IndexOf(es: seq<Entry>, name: Name): (r: Option<nat>)
    ensures match r
      case Some(k) => k < |es| && es[k].name == name
      case None => !NameIn(es, name)
  {
    if es == [] then None
    else if es[0].name == name then Some(0)
    else
      match IndexOf(es[1..], name)
      case Some(k) => Some(k + 1)
      case None => assert forall k :: 0 < k < |es| ==> es[k] == es[1..][k - 1]; None
  }

  /** `ResolvePath` of a name in the root. */
  function LookupRoot(sb: Superblock, d: Image, name: Name): Result<Found> {
    match ReadInode(sb, d, sb.rootInode)
    case Failure(errno) => Failure(errno)
    case Success(r) =>
      if !IsDirectory(r.mode) then Failure(ENOTDIR)
      else if !Listable(sb, d, r) then Failure(EUCLEAN)
      else
        match IndexOf(DirEntries(d, r).value, name)
        case None => Failure(ENOENT)
        case Some(k) =>
          var n := DirEntries(d, r).value[k].inode;
          match ReadInode(sb, d, n)
          case Failure(errno) => Failure(errno)
          case Success(i) => Success(Found(n, i))
  }

  /** The root lists `name` as inode `n`. */
  predicate ListedAs(ns: Namespace, root: nat, name: Name, n: nat) {
    root in ns && exists k :: 0 <= k < |ns[root].entries| && ns[root].entries[k].name == name && ns[root].entries[k].inode == n
  }

  /** In a healthy image the root is readable and all its entries are. */
  lemma HealthyRoot(sb: Superblock, d: Image)
    requires Healthy(sb, d)
    ensures var r := FileAt(sb, d, sb.rootInode);
      && ReadInode(sb, d, sb.rootInode) == Success(r) && IsDirectory(r.mode) && Listable(sb, d, r)
      && sb.rootInode in NamespaceOf(sb, d) && NamespaceOf(sb, d)[sb.rootInode].entries == DirEntries(d, r).value
  {
    hide BitmapsWellFormed, OwnedBySome, OwnBlocksDistinct, ReadInode, ValidSuperblock, InodeAt, DirEntries, Owned, DataBlock;
    hide RegionBytes;
    hide SingleParents, Reachable, LinksHealthy, FileAt;
    var r, ns := FileAt(sb, d, sb.rootInode), NamespaceOf(sb, d);
    assert EntriesHealthy(ns, sb.rootInode, ns[sb.rootInode]);
    var es := DirEntries(d, r).value;
    forall k | 0 <= k < |es|
      ensures EntryReadable(sb, d, es[k])
    {
      assert EntryHealthy(ns, sb.rootInode, es[k]);
      ReadableKind(sb, d, es[k].inode);
    }
  }

  lemma ReadableKind(sb: Superblock, d: Image, n: nat)
    requires SpaceHealthy(sb, d) && InodeUsed(sb, d, n)
    ensures ReadInode(sb, d, n) == Success(FileAt(sb, d, n))
    ensures IsRegular(FileAt(sb, d, n).mode) || IsDirectory(FileAt(sb, d, n).mode)
    ensures IsRegular(FileAt(sb, d, n).mode) <==> !IsDirectory(FileAt(sb, d, n).mode)
  {
    hide BitmapsWellFormed, OwnedBySome, OwnBlocksDistinct, ValidSuperblock, Owned, DataBlock, MappingHolds, InodeUsed;
  }

  /** In a healthy image the lookup finds exactly what the root lists, and fails only for a missing name. */
  lemma LookupHealthy(sb: Superblock, d: Image, name: Name)
    requires Healthy(sb, d)
    ensures match LookupRoot(sb, d, name)
      case Success(f) =>
        f.inode == FileAt(sb, d, f.number) && InodeUsed(sb, d, f.number)
        && forall n: nat :: ListedAs(NamespaceOf(sb, d), sb.rootInode, name, n) <==> n == f.number
      case Failure(errno) => errno == ENOENT && forall n: nat :: !ListedAs(NamespaceOf(sb, d), sb.rootInode, name, n)
  {
    hide Healthy, ReadInode, NamespaceOf, DirEntries;
    HealthyRoot(sb, d);
    var es := DirEntries(d, FileAt(sb, d, sb.rootInode)).value;
    match IndexOf(es, name) {
      case None =>
      case Some(k) =>
        assert EntryReadable(sb, d, es[k]);
        HealthyRead(sb, d, es[k].inode);
        assert forall j :: 0 <= j < |es| && es[j].name == name ==> j == k;
    }
  }

  lemma HealthyRead(sb: Superblock, d: Image, n: nat)
    requires Healthy(sb, d) && ReadInode(sb, d, n).Success?
    ensures ReadInode(sb, d, n).value == FileAt(sb, d, n) && InodeUsed(sb, d, n)
  {
    hide Healthy, MappingHolds, InodeAt, InodeUsed;
  }

  // ---- The ledger of an image ----

  predicate LedgerInode(i: Inode) {
    IsRegular(i.mode) && i.linkCount == 1 && i.size != 0 && i.size % BLOCK_SIZE == 0
  }

  function LedgerBytes(sb: Superblock, d: Image): seq<byte> {
    Contents(d, FileAt(sb, d, LEDGER_INODE))
  }

  /** The fixed name, the fixed inode number, and the geometry a ledger has to have. */
  ghost predicate LedgerFile(sb: Superblock, d: Image) {
    && sb.featureIncompat == LEDGER_FEATURE
    && LookupRoot(sb, d, LEDGER_NAME) == Success(Found(LEDGER_INODE, FileAt(sb, d, LEDGER_INODE)))
    && LedgerInode(FileAt(sb, d, LEDGER_INODE))
  }

  /** The image holds a ledger with exactly this history. */
  ghost predicate LedgerOn(sb: Superblock, d: Image, rs: seq<LedgerRecord>) {
    LedgerFile(sb, d) && LedgerIs(LedgerBytes(sb, d), rs)
  }

  lemma LedgerOnIsUnique(sb: Superblock, d: Image, rs: seq<LedgerRecord>, ts: seq<LedgerRecord>)
    requires LedgerOn(sb, d, rs) && LedgerOn(sb, d, ts)
    ensures rs == ts
  {
    hide LedgerFile, LedgerBytes, SlotsHold;
    LedgerIsUnique(LedgerBytes(sb, d), rs, ts);
  }

  /** A slot of the file is a slot of one of its blocks. */
  lemma SlotInBlock(d: Image, i: Inode, logical: nat, local: nat)
    requires i.size % BLOCK_SIZE == 0 && logical < i.size / BLOCK_SIZE && local < RECORDS_PER_BLOCK
    ensures var k := logical * RECORDS_PER_BLOCK + local;
      && k < Capacity(Contents(d, i))
      && SlotAt(Contents(d, i), k) == At(d, MapBlock(d, i, logical))[local * RECORD_SIZE..(local + 1) * RECORD_SIZE]
  {
    hide MapBlock, At;
    var k := logical * RECORDS_PER_BLOCK + local;
    var at := k * RECORD_SIZE;
    assert at == logical * BLOCK_SIZE + local * RECORD_SIZE;
    assert at / BLOCK_SIZE == logical && at % BLOCK_SIZE == local * RECORD_SIZE;
    ChunkOfContents(d, i, at, RECORD_SIZE);
  }

  /** Why a scan refuses the image before it reads a slot. */
  function LedgerError(sb: Superblock, d: Image): Option<Errno> {
    if sb.featureIncompat % 2 == 0 then Some(ENOTSUP)
    else if sb.featureIncompat > LEDGER_FEATURE then Some(ENOTSUP)
    else
      match LookupRoot(sb, d, LEDGER_NAME)
      case Failure(errno) => Some(if errno == ENOENT then EUCLEAN else errno)
      case Success(f) => if f.number != LEDGER_INODE || !LedgerInode(f.inode) then Some(EUCLEAN) else None
  }

  lemma NoErrorIsLedgerFile(sb: Superblock, d: Image)
    ensures LedgerError(sb, d) == None <==> LedgerFile(sb, d)
  {
    hide ReadInode, Listable, DirEntries, InodeAt;
    match LookupRoot(sb, d, LEDGER_NAME)
    case Failure(_) =>
    case Success(f) => FoundIsFile(sb, d, LEDGER_NAME);
  }

  lemma FoundIsFile(sb: Superblock, d: Image, name: Name)
    requires LookupRoot(sb, d, name).Success?
    ensures var f := LookupRoot(sb, d, name).value; f.inode == FileAt(sb, d, f.number) && ReadInode(sb, d, f.number) == Success(f.inode)
  {
    hide Listable, DirEntries, MappingHolds, InodeAt, InodeUsed;
  }

  /** `ScanRequestLedger`: succeeds exactly when the image holds a ledger, a prefix of valid records with
      distinct ids followed by zero slots, and then builds the index of its history. */
  method ScanRequestLedger(sb: Superblock, d: Image) returns (r: Result<RequestLedgerIndex>, ghost rs: seq<LedgerRecord>)
    ensures LedgerError(sb, d).Some? ==> r == Failure(LedgerError(sb, d).value)
    ensures LedgerError(sb, d) == None && r.Failure? ==> r.errno == EUCLEAN
    ensures r.Success? ==>
      fresh(r.value) && LedgerOn(sb, d, rs) && r.value.Indexes(Capacity(LedgerBytes(sb, d)), rs)
    ensures r.Failure? ==> forall ts :: !LedgerOn(sb, d, ts)
  {
    hide LedgerIs, LedgerFile, LookupRoot, IndexOf;
    NoErrorIsLedgerFile(sb, d);
    rs := [];
    var error := LedgerError(sb, d);
    if error.Some? {
      return Failure(error.value), rs;
    }
    var found := LookupRoot(sb, d, LEDGER_NAME);
    FoundIsFile(sb, d, LEDGER_NAME);
    ReadInodeIsSmall(sb, d, LEDGER_INODE);
    var index;
    index, rs := ScanSlots(sb, d, found.value.inode);
    r := if index.Some? then Success(index.value) else Failure(EUCLEAN);
  }

  /** The slot loops of the scan, block by block. */
  method ScanSlots(sb: Superblock, d: Image, i: Inode) returns (index: Option<RequestLedgerIndex>, ghost rs: seq<LedgerRecord>)
    requires i.size % BLOCK_SIZE == 0 && MappingHolds(sb, d, i) && i.size <= MAX_FILE_SIZE
    ensures index.Some? ==> fresh(index.value) && LedgerIs(Contents(d, i), rs) && index.value.Indexes(Capacity(Contents(d, i)), rs)
    ensures index == None ==> forall ts :: !LedgerIs(Contents(d, i), ts)
  {
    hide DecodeSlot, RecordMap, MappingHolds, MapBlock, Contents, At, Scanned, LedgerIs;
    var records: map<RequestId, LedgerRecord> := map[];
    rs := [];
    var sawEmpty := false;
    ScanStarts(Contents(d, i));
    for logical := 0 to i.size / BLOCK_SIZE
      invariant Scanned(Contents(d, i), logical * RECORDS_PER_BLOCK, rs, sawEmpty) && records == RecordMap(rs)
    {
      MappedBlocks(sb, d, i, logical);
      var block := At(d, MapLogicalBlock(sb, d, i, logical).value);
      for local := 0 to RECORDS_PER_BLOCK
        invariant Scanned(Contents(d, i), logical * RECORDS_PER_BLOCK + local, rs, sawEmpty) && records == RecordMap(rs)
      {
        SlotInBlock(d, i, logical, local);
        var k := logical * RECORDS_PER_BLOCK + local;
        var slot := DecodeSlot(block[local * RECORD_SIZE..(local + 1) * RECORD_SIZE], k + 1);
        if slot.Corrupt? || (slot.Used? && (sawEmpty || slot.record.id in records)) {
          ScanRefuses(Contents(d, i), k, rs, sawEmpty, slot);
          return None, rs;
        }
        ScanStep(Contents(d, i), k, rs, sawEmpty, slot);
        if slot.Empty? {
          sawEmpty := true;
        } else {
          rs := rs + [slot.record];
          records := records[slot.record.id := slot.record];
        }
      }
    }
    ScanEnds(Contents(d, i), rs, sawEmpty);
    var found := new RequestLedgerIndex(Capacity(Contents(d, i)), records);
    index := Some(found);
  }
}
