/** Appending a record to the ledger, alone or together with an object plan
    (src/object/request_ledger_plan.cpp). */
module LedgerPlan {
  import opened Bytes
  import opened Errors
  import opened JournalFormat
  import opened OndiskFormat
  import opened Journal
  import opened JournalProtocol
  import opened JournalStore
  import opened ImageView
  import opened Health
  import opened LedgerFormat
  import opened Ledger
  import opened LedgerImage
  import opened BlockRewrite

  datatype AppendPlan = AppendPlan(
    record: LedgerRecord, sequence: nat, logical: nat, physical: nat, before: Block, after: Block, totalBlocks: nat, uuid: Uuid)

  /** Where the slot of a sequence number lies inside its block. */
  function Inside(sequence: nat): (r: nat)
    ensures r + RECORD_SIZE <= BLOCK_SIZE
  {
    if sequence == 0 then 0 else (sequence - 1) % RECORDS_PER_BLOCK * RECORD_SIZE
  }

  function LogicalOf(sequence: nat): nat {
    if sequence == 0 then 0 else (sequence - 1) / RECORDS_PER_BLOCK
  }

  predicate ZeroSlot(b: Block, sequence: nat) {
    AllZero(b[Inside(sequence)..Inside(sequence) + RECORD_SIZE])
  }

  /** `ValidateAppendPlan`. */
  predicate WellFormedAppend(p: AppendPlan) {
    && p.sequence != 0 && p.record.sequence == p.sequence && p.totalBlocks != 0 && p.physical < p.totalBlocks
    && p.logical == LogicalOf(p.sequence) && p.logical < 0x1_0000_0000
    && ZeroSlot(p.before, p.sequence) && ValidRecord(p.record)
    && p.after == Splice(p.before, Inside(p.sequence), RecordBytes(p.record))
  }

  /** The plan writes the next slot of the ledger of this image. */
  predicate AppendPlanned(sb: Superblock, d: Image, p: AppendPlan) {
    var i := FileAt(sb, d, LEDGER_INODE);
    && WellFormedAppend(p) && p.totalBlocks == sb.totalBlocks && p.uuid == sb.uuid
    && p.logical < i.size / BLOCK_SIZE && p.physical == MapBlock(d, i, p.logical) && p.before == At(d, p.physical)
  }

  function Numbered(record: LedgerRecord, next: nat): LedgerRecord {
    record.(sequence := next % 0x1_0000_0000_0000_0000)
  }

  /** Why `PrepareRequestLedgerAppend` refuses, with an index of `size` records. */
  function AppendError(sb: Superblock, d: Image, capacity: nat, size: nat, next: nat, record: LedgerRecord): Option<Errno> {
    if size == capacity then Some(ENOSPC)
    else if sb.featureIncompat % 2 == 0 then Some(ENOTSUP)
    else
      match LookupRoot(sb, d, LEDGER_NAME)
      case Failure(errno) => Some(if errno == ENOENT then EUCLEAN else errno)
      case Success(f) =>
        if f.number != LEDGER_INODE || !LedgerInode(f.inode) || f.inode.size / RECORD_SIZE != capacity then Some(EUCLEAN)
        else if next == 0 || next > capacity then Some(EUCLEAN)
        else if !ZeroSlot(At(d, MapBlock(d, f.inode, LogicalOf(next))), next) then Some(EUCLEAN)
        else if !ValidRecord(Numbered(record, next)) then Some(EINVAL)
        else None
  }

  lemma SlotIsInFile(size: nat, next: nat)
    requires size % BLOCK_SIZE == 0 && 0 < next <= size / RECORD_SIZE
    ensures LogicalOf(next) < size / BLOCK_SIZE
    ensures next - 1 == LogicalOf(next) * RECORDS_PER_BLOCK + (next - 1) % RECORDS_PER_BLOCK
  {
    assert size == size / BLOCK_SIZE * BLOCK_SIZE;
    assert size / RECORD_SIZE == size / BLOCK_SIZE * RECORDS_PER_BLOCK;
  }

  method PrepareRequestLedgerAppend(sb: Superblock, d: Image, index: RequestLedgerIndex, record: LedgerRecord)
    returns (r: Result<AppendPlan>)
    requires ValidSuperblock(sb) && |d| == sb.totalBlocks
    ensures match AppendError(sb, d, index.capacity, |index.records|, index.nextSequence, record)
      case Some(errno) => r == Failure(errno)
      case None =>
        && r.Success? && AppendPlanned(sb, d, r.value)
        && r.value.sequence == index.nextSequence && r.value.record == Numbered(record, index.nextSequence)
  {
    hide LookupRoot, MapBlock, At, ValidRecord, RecordBytes, ValidSuperblock, FileAt, ZeroSlot;
    if index.IsFull() {
      return Failure(ENOSPC);
    }
    if sb.featureIncompat % 2 == 0 {
      return Failure(ENOTSUP);
    }
    var found := LookupRoot(sb, d, LEDGER_NAME);
    if found.Failure? {
      return Failure(if found.errno == ENOENT then EUCLEAN else found.errno);
    }
    var i := found.value.inode;
    if found.value.number != LEDGER_INODE || !LedgerInode(i) || i.size / RECORD_SIZE != index.capacity {
      return Failure(EUCLEAN);
    }
    var sequence := index.nextSequence;
    if sequence == 0 || sequence > index.capacity {
      return Failure(EUCLEAN);
    }
    FoundIsMapped(sb, d, LEDGER_NAME);
    SlotIsInFile(i.size, sequence);
    MappedBlocks(sb, d, i, LogicalOf(sequence));
    var physical := MapLogicalBlock(sb, d, i, LogicalOf(sequence)).value;
    var before := At(d, physical);
    if !ZeroSlot(before, sequence) {
      return Failure(EUCLEAN);
    }
    var numbered := Numbered(record, sequence);
    var encoded := EncodeRecord(numbered);
    if encoded == None {
      return Failure(EINVAL);
    }
    DataIsInside(sb, d, physical);
    r := Success(AppendPlan(numbered, sequence, LogicalOf(sequence), physical, before,
                            Splice(before, Inside(sequence), encoded.value), sb.totalBlocks, sb.uuid));
  }

  lemma FoundIsMapped(sb: Superblock, d: Image, name: seq<byte>)
    requires LookupRoot(sb, d, name).Success?
    ensures var f := LookupRoot(sb, d, name).value;
      f.inode == FileAt(sb, d, f.number) && MappingHolds(sb, d, f.inode) && f.inode.size <= MAX_FILE_SIZE
  {
    hide LookupRoot, MappingHolds;
    FoundIsFile(sb, d, name);
    ReadInodeIsSmall(sb, d, LookupRoot(sb, d, name).value.number);
  }

  // ---- Merging ----

  function Merged(tx: Transaction, p: AppendPlan): Transaction {
    Transaction(tx.before[p.physical := p.before], tx.ordered, tx.metadata[p.physical := p.after])
  }

  predicate Touches(tx: Transaction, b: nat) {
    b in tx.before || b in tx.ordered || b in tx.metadata
  }

  /** `MergeRequestLedgerAppend`. */
  method MergeRequestLedgerAppend(p: AppendPlan, totalBlocks: nat, uuid: Uuid, tx: Transaction) returns (r: Result<Transaction>)
    ensures r == if WellFormedAppend(p) && p.totalBlocks == totalBlocks && p.uuid == uuid && !Touches(tx, p.physical)
                 then Success(Merged(tx, p)) else Failure(EINVAL)
  {
    hide ZeroSlot, ValidRecord, RecordBytes;
    if p.sequence == 0 || p.record.sequence != p.sequence || p.totalBlocks == 0 || p.physical >= p.totalBlocks {
      return Failure(EINVAL);
    }
    if LogicalOf(p.sequence) >= 0x1_0000_0000 || p.logical != LogicalOf(p.sequence) {
      return Failure(EINVAL);
    }
    if !ZeroSlot(p.before, p.sequence) {
      return Failure(EINVAL);
    }
    var encoded := EncodeRecord(p.record);
    if encoded == None {
      return Failure(EINVAL);
    }
    if p.after != Splice(p.before, Inside(p.sequence), encoded.value) {
      return Failure(EINVAL);
    }
    if p.totalBlocks != totalBlocks || p.uuid != uuid {
      return Failure(EINVAL);
    }
    if Touches(tx, p.physical) {
      return Failure(EINVAL);
    }
    r := Success(Merged(tx, p));
  }

  /** A merged transaction does what the object plan does, and then rewrites the ledger block. */
  lemma MergedImage(d: Image, tx: Transaction, p: AppendPlan)
    ensures AfterImage(d, Merged(tx, p)) == Rewritten(AfterImage(d, tx), p.physical, p.after)
  {
    var a, b := AfterImage(d, Merged(tx, p)), Rewritten(AfterImage(d, tx), p.physical, p.after);
    assert |a| == |b|;
    forall k | 0 <= k < |a|
      ensures a[k] == b[k]
    {}
  }

  /** A merged transaction passes the journal's checks if the object plan does. */
  lemma MergedIsCovered(sb: Superblock, d: Image, tx: Transaction, p: AppendPlan)
    requires Covered(sb, tx) && MatchesImage(d, tx.before) && !Touches(tx, p.physical)
    requires sb.data.start <= p.physical < sb.totalBlocks && At(d, p.physical) == p.before && ValidSuperblock(sb)
    ensures Covered(sb, Merged(tx, p)) && MatchesImage(d, Merged(tx, p).before)
  {
  }

  // ---- What an append does to the ledger ----

  /** The ledger block of the plan belongs to the ledger file. */
  lemma AppendIsInLedger(sb: Superblock, d: Image, p: AppendPlan)
    requires Healthy(sb, d) && LedgerFile(sb, d) && AppendPlanned(sb, d, p)
    ensures BlockOfFile(sb, d, LEDGER_INODE, p.logical, p.physical) && DataBlock(sb, d, p.physical)
  {
    hide Healthy, LookupRoot, WellFormedAppend, FileAt, MapBlock, At, DataBlock, NamesHealthy, SpaceHealthy, InodeUsed;
    LookupHealthy(sb, d, LEDGER_NAME);
    HealthyParts(sb, d);
    ReadableKind(sb, d, LEDGER_INODE);
    BlockIsData(sb, d, LEDGER_INODE, p.logical, p.physical);
  }

  lemma HealthyParts(sb: Superblock, d: Image)
    requires Healthy(sb, d)
    ensures SpaceHealthy(sb, d) && NamesHealthy(sb, d)
  {
    hide SpaceHealthy, NamesHealthy;
  }

  /** Byte by byte the new contents are the old ones with the record in its slot. */
  lemma AppendedContents(sb: Superblock, d: Image, p: AppendPlan)
    requires Healthy(sb, d) && LedgerFile(sb, d) && AppendPlanned(sb, d, p)
    ensures var i, e := FileAt(sb, d, LEDGER_INODE), Rewritten(d, p.physical, p.after);
      && p.sequence <= Capacity(Contents(d, i))
      && Contents(e, i) == Appended(Contents(d, i), p.sequence - 1, p.record)
  {
    hide Healthy, LookupRoot, FileAt, MapBlock, At, Rewritten, ValidRecord, RecordBytes, ZeroSlot, BlockOfFile, DataBlock, Splice;
    var i, e := FileAt(sb, d, LEDGER_INODE), Rewritten(d, p.physical, p.after);
    AppendIsInLedger(sb, d, p);
    HealthyParts(sb, d);
    AppendFits(i.size, p.sequence);
    forall k | 0 <= k < i.size
      ensures Contents(e, i)[k] == Appended(Contents(d, i), p.sequence - 1, p.record)[k]
    {
      AppendedByte(sb, d, p, k);
    }
  }

  lemma AppendedByte(sb: Superblock, d: Image, p: AppendPlan, k: nat)
    requires SpaceHealthy(sb, d) && WellFormedAppend(p) && BlockOfFile(sb, d, LEDGER_INODE, p.logical, p.physical)
    requires var i := FileAt(sb, d, LEDGER_INODE);
      k < i.size && i.size % BLOCK_SIZE == 0 && p.logical < i.size / BLOCK_SIZE && p.before == At(d, p.physical)
      && p.physical == MapBlock(d, i, p.logical) && p.sequence * RECORD_SIZE <= i.size
    ensures var i, e := FileAt(sb, d, LEDGER_INODE), Rewritten(d, p.physical, p.after);
      Contents(e, i)[k] == Appended(Contents(d, i), p.sequence - 1, p.record)[k]
  {
    hide SpaceHealthy, FileAt, MapBlock, At, Rewritten, ValidRecord, RecordBytes, ZeroSlot, BlockOfFile, Splice, Inside;
    hide LogicalOf;
    var i := FileAt(sb, d, LEDGER_INODE);
    AppendFits(i.size, p.sequence);
    LogicalBlockOf(k, i.size);
    RewriteChangesBlock(sb, d, LEDGER_INODE, p.logical, p.physical, p.after, k / BLOCK_SIZE);
    SpliceInBlock(Contents(d, i), p.before, p.logical, Inside(p.sequence), RecordBytes(p.record), k);
  }

  lemma AppendFits(size: nat, sequence: nat)
    requires size % BLOCK_SIZE == 0 && sequence > 0 && LogicalOf(sequence) < size / BLOCK_SIZE
    ensures sequence * RECORD_SIZE <= size
    ensures (sequence - 1) * RECORD_SIZE == LogicalOf(sequence) * BLOCK_SIZE + Inside(sequence)
    ensures (LogicalOf(sequence) + 1) * BLOCK_SIZE <= size
  {
    assert size == size / BLOCK_SIZE * BLOCK_SIZE;
  }

  /** Writing into block `l` of a file is writing into the file. */
  lemma SpliceInBlock(s: seq<byte>, b: Block, l: nat, inside: nat, data: seq<byte>, k: nat)
    requires (l + 1) * BLOCK_SIZE <= |s| && inside + |data| <= BLOCK_SIZE && k < |s|
    requires k / BLOCK_SIZE == l ==> b[k % BLOCK_SIZE] == s[k]
    ensures Splice(s, l * BLOCK_SIZE + inside, data)[k]
         == if k / BLOCK_SIZE == l then Splice(b, inside, data)[k % BLOCK_SIZE] else s[k]
  {
    hide Splice;
    var at := l * BLOCK_SIZE + inside;
    var t := Splice(s, at, data);
    if at <= k < at + |data| {
      assert k / BLOCK_SIZE == l && k % BLOCK_SIZE == k - l * BLOCK_SIZE;
      assert t[at..at + |data|][k - at] == data[k - at];
      assert Splice(b, inside, data)[inside..inside + |data|][k - at] == data[k - at];
    } else if k / BLOCK_SIZE == l {
      assert k == l * BLOCK_SIZE + k % BLOCK_SIZE;
    }
  }

  /** An append that does not repeat a Request-ID extends the history by its record; the image stays
      healthy, with the same names. */
  lemma AppendOnImage(sb: Superblock, d: Image, rs: seq<LedgerRecord>, p: AppendPlan)
    requires Healthy(sb, d) && LedgerOn(sb, d, rs) && AppendPlanned(sb, d, p)
    requires p.sequence == |rs| + 1 && !Known(rs, p.record.id)
    ensures var e := Rewritten(d, p.physical, p.after);
      Healthy(sb, e) && NamespaceOf(sb, e) == NamespaceOf(sb, d) && LedgerOn(sb, e, rs + [p.record])
  {
    hide Healthy, LookupRoot, FileAt, MapBlock, At, Rewritten, ValidRecord, RecordBytes, ZeroSlot, BlockOfFile, DataBlock;
    hide Appended;
    hide LedgerIs, Known, NamespaceOf, Contents, Owned, NodeOf, DirEntries, LedgerFile, OwnBlocksDistinct, ReadInode;
    var e, i := Rewritten(d, p.physical, p.after), FileAt(sb, d, LEDGER_INODE);
    AppendIsInLedger(sb, d, p);
    HealthyParts(sb, d);
    RewriteKeepsHealth(sb, d, LEDGER_INODE, p.logical, p.physical, p.after);
    LedgerIsUsed(sb, d);
    FilesStay(sb, d, LEDGER_INODE, p.logical, p.physical, p.after, LEDGER_INODE);
    SameLedgerFile(sb, d, e);
    AppendedContents(sb, d, p);
    AppendExtends(Contents(d, i), rs, p.record);
  }

  lemma LedgerIsUsed(sb: Superblock, d: Image)
    requires Healthy(sb, d) && LedgerFile(sb, d)
    ensures InodeUsed(sb, d, LEDGER_INODE) && IsRegular(FileAt(sb, d, LEDGER_INODE).mode)
    ensures ListedAs(NamespaceOf(sb, d), sb.rootInode, LEDGER_NAME, LEDGER_INODE)
    ensures LedgerInode(FileAt(sb, d, LEDGER_INODE)) && sb.featureIncompat == LEDGER_FEATURE
  {
    hide Healthy, LookupRoot, FileAt, InodeUsed, ListedAs, NamespaceOf;
    LookupHealthy(sb, d, LEDGER_NAME);
  }

  /** The ledger file is found again wherever its inode and its name are the same. */
  lemma SameLedgerFile(sb: Superblock, d: Image, e: Image)
    requires Healthy(sb, d) && LedgerFile(sb, d) && Healthy(sb, e)
    requires FileAt(sb, e, LEDGER_INODE) == FileAt(sb, d, LEDGER_INODE)
    requires ListedAs(NamespaceOf(sb, e), sb.rootInode, LEDGER_NAME, LEDGER_INODE)
    ensures LedgerFile(sb, e)
  {
    hide Healthy, LookupRoot, FileAt, InodeUsed, ListedAs, NamespaceOf;
    LookupHealthy(sb, e, LEDGER_NAME);
  }

  /** Nor does it matter what happens outside allocated blocks. */
  lemma LedgerFrame(sb: Superblock, d: Image, e: Image, rs: seq<LedgerRecord>)
    requires Healthy(sb, d) && LedgerOn(sb, d, rs) && SameMeaning(sb, d, e)
    ensures Healthy(sb, e) && LedgerOn(sb, e, rs)
  {
    hide Healthy, LookupRoot, FileAt, InodeUsed, ListedAs, NamespaceOf, SameMeaning, LedgerFile, LedgerIs, Contents;
    hide SpaceHealthy, NamesHealthy;
    HealthFrame(sb, d, e);
    HealthyParts(sb, d);
    LedgerIsUsed(sb, d);
    SameInode(sb, d, e, LEDGER_INODE);
    SameLedgerFile(sb, d, e);
  }

  /** With an index of the ledger's own history, an append fails only when the ledger is full or the
      record is invalid. */
  lemma AppendErrorOfLedger(sb: Superblock, d: Image, rs: seq<LedgerRecord>, record: LedgerRecord, capacity: nat)
    requires Healthy(sb, d) && LedgerOn(sb, d, rs) && capacity == Capacity(LedgerBytes(sb, d))
    ensures AppendError(sb, d, capacity, |rs|, |rs| + 1, record)
         == if |rs| == capacity then Some(ENOSPC) else if !ValidRecord(Numbered(record, |rs| + 1)) then Some(EINVAL) else None
  {
    hide Healthy, LookupRoot, FileAt, ValidRecord, MapBlock, At, DecodeSlot, ZeroSlot, Numbered;
    if |rs| < capacity {
      NextSlotIsZero(d, FileAt(sb, d, LEDGER_INODE), rs);
    }
  }

  lemma NextSlotIsZero(d: Image, i: Inode, rs: seq<LedgerRecord>)
    requires i.size % BLOCK_SIZE == 0 && LedgerIs(Contents(d, i), rs) && |rs| < Capacity(Contents(d, i))
    ensures ZeroSlot(At(d, MapBlock(d, i, LogicalOf(|rs| + 1))), |rs| + 1)
  {
    hide MapBlock, At, DecodeSlot, Contents;
    SlotIsInFile(i.size, |rs| + 1);
    SlotInBlock(d, i, LogicalOf(|rs| + 1), |rs| % RECORDS_PER_BLOCK);
    assert AllZero(SlotAt(Contents(d, i), |rs|));
  }
}
