/** Replacing the ledger file itself. Nothing in the source keeps a client from naming it: the request is
    planned, its record is merged, and the transaction commits. What is left of the history then depends
    on the data alone. */
module LedgerReplaced {
  import opened Bytes
  import opened Errors
  import opened OndiskFormat
  import opened Journal
  import opened JournalProtocol
  import opened Bitmap
  import opened ImageView
  import opened ImageEdit
  import opened Directory
  import opened FilePlan
  import opened FileHealth
  import opened Health
  import opened LedgerFormat
  import opened Ledger
  import opened LedgerImage
  import opened LedgerPlan
  import opened BlockRewrite
  import opened StoreOps

  predicate LedgerSize(size: nat) {
    size != 0 && size % BLOCK_SIZE == 0
  }

  /** The change alone: the ledger file holds whatever was written. */
  lemma LedgerWritten(sb: Superblock, d: Image, req: Request, p: Plan, rs: seq<LedgerRecord>)
    requires Healthy(sb, d) && LedgerFile(sb, d)
    requires Accepts(sb, d, LEDGER_INODE, FileAt(sb, d, LEDGER_INODE), req)
    requires Planned(sb, d, LEDGER_INODE, FileAt(sb, d, LEDGER_INODE), req, p)
    ensures Healthy(sb, AfterImage(d, p.tx))
    ensures LedgerOn(sb, AfterImage(d, p.tx), rs) <==>
      var i := FileAt(sb, d, LEDGER_INODE); LedgerSize(NewSize(i, req)) && LedgerIs(Written(Contents(d, i), req), rs)
  {
    hide Healthy, Accepts, Planned, AfterImage, LookupRoot, InodeUsed, ListedAs, NamespaceOf, LedgerIs, Contents, Written, MapBlock;
    hide InodeAt, MappingHolds;
    var i, e := FileAt(sb, d, LEDGER_INODE), AfterImage(d, p.tx);
    FilePlanKeepsHealth(sb, d, LEDGER_INODE, i, req, p);
    PlanWritesFile(sb, d, LEDGER_INODE, i, req, p);
    PlannedShape(sb, d, LEDGER_INODE, i, req, p);
    LedgerIsUsed(sb, d);
    LookupHealthy(sb, e, LEDGER_NAME);
  }

  lemma PlannedShape(sb: Superblock, d: Image, n: nat, i: Inode, req: Request, p: Plan)
    requires Planned(sb, d, n, i, req, p)
    ensures p.inode.mode == i.mode && p.inode.linkCount == i.linkCount && p.inode.size == NewSize(i, req)
  {
    hide DataPlanned, SpacePlanned, Realizes, DirectPointers;
  }

  /** With its record: the slot it is written to belongs to the old file, which is released by the same
      transaction, so the record is lost as well. */
  lemma LedgerReplacedWithRecord(sb: Superblock, d: Image, req: Request, p: Plan, a: AppendPlan, rs: seq<LedgerRecord>)
    requires Healthy(sb, d) && LedgerFile(sb, d) && req.mode == ReplaceAll && AppendPlanned(sb, d, a)
    requires Accepts(sb, d, LEDGER_INODE, FileAt(sb, d, LEDGER_INODE), req)
    requires Planned(sb, d, LEDGER_INODE, FileAt(sb, d, LEDGER_INODE), req, p)
    ensures !Touches(p.tx, a.physical)
    ensures LedgerOn(sb, AfterImage(d, Merged(p.tx, a)), rs) <==> LedgerSize(|req.data|) && LedgerIs(req.data, rs)
  {
    hide Healthy, Accepts, Planned, AfterImage, LedgerOn, LedgerIs, LedgerFile, AppendPlanned, FileAt, Merged, SameMeaning, DataBlock, Touches;
    hide BlockOfFile, Contents, SpaceHealthy, NamesHealthy;
    var i, e, f := FileAt(sb, d, LEDGER_INODE), AfterImage(d, p.tx), AfterImage(d, Merged(p.tx, a));
    AppendIsInLedger(sb, d, a);
    FilePlanTouches(sb, d, LEDGER_INODE, i, req, p, a.physical);
    LedgerWritten(sb, d, req, p, rs);
    AllWritten(Contents(d, i), req);
    SlotIsReleased(sb, d, i, req, p, a);
    MergedImage(d, p.tx, a);
    OutsideMeaning(sb, e, a.physical, a.after) by {
      HealthyParts(sb, e);
      ValidOf(sb, e);
    }
    HealthFrame(sb, e, f);
    if LedgerOn(sb, e, rs) {
      LedgerFrame(sb, e, f, rs);
    }
    if LedgerOn(sb, f, rs) {
      LedgerFrame(sb, f, e, rs);
    }
  }

  lemma AllWritten(was: seq<byte>, req: Request)
    requires req.mode == ReplaceAll
    ensures Written(was, req) == req.data && forall i: Inode :: NewSize(i, req) == |req.data|
  {}

  lemma SlotIsReleased(sb: Superblock, d: Image, i: Inode, req: Request, p: Plan, a: AppendPlan)
    requires Healthy(sb, d) && i == FileAt(sb, d, LEDGER_INODE) && AppendPlanned(sb, d, a) && req.mode == ReplaceAll
    requires Accepts(sb, d, LEDGER_INODE, i, req) && Planned(sb, d, LEDGER_INODE, i, req, p) && DataBlock(sb, d, a.physical)
    ensures !DataBlock(sb, AfterImage(d, p.tx), a.physical) && sb.data.start <= a.physical
  {
    hide Healthy, Accepts, Planned, AfterImage, WellFormedAppend, FileAt, MapBlock, BlockUsed;
    UsedAfter(sb, d, LEDGER_INODE, i, req, p, a.physical);
    DataBlockKept(sb, d, LEDGER_INODE, i, req, p, a.physical);
    assert a.logical < RequiredBlocks(i.size);
    assert a.physical in ReleasedBlocks(d, i, req);
  }

  lemma OutsideMeaning(sb: Superblock, e: Image, b: nat, v: Block)
    requires ValidSuperblock(sb) && |e| == sb.totalBlocks && sb.data.start <= b && !DataBlock(sb, e, b)
    ensures SameMeaning(sb, e, Rewritten(e, b, v)) && SameMeaning(sb, Rewritten(e, b, v), e)
  {
    hide ValidSuperblock, TestBit;
    RegionsDisjoint(sb);
    var f := Rewritten(e, b, v);
    SameRegion(sb, e, f, sb.blockBitmap);
  }

  /** The exact outcome for the history: it survives, as the history the data holds, if and only if the
      data is itself a ledger. */
  lemma ReplacedLedger(sb: Superblock, d: Image, req: Request, p: Plan, a: AppendPlan)
    requires Healthy(sb, d) && LedgerFile(sb, d) && req.mode == ReplaceAll && AppendPlanned(sb, d, a)
    requires Accepts(sb, d, LEDGER_INODE, FileAt(sb, d, LEDGER_INODE), req)
    requires Planned(sb, d, LEDGER_INODE, FileAt(sb, d, LEDGER_INODE), req, p)
    ensures HasHistory(sb, AfterImage(d, Merged(p.tx, a))) <==> LedgerSize(|req.data|) && exists rs :: LedgerIs(req.data, rs)
    ensures req.data == [] ==> !HasHistory(sb, AfterImage(d, Merged(p.tx, a)))
  {
    hide Healthy, Accepts, Planned, AfterImage, LedgerOn, LedgerIs, LedgerFile, AppendPlanned, FileAt, Merged, Touches;
    forall rs: seq<LedgerRecord>
      ensures LedgerOn(sb, AfterImage(d, Merged(p.tx, a)), rs) <==> LedgerSize(|req.data|) && LedgerIs(req.data, rs)
    {
      LedgerReplacedWithRecord(sb, d, req, p, a, rs);
    }
  }
}
