/** Request ledger records (src/object/request_ledger_format.cpp). */
module LedgerFormat {
  import opened Bytes
  import opened RecordLayout
  import Crc32c

  const RECORD_SIZE: nat := 128
  const RECORDS_PER_BLOCK: nat := 32

  type RequestId = s: seq<byte> | |s| == 16 witness Zeros(16)
  type Fingerprint = s: seq<byte> | |s| == 32 witness Zeros(32)
  type SlotBytes = s: seq<byte> | |s| == RECORD_SIZE witness Zeros(RECORD_SIZE)

  const CREATE: byte := 1
  const REPLACE: byte := 2
  const COMMITTED: byte := 1
  const NOT_APPLIED: byte := 2
  const OK: u32 := 1
  const ALREADY_EXISTS: u32 := 2
  const VERSION_MISMATCH: u32 := 3
  const NOT_FOUND: u32 := 4

  datatype LedgerRecord = LedgerRecord(
    operation: byte, kind: byte, id: RequestId, fingerprint: Fingerprint, code: u32,
    committedInode: u32, committedGeneration: u64, currentInode: u32, currentGeneration: u64, sequence: u64)

  /** `ValidateRecord`: a committed result names the version it made; a rejection names the current one,
      unless nothing was found. */
  predicate ValidRecord(r: LedgerRecord) {
    && (r.operation == CREATE || r.operation == REPLACE) && !AllZero(r.id) && r.sequence != 0
    && if r.kind == COMMITTED then
         r.code == OK && r.committedInode != 0 && r.committedGeneration != 0 && r.currentInode == 0 && r.currentGeneration == 0
       else
         && r.kind == NOT_APPLIED && r.committedInode == 0 && r.committedGeneration == 0
         && (if r.operation == CREATE then r.code == ALREADY_EXISTS else r.code == VERSION_MISMATCH || r.code == NOT_FOUND)
         && (if r.code == NOT_FOUND then r.currentInode == 0 && r.currentGeneration == 0
             else r.currentInode != 0 && r.currentGeneration != 0)
  }

  const LEDGER_HEAD: seq<Field> :=
    [Fixed([69, 85, 76, 71]), Fixed([1, 0]), Number(1), Number(1), Raw(16), Raw(32), Number(4), Number(4), Number(8),
     Number(4), Number(8), Number(8)]
  const LEDGER: Layout := Layout(LEDGER_HEAD, [Reserved(32)])

  lemma LedgerSize()
    ensures Total(LEDGER_HEAD) == 92 && Size(LEDGER) == RECORD_SIZE
  {
    assert TotalFrom(LEDGER_HEAD, 10) == 16;
    assert TotalFrom(LEDGER_HEAD, 8) == 28;
    assert TotalFrom(LEDGER_HEAD, 6) == 36;
    assert TotalFrom(LEDGER_HEAD, 4) == 84;
    assert TotalFrom(LEDGER_HEAD, 2) == 86;
    assert TotalFrom(LEDGER.tail, 0) == 32;
  }

  function RecordValues(r: LedgerRecord): (v: Record)
    ensures RecordFits(LEDGER, v)
  {
    Widths();
    Record([Unit, Unit, Num(r.operation), Num(r.kind), Text(r.id), Text(r.fingerprint), Num(r.code), Num(r.committedInode),
            Num(r.committedGeneration), Num(r.currentInode), Num(r.currentGeneration), Num(r.sequence)], [Unit])
  }

  function RecordOfValues(v: Record): (r: LedgerRecord)
    requires RecordFits(LEDGER, v)
    ensures RecordValues(r) == v
  {
    Widths();
    var h := v.head;
    LedgerRecord(h[2].n, h[3].n, h[4].bytes, h[5].bytes, h[6].n, h[7].n, h[8].n, h[9].n, h[10].n, h[11].n)
  }

  function RecordBytes(r: LedgerRecord): SlotBytes {
    LedgerSize();
    Encode(LEDGER, RecordValues(r))
  }

  /** `EncodeRequestLedgerRecord`. */
  function EncodeRecord(r: LedgerRecord): (b: Option<SlotBytes>)
    ensures b.Some? <==> ValidRecord(r)
  {
    if ValidRecord(r) then Some(RecordBytes(r)) else None
  }

  datatype Slot = Empty | Used(record: LedgerRecord) | Corrupt

  /** `DecodeRequestLedgerRecord`: an all-zero slot is empty; a record must carry its slot's sequence. */
  function DecodeSlot(b: SlotBytes, sequence: nat): (s: Slot)
    ensures s.Used? ==> ValidRecord(s.record) && s.record.sequence == sequence
    ensures s == Empty ==> AllZero(b)
  {
    LedgerSize();
    if sequence == 0 then Corrupt
    else if AllZero(b) then Empty
    else
      match Decode(LEDGER, b)
      case None => Corrupt
      case Some(v) =>
        var r := RecordOfValues(v);
        if r.sequence == sequence && ValidRecord(r) then Used(r) else Corrupt
  }

  lemma SameRecordValues(r: LedgerRecord, t: LedgerRecord)
    requires RecordValues(r) == RecordValues(t)
    ensures r == t
  {
    var v, w := RecordValues(r).head, RecordValues(t).head;
    assert v[2] == w[2] && v[3] == w[3] && v[4] == w[4] && v[5] == w[5] && v[6] == w[6] && v[7] == w[7];
    assert v[8] == w[8] && v[9] == w[9] && v[10] == w[10] && v[11] == w[11];
  }

  lemma RecordIsNotZero(r: LedgerRecord)
    ensures !AllZero(RecordBytes(r))
  {
    hide LeBytes;
    LedgerSize();
    var b := RecordBytes(r);
    MagicFirst(r);
  }

  lemma MagicFirst(r: LedgerRecord)
    ensures RecordBytes(r)[0] == 69 && RecordBytes(r)[1] == 85
  {
    hide RecordBytes, RecordValues;
    HeadFirst(r);
    MagicField(RecordValues(r).head[0]);
    assert RecordBytes(r)[..4] == [69, 85, 76, 71];
  }

  lemma MagicField(v: Value)
    requires FieldFits(LEDGER_HEAD[0], v)
    ensures EncodeField(LEDGER_HEAD[0], v) == [69, 85, 76, 71]
  {}

  lemma HeadFirst(r: LedgerRecord)
    ensures RecordBytes(r)[..4] == EncodeField(LEDGER_HEAD[0], RecordValues(r).head[0])
  {
    hide EncodeField, Crc32c.Checksum;
    LedgerSize();
    var v := RecordValues(r);
    assert EncodeFields(LEDGER_HEAD, v.head)[..4] == EncodeField(LEDGER_HEAD[0], v.head[0]);
  }

  lemma RecordRoundTrip(r: LedgerRecord)
    requires ValidRecord(r)
    ensures DecodeSlot(RecordBytes(r), r.sequence) == Used(r)
  {
    hide Encode, Decode;
    LedgerSize();
    RecordIsNotZero(r);
    RoundTrip(LEDGER, RecordValues(r));
    var t := RecordOfValues(RecordValues(r));
    assert RecordValues(t).head == RecordValues(r).head;
    SameRecordValues(r, t);
  }

  lemma RecordCanonical(b: SlotBytes, sequence: nat)
    requires DecodeSlot(b, sequence).Used?
    ensures EncodeRecord(DecodeSlot(b, sequence).record) == Some(b)
  {
    hide Encode, Decode;
    LedgerSize();
    Canonical(LEDGER, b);
  }

  /** Changing one byte of a record leaves neither a record nor an empty slot, at any sequence. */
  lemma RecordDamageIsRejected(good: SlotBytes, bad: SlotBytes, sequence: nat, other: nat, p: nat)
    requires DecodeSlot(good, sequence).Used? && Crc32c.DifferInOneByte(good, bad, p)
    ensures DecodeSlot(bad, other) == Corrupt
  {
    hide Decode, RecordBytes, AllZero;
    LedgerSize();
    OneByteBreaksChecksum(good, bad, 92, p);
    DamagedIsNotZero(good, bad, sequence, p);
  }

  lemma DamagedIsNotZero(good: SlotBytes, bad: SlotBytes, sequence: nat, p: nat)
    requires DecodeSlot(good, sequence).Used? && Crc32c.DifferInOneByte(good, bad, p)
    ensures !AllZero(bad)
  {
    hide DecodeSlot, RecordBytes, ValidRecord;
    RecordCanonical(good, sequence);
    MagicFirst(DecodeSlot(good, sequence).record);
    assert bad[0] != 0 || bad[1] != 0;
  }
}
