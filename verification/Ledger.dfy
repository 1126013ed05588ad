/** The request ledger as a file of fixed slots, and the index a restart rebuilds from it
    (src/object/request_ledger_index.cpp). */
module Ledger {
  import opened Bytes
  import opened Errors
  import opened LedgerFormat

  function Capacity(b: seq<byte>): nat {
    |b| / RECORD_SIZE
  }

  function SlotAt(b: seq<byte>, k: nat): SlotBytes
    requires (k + 1) * RECORD_SIZE <= |b|
  {
    b[k * RECORD_SIZE..(k + 1) * RECORD_SIZE]
  }

  /** Slot `k` decodes to record `k` of the history, and the slots after the history are zero. */
  ghost predicate SlotsHold(b: seq<byte>, rs: seq<LedgerRecord>) {
    && |b| % RECORD_SIZE == 0 && |rs| <= Capacity(b)
    && (forall k :: 0 <= k < |rs| ==> DecodeSlot(SlotAt(b, k), k + 1) == Used(rs[k]))
    && (forall k :: |rs| <= k < Capacity(b) ==> AllZero(SlotAt(b, k)))
  }

  predicate IdsUnique(rs: seq<LedgerRecord>) {
    forall j, k :: 0 <= j < k < |rs| ==> rs[j].id != rs[k].id
  }

  /** The ledger holds exactly this history: a prefix of valid records, no Request-ID twice. */
  ghost predicate LedgerIs(b: seq<byte>, rs: seq<LedgerRecord>) {
    SlotsHold(b, rs) && IdsUnique(rs)
  }

  predicate Known(rs: seq<LedgerRecord>, id: RequestId) {
    exists k :: 0 <= k < |rs| && rs[k].id == id
  }

  /** A ledger holds at most one history. */
  lemma LedgerIsUnique(b: seq<byte>, rs: seq<LedgerRecord>, ts: seq<LedgerRecord>)
    requires SlotsHold(b, rs) && SlotsHold(b, ts)
    ensures rs == ts
  {
    hide SlotAt, DecodeSlot;
    if |rs| < |ts| {
      UsedIsNotZero(SlotAt(b, |rs|), |rs| + 1);
    } else if |ts| < |rs| {
      UsedIsNotZero(SlotAt(b, |ts|), |ts| + 1);
    }
  }

  lemma UsedIsNotZero(b: SlotBytes, sequence: nat)
    ensures DecodeSlot(b, sequence).Used? ==> !AllZero(b)
  {}

  // ---- Appending ----

  function Appended(b: seq<byte>, k: nat, r: LedgerRecord): (c: seq<byte>)
    requires (k + 1) * RECORD_SIZE <= |b|
    ensures |c| == |b|
  {
    Splice(b, k * RECORD_SIZE, RecordBytes(r))
  }

  /** Writing the next record into the next slot extends the history by that record. */
  lemma AppendExtends(b: seq<byte>, rs: seq<LedgerRecord>, r: LedgerRecord)
    requires LedgerIs(b, rs) && ValidRecord(r) && r.sequence == |rs| + 1 <= Capacity(b) && !Known(rs, r.id)
    ensures LedgerIs(Appended(b, |rs|, r), rs + [r])
  {
    hide DecodeSlot, RecordBytes, ValidRecord;
    var c := Appended(b, |rs|, r);
    RecordRoundTrip(r);
    forall k | 0 <= k < Capacity(b)
      ensures SlotAt(c, k) == if k == |rs| then RecordBytes(r) else SlotAt(b, k)
    {
      SlotOfAppended(b, |rs|, r, k);
    }
  }

  lemma SlotOfAppended(b: seq<byte>, n: nat, r: LedgerRecord, k: nat)
    requires (n + 1) * RECORD_SIZE <= |b| && (k + 1) * RECORD_SIZE <= |b|
    ensures SlotAt(Appended(b, n, r), k) == if k == n then RecordBytes(r) else SlotAt(b, k)
  {
    hide RecordBytes, Splice;
    var c := Appended(b, n, r);
    if k != n {
      assert k < n || k > n;
      assert SlotAt(c, k) == SlotAt(b, k);
    }
  }

  // ---- The index ----

  function RecordMap(rs: seq<LedgerRecord>): (m: map<RequestId, LedgerRecord>)
    ensures forall id :: id in m ==> Known(rs, id)
  {
    if rs == [] then map[]
    else
      var n := |rs| - 1;
      assert forall id :: Known(rs[..n], id) ==> Known(rs, id);
      RecordMap(rs[..n])[rs[n].id := rs[n]]
  }

  /** The index finds every recorded request, and nothing else. */
  lemma {:induction false} IndexFinds(rs: seq<LedgerRecord>, k: nat)
    requires IdsUnique(rs) && k < |rs|
    ensures rs[k].id in RecordMap(rs) && RecordMap(rs)[rs[k].id] == rs[k]
  {
    var n := |rs| - 1;
    if k < n {
      assert rs[..n][k] == rs[k];
      IndexFinds(rs[..n], k);
    }
  }

  lemma {:induction false} IndexSize(rs: seq<LedgerRecord>)
    requires IdsUnique(rs)
    ensures |RecordMap(rs)| == |rs|
  {
    if rs != [] {
      var n := |rs| - 1;
      IndexSize(rs[..n]);
      LastIsNew(rs);
      MapGrows(RecordMap(rs[..n]), rs[n].id, rs[n]);
    }
  }

  lemma LastIsNew(rs: seq<LedgerRecord>)
    requires IdsUnique(rs) && rs != []
    ensures rs[|rs| - 1].id !in RecordMap(rs[..|rs| - 1])
  {
    assert !Known(rs[..|rs| - 1], rs[|rs| - 1].id);
  }

  lemma MapGrows(m: map<RequestId, LedgerRecord>, id: RequestId, r: LedgerRecord)
    requires id !in m
    ensures |m[id := r]| == |m| + 1
  {
    assert m[id := r].Keys == m.Keys + {id};
    assert |m[id := r].Keys| == |m.Keys| + 1;
  }

  class RequestLedgerIndex {
    var capacity: nat
    var nextSequence: nat
    var records: map<RequestId, LedgerRecord>

    /** The index is the one of history `rs` in a ledger of `slots` slots. */
    ghost predicate Indexes(slots: nat, rs: seq<LedgerRecord>)
      reads this
    {
      IdsUnique(rs) && |rs| <= slots && capacity == slots && nextSequence == |rs| + 1 && records == RecordMap(rs)
    }

    constructor (capacity: nat, records: map<RequestId, LedgerRecord>)
      ensures this.capacity == capacity && this.records == records && nextSequence == |records| + 1
    {
      this.capacity := capacity;
      this.records := records;
      nextSequence := |records| + 1;
    }

    predicate IsFull()
      reads this
    {
      |records| == capacity
    }

    /** `AppendCommitted`: refuses gaps, invalid records, duplicates and overflow; otherwise the index
        is the one of the longer history. */
    method AppendCommitted(record: LedgerRecord, ghost rs: seq<LedgerRecord>) returns (e: Option<Errno>)
      requires Indexes(capacity, rs)
      modifies this
      ensures e == None <==>
        |rs| < old(capacity) && record.sequence == |rs| + 1 && ValidRecord(record) && !Known(rs, record.id)
      ensures e == None ==> Indexes(old(capacity), rs + [record])
      ensures e.Some? ==> Indexes(old(capacity), rs)
    {
      hide ValidRecord, RecordMap, EncodeRecord, Known;
      IndexSize(rs);
      if |records| == capacity {
        return Some(ENOSPC);
      }
      if record.sequence != nextSequence {
        return Some(EUCLEAN);
      }
      if EncodeRecord(record) == None {
        return Some(EUCLEAN);
      }
      IndexHas(rs, record.id);
      if record.id in records {
        return Some(EEXIST);
      }
      records := records[record.id := record];
      nextSequence := nextSequence + 1;
      IndexMore(rs, record);
      e := None;
    }
  }

  lemma IndexHas(rs: seq<LedgerRecord>, id: RequestId)
    requires IdsUnique(rs)
    ensures id in RecordMap(rs) <==> Known(rs, id)
  {
    hide RecordMap;
    if Known(rs, id) {
      var k :| 0 <= k < |rs| && rs[k].id == id;
      IndexFinds(rs, k);
    }
  }

  lemma IndexMore(rs: seq<LedgerRecord>, r: LedgerRecord)
    requires IdsUnique(rs) && !Known(rs, r.id)
    ensures IdsUnique(rs + [r]) && RecordMap(rs + [r]) == RecordMap(rs)[r.id := r]
  {
    assert (rs + [r])[..|rs|] == rs;
  }

  // ---- Scanning ----

  /** The first `n` slots form the history `rs`, possibly followed by empty slots. */
  ghost predicate Scanned(b: seq<byte>, n: nat, rs: seq<LedgerRecord>, sawEmpty: bool) {
    && |b| % RECORD_SIZE == 0 && n <= Capacity(b) && |rs| <= n && IdsUnique(rs)
    && (forall k :: 0 <= k < |rs| ==> DecodeSlot(SlotAt(b, k), k + 1) == Used(rs[k]))
    && (forall k :: |rs| <= k < n ==> AllZero(SlotAt(b, k)))
    && (sawEmpty <==> |rs| < n)
  }

  lemma ScanStarts(b: seq<byte>)
    requires |b| % RECORD_SIZE == 0
    ensures Scanned(b, 0, [], false) && RecordMap([]) == map[]
  {}

  /** An empty slot, or a record that is neither late nor a duplicate, continues the scan. */
  lemma ScanStep(b: seq<byte>, k: nat, rs: seq<LedgerRecord>, sawEmpty: bool, slot: Slot)
    requires Scanned(b, k, rs, sawEmpty) && k < Capacity(b) && slot == DecodeSlot(SlotAt(b, k), k + 1) && slot != Corrupt
    requires slot.Used? ==> !sawEmpty && slot.record.id !in RecordMap(rs)
    ensures slot == Empty ==> Scanned(b, k + 1, rs, true)
    ensures slot.Used? ==>
      Scanned(b, k + 1, rs + [slot.record], sawEmpty) && RecordMap(rs + [slot.record]) == RecordMap(rs)[slot.record.id := slot.record]
  {
    hide DecodeSlot, RecordMap, SlotAt;
    if slot.Used? {
      IndexHas(rs, slot.record.id);
      IndexMore(rs, slot.record);
    }
  }

  /** A corrupt slot, a record after an empty slot or a second record of an id: there is no history. */
  lemma ScanRefuses(b: seq<byte>, k: nat, rs: seq<LedgerRecord>, sawEmpty: bool, slot: Slot)
    requires Scanned(b, k, rs, sawEmpty) && k < Capacity(b) && slot == DecodeSlot(SlotAt(b, k), k + 1)
    requires slot == Corrupt || (slot.Used? && (sawEmpty || slot.record.id in RecordMap(rs)))
    ensures forall ts :: !LedgerIs(b, ts)
  {
    hide DecodeSlot, RecordMap, SlotAt, Scanned, LedgerIs;
    forall ts
      ensures !LedgerIs(b, ts)
    {
      ScanHasLength(b, k, rs, sawEmpty);
      if slot == Corrupt {
        NoHistoryWithCorrupt(b, ts, k);
      } else {
        IndexHas(rs, slot.record.id);
        NoHistoryBeyond(b, k, rs, sawEmpty, slot.record, ts);
      }
    }
  }

  lemma ScanHasLength(b: seq<byte>, k: nat, rs: seq<LedgerRecord>, sawEmpty: bool)
    requires Scanned(b, k, rs, sawEmpty)
    ensures |b| % RECORD_SIZE == 0 && IdsUnique(rs)
  {}

  lemma ScanEnds(b: seq<byte>, rs: seq<LedgerRecord>, sawEmpty: bool)
    requires Scanned(b, Capacity(b), rs, sawEmpty)
    ensures LedgerIs(b, rs) && IdsUnique(rs) && |RecordMap(rs)| == |rs| <= Capacity(b)
  {
    hide DecodeSlot, RecordMap, SlotAt;
    IndexSize(rs);
  }

  lemma NoHistoryWithCorrupt(b: seq<byte>, ts: seq<LedgerRecord>, k: nat)
    requires |b| % RECORD_SIZE == 0 && k < Capacity(b) && DecodeSlot(SlotAt(b, k), k + 1) == Corrupt
    ensures !LedgerIs(b, ts)
  {
    hide SlotAt, DecodeSlot;
    ZeroIsEmpty(SlotAt(b, k), k + 1);
  }

  lemma ZeroIsEmpty(b: SlotBytes, sequence: nat)
    requires sequence > 0
    ensures AllZero(b) ==> DecodeSlot(b, sequence) == Empty
  {}

  lemma NoHistoryBeyond(b: seq<byte>, k: nat, rs: seq<LedgerRecord>, sawEmpty: bool, r: LedgerRecord, ts: seq<LedgerRecord>)
    requires Scanned(b, k, rs, sawEmpty) && k < Capacity(b) && DecodeSlot(SlotAt(b, k), k + 1) == Used(r)
    requires sawEmpty || Known(rs, r.id)
    ensures !LedgerIs(b, ts)
  {
    hide DecodeSlot, SlotAt;
    if LedgerIs(b, ts) {
      UsedIsNotZero(SlotAt(b, k), k + 1);
      assert k < |ts| && ts[k] == r;
      if sawEmpty {
        UsedIsNotZero(SlotAt(b, |rs|), |rs| + 1);
      }
    }
  }
}
