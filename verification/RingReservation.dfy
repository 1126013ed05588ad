/** Where one transaction's descriptor, payloads and COMMIT go in the journal ring
    (src/journal/ring_reservation.cpp). */
module RingReservation {
  import opened Bytes
  import opened JournalFormat

  /** Ring positions wrap around at the end. */
  function Advance(start: nat, distance: nat, ringBlocks: u32): (r: u32)
    ensures ringBlocks > 0 ==> r < ringBlocks
  {
    if ringBlocks == 0 then 0 else (start + distance) % ringBlocks
  }

  /** Within one turn the position is found by at most one subtraction. */
  lemma AdvanceWithinTurn(start: nat, distance: nat, ringBlocks: u32)
    requires start < ringBlocks && distance <= ringBlocks
    ensures Advance(start, distance, ringBlocks)
         == if start + distance < ringBlocks then start + distance else start + distance - ringBlocks
  {
    var x := start + distance;
    if x >= ringBlocks {
      assert x < 2 * ringBlocks;
      RemainderBelowTwice(x, ringBlocks);
    } else {
      SmallRemainder(x, ringBlocks);
    }
  }

  lemma SmallRemainder(x: nat, n: nat)
    requires x < n
    ensures x % n == x
  {}

  lemma RemainderBelowTwice(x: nat, n: nat)
    requires n > 0 && n <= x < 2 * n
    ensures x % n == x - n
  {
    var q := x / n;
    assert x == n * q + x % n;
    Scaled(n, 2, if q >= 2 then q else 2);
    Scaled(n, if q <= 0 then q else 0, 0);
    assert q == 1;
  }

  lemma Scaled(n: nat, a: int, b: int)
    requires a <= b
    ensures n * a <= n * b
  {}

  datatype Reservation = Reservation(
    transactionId: u64, descriptorIndex: u32, payloadIndices: seq<u32>, commitIndex: u32, exposed: JournalControl)

  datatype ReserveError = InvalidControl | Busy | NoPayload | TooManyPayloads | RingTooSmall | IdsExhausted

  datatype ReserveResult = Reserved(plan: Reservation) | Refused(error: ReserveError)

  const LAST_ID: u64 := 0xFFFF_FFFF_FFFF_FFFF

  function ReserveCheck(current: JournalControl, payloads: nat): Option<ReserveError> {
    if !ValidControl(current) then Some(InvalidControl)
    else if current.usedBlocks != 0 then Some(Busy)
    else if payloads == 0 then Some(NoPayload)
    else if payloads > MAX_DESCRIPTOR_ENTRIES then Some(TooManyPayloads)
    else if payloads + 2 > current.ringBlocks then Some(RingTooSmall)
    else if current.nextTransactionId == LAST_ID then Some(IdsExhausted)
    else None
  }

  lemma CleanHeadIsTail(c: JournalControl)
    requires ValidControl(c) && c.usedBlocks == 0
    ensures c.head == c.tail
  {
    AdvanceWithinTurn(c.tail, 0, c.ringBlocks);
  }

  /** The control that exposes a transaction of `payloads` payloads. */
  function ExposedControl(current: JournalControl, payloads: nat): JournalControl {
    current.(generation := NextGeneration(current.generation),
             head := Advance(current.head, payloads + 2, current.ringBlocks),
             usedBlocks := (payloads + 2) % 0x1_0000_0000,
             nextTransactionId := NextGeneration(current.nextTransactionId))
  }

  lemma ExposedControlIsValid(current: JournalControl, payloads: nat)
    requires ReserveCheck(current, payloads) == None
    ensures var e := ExposedControl(current, payloads);
      && ValidControl(e) && e.usedBlocks == payloads + 2
      && e.nextTransactionId == current.nextTransactionId + 1 && e.tail == current.head
  {
    CleanHeadIsTail(current);
  }

  function PayloadIndices(start: nat, payloads: nat, ringBlocks: u32): (r: seq<u32>)
    ensures |r| == payloads
    ensures forall i :: 0 <= i < payloads ==> r[i] == Advance(start, i + 1, ringBlocks)
  {
    seq(payloads, i requires 0 <= i < payloads => Advance(start, i + 1, ringBlocks))
  }

  function PlanFor(current: JournalControl, payloads: nat): Reservation {
    Reservation(
      current.nextTransactionId, current.head,
      PayloadIndices(current.head, payloads, current.ringBlocks),
      Advance(current.head, payloads + 1, current.ringBlocks),
      ExposedControl(current, payloads))
  }

  function Reserve(current: JournalControl, payloads: nat): ReserveResult {
    match ReserveCheck(current, payloads)
    case Some(error) => Refused(error)
    case None => Reserved(PlanFor(current, payloads))
  }

  /** A clean ring takes 1 to 252 payloads, as long as descriptor, payloads and COMMIT fit and a
      transaction number is left; each refusal has one cause, and the causes come in this order. */
  ghost predicate Reserves(current: JournalControl, payloads: nat, r: ReserveResult) {
    if !ValidControl(current) then r == Refused(InvalidControl)
    else if current.usedBlocks > 0 then r == Refused(Busy)
    else if payloads < 1 then r == Refused(NoPayload)
    else if 252 < payloads then r == Refused(TooManyPayloads)
    else if current.ringBlocks < payloads + 2 then r == Refused(RingTooSmall)
    else if current.nextTransactionId + 1 == 0x1_0000_0000_0000_0000 then r == Refused(IdsExhausted)
    else
      && r.Reserved? && r.plan.transactionId == current.nextTransactionId && r.plan.descriptorIndex == current.head
      && |r.plan.payloadIndices| == payloads
      && (forall i :: 0 <= i < payloads ==> r.plan.payloadIndices[i] == (current.head + 1 + i) % current.ringBlocks)
      && r.plan.commitIndex == (current.head + payloads + 1) % current.ringBlocks
      && r.plan.exposed == ExposedControl(current, payloads)
  }

  lemma ReserveIs(current: JournalControl, payloads: nat)
    ensures Reserves(current, payloads, Reserve(current, payloads))
    ensures ReserveCheck(current, payloads) == None <==>
      && ValidControl(current) && current.usedBlocks == 0 && 1 <= payloads <= 252 && payloads + 2 <= current.ringBlocks
      && current.nextTransactionId < 0xFFFF_FFFF_FFFF_FFFF
  {
    hide ExposedControl;
  }

  /** `PlanRingReservation`: pushes the payload positions one by one. */
  method PlanRingReservation(current: JournalControl, payloads: nat) returns (r: ReserveResult)
    ensures r == Reserve(current, payloads) && Reserves(current, payloads, r)
  {
    hide Advance, ExposedControl, Reserves;
    ReserveIs(current, payloads);
    var error := ReserveCheck(current, payloads);
    if error.Some? {
      return Refused(error.value);
    }
    var indices: seq<u32> := [];
    for index := 0 to payloads
      invariant indices == PayloadIndices(current.head, index, current.ringBlocks)
    {
      indices := indices + [Advance(current.head, index + 1, current.ringBlocks)];
    }
    r := Reserved(Reservation(
      current.nextTransactionId, current.head, indices,
      Advance(current.head, payloads + 1, current.ringBlocks),
      ExposedControl(current, payloads)));
  }

  /** Steps that fit in one turn of the ring never meet. */
  lemma AdvanceInjective(start: nat, i: nat, j: nat, ringBlocks: u32)
    requires start < ringBlocks && i < ringBlocks && j < ringBlocks && i != j
    ensures Advance(start, i, ringBlocks) != Advance(start, j, ringBlocks)
  {
    hide Advance;
    AdvanceWithinTurn(start, i, ringBlocks);
    AdvanceWithinTurn(start, j, ringBlocks);
  }

  lemma ReserveCheckPassed(current: JournalControl, payloads: nat)
    requires ReserveCheck(current, payloads) == None
    ensures ValidControl(current) && current.usedBlocks == 0 && current.head == current.tail
    ensures 0 < payloads <= MAX_DESCRIPTOR_ENTRIES && payloads + 2 <= current.ringBlocks
    ensures 0 < current.nextTransactionId < LAST_ID && current.head < current.ringBlocks
  {
    CleanHeadIsTail(current);
  }

  /** Every reservation stays inside the ring and uses each position once, also when it wraps. */
  lemma ReservationIsDistinct(current: JournalControl, payloads: nat)
    requires ReserveCheck(current, payloads) == None
    ensures var r := PlanFor(current, payloads);
      && r.descriptorIndex < current.ringBlocks && r.commitIndex < current.ringBlocks
      && r.descriptorIndex != r.commitIndex
      && (forall i :: 0 <= i < payloads ==>
            r.payloadIndices[i] < current.ringBlocks
            && r.payloadIndices[i] != r.descriptorIndex && r.payloadIndices[i] != r.commitIndex)
      && (forall i, j :: 0 <= i < j < payloads ==> r.payloadIndices[i] != r.payloadIndices[j])
  {
    hide Advance, ExposedControl, ValidControl, ReserveCheck;
    ReserveCheckPassed(current, payloads);
    var n := current.ringBlocks;
    var r := PlanFor(current, payloads);
    AdvanceWithinTurn(current.head, 0, n);
    assert r.descriptorIndex == Advance(current.head, 0, n);
    AdvanceInjective(current.head, 0, payloads + 1, n);
    forall i | 0 <= i < payloads
      ensures r.payloadIndices[i] != r.descriptorIndex && r.payloadIndices[i] != r.commitIndex
    {
      AdvanceInjective(current.head, 0, i + 1, n);
      AdvanceInjective(current.head, i + 1, payloads + 1, n);
    }
    forall i, j | 0 <= i < j < payloads
      ensures r.payloadIndices[i] != r.payloadIndices[j]
    {
      AdvanceInjective(current.head, i + 1, j + 1, n);
    }
  }
}
