/** What recovery makes of journal blocks that were damaged, or that belong to another transaction
    (src/journal/journal_recovery.cpp:167-318). */
module JournalDamage {
  import opened Bytes
  import opened JournalFormat
  import opened OndiskFormat
  import opened RingReservation
  import opened Journal
  import Crc32c

  /** `e` is `d` with exactly one byte of one ring block changed. */
  ghost predicate DamagedAt(sb: Superblock, d: Image, e: Image, index: nat, p: nat) {
    && Crc32c.DifferInOneByte(RingAt(sb, d, index), RingAt(sb, e, index), p)
    && forall j: nat :: j != index ==> RingAt(sb, e, j) == RingAt(sb, d, j)
  }

  /** The ring positions of the descriptor and its payloads, as the exposed transaction gives them. */
  predicate InBody(sb: Superblock, d: Image, c: JournalControl, index: nat) {
    index == c.tail
    || (DecodeDescriptor(RingAt(sb, d, c.tail)).Some?
        && exists i :: 0 <= i < |DecodeDescriptor(RingAt(sb, d, c.tail)).value.entries|
             && index == DecodeDescriptor(RingAt(sb, d, c.tail)).value.entries[i].payloadRingIndex)
  }

  /** The ring position of the COMMIT block, right behind the payloads. */
  function CommitPosition(sb: Superblock, d: Image, c: JournalControl): nat {
    match DecodeDescriptor(RingAt(sb, d, c.tail))
    case None => 0
    case Some(descriptor) => Advance(c.tail, |descriptor.entries| + 1, c.ringBlocks)
  }

  lemma BlockCrcSeesOneByte(good: Block, bad: Block, p: nat)
    requires Crc32c.DifferInOneByte(good, bad, p)
    ensures BlockCrc(good) != BlockCrc(bad)
  {
    hide Crc32c.Checksum, LeNat;
    Crc32c.ChecksumSeesOneByte(good, bad, p);
    if BlockCrc(good) == BlockCrc(bad) {
      LeBytesOfNat(Crc32c.Checksum(good));
      LeBytesOfNat(Crc32c.Checksum(bad));
    }
  }

  /** A transaction that recovery accepted is refused once any single byte of its descriptor or of one of
      its payloads has changed, with or without a COMMIT. */
  lemma DamagedBodyIsCorrupt(sb: Superblock, d: Image, e: Image, c: JournalControl, index: nat, p: nat)
    requires c.usedBlocks != 0 && Classify(sb, d, c) != Corrupt
    requires DamagedAt(sb, d, e, index, p) && InBody(sb, d, c, index)
    ensures Classify(sb, e, c) == Corrupt
  {
    hide DecodeDescriptor, DecodeCommit, BlockCrc, RingAt, DescriptorFitsControl, CommitMatches, Payloads, DescriptorChecksum;
    hide Crc32c.DifferInOneByte;
    if index == c.tail {
      DescriptorDamageIsRejected(RingAt(sb, d, index), RingAt(sb, e, index), p);
    } else {
      var entries := DecodeDescriptor(RingAt(sb, d, c.tail)).value.entries;
      var i :| 0 <= i < |entries| && index == entries[i].payloadRingIndex;
      BlockCrcSeesOneByte(RingAt(sb, d, index), RingAt(sb, e, index), p);
      assert BlockCrc(RingAt(sb, d, entries[i].payloadRingIndex)) == entries[i].payloadCrc;
      assert BlockCrc(RingAt(sb, e, entries[i].payloadRingIndex)) != entries[i].payloadCrc;
    }
  }

  /** A damaged COMMIT block is no COMMIT block: the transaction counts as uncommitted. */
  lemma DamagedCommitIsUncommitted(sb: Superblock, d: Image, e: Image, c: JournalControl, p: nat)
    requires Classify(sb, d, c).Committed?
    requires DamagedAt(sb, d, e, CommitPosition(sb, d, c), p) && !InBody(sb, d, c, CommitPosition(sb, d, c))
    ensures Classify(sb, e, c) == Uncommitted
  {
    hide DecodeDescriptor, DecodeCommit, BlockCrc, RingAt, DescriptorFitsControl, CommitMatches, Payloads, DescriptorChecksum;
    hide Crc32c.DifferInOneByte, Advance;
    var descriptor := DecodeDescriptor(RingAt(sb, d, c.tail)).value;
    CommitDamageIsRejected(RingAt(sb, d, CommitPosition(sb, d, c)), RingAt(sb, e, CommitPosition(sb, d, c)), p);
    assert PayloadsIntact(sb, e, descriptor.entries);
  }

  /** Recovery reads nothing but the descriptor, the payloads it names and the one COMMIT position. */
  lemma ReadsOnlyWhatIsExposed(sb: Superblock, d: Image, e: Image, c: JournalControl)
    requires forall j: nat :: InBody(sb, d, c, j) || j == CommitPosition(sb, d, c) ==> RingAt(sb, e, j) == RingAt(sb, d, j)
    ensures Classify(sb, e, c) == Classify(sb, d, c)
  {
    hide DecodeDescriptor, DecodeCommit, BlockCrc, RingAt, DescriptorFitsControl, CommitMatches, DescriptorChecksum, Advance;
    assert InBody(sb, d, c, c.tail);
    if DecodeDescriptor(RingAt(sb, d, c.tail)).Some? {
      var entries := DecodeDescriptor(RingAt(sb, d, c.tail)).value.entries;
      assert forall i :: 0 <= i < |entries| ==> InBody(sb, d, c, entries[i].payloadRingIndex);
      SamePayloads(sb, d, e, entries, |entries|);
    }
  }

  lemma {:induction false} SamePayloads(sb: Superblock, d: Image, e: Image, entries: seq<DescriptorEntry>, n: nat)
    requires n <= |entries|
    requires forall i :: 0 <= i < |entries| ==>
      RingAt(sb, e, entries[i].payloadRingIndex) == RingAt(sb, d, entries[i].payloadRingIndex)
    ensures Payloads(sb, e, entries, n) == Payloads(sb, d, entries, n)
  {
    hide RingAt;
    if n > 0 {
      SamePayloads(sb, d, e, entries, n - 1);
    }
  }

  /** What recovery accepts belongs to this image and to this control: the identity, the number right
      before the next one, as many blocks as are in use, payloads right behind the descriptor in order,
      and home blocks outside superblock and journal. */
  lemma AcceptedBelongsHere(sb: Superblock, d: Image, c: JournalControl)
    requires c.usedBlocks != 0 && Classify(sb, d, c) != Corrupt && ValidControl(c)
    ensures DecodeDescriptor(RingAt(sb, d, c.tail)).Some?
    ensures var x := DecodeDescriptor(RingAt(sb, d, c.tail)).value; var n := |x.entries|;
      && x.uuid == sb.uuid && x.transactionId + 1 == c.nextTransactionId && n + 2 == c.usedBlocks <= c.ringBlocks
      && (forall i :: 0 <= i < n ==>
            && x.entries[i].payloadRingIndex == (c.tail + 1 + i) % c.ringBlocks
            && 0 < x.entries[i].homeBlock < sb.totalBlocks && !InRegion(x.entries[i].homeBlock, sb.journal))
      && (forall i, j :: 0 <= i < j < n ==> x.entries[i].homeBlock != x.entries[j].homeBlock)
      && CommitPosition(sb, d, c) == (c.tail + n + 1) % c.ringBlocks
  {
    hide DecodeDescriptor, DecodeCommit, BlockCrc, RingAt, CommitMatches, Payloads, DescriptorChecksum;
  }

  /** `images` holds the first `n` payload blocks, each under the home block of its entry, and no others. */
  ghost predicate ImagesAre(sb: Superblock, d: Image, entries: seq<DescriptorEntry>, n: nat, images: Writes)
    requires n <= |entries|
  {
    && (forall i :: 0 <= i < n ==>
          entries[i].homeBlock in images && images[entries[i].homeBlock] == RingAt(sb, d, entries[i].payloadRingIndex))
    && forall h :: h in images ==> exists i :: 0 <= i < n && entries[i].homeBlock == h
  }

  /** The images that recovery replays are the payload blocks the descriptor names. */
  lemma CommittedImages(sb: Superblock, d: Image, c: JournalControl, descriptor: DescriptorRecord, images: Writes)
    requires Classify(sb, d, c) == Committed(images) && DecodeDescriptor(RingAt(sb, d, c.tail)) == Some(descriptor)
    ensures ImagesAre(sb, d, descriptor.entries, |descriptor.entries|, images)
  {
    hide DecodeDescriptor, DecodeCommit, BlockCrc, RingAt, CommitMatches, Payloads, DescriptorChecksum, DescriptorFitsControl;
    hide PayloadsIntact;
    PayloadsByHome(sb, d, descriptor.entries, |descriptor.entries|);
  }

  lemma {:induction false} PayloadsByHome(sb: Superblock, d: Image, entries: seq<DescriptorEntry>, n: nat)
    requires n <= |entries| && forall i, j :: 0 <= i < j < |entries| ==> entries[i].homeBlock != entries[j].homeBlock
    ensures ImagesAre(sb, d, entries, n, Payloads(sb, d, entries, n))
  {
    hide RingAt;
    if n > 0 {
      PayloadsByHome(sb, d, entries, n - 1);
      assert entries[n - 1].homeBlock in Payloads(sb, d, entries, n);
    }
  }
}
