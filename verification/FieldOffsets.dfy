/** Where each field of each record stands: the byte offsets of the on-disk format. */
module FieldOffsets {
  import opened Bytes
  import opened RecordLayout
  import opened JournalFormat
  import opened OndiskFormat
  import opened LedgerFormat
  import Crc32c

  /** The first byte of field `j`. */
  function Offset(fs: seq<Field>, j: nat): nat
    requires j <= |fs|
  {
    if j == 0 then 0 else Offset(fs, j - 1) + Width(fs[j - 1])
  }

  lemma {:induction false} OffsetIs(fs: seq<Field>, j: nat)
    requires j <= |fs|
    ensures Offset(fs, j) + TotalFrom(fs, j) == Total(fs)
  {
    if j > 0 {
      OffsetIs(fs, j - 1);
    }
  }

  lemma {:induction false} RestAt(fs: seq<Field>, vs: seq<Value>, j: nat)
    requires Fits(fs, vs) && j <= |fs|
    ensures Offset(fs, j) <= Total(fs) && EncodeFields(fs, vs)[Offset(fs, j)..] == EncodeFrom(fs, vs, j)
  {
    hide EncodeField;
    OffsetIs(fs, j);
    if j > 0 {
      RestAt(fs, vs, j - 1);
      var b, at, w := EncodeFields(fs, vs), Offset(fs, j - 1), Width(fs[j - 1]);
      assert b[at..] == EncodeField(fs[j - 1], vs[j - 1]) + EncodeFrom(fs, vs, j);
      assert b[at..][w..] == b[at + w..];
    }
  }

  ghost predicate BytesAt(b: seq<byte>, at: nat, field: seq<byte>) {
    at + |field| <= |b| && b[at..at + |field|] == field
  }

  ghost predicate NumberAt(b: seq<byte>, at: nat, width: nat, n: nat) {
    n < Pow256(width) && BytesAt(b, at, LeBytes(n, width))
  }

  /** Field `j` of an encoded record stands at its offset. */
  lemma FieldAt(l: Layout, r: Record, j: nat)
    requires RecordFits(l, r) && j < |l.head|
    ensures BytesAt(Encode(l, r), Offset(l.head, j), EncodeField(l.head[j], r.head[j]))
  {
    hide EncodeField, Crc32c.Checksum, Offset;
    var b, at, w := EncodeFields(l.head, r.head), Offset(l.head, j), Width(l.head[j]);
    RestAt(l.head, r.head, j);
    assert EncodeFrom(l.head, r.head, j)[..w] == EncodeField(l.head[j], r.head[j]);
    assert b[at..][..w] == b[at..at + w];
    assert Encode(l, r)[..|b|] == b;
    assert Encode(l, r)[at..at + w] == b[at..at + w];
  }

  /** What field `j` holds, at the offset it has. */
  lemma HoldsAt(l: Layout, r: Record, j: nat, at: nat, field: Field, value: Value)
    requires RecordFits(l, r) && j < |l.head| && at == Offset(l.head, j) && l.head[j] == field && r.head[j] == value
    ensures field.Number? ==> value.Num? && NumberAt(Encode(l, r), at, field.width, value.n)
    ensures field.Raw? ==> value.Text? && BytesAt(Encode(l, r), at, value.bytes)
    ensures field.Fixed? ==> BytesAt(Encode(l, r), at, field.bytes)
  {
    hide Encode, Offset, BytesAt, LeBytes;
    FieldAt(l, r, j);
  }

  // ---- Control ----

  lemma ControlStands()
    ensures |CONTROL_HEAD| == 16
    ensures Offset(CONTROL_HEAD, 4) == 20 && Offset(CONTROL_HEAD, 5) == 24 && Offset(CONTROL_HEAD, 6) == 40
    ensures Offset(CONTROL_HEAD, 7) == 48 && Offset(CONTROL_HEAD, 8) == 52 && Offset(CONTROL_HEAD, 9) == 56
    ensures Offset(CONTROL_HEAD, 10) == 60 && Offset(CONTROL_HEAD, 11) == 64 && Offset(CONTROL_HEAD, 12) == 72
    ensures Offset(CONTROL_HEAD, 13) == 80 && Offset(CONTROL_HEAD, 14) == 88 && Offset(CONTROL_HEAD, 15) == 96
  {
    assert Offset(CONTROL_HEAD, 2) == 12;
    assert Offset(CONTROL_HEAD, 4) == 20;
    assert Offset(CONTROL_HEAD, 6) == 40;
    assert Offset(CONTROL_HEAD, 8) == 52;
    assert Offset(CONTROL_HEAD, 10) == 60;
    assert Offset(CONTROL_HEAD, 12) == 72;
    assert Offset(CONTROL_HEAD, 14) == 88;
  }

  lemma ControlFields(c: JournalControl)
    ensures var v, f := ControlValues(c).head, CONTROL_HEAD;
      && |v| == |f| == 16
      && f[4] == Number(4) && v[4] == Num(c.ringBlocks) && f[5] == Raw(16) && v[5] == Text(c.uuid)
      && f[6] == Number(8) && v[6] == Num(c.generation) && f[7] == Number(4) && v[7] == Num(c.head)
      && f[8] == Number(4) && v[8] == Num(c.tail) && f[9] == Number(4) && v[9] == Num(c.usedBlocks)
      && f[10] == Number(4) && v[10] == Num(c.stateFlags) && f[11] == Number(8) && v[11] == Num(c.nextTransactionId)
      && f[12] == Number(8) && v[12] == Num(c.featureCompat) && f[13] == Number(8) && v[13] == Num(c.featureRoCompat)
      && f[14] == Number(8) && v[14] == Num(c.featureIncompat)
  {}

  /** `EncodeControl`: ring size, identity, generation, head, tail and the other fields of a control block. */
  lemma ControlOffsets(c: JournalControl)
    ensures var b := ControlBytes(c);
      && NumberAt(b, 20, 4, c.ringBlocks) && BytesAt(b, 24, c.uuid) && NumberAt(b, 40, 8, c.generation)
      && NumberAt(b, 48, 4, c.head) && NumberAt(b, 52, 4, c.tail) && NumberAt(b, 56, 4, c.usedBlocks)
      && NumberAt(b, 60, 4, c.stateFlags) && NumberAt(b, 64, 8, c.nextTransactionId) && NumberAt(b, 72, 8, c.featureCompat)
      && NumberAt(b, 80, 8, c.featureRoCompat) && NumberAt(b, 88, 8, c.featureIncompat)
  {
    hide Encode, Offset, BytesAt, NumberAt, ControlValues;
    ControlStands();
    ControlFields(c);
    var l, v := CONTROL, ControlValues(c);
    HoldsAt(l, v, 4, 20, Number(4), Num(c.ringBlocks));
    HoldsAt(l, v, 5, 24, Raw(16), Text(c.uuid));
    HoldsAt(l, v, 6, 40, Number(8), Num(c.generation));
    HoldsAt(l, v, 7, 48, Number(4), Num(c.head));
    HoldsAt(l, v, 8, 52, Number(4), Num(c.tail));
    HoldsAt(l, v, 9, 56, Number(4), Num(c.usedBlocks));
    HoldsAt(l, v, 10, 60, Number(4), Num(c.stateFlags));
    HoldsAt(l, v, 11, 64, Number(8), Num(c.nextTransactionId));
    HoldsAt(l, v, 12, 72, Number(8), Num(c.featureCompat));
    HoldsAt(l, v, 13, 80, Number(8), Num(c.featureRoCompat));
    HoldsAt(l, v, 14, 88, Number(8), Num(c.featureIncompat));
  }

  // ---- Descriptor ----

  lemma DescriptorStands()
    ensures |DESCRIPTOR_HEAD| == 10
    ensures Offset(DESCRIPTOR_HEAD, 4) == 20 && Offset(DESCRIPTOR_HEAD, 5) == 24 && Offset(DESCRIPTOR_HEAD, 6) == 32
    ensures Offset(DESCRIPTOR_HEAD, 7) == 48 && Offset(DESCRIPTOR_HEAD, 9) == 56
  {
    assert Offset(DESCRIPTOR_HEAD, 2) == 12;
    assert Offset(DESCRIPTOR_HEAD, 4) == 20;
    assert Offset(DESCRIPTOR_HEAD, 6) == 32;
    assert Offset(DESCRIPTOR_HEAD, 8) == 52;
  }

  lemma DescriptorFields(d: DescriptorRecord)
    requires |d.entries| <= MAX_DESCRIPTOR_ENTRIES
    ensures var v, f := DescriptorValues(d).head, DESCRIPTOR_HEAD;
      && |v| == |f| == 10
      && f[4] == Number(4) && v[4] == Num(|d.entries|) && f[5] == Number(8) && v[5] == Num(d.transactionId)
      && f[6] == Raw(16) && v[6] == Text(d.uuid) && f[7] == Number(4) && v[7] == Num(d.blockCount)
      && f[9] == Number(4) && v[9] == Num(d.flags)
  {}

  /** `EncodeDescriptor`: the header of a DESCRIPTOR block. */
  lemma DescriptorOffsets(d: DescriptorRecord)
    requires |d.entries| <= MAX_DESCRIPTOR_ENTRIES
    ensures var b := DescriptorBytes(d);
      && NumberAt(b, 20, 4, |d.entries|) && NumberAt(b, 24, 8, d.transactionId) && BytesAt(b, 32, d.uuid)
      && NumberAt(b, 48, 4, d.blockCount) && NumberAt(b, 56, 4, d.flags)
  {
    hide Encode, Offset, BytesAt, NumberAt, DescriptorValues;
    DescriptorStands();
    DescriptorFields(d);
    DescriptorSize(|d.entries|);
    var l, v := DescriptorLayout(|d.entries|), DescriptorValues(d);
    HoldsAt(l, v, 4, 20, Number(4), Num(|d.entries|));
    HoldsAt(l, v, 5, 24, Number(8), Num(d.transactionId));
    HoldsAt(l, v, 6, 32, Raw(16), Text(d.uuid));
    HoldsAt(l, v, 7, 48, Number(4), Num(d.blockCount));
    HoldsAt(l, v, 9, 56, Number(4), Num(d.flags));
  }

  // ---- Commit ----

  lemma CommitStands()
    ensures |COMMIT_HEAD| == 10
    ensures Offset(COMMIT_HEAD, 4) == 20 && Offset(COMMIT_HEAD, 5) == 24 && Offset(COMMIT_HEAD, 6) == 32
    ensures Offset(COMMIT_HEAD, 7) == 48 && Offset(COMMIT_HEAD, 8) == 52 && Offset(COMMIT_HEAD, 9) == 56
  {
    assert Offset(COMMIT_HEAD, 2) == 12;
    assert Offset(COMMIT_HEAD, 4) == 20;
    assert Offset(COMMIT_HEAD, 6) == 32;
    assert Offset(COMMIT_HEAD, 8) == 52;
  }

  lemma CommitFields(c: CommitRecord)
    ensures var v, f := CommitValues(c).head, COMMIT_HEAD;
      && |v| == |f| == 10
      && f[4] == Number(4) && v[4] == Num(c.entryCount) && f[5] == Number(8) && v[5] == Num(c.transactionId)
      && f[6] == Raw(16) && v[6] == Text(c.uuid) && f[7] == Number(4) && v[7] == Num(c.blockCount)
      && f[8] == Number(4) && v[8] == Num(c.descriptorRingIndex) && f[9] == Number(4) && v[9] == Num(c.descriptorCrc)
  {}

  /** `EncodeCommit`: the header of a COMMIT block. */
  lemma CommitOffsets(c: CommitRecord)
    ensures var b := CommitBytes(c);
      && NumberAt(b, 20, 4, c.entryCount) && NumberAt(b, 24, 8, c.transactionId) && BytesAt(b, 32, c.uuid)
      && NumberAt(b, 48, 4, c.blockCount) && NumberAt(b, 52, 4, c.descriptorRingIndex) && NumberAt(b, 56, 4, c.descriptorCrc)
  {
    hide Encode, Offset, BytesAt, NumberAt, CommitValues;
    CommitStands();
    CommitFields(c);
    var l, v := COMMIT, CommitValues(c);
    HoldsAt(l, v, 4, 20, Number(4), Num(c.entryCount));
    HoldsAt(l, v, 5, 24, Number(8), Num(c.transactionId));
    HoldsAt(l, v, 6, 32, Raw(16), Text(c.uuid));
    HoldsAt(l, v, 7, 48, Number(4), Num(c.blockCount));
    HoldsAt(l, v, 8, 52, Number(4), Num(c.descriptorRingIndex));
    HoldsAt(l, v, 9, 56, Number(4), Num(c.descriptorCrc));
  }

  // ---- Superblock ----

  lemma SuperblockStands()
    ensures |SUPERBLOCK_HEAD| == 24
    ensures Offset(SUPERBLOCK_HEAD, 5) == 24 && Offset(SUPERBLOCK_HEAD, 6) == 28 && Offset(SUPERBLOCK_HEAD, 7) == 32
    ensures Offset(SUPERBLOCK_HEAD, 9) == 40
  {
    assert Offset(SUPERBLOCK_HEAD, 2) == 12;
    assert Offset(SUPERBLOCK_HEAD, 4) == 20;
    assert Offset(SUPERBLOCK_HEAD, 6) == 28;
    assert Offset(SUPERBLOCK_HEAD, 8) == 36;
  }

  lemma SuperblockStandsLater()
    ensures |SUPERBLOCK_HEAD| == 24
    ensures Offset(SUPERBLOCK_HEAD, 10) == 44 && Offset(SUPERBLOCK_HEAD, 11) == 48 && Offset(SUPERBLOCK_HEAD, 12) == 52
    ensures Offset(SUPERBLOCK_HEAD, 13) == 56 && Offset(SUPERBLOCK_HEAD, 14) == 60 && Offset(SUPERBLOCK_HEAD, 15) == 64
    ensures Offset(SUPERBLOCK_HEAD, 16) == 68 && Offset(SUPERBLOCK_HEAD, 17) == 72
  {
    SuperblockStands();
    assert Offset(SUPERBLOCK_HEAD, 10) == 44;
    assert Offset(SUPERBLOCK_HEAD, 12) == 52;
    assert Offset(SUPERBLOCK_HEAD, 14) == 60;
    assert Offset(SUPERBLOCK_HEAD, 16) == 68;
  }

  lemma SuperblockStandsLast()
    ensures |SUPERBLOCK_HEAD| == 24
    ensures Offset(SUPERBLOCK_HEAD, 18) == 76 && Offset(SUPERBLOCK_HEAD, 19) == 80 && Offset(SUPERBLOCK_HEAD, 20) == 88
    ensures Offset(SUPERBLOCK_HEAD, 21) == 96 && Offset(SUPERBLOCK_HEAD, 22) == 104 && Offset(SUPERBLOCK_HEAD, 23) == 120
  {
    SuperblockStandsLater();
    assert Offset(SUPERBLOCK_HEAD, 18) == 76;
    assert Offset(SUPERBLOCK_HEAD, 20) == 88;
    assert Offset(SUPERBLOCK_HEAD, 22) == 104;
  }

  lemma SuperblockSizeFields(s: Superblock)
    ensures var v, f := SuperblockValues(s).head, SUPERBLOCK_HEAD;
      && |v| == |f| == 24
      && f[5] == Number(4) && v[5] == Num(s.totalBlocks) && f[6] == Number(4) && v[6] == Num(s.totalInodes)
      && f[7] == Number(4) && v[7] == Num(s.rootInode)
  {}

  /** `EncodeSuperblock`: the sizes. */
  lemma SuperblockSizeOffsets(s: Superblock)
    ensures var b := SuperblockHeader(s);
      && NumberAt(b, 24, 4, s.totalBlocks) && NumberAt(b, 28, 4, s.totalInodes) && NumberAt(b, 32, 4, s.rootInode)
  {
    hide Encode, Offset, BytesAt, NumberAt, SuperblockValues;
    SuperblockStands();
    SuperblockStandsLater();
    SuperblockStandsLast();
    SuperblockSizeFields(s);
    var l, v := SUPERBLOCK, SuperblockValues(s);
    HoldsAt(l, v, 5, 24, Number(4), Num(s.totalBlocks));
    HoldsAt(l, v, 6, 28, Number(4), Num(s.totalInodes));
    HoldsAt(l, v, 7, 32, Number(4), Num(s.rootInode));
  }

  lemma SuperblockBitmapFields(s: Superblock)
    ensures var v, f := SuperblockValues(s).head, SUPERBLOCK_HEAD;
      && |v| == |f| == 24
      && f[9] == Number(4) && v[9] == Num(s.inodeBitmap.start) && f[10] == Number(4) && v[10] == Num(s.inodeBitmap.count)
      && f[11] == Number(4) && v[11] == Num(s.blockBitmap.start) && f[12] == Number(4) && v[12] == Num(s.blockBitmap.count)
  {}

  /** The bitmap regions. */
  lemma SuperblockBitmapOffsets(s: Superblock)
    ensures var b := SuperblockHeader(s);
      && NumberAt(b, 40, 4, s.inodeBitmap.start) && NumberAt(b, 44, 4, s.inodeBitmap.count)
      && NumberAt(b, 48, 4, s.blockBitmap.start) && NumberAt(b, 52, 4, s.blockBitmap.count)
  {
    hide Encode, Offset, BytesAt, NumberAt, SuperblockValues;
    SuperblockStands();
    SuperblockStandsLater();
    SuperblockStandsLast();
    SuperblockBitmapFields(s);
    var l, v := SUPERBLOCK, SuperblockValues(s);
    HoldsAt(l, v, 9, 40, Number(4), Num(s.inodeBitmap.start));
    HoldsAt(l, v, 10, 44, Number(4), Num(s.inodeBitmap.count));
    HoldsAt(l, v, 11, 48, Number(4), Num(s.blockBitmap.start));
    HoldsAt(l, v, 12, 52, Number(4), Num(s.blockBitmap.count));
  }

  lemma SuperblockRegionFields(s: Superblock)
    ensures var v, f := SuperblockValues(s).head, SUPERBLOCK_HEAD;
      && |v| == |f| == 24
      && f[13] == Number(4) && v[13] == Num(s.inodeTable.start) && f[14] == Number(4) && v[14] == Num(s.inodeTable.count)
      && f[15] == Number(4) && v[15] == Num(s.journal.start) && f[16] == Number(4) && v[16] == Num(s.journal.count)
      && f[17] == Number(4) && v[17] == Num(s.data.start) && f[18] == Number(4) && v[18] == Num(s.data.count)
  {}

  /** The other regions. */
  lemma SuperblockRegionOffsets(s: Superblock)
    ensures var b := SuperblockHeader(s);
      && NumberAt(b, 56, 4, s.inodeTable.start) && NumberAt(b, 60, 4, s.inodeTable.count) && NumberAt(b, 64, 4, s.journal.start)
      && NumberAt(b, 68, 4, s.journal.count) && NumberAt(b, 72, 4, s.data.start) && NumberAt(b, 76, 4, s.data.count)
  {
    hide Encode, Offset, BytesAt, NumberAt, SuperblockValues;
    SuperblockStands();
    SuperblockStandsLater();
    SuperblockStandsLast();
    SuperblockRegionFields(s);
    var l, v := SUPERBLOCK, SuperblockValues(s);
    HoldsAt(l, v, 13, 56, Number(4), Num(s.inodeTable.start));
    HoldsAt(l, v, 14, 60, Number(4), Num(s.inodeTable.count));
    HoldsAt(l, v, 15, 64, Number(4), Num(s.journal.start));
    HoldsAt(l, v, 16, 68, Number(4), Num(s.journal.count));
    HoldsAt(l, v, 17, 72, Number(4), Num(s.data.start));
    HoldsAt(l, v, 18, 76, Number(4), Num(s.data.count));
  }

  lemma SuperblockFeatureFields(s: Superblock)
    ensures var v, f := SuperblockValues(s).head, SUPERBLOCK_HEAD;
      && |v| == |f| == 24
      && f[19] == Number(8) && v[19] == Num(s.featureCompat) && f[20] == Number(8) && v[20] == Num(s.featureRoCompat)
      && f[21] == Number(8) && v[21] == Num(s.featureIncompat) && f[22] == Raw(16) && v[22] == Text(s.uuid)
      && f[23] == Number(8) && v[23] == Num(s.createdTime)
  {}

  /** Features, identity and creation time. */
  lemma SuperblockFeatureOffsets(s: Superblock)
    ensures var b := SuperblockHeader(s);
      && NumberAt(b, 80, 8, s.featureCompat) && NumberAt(b, 88, 8, s.featureRoCompat) && NumberAt(b, 96, 8, s.featureIncompat)
      && BytesAt(b, 104, s.uuid) && NumberAt(b, 120, 8, s.createdTime)
  {
    hide Encode, Offset, BytesAt, NumberAt, SuperblockValues;
    SuperblockStands();
    SuperblockStandsLater();
    SuperblockStandsLast();
    SuperblockFeatureFields(s);
    var l, v := SUPERBLOCK, SuperblockValues(s);
    HoldsAt(l, v, 19, 80, Number(8), Num(s.featureCompat));
    HoldsAt(l, v, 20, 88, Number(8), Num(s.featureRoCompat));
    HoldsAt(l, v, 21, 96, Number(8), Num(s.featureIncompat));
    HoldsAt(l, v, 22, 104, Raw(16), Text(s.uuid));
    HoldsAt(l, v, 23, 120, Number(8), Num(s.createdTime));
  }

  // ---- Inode ----

  lemma InodeStands()
    ensures |INODE_HEAD| == 14
    ensures Offset(INODE_HEAD, 0) == 0 && Offset(INODE_HEAD, 1) == 4 && Offset(INODE_HEAD, 2) == 8
    ensures Offset(INODE_HEAD, 3) == 12 && Offset(INODE_HEAD, 4) == 16 && Offset(INODE_HEAD, 5) == 24
    ensures Offset(INODE_HEAD, 6) == 32 && Offset(INODE_HEAD, 7) == 40 && Offset(INODE_HEAD, 8) == 48
    ensures Offset(INODE_HEAD, 9) == 52 && Offset(INODE_HEAD, 10) == 56 && Offset(INODE_HEAD, 11) == 64
    ensures Offset(INODE_HEAD, 12) == 112 && Offset(INODE_HEAD, 13) == 116
  {
    assert Offset(INODE_HEAD, 2) == 8;
    assert Offset(INODE_HEAD, 4) == 16;
    assert Offset(INODE_HEAD, 6) == 32;
    assert Offset(INODE_HEAD, 8) == 48;
    assert Offset(INODE_HEAD, 10) == 56;
    assert Offset(INODE_HEAD, 12) == 112;
  }

  lemma InodeFields(i: Inode)
    ensures var v, f := InodeValues(i).head, INODE_HEAD;
      && |v| == |f| == 14
      && f[0] == Number(4) && v[0] == Num(i.mode) && f[1] == Number(4) && v[1] == Num(i.uid)
      && f[2] == Number(4) && v[2] == Num(i.gid) && f[3] == Number(4) && v[3] == Num(i.linkCount)
      && f[4] == Number(8) && v[4] == Num(i.size) && f[5] == Number(8) && v[5] == Num(i.atime)
      && f[6] == Number(8) && v[6] == Num(i.mtime) && f[7] == Number(8) && v[7] == Num(i.ctime)
      && f[8] == Number(4) && v[8] == Num(i.flags) && f[9] == Number(4) && v[9] == Num(i.number)
      && f[10] == Number(8) && v[10] == Num(i.generation) && f[11] == Raw(48) && v[11] == Text(PointersBytes(i.direct))
      && f[12] == Number(4) && v[12] == Num(i.indirect)
  {}

  /** `EncodeInode`: every field of an inode record; the twelve direct pointers stand at 64. */
  lemma InodeOffsets(i: Inode)
    ensures var b := Encode(INODE, InodeValues(i));
      && NumberAt(b, 0, 4, i.mode) && NumberAt(b, 4, 4, i.uid) && NumberAt(b, 8, 4, i.gid) && NumberAt(b, 12, 4, i.linkCount)
      && NumberAt(b, 16, 8, i.size) && NumberAt(b, 24, 8, i.atime) && NumberAt(b, 32, 8, i.mtime) && NumberAt(b, 40, 8, i.ctime)
      && NumberAt(b, 48, 4, i.flags) && NumberAt(b, 52, 4, i.number) && NumberAt(b, 56, 8, i.generation)
      && BytesAt(b, 64, PointersBytes(i.direct)) && NumberAt(b, 112, 4, i.indirect)
  {
    hide Encode, Offset, BytesAt, NumberAt, InodeValues;
    InodeStands();
    InodeFields(i);
    var l, v := INODE, InodeValues(i);
    HoldsAt(l, v, 0, 0, Number(4), Num(i.mode));
    HoldsAt(l, v, 1, 4, Number(4), Num(i.uid));
    HoldsAt(l, v, 2, 8, Number(4), Num(i.gid));
    HoldsAt(l, v, 3, 12, Number(4), Num(i.linkCount));
    HoldsAt(l, v, 4, 16, Number(8), Num(i.size));
    HoldsAt(l, v, 5, 24, Number(8), Num(i.atime));
    HoldsAt(l, v, 6, 32, Number(8), Num(i.mtime));
    HoldsAt(l, v, 7, 40, Number(8), Num(i.ctime));
    HoldsAt(l, v, 8, 48, Number(4), Num(i.flags));
    HoldsAt(l, v, 9, 52, Number(4), Num(i.number));
    HoldsAt(l, v, 10, 56, Number(8), Num(i.generation));
    HoldsAt(l, v, 11, 64, Raw(48), Text(PointersBytes(i.direct)));
    HoldsAt(l, v, 12, 112, Number(4), Num(i.indirect));
  }

  // ---- Ledger ----

  lemma LedgerStands()
    ensures |LEDGER_HEAD| == 12
    ensures Offset(LEDGER_HEAD, 2) == 6 && Offset(LEDGER_HEAD, 3) == 7 && Offset(LEDGER_HEAD, 4) == 8
    ensures Offset(LEDGER_HEAD, 5) == 24 && Offset(LEDGER_HEAD, 6) == 56 && Offset(LEDGER_HEAD, 7) == 60
    ensures Offset(LEDGER_HEAD, 8) == 64 && Offset(LEDGER_HEAD, 9) == 72 && Offset(LEDGER_HEAD, 10) == 76
    ensures Offset(LEDGER_HEAD, 11) == 84
  {
    assert Offset(LEDGER_HEAD, 2) == 6;
    assert Offset(LEDGER_HEAD, 4) == 8;
    assert Offset(LEDGER_HEAD, 6) == 56;
    assert Offset(LEDGER_HEAD, 8) == 64;
    assert Offset(LEDGER_HEAD, 10) == 76;
  }

  lemma LedgerFields(r: LedgerRecord)
    ensures var v, f := RecordValues(r).head, LEDGER_HEAD;
      && |v| == |f| == 12
      && f[2] == Number(1) && v[2] == Num(r.operation) && f[3] == Number(1) && v[3] == Num(r.kind)
      && f[4] == Raw(16) && v[4] == Text(r.id) && f[5] == Raw(32) && v[5] == Text(r.fingerprint)
      && f[6] == Number(4) && v[6] == Num(r.code) && f[7] == Number(4) && v[7] == Num(r.committedInode)
      && f[8] == Number(8) && v[8] == Num(r.committedGeneration) && f[9] == Number(4) && v[9] == Num(r.currentInode)
      && f[10] == Number(8) && v[10] == Num(r.currentGeneration) && f[11] == Number(8) && v[11] == Num(r.sequence)
  {}

  /** `EncodeRequestLedgerRecord`: operation, kind, request id, fingerprint, code, versions and sequence number. */
  lemma LedgerOffsets(r: LedgerRecord)
    ensures var b := RecordBytes(r);
      && NumberAt(b, 6, 1, r.operation) && NumberAt(b, 7, 1, r.kind) && BytesAt(b, 8, r.id) && BytesAt(b, 24, r.fingerprint)
      && NumberAt(b, 56, 4, r.code) && NumberAt(b, 60, 4, r.committedInode) && NumberAt(b, 64, 8, r.committedGeneration)
      && NumberAt(b, 72, 4, r.currentInode) && NumberAt(b, 76, 8, r.currentGeneration) && NumberAt(b, 84, 8, r.sequence)
  {
    hide Encode, Offset, BytesAt, NumberAt, RecordValues;
    LedgerStands();
    LedgerFields(r);
    var l, v := LEDGER, RecordValues(r);
    HoldsAt(l, v, 2, 6, Number(1), Num(r.operation));
    HoldsAt(l, v, 3, 7, Number(1), Num(r.kind));
    HoldsAt(l, v, 4, 8, Raw(16), Text(r.id));
    HoldsAt(l, v, 5, 24, Raw(32), Text(r.fingerprint));
    HoldsAt(l, v, 6, 56, Number(4), Num(r.code));
    HoldsAt(l, v, 7, 60, Number(4), Num(r.committedInode));
    HoldsAt(l, v, 8, 64, Number(8), Num(r.committedGeneration));
    HoldsAt(l, v, 9, 72, Number(4), Num(r.currentInode));
    HoldsAt(l, v, 10, 76, Number(8), Num(r.currentGeneration));
    HoldsAt(l, v, 11, 84, Number(8), Num(r.sequence));
  }
}
