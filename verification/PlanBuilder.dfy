/** Building blocks shared by the planners: bitmap blocks, inode slots and metadata images are added to
    a plan one at a time (src/metadata/file_mutation_plan.cpp, src/metadata/new_object_plan.cpp). */
module PlanBuilder {
  import opened Bytes
  import opened OndiskFormat
  import opened Journal
  import opened JournalStore
  import opened ImageView
  import opened ImageEdit

  function Adding(m: Writes, b: nat, v: Block): (r: Writes)
    ensures r.Keys == m.Keys + {b} && r[b] == v
    ensures forall c :: c in m && c != b ==> r[c] == m[c]
  {
    m[b := v]
  }

  /** Before-images of exactly the blocks in `keys`. */
  predicate BeforeOf(d: Image, before: Writes, keys: set<nat>) {
    before.Keys == keys && MatchesImage(d, before)
  }

  lemma BeforeNothing(d: Image)
    ensures BeforeOf(d, map[], {})
  {}

  lemma BeforeMore(d: Image, before: Writes, keys: set<nat>, b: nat)
    requires BeforeOf(d, before, keys)
    ensures BeforeOf(d, Adding(before, b, At(d, b)), keys + {b})
  {}

  lemma BeforeBoth(d: Image, a: Writes, b: Writes, j: set<nat>, k: set<nat>)
    requires BeforeOf(d, a, j) && BeforeOf(d, b, k)
    ensures BeforeOf(d, a + b, j + k)
  {}

  // ---- Bitmap blocks ----

  predicate RegionDraft(d: Image, r: Region, m: Writes, bytes: seq<byte>, n: nat) {
    && |bytes| == r.count * BLOCK_SIZE && n <= r.count
    && (forall b :: b in m ==> r.start <= b < r.start + n)
    && (forall local: nat :: local < n ==> Updated(d, m, r.start + local) == BlockOf(bytes, local))
  }

  lemma DraftMore(d: Image, r: Region, m: Writes, bytes: seq<byte>, n: nat)
    requires RegionDraft(d, r, m, bytes, n) && n < r.count
    ensures At(d, r.start + n) == BlockOf(bytes, n) ==> RegionDraft(d, r, m, bytes, n + 1)
    ensures RegionDraft(d, r, Adding(m, r.start + n, BlockOf(bytes, n)), bytes, n + 1)
  {
    hide BlockOf, At;
  }

  /** Only bitmap blocks that differ from the image become after-images. */
  method BitmapImages(d: Image, r: Region, bytes: seq<byte>) returns (before: Writes, m: Writes)
    requires |bytes| == r.count * BLOCK_SIZE
    ensures RegionIs(d, r, m, bytes) && forall b :: b in m ==> InRegion(b, r) && m[b] != At(d, b)
    ensures BeforeOf(d, before, m.Keys)
  {
    hide BlockOf, At, BeforeOf, Updated;
    before, m := map[], map[];
    BeforeNothing(d);
    for local := 0 to r.count
      invariant RegionDraft(d, r, m, bytes, local) && forall b :: b in m ==> m[b] != At(d, b)
      invariant BeforeOf(d, before, m.Keys)
    {
      var home := r.start + local;
      var after := BlockOf(bytes, local);
      DraftMore(d, r, m, bytes, local);
      if At(d, home) != after {
        BeforeMore(d, before, m.Keys, home);
        before := Adding(before, home, At(d, home));
        m := Adding(m, home, after);
      }
    }
  }

  lemma OutsideRegion(d: Image, r: Region, m: Writes, bytes: seq<byte>, b: nat, v: Block)
    requires RegionIs(d, r, m, bytes) && !InRegion(b, r)
    ensures RegionIs(d, r, Adding(m, b, v), bytes)
  {
    hide BlockOf, At;
  }

  lemma RegionOfUnion(d: Image, r: Region, m: Writes, other: Writes, bytes: seq<byte>)
    requires RegionIs(d, r, m, bytes) && forall b :: b in other ==> !InRegion(b, r)
    ensures RegionIs(d, r, m + other, bytes) && RegionIs(d, r, other + m, bytes)
  {
    hide BlockOf, At;
    forall b: nat | InRegion(b, r)
      ensures Updated(d, m + other, b) == Updated(d, m, b) == Updated(d, other + m, b)
    {}
  }

  lemma RegionUnchanged(d: Image, r: Region)
    ensures RegionIs(d, r, map[], RegionBytes(d, r))
  {
    hide At;
    var bytes := RegionBytes(d, r);
    forall local: nat | local < r.count
      ensures At(d, r.start + local) == BlockOf(bytes, local)
    {
      var b, c := At(d, r.start + local), BlockOf(bytes, local);
      forall j | 0 <= j < BLOCK_SIZE
        ensures b[j] == c[j]
      {
        assert (local * BLOCK_SIZE + j) / BLOCK_SIZE == local && (local * BLOCK_SIZE + j) % BLOCK_SIZE == j;
      }
    }
  }

  // ---- Inode slots ----

  lemma SlotsUnchanged(sb: Superblock, d: Image)
    ensures SlotsAre(sb, d, map[], map[])
  {
    hide At;
  }

  lemma SlotsOfUnion(sb: Superblock, d: Image, m: Writes, inodes: map<nat, Inode>, other: Writes)
    requires ValidSuperblock(sb) && SlotsAre(sb, d, m, inodes) && forall b :: b in other ==> !InRegion(b, sb.inodeTable)
    ensures SlotsAre(sb, d, m + other, inodes) && SlotsAre(sb, d, other + m, inodes)
  {
    hide EncodeInode, At, ValidSuperblock, InodeOffset;
    forall k | 1 <= k <= sb.totalInodes
      ensures Updated(d, m + other, InodeTableBlock(sb, k)) == Updated(d, m, InodeTableBlock(sb, k))
      ensures Updated(d, other + m, InodeTableBlock(sb, k)) == Updated(d, m, InodeTableBlock(sb, k))
    {
      TableBlockInTable(sb, k);
    }
  }

  /** The table block with one record replaced, on top of earlier changes to the same block. */
  function WithInode(b: Block, n: nat, bytes: InodeBytes): Block {
    Splice(b, InodeOffset(n), bytes)
  }

  lemma InodeAdded(sb: Superblock, d: Image, m: Writes, inodes: map<nat, Inode>, n: nat, inode: Inode)
    requires SlotsAre(sb, d, m, inodes) && 1 <= n <= sb.totalInodes && ValidInode(inode) && inode.number == n
    ensures var table := InodeTableBlock(sb, n);
      SlotsAre(sb, d, Adding(m, table, WithInode(Updated(d, m, table), n, EncodeInode(inode).value)), inodes[n := inode])
  {
    hide EncodeInode, At, InodeOffset, WithInode, SlotOf, InodeSlot;
    var table := InodeTableBlock(sb, n);
    var bytes := EncodeInode(inode).value;
    var after := Adding(m, table, WithInode(Updated(d, m, table), n, bytes));
    forall k | 1 <= k <= sb.totalInodes
      ensures SlotOf(Updated(d, after, InodeTableBlock(sb, k)), k)
           == if k == n then bytes else SlotOf(Updated(d, m, InodeTableBlock(sb, k)), k)
    {
      if InodeTableBlock(sb, k) == table {
        SlotOfSplice(Updated(d, m, table), n, k, bytes);
      }
    }
  }

  lemma SlotOfSplice(b: Block, n: nat, k: nat, bytes: InodeBytes)
    requires n > 0 && k > 0 && (n - 1) / INODES_PER_BLOCK == (k - 1) / INODES_PER_BLOCK
    ensures SlotOf(WithInode(b, n, bytes), k) == if k == n then bytes else SlotOf(b, k)
  {
    hide Splice;
    if k != n {
      var x, y := (n - 1) % INODES_PER_BLOCK, (k - 1) % INODES_PER_BLOCK;
      assert x != y;
      assert InodeOffset(n) == x * 128 && InodeOffset(k) == y * 128;
    }
  }

  // ---- A plan's metadata, one kind at a time ----

  /** The metadata images carry out the edit, apart from its ordered data. */
  predicate Carries(sb: Superblock, d: Image, m: Writes, edit: Edit) {
    && (forall b :: b in edit.blocks ==> InRegion(b, sb.data) && b in m && m[b] == edit.blocks[b])
    && (forall b :: b in m ==>
          b in edit.blocks || InRegion(b, sb.inodeBitmap) || InRegion(b, sb.blockBitmap) || InRegion(b, sb.inodeTable))
    && (forall b :: b in m && InRegion(b, sb.inodeTable) ==> TakesRecord(sb, edit.inodes, b))
    && RegionIs(d, sb.inodeBitmap, m, edit.inodeBitmap) && RegionIs(d, sb.blockBitmap, m, edit.blockBitmap)
    && SlotsAre(sb, d, m, edit.inodes) && OnlyChanged(sb, d, m)
  }

  /** Blocks of the data region alone change no bitmap and no inode. */
  lemma CarriesBlocks(sb: Superblock, d: Image, ordered: Writes, blocks: Writes)
    requires ValidSuperblock(sb) && forall b :: b in blocks ==> InRegion(b, sb.data)
    ensures Carries(sb, d, blocks,
                    Edit(ordered, blocks, map[], RegionBytes(d, sb.inodeBitmap), RegionBytes(d, sb.blockBitmap)))
  {
    hide RegionIs, SlotsAre, RegionBytes, ValidSuperblock;
    RegionsDisjoint(sb);
    RegionUnchanged(d, sb.inodeBitmap);
    RegionUnchanged(d, sb.blockBitmap);
    SlotsUnchanged(sb, d);
    RegionOfUnion(d, sb.inodeBitmap, map[], blocks, RegionBytes(d, sb.inodeBitmap));
    RegionOfUnion(d, sb.blockBitmap, map[], blocks, RegionBytes(d, sb.blockBitmap));
    SlotsOfUnion(sb, d, map[], map[], blocks);
    assert map[] + blocks == blocks;
  }

  lemma CarriesInode(sb: Superblock, d: Image, m: Writes, edit: Edit, n: nat, inode: Inode)
    requires ValidSuperblock(sb) && Carries(sb, d, m, edit)
    requires 1 <= n <= sb.totalInodes && ValidInode(inode) && inode.number == n
    ensures var table := InodeTableBlock(sb, n);
      Carries(sb, d, Adding(m, table, WithInode(Updated(d, m, table), n, EncodeInode(inode).value)),
              edit.(inodes := edit.inodes[n := inode]))
  {
    hide RegionIs, SlotsAre, ValidSuperblock, EncodeInode, WithInode, Updated, Adding, TakesRecord;
    RegionsDisjoint(sb);
    TableBlockInTable(sb, n);
    var table := InodeTableBlock(sb, n);
    var v := WithInode(Updated(d, m, table), n, EncodeInode(inode).value);
    InodeAdded(sb, d, m, edit.inodes, n, inode);
    OutsideRegion(d, sb.inodeBitmap, m, edit.inodeBitmap, table, v);
    OutsideRegion(d, sb.blockBitmap, m, edit.blockBitmap, table, v);
    RecordTaken(sb, edit.inodes, n, inode);
  }

  lemma RecordTaken(sb: Superblock, inodes: map<nat, Inode>, n: nat, inode: Inode)
    requires n > 0
    ensures TakesRecord(sb, inodes[n := inode], InodeTableBlock(sb, n))
    ensures forall b :: TakesRecord(sb, inodes, b) ==> TakesRecord(sb, inodes[n := inode], b)
  {
    assert n in inodes[n := inode];
    forall b | TakesRecord(sb, inodes, b)
      ensures TakesRecord(sb, inodes[n := inode], b)
    {
      var k :| k in inodes && k > 0 && InodeTableBlock(sb, k) == b;
      assert k in inodes[n := inode];
    }
  }

  lemma CarriesInodeBitmap(sb: Superblock, d: Image, m: Writes, edit: Edit, images: Writes, bytes: seq<byte>)
    requires ValidSuperblock(sb) && Carries(sb, d, m, edit) && forall b :: b in m ==> !InRegion(b, sb.inodeBitmap)
    requires RegionIs(d, sb.inodeBitmap, images, bytes)
    requires forall b :: b in images ==> InRegion(b, sb.inodeBitmap) && images[b] != At(d, b)
    ensures Carries(sb, d, m + images, edit.(inodeBitmap := bytes))
  {
    hide RegionIs, SlotsAre, ValidSuperblock;
    RegionsDisjoint(sb);
    RegionOfUnion(d, sb.inodeBitmap, images, m, bytes);
    RegionOfUnion(d, sb.blockBitmap, m, images, edit.blockBitmap);
    SlotsOfUnion(sb, d, m, edit.inodes, images);
  }

  lemma CarriesBlockBitmap(sb: Superblock, d: Image, m: Writes, edit: Edit, images: Writes, bytes: seq<byte>)
    requires ValidSuperblock(sb) && Carries(sb, d, m, edit) && forall b :: b in m ==> !InRegion(b, sb.blockBitmap)
    requires RegionIs(d, sb.blockBitmap, images, bytes)
    requires forall b :: b in images ==> InRegion(b, sb.blockBitmap) && images[b] != At(d, b)
    ensures Carries(sb, d, m + images, edit.(blockBitmap := bytes))
  {
    hide RegionIs, SlotsAre, ValidSuperblock;
    RegionsDisjoint(sb);
    RegionOfUnion(d, sb.blockBitmap, images, m, bytes);
    RegionOfUnion(d, sb.inodeBitmap, m, images, edit.inodeBitmap);
    SlotsOfUnion(sb, d, m, edit.inodes, images);
  }

  lemma CarriesRealizes(sb: Superblock, d: Image, tx: Transaction, edit: Edit)
    requires ValidSuperblock(sb) && |d| == sb.totalBlocks && Carries(sb, d, tx.metadata, edit)
    requires tx.ordered == edit.ordered && forall b :: b in edit.ordered ==> InRegion(b, sb.data) && b !in edit.blocks
    requires BeforeOf(d, tx.before, tx.ordered.Keys + tx.metadata.Keys)
    ensures Realizes(sb, d, tx, edit)
  {
    hide RegionIs, SlotsAre, ValidSuperblock, MatchesImage;
  }

  /** Before-images of the blocks in `m`. */
  method BeforeImages(d: Image, m: Writes) returns (before: Writes)
    ensures BeforeOf(d, before, m.Keys)
  {
    before := map b | b in m :: At(d, b);
  }

  // ---- Inode records and bitmaps together ----

  /** Adds inode records to the table blocks, each on top of the earlier ones. */
  method AddInode(sb: Superblock, d: Image, m: Writes, ghost edit: Edit, n: nat, inode: Inode)
    returns (r: Writes, ghost next: Edit)
    requires ValidSuperblock(sb) && Carries(sb, d, m, edit)
    requires 1 <= n <= sb.totalInodes && ValidInode(inode) && inode.number == n
    ensures Carries(sb, d, r, next) && next == edit.(inodes := edit.inodes[n := inode])
    ensures forall b :: b in r ==> b in m || InRegion(b, sb.inodeTable)
  {
    hide Carries, EncodeInode, WithInode, Updated, ValidSuperblock, Adding;
    TableBlockInTable(sb, n);
    CarriesInode(sb, d, m, edit, n, inode);
    var table := InodeTableBlock(sb, n);
    r := Adding(m, table, WithInode(Updated(d, m, table), n, EncodeInode(inode).value));
    next := edit.(inodes := edit.inodes[n := inode]);
  }

  /** Adds the changed blocks of both bitmaps. */
  method AddBitmaps(sb: Superblock, d: Image, m: Writes, ghost edit: Edit, inodeBitmap: seq<byte>, blockBitmap: seq<byte>)
    returns (r: Writes, ghost next: Edit)
    requires ValidSuperblock(sb) && Carries(sb, d, m, edit)
    requires forall b :: b in m ==> !InRegion(b, sb.inodeBitmap) && !InRegion(b, sb.blockBitmap)
    requires |inodeBitmap| == sb.inodeBitmap.count * BLOCK_SIZE && |blockBitmap| == sb.blockBitmap.count * BLOCK_SIZE
    ensures Carries(sb, d, r, next) && next == edit.(inodeBitmap := inodeBitmap, blockBitmap := blockBitmap)
  {
    hide Carries, RegionIs, ValidSuperblock, BeforeOf;
    RegionsDisjoint(sb);
    var before, images := BitmapImages(d, sb.inodeBitmap, inodeBitmap);
    CarriesInodeBitmap(sb, d, m, edit, images, inodeBitmap);
    var withInodes := m + images;
    var before2, images2 := BitmapImages(d, sb.blockBitmap, blockBitmap);
    CarriesBlockBitmap(sb, d, withInodes, edit.(inodeBitmap := inodeBitmap), images2, blockBitmap);
    r := withInodes + images2;
    next := edit.(inodeBitmap := inodeBitmap, blockBitmap := blockBitmap);
  }
}
