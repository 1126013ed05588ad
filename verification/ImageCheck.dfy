/** The physical half of the offline checker: bitmap geometry, inode records, block references and
    directory records (src/checker/consistency_checker.cpp). */
module ImageCheck {
  import opened Bytes
  import opened Errors
  import opened Order
  import opened OndiskFormat
  import opened Journal
  import opened Bitmap
  import opened ImageView
  import opened ImageEdit
  import opened Directory
  import opened Health
  import opened NamespaceCheck

  // ---- What the checks come to ----

  /** A pointer is there exactly where the size asks for one, and leads to an allocated data block. */
  predicate PointerOk(sb: Superblock, d: Image, p: nat, required: bool) {
    (required <==> p != 0) && (required ==> DataBlock(sb, d, p))
  }

  predicate MapOk(sb: Superblock, d: Image, i: Inode) {
    var n := RequiredBlocks(i.size);
    && (forall l :: 0 <= l < DIRECT_BLOCKS ==> PointerOk(sb, d, i.direct[l], l < n))
    && PointerOk(sb, d, i.indirect, n > DIRECT_BLOCKS)
    && (n > DIRECT_BLOCKS ==>
          forall k :: 0 <= k < POINTERS_PER_BLOCK ==> PointerOk(sb, d, Pointers(At(d, i.indirect))[k], k < n - DIRECT_BLOCKS))
  }

  lemma MapOkIs(sb: Superblock, d: Image, i: Inode)
    ensures MappingHolds(sb, d, i) <==> MapOk(sb, d, i) && (IsDirectory(i.mode) ==> i.size % BLOCK_SIZE == 0)
  {
    hide DataBlock, Pointers, At;
  }

  /** New block references: none twice, none taken. */
  predicate Placed(list: seq<nat>, taken: set<nat>) {
    (forall j, k :: 0 <= j < k < |list| ==> list[j] != list[k]) && (forall k :: 0 <= k < |list| ==> list[k] !in taken)
  }

  function SetOf(list: seq<nat>): set<nat> {
    set k | 0 <= k < |list| :: list[k]
  }

  lemma PlacedMore(list: seq<nat>, p: nat, taken: set<nat>)
    ensures Placed(list + [p], taken) <==> Placed(list, taken) && p !in SetOf(list) && p !in taken
    ensures SetOf(list + [p]) == SetOf(list) + {p}
  {
    var more := list + [p];
    if Placed(more, taken) {
      assert more[|list|] == p;
      forall k | 0 <= k < |list|
        ensures list[k] != p && list[k] !in taken
      {
        assert more[k] == list[k];
      }
      assert forall j, k :: 0 <= j < k < |list| ==> more[j] == list[j] && more[k] == list[k];
    }
    forall x
      ensures x in SetOf(more) <==> x in SetOf(list) + {p}
    {
      if x in SetOf(list) {
        var k :| 0 <= k < |list| && list[k] == x;
        assert more[k] == x;
      }
      if x == p {
        assert more[|list|] == x;
      }
    }
  }

  /** The mapped blocks below `l`. */
  function Mapped(d: Image, i: Inode, from: nat, to: nat): (r: seq<nat>)
    ensures |r| == (if from < to then to - from else 0) && forall k :: 0 <= k < |r| ==> r[k] == MapBlock(d, i, from + k)
  {
    if from >= to then [] else Mapped(d, i, from, to - 1) + [MapBlock(d, i, to - 1)]
  }

  function Min(a: nat, b: nat): nat {
    if a < b then a else b
  }

  /** Block references in the order of the scan. */
  function OwnedList(d: Image, i: Inode): seq<nat> {
    var n := RequiredBlocks(i.size);
    DirectList(d, i)
    + (if n > DIRECT_BLOCKS then [i.indirect as nat] + IndirectList(d, i) else [])
  }

  class Checker {
    const sb: Superblock
    const d: Image
    var issues: seq<Issue>
    var complete: bool
    var refs: map<nat, nat>
    var decoded: map<nat, Inode>
    var entries: map<nat, seq<Entry>>

    constructor (sb: Superblock, d: Image)
      ensures this.sb == sb && this.d == d && Clean()
      ensures refs == map[] && decoded == map[] && entries == map[]
    {
      this.sb := sb;
      this.d := d;
      issues := [];
      complete := true;
      refs := map[];
      decoded := map[];
      entries := map[];
    }

    /** No issue and no gap in the evidence so far. */
    predicate Clean()
      reads this
    {
      issues == [] && complete
    }

    method AddIssue(issue: Issue)
      modifies this`issues
      ensures !Clean()
    {
      issues := issues + [issue];
    }

    /** One pointer of an inode: missing, superfluous, outside the data region, free or taken. */
    method CheckPointer(n: nat, p: nat, required: bool)
      modifies this`issues, this`refs
      ensures Clean() <==> old(Clean()) && PointerOk(sb, d, p, required) && (required ==> p !in old(refs))
      ensures Clean() ==> refs.Keys == old(refs).Keys + (if required then {p} else {})
    {
      hide BlockUsed;
      if p == 0 {
        if required {
          AddIssue(MissingRequiredBlock);
        }
        return;
      }
      if !required {
        AddIssue(BlockPointerBeyondEnd);
      }
      if p < sb.data.start || p >= sb.totalBlocks {
        AddIssue(ReferencedBlockOutOfRange);
        return;
      }
      if !BlockUsed(sb, d, p) {
        AddIssue(ReferencedBlockMarkedFree);
      }
      if p in refs {
        AddIssue(DuplicateBlockReference);
      } else {
        refs := refs[p := n];
      }
    }

    method ScanDirect(n: nat, i: Inode)
      modifies this`issues, this`refs
      ensures Clean() <==> old(Clean()) && DirectOk(sb, d, i) && Placed(DirectList(d, i), old(refs).Keys)
      ensures Clean() ==> refs.Keys == old(refs).Keys + SetOf(DirectList(d, i))
    {
      hide PointerOk, Placed, SetOf, MapBlock;
      var required := RequiredBlocks(i.size);
      ghost var taken, wasClean := refs.Keys, Clean();
      NothingPlaced(taken);
      for l := 0 to DIRECT_BLOCKS
        invariant Clean() <==>
          && wasClean && (forall k :: 0 <= k < l ==> PointerOk(sb, d, i.direct[k], k < required))
          && Placed(Mapped(d, i, 0, Min(l, required)), taken)
        invariant Clean() ==> refs.Keys == taken + SetOf(Mapped(d, i, 0, Min(l, required)))
      {
        CheckPointer(n, i.direct[l], l < required);
        if l < required {
          DirectIs(d, i, l);
          PlacedMore(Mapped(d, i, 0, l), i.direct[l], taken);
          assert Mapped(d, i, 0, l + 1) == Mapped(d, i, 0, l) + [i.direct[l] as nat];
        }
      }
    }

    method ScanIndirect(n: nat, i: Inode, ghost taken: set<nat>, ghost list: seq<nat>)
      requires i.indirect != 0 && i.size <= MAX_FILE_SIZE
      requires Clean() ==> refs.Keys == taken + SetOf(list) && Placed(list, taken)
      modifies this`issues, this`refs
      ensures Clean() <==> old(Clean()) && IndirectOk(sb, d, i) && Placed(list + IndirectList(d, i), taken)
      ensures Clean() ==> refs.Keys == taken + SetOf(list + IndirectList(d, i))
    {
      hide PointerOk, Placed, SetOf, MapBlock, Pointers, At;
      var required := RequiredBlocks(i.size);
      var pointers := Pointers(At(d, i.indirect));
      var extra: nat := if required > DIRECT_BLOCKS then required - DIRECT_BLOCKS else 0;
      ghost var wasClean := Clean();
      assert list + Mapped(d, i, DIRECT_BLOCKS, DIRECT_BLOCKS) == list;
      for k := 0 to POINTERS_PER_BLOCK
        invariant Clean() <==>
          && wasClean && (forall j :: 0 <= j < k ==> PointerOk(sb, d, pointers[j], j < extra))
          && Placed(list + Mapped(d, i, DIRECT_BLOCKS, DIRECT_BLOCKS + Min(k, extra)), taken)
        invariant Clean() ==> refs.Keys == taken + SetOf(list + Mapped(d, i, DIRECT_BLOCKS, DIRECT_BLOCKS + Min(k, extra)))
      {
        CheckPointer(n, pointers[k], k < extra);
        if k < extra {
          IndirectIs(d, i, k);
          ghost var mapped := Mapped(d, i, DIRECT_BLOCKS, DIRECT_BLOCKS + k);
          PlacedMore(list + mapped, pointers[k], taken);
          assert list + Mapped(d, i, DIRECT_BLOCKS, DIRECT_BLOCKS + k + 1) == list + mapped + [pointers[k] as nat];
        }
      }
    }

    /** All pointers of an inode: direct, indirect, and those of the indirect block. Without the indirect
        block the evidence has a gap. */
    method ScanBlocks(n: nat, i: Inode)
      requires i.size <= MAX_FILE_SIZE
      modifies this`issues, this`refs, this`complete
      ensures complete <==> old(complete) && IndirectLocated(sb, i)
      ensures Clean() <==> old(Clean()) && MapOk(sb, d, i) && Placed(OwnedList(d, i), old(refs).Keys)
      ensures Clean() ==> refs.Keys == old(refs).Keys + SetOf(OwnedList(d, i))
    {
      hide PointerOk, Placed, SetOf, Mapped, DirectList, IndirectList, DirectOk, IndirectOk;
      var large := RequiredBlocks(i.size) > DIRECT_BLOCKS;
      ghost var taken := refs.Keys;
      ghost var first := DirectList(d, i);
      ScanDirect(n, i);
      CheckPointer(n, i.indirect, large);
      PlacedMore(first, i.indirect, taken);
      PointerIs(sb, d, i.indirect, large);
      PlacedPrefix(first, i.indirect, IndirectList(d, i), taken);
      if i.indirect != 0 && sb.data.start <= i.indirect < sb.totalBlocks {
        ScanIndirect(n, i, taken, if large then first + [i.indirect as nat] else first);
      } else if i.indirect != 0 {
        complete := false;
      }
      MapOkParts(sb, d, i);
      OwnedListParts(d, i);
    }

    /** The records of one block: names, ranges and allocation of their targets. */
    method AddEntries(es: seq<Entry>, names: set<Name>, list: seq<Entry>) returns (more: set<Name>, longer: seq<Entry>)
      requires Clean() ==> names == NamesOf(list) && NamesUnique(list)
      requires TargetsInRange(sb, list)
      modifies this`issues, this`complete
      ensures Clean() <==> old(Clean()) && NamesUnique(list + Listed(es)) && TargetsUsed(sb, d, Listed(es))
      ensures Clean() ==> longer == list + Listed(es) && more == NamesOf(longer)
      ensures TargetsInRange(sb, longer)
      ensures complete <==> old(complete) && TargetsInRange(sb, Listed(es))
      ensures complete ==> longer == list + Listed(es)
    {
      hide InodeUsed, NamesUnique, NamesOf;
      more, longer := names, list;
      ghost var wasClean, wasComplete := Clean(), complete;
      NothingListed(list, es);
      for j := 0 to |es|
        invariant Clean() <==> wasClean && NamesUnique(list + Listed(es[..j])) && TargetsUsed(sb, d, Listed(es[..j]))
        invariant Clean() ==> longer == list + Listed(es[..j]) && more == NamesOf(longer)
        invariant TargetsInRange(sb, longer)
        invariant complete <==> wasComplete && TargetsInRange(sb, Listed(es[..j]))
        invariant complete ==> longer == list + Listed(es[..j])
      {
        var e := es[j].(length := 0);
        OneMore(list, es, j);
        NamesMore(list + Listed(es[..j]), e);
        UsedInRange(sb, d, e.inode);
        if e.name in more {
          AddIssue(DuplicateDentryName);
        }
        more := more + {e.name};
        if e.inode == 0 || e.inode > sb.totalInodes {
          AddIssue(DentryTargetOutOfRange);
          complete := false;
        } else {
          longer := longer + [e];
          if !InodeUsed(sb, d, e.inode) {
            AddIssue(DentryTargetInodeMarkedFree);
          }
        }
      }
      assert es[..|es|] == es;
    }

    /** The records of a directory. */
    method ScanDirectory(n: nat, i: Inode) returns (list: seq<Entry>)
      requires i.size <= MAX_FILE_SIZE && (Clean() ==> MapOk(sb, d, i))
      modifies this`issues, this`complete, this`entries
      ensures Clean() <==> old(Clean()) && DirOk(sb, d, i)
      ensures TargetsInRange(sb, list)
      ensures Clean() ==> entries == old(entries)[n := list] && DirEntries(d, i) == Some(list)
      ensures complete <==> old(complete) && DirEvident(sb, d, i)
      ensures complete ==> entries == old(entries)[n := list] && DirEntries(d, i) == Some(list)
    {
      hide EvidentUpTo;
      hide UpToOk, MapOk, Parse, MapBlock, LogicalBlock, NamesOf, TargetsUsed, NamesUnique, EntriesUpTo;
      list := [];
      if i.size % BLOCK_SIZE != 0 {
        AddIssue(DirectoryRecordUndecodable);
        complete := false;
        return;
      }
      var names: set<Name> := {};
      ghost var wasClean, wasComplete := Clean(), complete;
      NothingUpTo(sb, d, i);
      NothingEvident(sb, d, i);
      for l := 0 to i.size / BLOCK_SIZE
        invariant TargetsInRange(sb, list) && entries == old(entries)
        invariant Clean() <==> wasClean && UpToOk(sb, d, i, l)
        invariant Clean() ==> EntriesUpTo(d, i, l) == Some(list) && names == NamesOf(list) && NamesUnique(list)
        invariant complete <==> wasComplete && EvidentUpTo(sb, d, i, l)
        invariant complete ==> EntriesUpTo(d, i, l) == Some(list)
      {
        ghost var clean := Clean();
        EvidentMore(sb, d, i, l);
        var physical := LogicalBlock(sb, d, i, l);
        if wasClean {
          LogicalIs(sb, d, i, l);
        }
        ShorterOk(sb, d, i, l);
        if physical == None {
          complete := false;
        } else {
          var es, ok := ReadRecords(At(d, physical.value));
          if !ok {
            AddIssue(DirectoryRecordUndecodable);
            complete := false;
          }
          ghost var was := list;
          names, list := AddEntries(es, names, list);
          if clean {
            MoreOk(sb, d, i, l, was, es, ok);
          }
        }
      }
      entries := entries[n := list];
    }

    /** One inode of the physical scan; returns the inodes its entries name. */
    method ScanInode(n: nat) returns (found: seq<nat>)
      modifies this
      ensures Clean() <==> old(Clean()) && InodeOk(sb, d, n) && Owned(d, FileAt(sb, d, n)) !! old(refs).Keys
      ensures forall k :: 0 <= k < |found| ==> 1 <= found[k] <= sb.totalInodes
      ensures Clean() ==>
        && refs.Keys == old(refs).Keys + Owned(d, FileAt(sb, d, n)) && decoded == old(decoded)[n := FileAt(sb, d, n)]
        && entries == WithEntries(old(entries), n, d, FileAt(sb, d, n)) && found == TargetsOf(d, FileAt(sb, d, n))
      ensures complete <==> old(complete) && InodeEvident(sb, d, n)
      ensures complete ==>
        && decoded == old(decoded)[n := FileAt(sb, d, n)] && entries == WithEntries(old(entries), n, d, FileAt(sb, d, n))
        && found == TargetsOf(d, FileAt(sb, d, n))
    {
      hide DirEvident;
      hide MapOk, Placed, OwnedList, SetOf, DirOk, OwnBlocksDistinct, Owned, DirEntries, InodeAt;
      found := [];
      var record := InodeAt(sb, d, n);
      if record == None {
        AddIssue(InodeUndecodable);
        complete := false;
        return;
      }
      var i := record.value;
      InodeIsSmall(sb, d, n);
      decoded := decoded[n := i];
      ghost var taken := refs.Keys;
      ScanBlocks(n, i);
      if MapOk(sb, d, i) {
        OwnedListIs(sb, d, i, taken);
      }
      if IsDirectory(i.mode) {
        var list := ScanDirectory(n, i);
        found := Targets(list);
      }
    }
  }

  // ---- What the scan can locate and decode ----

  predicate IndirectLocated(sb: Superblock, i: Inode) {
    i.indirect != 0 ==> sb.data.start <= i.indirect < sb.totalBlocks
  }

  /** The first `n` blocks of a directory can be located, parse, and name inodes of the table. */
  predicate EvidentUpTo(sb: Superblock, d: Image, i: Inode, n: nat) {
    && (forall l: nat :: l < n ==> LogicalBlock(sb, d, i, l).Some?)
    && EntriesUpTo(d, i, n).Some? && TargetsInRange(sb, EntriesUpTo(d, i, n).value)
  }

  predicate DirEvident(sb: Superblock, d: Image, i: Inode) {
    i.size % BLOCK_SIZE == 0 && EvidentUpTo(sb, d, i, RequiredBlocks(i.size))
  }

  /** The record decodes, its indirect block can be located, and a directory can be read. */
  predicate InodeEvident(sb: Superblock, d: Image, n: nat) {
    && InodeAt(sb, d, n).Some?
    && var i := FileAt(sb, d, n);
       IndirectLocated(sb, i) && (IsDirectory(i.mode) ==> DirEvident(sb, d, i))
  }

  lemma NothingEvident(sb: Superblock, d: Image, i: Inode)
    ensures EvidentUpTo(sb, d, i, 0)
  {}

  /** One more block of a directory. */
  lemma EvidentMore(sb: Superblock, d: Image, i: Inode, l: nat)
    ensures EvidentUpTo(sb, d, i, l + 1) <==>
      && EvidentUpTo(sb, d, i, l) && LogicalBlock(sb, d, i, l) == Some(MapBlock(d, i, l)) && Parse(At(d, MapBlock(d, i, l))).Some?
      && TargetsInRange(sb, Listed(Active(Parse(At(d, MapBlock(d, i, l))).value)))
    ensures EntriesUpTo(d, i, l).Some? && Parse(At(d, MapBlock(d, i, l))).Some? ==>
      EntriesUpTo(d, i, l + 1) == Some(EntriesUpTo(d, i, l).value + Listed(Active(Parse(At(d, MapBlock(d, i, l))).value)))
    ensures LogicalBlock(sb, d, i, l).Some? ==> LogicalBlock(sb, d, i, l) == Some(MapBlock(d, i, l))
  {
    hide Parse, MapBlock, Active, Listed, At;
    if EntriesUpTo(d, i, l).Some? && Parse(At(d, MapBlock(d, i, l))).Some? {
      var was, more := EntriesUpTo(d, i, l).value, Listed(Active(Parse(At(d, MapBlock(d, i, l))).value));
      TargetsSplit(sb, was, more);
    }
  }

  lemma TargetsSplit(sb: Superblock, a: seq<Entry>, b: seq<Entry>)
    ensures TargetsInRange(sb, a + b) <==> TargetsInRange(sb, a) && TargetsInRange(sb, b)
  {
    if TargetsInRange(sb, a + b) {
      assert forall k :: 0 <= k < |a| ==> (a + b)[k] == a[k];
      assert forall k :: 0 <= k < |b| ==> (a + b)[|a| + k] == b[k];
    }
  }

  predicate TargetsInRange(sb: Superblock, es: seq<Entry>) {
    forall k :: 0 <= k < |es| ==> 1 <= es[k].inode <= sb.totalInodes
  }

  predicate TargetsUsed(sb: Superblock, d: Image, es: seq<Entry>) {
    forall k :: 0 <= k < |es| ==> InodeUsed(sb, d, es[k].inode)
  }

  function NamesOf(es: seq<Entry>): set<Name> {
    set k | 0 <= k < |es| :: es[k].name
  }

  predicate UpToOk(sb: Superblock, d: Image, i: Inode, l: nat) {
    && EntriesUpTo(d, i, l).Some? && NamesUnique(EntriesUpTo(d, i, l).value) && TargetsUsed(sb, d, EntriesUpTo(d, i, l).value)
  }

  /** The directory parses, no name is used twice, and every entry leads to an allocated inode. */
  predicate DirOk(sb: Superblock, d: Image, i: Inode) {
    i.size % BLOCK_SIZE == 0 && UpToOk(sb, d, i, RequiredBlocks(i.size))
  }

  predicate InodeOk(sb: Superblock, d: Image, n: nat) {
    && InodeAt(sb, d, n).Some?
    && var i := FileAt(sb, d, n);
       MapOk(sb, d, i) && OwnBlocksDistinct(d, i) && (IsDirectory(i.mode) ==> DirOk(sb, d, i))
  }

  function WithEntries(entries: map<nat, seq<Entry>>, n: nat, d: Image, i: Inode): map<nat, seq<Entry>> {
    if IsDirectory(i.mode) && DirEntries(d, i).Some? then entries[n := DirEntries(d, i).value] else entries
  }

  function TargetsOf(d: Image, i: Inode): seq<nat> {
    if IsDirectory(i.mode) && DirEntries(d, i).Some? then Targets(DirEntries(d, i).value) else []
  }

  /** The block the scan reads for logical block `l`, if it can be located. */
  function LogicalBlock(sb: Superblock, d: Image, i: Inode, l: nat): Option<nat> {
    var located := l < DIRECT_BLOCKS || (l < MAX_FILE_BLOCKS && i.indirect != 0 && sb.data.start <= i.indirect < sb.totalBlocks);
    if located && MapBlock(d, i, l) != 0 && sb.data.start <= MapBlock(d, i, l) < sb.totalBlocks then Some(MapBlock(d, i, l)) else None
  }

  lemma LogicalIs(sb: Superblock, d: Image, i: Inode, l: nat)
    requires MapOk(sb, d, i) && l < RequiredBlocks(i.size) && i.size <= MAX_FILE_SIZE
    ensures LogicalBlock(sb, d, i, l) == Some(MapBlock(d, i, l))
  {
    hide At, Pointers, BlockUsed;
    if l >= DIRECT_BLOCKS {
      assert PointerOk(sb, d, Pointers(At(d, i.indirect))[l - DIRECT_BLOCKS], true);
    }
  }

  lemma InodeIsSmall(sb: Superblock, d: Image, n: nat)
    requires InodeAt(sb, d, n).Some?
    ensures InodeAt(sb, d, n).value.size <= MAX_FILE_SIZE && FileAt(sb, d, n) == InodeAt(sb, d, n).value
  {}

  lemma UsedInRange(sb: Superblock, d: Image, n: nat)
    ensures InodeUsed(sb, d, n) ==> 1 <= n <= sb.totalInodes
  {}

  lemma NothingListed(list: seq<Entry>, es: seq<Entry>)
    ensures Listed(es[..0]) == [] && list + Listed(es[..0]) == list
  {}

  lemma OneMore(list: seq<Entry>, es: seq<Entry>, j: nat)
    requires j < |es|
    ensures Listed(es[..j + 1]) == Listed(es[..j]) + [es[j].(length := 0)]
    ensures list + Listed(es[..j + 1]) == list + Listed(es[..j]) + [es[j].(length := 0)]
  {}

  lemma NamesMore(list: seq<Entry>, e: Entry)
    ensures NamesUnique(list + [e]) <==> NamesUnique(list) && e.name !in NamesOf(list)
    ensures NamesOf(list + [e]) == NamesOf(list) + {e.name}
  {
    var more := list + [e];
    assert more[|list|] == e && forall k :: 0 <= k < |list| ==> more[k] == list[k];
    if NamesUnique(more) {
      forall k | 0 <= k < |list|
        ensures list[k].name != e.name
      {
        assert more[k].name != more[|list|].name;
      }
    }
    forall x
      ensures x in NamesOf(more) <==> x in NamesOf(list) + {e.name}
    {
      if x in NamesOf(list) {
        var k :| 0 <= k < |list| && list[k].name == x;
        assert more[k].name == x;
      }
    }
  }

  lemma NothingUpTo(sb: Superblock, d: Image, i: Inode)
    ensures UpToOk(sb, d, i, 0) && EntriesUpTo(d, i, 0) == Some([]) && NamesOf([]) == {} && NamesUnique([])
  {}

  lemma ShorterOk(sb: Superblock, d: Image, i: Inode, l: nat)
    ensures UpToOk(sb, d, i, l + 1) ==> UpToOk(sb, d, i, l)
  {
    hide Parse, MapBlock, InodeUsed;
    if UpToOk(sb, d, i, l + 1) {
      var a, b := EntriesUpTo(d, i, l).value, EntriesUpTo(d, i, l + 1).value;
      assert forall k :: 0 <= k < |a| ==> b[k] == a[k];
    }
  }

  lemma MoreOk(sb: Superblock, d: Image, i: Inode, l: nat, was: seq<Entry>, es: seq<Entry>, ok: bool)
    requires EntriesUpTo(d, i, l) == Some(was) && UpToOk(sb, d, i, l)
    requires ok <==> Parse(At(d, MapBlock(d, i, l))).Some?
    requires ok ==> es == Active(Parse(At(d, MapBlock(d, i, l))).value)
    ensures UpToOk(sb, d, i, l + 1) <==> ok && NamesUnique(was + Listed(es)) && TargetsUsed(sb, d, Listed(es))
    ensures ok ==> EntriesUpTo(d, i, l + 1) == Some(was + Listed(es))
  {
    hide Parse, MapBlock, InodeUsed, Active;
    if ok {
      var all := was + Listed(es);
      assert EntriesUpTo(d, i, l + 1) == Some(all);
      if TargetsUsed(sb, d, all) {
        assert forall k :: 0 <= k < |Listed(es)| ==> all[|was| + k] == Listed(es)[k];
      }
    }
  }

  function DirectList(d: Image, i: Inode): seq<nat> {
    Mapped(d, i, 0, Min(DIRECT_BLOCKS, RequiredBlocks(i.size)))
  }

  function IndirectList(d: Image, i: Inode): seq<nat> {
    Mapped(d, i, DIRECT_BLOCKS, RequiredBlocks(i.size))
  }

  predicate DirectOk(sb: Superblock, d: Image, i: Inode) {
    forall l :: 0 <= l < DIRECT_BLOCKS ==> PointerOk(sb, d, i.direct[l], l < RequiredBlocks(i.size))
  }

  predicate IndirectOk(sb: Superblock, d: Image, i: Inode) {
    forall k :: 0 <= k < POINTERS_PER_BLOCK ==>
      PointerOk(sb, d, Pointers(At(d, i.indirect))[k], k < RequiredBlocks(i.size) - DIRECT_BLOCKS)
  }

  lemma NothingPlaced(taken: set<nat>)
    ensures Placed([], taken) && SetOf([]) == {}
  {}

  lemma PointerIs(sb: Superblock, d: Image, p: nat, required: bool)
    ensures PointerOk(sb, d, p, required) ==> (required <==> p != 0) && (required ==> sb.data.start <= p < sb.totalBlocks)
  {}

  lemma MapOkParts(sb: Superblock, d: Image, i: Inode)
    ensures MapOk(sb, d, i) <==>
      && DirectOk(sb, d, i) && PointerOk(sb, d, i.indirect, RequiredBlocks(i.size) > DIRECT_BLOCKS)
      && (RequiredBlocks(i.size) > DIRECT_BLOCKS ==> IndirectOk(sb, d, i))
  {
    hide PointerOk, Pointers, At;
  }

  lemma OwnedListParts(d: Image, i: Inode)
    ensures OwnedList(d, i)
         == if RequiredBlocks(i.size) > DIRECT_BLOCKS then DirectList(d, i) + [i.indirect as nat] + IndirectList(d, i) else DirectList(d, i)
  {
    var n := RequiredBlocks(i.size);
    if n > DIRECT_BLOCKS {
      assert DirectList(d, i) + ([i.indirect as nat] + IndirectList(d, i)) == DirectList(d, i) + [i.indirect as nat] + IndirectList(d, i);
    }
  }

  lemma PlacedPrefix(a: seq<nat>, p: nat, b: seq<nat>, taken: set<nat>)
    ensures Placed(a + [p] + b, taken) ==> Placed(a + [p], taken)
    ensures Placed(a + [p], taken) ==> Placed(a, taken)
  {
    assert forall k :: 0 <= k < |a + [p]| ==> (a + [p] + b)[k] == (a + [p])[k];
    assert forall k :: 0 <= k < |a| ==> (a + [p])[k] == a[k];
  }

  // ---- The list is what the file owns ----

  /** Where logical block `l` stands in the list. */
  function Position(l: nat): nat {
    if l < DIRECT_BLOCKS then l else l + 1
  }

  lemma ListIs(d: Image, i: Inode)
    ensures var n, list := RequiredBlocks(i.size), OwnedList(d, i);
      && |list| == (if n > DIRECT_BLOCKS then n + 1 else n)
      && (forall l: nat :: l < n ==> list[Position(l)] == MapBlock(d, i, l))
      && (n > DIRECT_BLOCKS ==> list[DIRECT_BLOCKS] == i.indirect)
  {
    hide MapBlock, Mapped;
    OwnedListParts(d, i);
  }

  lemma OwnedListIs(sb: Superblock, d: Image, i: Inode, taken: set<nat>)
    requires MapOk(sb, d, i)
    ensures SetOf(OwnedList(d, i)) == Owned(d, i)
    ensures Placed(OwnedList(d, i), taken) <==> OwnBlocksDistinct(d, i) && Owned(d, i) !! taken
  {
    hide MapOk, MapBlock, OwnedList, Placed, OwnBlocksDistinct;
    MapOkParts(sb, d, i);
    PointerIs(sb, d, i.indirect, RequiredBlocks(i.size) > DIRECT_BLOCKS);
    ListIs(d, i);
    OwnedIsSet(d, i);
    if Placed(OwnedList(d, i), taken) {
      PlacedIsDistinct(d, i, taken);
    }
    if OwnBlocksDistinct(d, i) && Owned(d, i) !! taken {
      DistinctIsPlaced(d, i, taken);
    }
  }

  ghost predicate ListMatches(d: Image, i: Inode, list: seq<nat>) {
    var n := RequiredBlocks(i.size);
    && |list| == (if n > DIRECT_BLOCKS then n + 1 else n)
    && (forall l: nat :: l < n ==> list[Position(l)] == MapBlock(d, i, l))
    && (n > DIRECT_BLOCKS ==> list[DIRECT_BLOCKS] == i.indirect) && (i.indirect != 0 <==> n > DIRECT_BLOCKS)
  }

  /** What stands at position `k`. */
  lemma AtPosition(d: Image, i: Inode, list: seq<nat>, k: nat)
    requires ListMatches(d, i, list) && k < |list|
    ensures list[k] == if k < DIRECT_BLOCKS then MapBlock(d, i, k) else if k == DIRECT_BLOCKS then i.indirect else MapBlock(d, i, k - 1)
    ensures k < DIRECT_BLOCKS ==> k < RequiredBlocks(i.size)
    ensures k > DIRECT_BLOCKS ==> k - 1 < RequiredBlocks(i.size)
  {
    hide MapBlock;
    if k < DIRECT_BLOCKS {
      assert list[Position(k)] == MapBlock(d, i, k);
    } else if k > DIRECT_BLOCKS {
      assert list[Position(k - 1)] == MapBlock(d, i, k - 1);
    }
  }

  lemma OwnedIsSet(d: Image, i: Inode)
    requires ListMatches(d, i, OwnedList(d, i))
    ensures SetOf(OwnedList(d, i)) == Owned(d, i)
  {
    hide MapBlock, OwnedList, ListMatches;
    var list := OwnedList(d, i);
    forall x | x in SetOf(list)
      ensures x in Owned(d, i)
    {
      var k :| 0 <= k < |list| && list[k] == x;
      AtPosition(d, i, list, k);
      InOwned(d, i, list, k);
    }
    forall x | x in Owned(d, i)
      ensures x in SetOf(list)
    {
      ListHolds(d, i, list, x);
    }
  }

  lemma InOwned(d: Image, i: Inode, list: seq<nat>, k: nat)
    requires ListMatches(d, i, list) && k < |list|
    ensures list[k] in Owned(d, i)
  {
    hide MapBlock;
    AtPosition(d, i, list, k);
    if k < DIRECT_BLOCKS {
      assert MapBlock(d, i, k) as nat in Owned(d, i);
    } else if k > DIRECT_BLOCKS {
      assert MapBlock(d, i, k - 1) as nat in Owned(d, i);
    }
  }

  lemma ListHolds(d: Image, i: Inode, list: seq<nat>, x: nat)
    requires ListMatches(d, i, list) && x in Owned(d, i)
    ensures x in SetOf(list)
  {
    hide MapBlock;
    if i.indirect != 0 && x == i.indirect {
      assert list[DIRECT_BLOCKS] == x;
    } else {
      var l: nat :| l < RequiredBlocks(i.size) && x == MapBlock(d, i, l);
      assert list[Position(l)] == x;
    }
  }

  lemma PlacedIsDistinct(d: Image, i: Inode, taken: set<nat>)
    requires ListMatches(d, i, OwnedList(d, i)) && Placed(OwnedList(d, i), taken)
    ensures OwnBlocksDistinct(d, i) && Owned(d, i) !! taken
  {
    hide MapBlock, OwnedList;
    var list := OwnedList(d, i);
    forall k: nat, l: nat | k < l < RequiredBlocks(i.size)
      ensures MapBlock(d, i, k) != MapBlock(d, i, l)
    {
      assert list[Position(k)] == MapBlock(d, i, k) && list[Position(l)] == MapBlock(d, i, l);
    }
    if i.indirect != 0 {
      forall l: nat | l < RequiredBlocks(i.size)
        ensures MapBlock(d, i, l) != i.indirect
      {
        assert list[Position(l)] == MapBlock(d, i, l) && list[DIRECT_BLOCKS] == i.indirect;
      }
    }
    forall x | x in Owned(d, i)
      ensures x !in taken
    {
      ListHolds(d, i, list, x);
    }
  }

  lemma DistinctIsPlaced(d: Image, i: Inode, taken: set<nat>)
    requires ListMatches(d, i, OwnedList(d, i)) && OwnBlocksDistinct(d, i) && Owned(d, i) !! taken
    ensures Placed(OwnedList(d, i), taken)
  {
    hide MapBlock, OwnedList, Owned, ListMatches;
    var list := OwnedList(d, i);
    forall j, k | 0 <= j < k < |list|
      ensures list[j] != list[k]
    {
      AtPosition(d, i, list, j);
      AtPosition(d, i, list, k);
      ListLarge(d, i, list);
    }
    forall k | 0 <= k < |list|
      ensures list[k] !in taken
    {
      InOwned(d, i, list, k);
    }
  }

  lemma ListLarge(d: Image, i: Inode, list: seq<nat>)
    requires ListMatches(d, i, list)
    ensures |list| > DIRECT_BLOCKS ==> i.indirect != 0
  {
    hide MapBlock;
  }

  // ---- Directory records ----

  /** The records of a block up to the first one that does not decode; unused records are skipped. */
  method ReadRecords(block: Block) returns (es: seq<Entry>, ok: bool)
    ensures ok <==> Parse(block).Some?
    ensures ok ==> es == Active(Parse(block).value)
  {
    hide DecodeEntry, ValidEntry, Parse, Walked, Active;
    es, ok := [], true;
    var offset := 0;
    ghost var all: seq<Entry> := [];
    WalkStarts(block);
    while offset < |block|
      invariant offset <= |block| && es == Active(all) && Walked(block, offset, all)
      decreases |block| - offset
    {
      var current := DecodeEntry(block[offset..]);
      WalkStep(block, offset, all);
      if current == None {
        return es, false;
      }
      var e := current.value;
      EntryIsNotEmpty(e);
      all := all + [e];
      if e.inode != 0 {
        es := es + [e];
      }
      offset := offset + e.length;
    }
    WalkEnds(block, all);
  }

  /** `all` are the records before `offset`. */
  ghost predicate Walked(s: seq<byte>, offset: nat, all: seq<Entry>)
    requires offset <= |s|
  {
    && (Parse(s).Some? <==> Parse(s[offset..]).Some?)
    && (Parse(s).Some? ==> Parse(s).value == all + Parse(s[offset..]).value)
  }

  lemma WalkStarts(s: seq<byte>)
    ensures Walked(s, 0, []) && Active([]) == []
  {
    hide Parse;
    assert s[0..] == s;
  }

  lemma WalkStep(s: seq<byte>, offset: nat, all: seq<Entry>)
    requires offset < |s| && Walked(s, offset, all)
    ensures match DecodeEntry(s[offset..])
      case None => Parse(s) == None
      case Some(e) =>
        && e.length <= |s| - offset && Walked(s, offset + e.length, all + [e])
        && Active(all + [e]) == Active(all) + if e.inode != 0 then [e] else []
  {
    hide DecodeEntry, ValidEntry;
    var rest := s[offset..];
    match DecodeEntry(rest)
    case None =>
    case Some(e) =>
      assert rest[e.length..] == s[offset + e.length..];
      ActiveAppend(all, [e]);
      assert [e][1..] == [] && Active([e]) == if e.inode != 0 then [e] else [];
      if Parse(s).Some? {
        assert all + ([e] + Parse(rest[e.length..]).value) == all + [e] + Parse(rest[e.length..]).value;
      }
  }

  lemma WalkEnds(s: seq<byte>, all: seq<Entry>)
    requires Walked(s, |s|, all)
    ensures Parse(s) == Some(all)
  {
    assert s[|s|..] == [] && all + [] == all;
  }
}
