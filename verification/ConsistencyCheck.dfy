/** The offline checker as a whole (src/checker/consistency_checker.cpp, src/checker/consistency_report.cpp):
    it calls an image healthy exactly when it is. */
module ConsistencyCheck {
  import opened Bytes
  import opened Errors
  import opened Order
  import opened OndiskFormat
  import opened Journal
  import opened Bitmap
  import opened ImageView
  import opened ImageEdit
  import opened Directory
  import opened Health
  import opened NamespaceCheck
  import opened TreeCheck
  import opened ImageCheck
  import opened Evidence
  import opened GraphSearch
  import opened LedgerFormat
  import opened Ledger
  import opened LedgerImage
  import opened StoreOps
  import JournalProtocol

  // ---- Bitmap geometry ----

  /** `SummarizeClearBits`. */
  method FindClearBit(bitmap: seq<byte>, from: nat, to: nat) returns (found: bool)
    requires from <= to
    ensures found <==> exists k :: from <= k < to && !TestBit(bitmap, k)
  {
    hide TestBit;
    found := false;
    for k := from to to
      invariant found <==> exists j :: from <= j < k && !TestBit(bitmap, j)
    {
      if !TestBit(bitmap, k) {
        found := true;
      }
    }
  }

  method CheckGeometry(c: Checker)
    requires ValidSuperblock(c.sb)
    modifies c`issues
    ensures c.Clean() <==> old(c.Clean()) && BitmapsWellFormed(c.sb, c.d) && InodeUsed(c.sb, c.d, c.sb.rootInode)
  {
    hide ValidSuperblock, RegionBytes, TestBit;
    var sb := c.sb;
    RegionsDisjoint(sb);
    RootInRange(sb);
    var inodes, blocks := RegionBytes(c.d, sb.inodeBitmap), RegionBytes(c.d, sb.blockBitmap);
    var reserved := FindClearBit(blocks, 0, sb.data.start);
    if reserved {
      c.AddIssue(MetadataBlockMarkedFree);
    }
    var inodeTail := FindClearBit(inodes, sb.totalInodes, 8 * |inodes|);
    if inodeTail {
      c.AddIssue(BitmapTailNotReserved);
    }
    var blockTail := FindClearBit(blocks, sb.totalBlocks, 8 * |blocks|);
    if blockTail {
      c.AddIssue(BitmapTailNotReserved);
    }
    if !TestBit(inodes, sb.rootInode - 1) {
      c.AddIssue(RootInodeMarkedFree);
    }
  }

  lemma RootInRange(sb: Superblock)
    requires ValidSuperblock(sb)
    ensures 1 <= sb.rootInode <= sb.totalInodes && 0 < sb.totalBlocks
  {}

  // ---- The physical scan ----

  function UsedSet(sb: Superblock, d: Image): set<nat> {
    set n | 1 <= n <= sb.totalInodes && InodeUsed(sb, d, n)
  }

  /** Every inode of the set is in order, and no two own the same block. */
  ghost predicate AllOk(sb: Superblock, d: Image, ns: set<nat>) {
    && (forall n :: n in ns ==> InodeOk(sb, d, n))
    && (forall m, n :: m in ns && n in ns && m != n ==> Owned(d, FileAt(sb, d, m)) !! Owned(d, FileAt(sb, d, n)))
  }

  ghost predicate OwnedByOne(sb: Superblock, d: Image, ns: set<nat>, b: nat) {
    exists n :: n in ns && b in Owned(d, FileAt(sb, d, n))
  }

  /** What the scan has collected about the inodes of the set. */
  ghost predicate Collected(sb: Superblock, d: Image, ns: set<nat>, refs: set<nat>, decoded: map<nat, Inode>, entries: map<nat, seq<Entry>>) {
    && (forall b :: b in refs <==> OwnedByOne(sb, d, ns, b))
    && decoded.Keys == ns && (forall n :: n in ns ==> decoded[n] == FileAt(sb, d, n))
    && (forall n :: n in entries <==> n in ns && IsDirectory(FileAt(sb, d, n).mode))
    && (forall n :: n in entries ==> DirEntries(d, FileAt(sb, d, n)) == Some(entries[n]))
  }

  lemma OneMoreOk(sb: Superblock, d: Image, ns: set<nat>, refs: set<nat>, decoded: map<nat, Inode>, entries: map<nat, seq<Entry>>, n: nat)
    requires AllOk(sb, d, ns) && Collected(sb, d, ns, refs, decoded, entries) && n !in ns
    ensures AllOk(sb, d, ns + {n}) <==> InodeOk(sb, d, n) && Owned(d, FileAt(sb, d, n)) !! refs
    ensures InodeOk(sb, d, n) ==>
      Collected(sb, d, ns + {n}, refs + Owned(d, FileAt(sb, d, n)), decoded[n := FileAt(sb, d, n)],
                WithEntries(entries, n, d, FileAt(sb, d, n)))
  {
    hide InodeOk, Owned, DirEntries, FileAt;
    if InodeOk(sb, d, n) {
      OkDirectory(sb, d, n);
      forall b
        ensures OwnedByOne(sb, d, ns + {n}, b) <==> OwnedByOne(sb, d, ns, b) || b in Owned(d, FileAt(sb, d, n))
      {
        OwnedMore(sb, d, ns, n, b);
      }
    }
    if AllOk(sb, d, ns + {n}) {
      forall b | b in refs
        ensures b !in Owned(d, FileAt(sb, d, n))
      {
        var m :| m in ns && b in Owned(d, FileAt(sb, d, m));
        assert Owned(d, FileAt(sb, d, m)) !! Owned(d, FileAt(sb, d, n));
      }
    }
    if InodeOk(sb, d, n) && Owned(d, FileAt(sb, d, n)) !! refs {
      forall m | m in ns
        ensures Owned(d, FileAt(sb, d, m)) !! Owned(d, FileAt(sb, d, n))
      {
        forall b | b in Owned(d, FileAt(sb, d, m))
          ensures b in refs
        {
          assert OwnedByOne(sb, d, ns, b);
        }
      }
    }
  }

  lemma OwnedMore(sb: Superblock, d: Image, ns: set<nat>, n: nat, b: nat)
    ensures OwnedByOne(sb, d, ns + {n}, b) <==> OwnedByOne(sb, d, ns, b) || b in Owned(d, FileAt(sb, d, n))
  {
    hide Owned, FileAt;
    if b in Owned(d, FileAt(sb, d, n)) {
      assert n in ns + {n};
    }
    if OwnedByOne(sb, d, ns, b) {
      var m :| m in ns && b in Owned(d, FileAt(sb, d, m));
      assert m in ns + {n};
    }
  }

  lemma OkDirectory(sb: Superblock, d: Image, n: nat)
    requires InodeOk(sb, d, n)
    ensures IsDirectory(FileAt(sb, d, n).mode) ==> DirEntries(d, FileAt(sb, d, n)).Some?
    ensures forall k :: 0 <= k < |TargetsOf(d, FileAt(sb, d, n))| ==> InodeUsed(sb, d, TargetsOf(d, FileAt(sb, d, n))[k])
  {
    hide MapOk, OwnBlocksDistinct, EntriesUpTo, InodeUsed, NamesUnique, FileAt, InodeAt;
  }

  /** The queue holds the inodes that were seen but not yet scanned, each once. */
  ghost predicate Queued(seen: set<nat>, scanned: set<nat>, queue: seq<nat>) {
    && (forall j, k :: 0 <= j < k < |queue| ==> queue[j] != queue[k])
    && (forall k :: 0 <= k < |queue| ==> queue[k] in seen && queue[k] !in scanned)
    && (forall n :: n in seen ==> n in scanned || n in queue) && scanned <= seen
  }

  function Numbers(k: nat): (r: set<nat>)
    ensures forall n :: n in r <==> 1 <= n <= k
  {
    if k == 0 then {} else Numbers(k - 1) + {k}
  }

  /** Puts inode numbers into the queue that have not been seen. */
  method Enqueue(found: seq<nat>, seen0: set<nat>, queue0: seq<nat>, ghost scanned: set<nat>, ghost all: set<nat>)
    returns (seen: set<nat>, queue: seq<nat>)
    requires Queued(seen0, scanned, queue0) && seen0 <= all && forall k :: 0 <= k < |found| ==> found[k] in all
    ensures Queued(seen, scanned, queue) && seen0 <= seen <= all
    ensures forall n :: n in seen <==> n in seen0 || n in found
    ensures seen == seen0 ==> queue == queue0
  {
    seen, queue := seen0, queue0;
    for k := 0 to |found|
      invariant Queued(seen, scanned, queue) && seen0 <= seen <= all
      invariant forall n :: n in seen <==> n in seen0 || n in found[..k]
      invariant seen == seen0 ==> queue == queue0
    {
      if found[k] !in seen {
        seen, queue := seen + {found[k]}, queue + [found[k]];
      }
    }
  }

  /** The allocated inodes and the root, in the order the scan starts with them. */
  method StartQueue(c: Checker) returns (seen: set<nat>, queue: seq<nat>)
    requires ValidSuperblock(c.sb)
    ensures Queued(seen, {}, queue) && forall n :: n in seen <==> n == c.sb.rootInode || n in UsedSet(c.sb, c.d)
  {
    hide ValidSuperblock, InodeUsed;
    RootInRange(c.sb);
    seen, queue := {c.sb.rootInode as nat}, [c.sb.rootInode];
    for n := 1 to c.sb.totalInodes + 1
      invariant Queued(seen, {}, queue)
      invariant forall k :: k in seen <==> k == c.sb.rootInode || (1 <= k < n && InodeUsed(c.sb, c.d, k))
    {
      if InodeUsed(c.sb, c.d, n) {
        seen, queue := Enqueue([n], seen, queue, {}, seen + {n});
      }
    }
  }

  /** The physical scan: allocated inodes, the root, and whatever directory entries lead to. */
  method ScanInodes(c: Checker)
    requires ValidSuperblock(c.sb) && c.refs == map[] && c.decoded == map[] && c.entries == map[]
    requires c.Clean() ==> InodeUsed(c.sb, c.d, c.sb.rootInode)
    modifies c
    ensures c.Clean() <==> old(c.Clean()) && AllOk(c.sb, c.d, UsedSet(c.sb, c.d))
    ensures c.Clean() ==> Collected(c.sb, c.d, UsedSet(c.sb, c.d), c.refs.Keys, c.decoded, c.entries)
    ensures c.complete <==> old(c.complete) && Readable(c.sb, c.d)
    ensures c.complete ==> Surveyed(c.sb, c.d, c.decoded, c.entries)
  {
    hide ValidSuperblock, InodeUsed, AllOk, Collected, InodeOk, Owned, FileAt, WithEntries, TargetsOf, UsedSet, Queued;
    hide Swept, Readable, InodeEvident, Surveyed;
    ghost var used, wasClean, wasComplete := UsedSet(c.sb, c.d), c.Clean(), c.complete;
    RootInRange(c.sb);
    UsedAreNumbers(c.sb, c.d);
    var seen, queue := StartQueue(c);
    ghost var scanned: set<nat> := {};
    NothingScanned(c.sb, c.d);
    SweepStarts(c.sb, c.d, seen);
    ghost var all := Numbers(c.sb.totalInodes);
    while queue != []
      invariant Queued(seen, scanned, queue) && used <= seen <= all
      invariant c.Clean() ==>
        wasClean && AllOk(c.sb, c.d, scanned) && Collected(c.sb, c.d, scanned, c.refs.Keys, c.decoded, c.entries) && seen == used
      invariant wasClean && AllOk(c.sb, c.d, used) ==> c.Clean()
      invariant c.sb.rootInode as nat in seen
      invariant c.complete ==> wasComplete && Swept(c.sb, c.d, seen, scanned, c.decoded, c.entries)
      invariant wasComplete && Readable(c.sb, c.d) ==> c.complete
      decreases |all - seen|, |queue|
    {
      var n := queue[0];
      ghost var clean, refs, decoded, entries := c.Clean(), c.refs.Keys, c.decoded, c.entries;
      ghost var evident := c.complete;
      NextInQueue(seen, scanned, queue);
      var found := c.ScanInode(n);
      if clean {
        OneMoreOk(c.sb, c.d, scanned, refs, decoded, entries, n);
        if AllOk(c.sb, c.d, used) {
          FewerOk(c.sb, c.d, used, scanned + {n});
        }
      }
      if evident && Readable(c.sb, c.d) {
        SeenIsEvident(c.sb, c.d, seen, scanned, decoded, entries, n);
      }
      ghost var before := seen;
      scanned := scanned + {n};
      seen, queue := Enqueue(found, seen, queue[1..], scanned, all);
      if c.Clean() {
        OkTargets(c.sb, c.d, n, found);
        assert seen == before;
      }
      if c.complete {
        SweepOne(c.sb, c.d, before, scanned - {n}, decoded, entries, n, seen);
        assert scanned - {n} + {n} == scanned;
      }
      if seen != before {
        SeenShrinks(all, before, seen);
      }
    }
    AllScanned(seen, scanned);
    if c.complete {
      SweepEnds(c.sb, c.d, seen, c.decoded, c.entries);
    }
  }

  lemma SeenIsEvident(
    sb: Superblock, d: Image, seen: set<nat>, scanned: set<nat>, decoded: map<nat, Inode>, entries: map<nat, seq<Entry>>, n: nat)
    requires Readable(sb, d) && Swept(sb, d, seen, scanned, decoded, entries) && n in seen
    ensures InodeEvident(sb, d, n)
  {
    hide InodeEvident, Discovered, TargetsOf, FileAt, DirEntries;
  }

  lemma UsedAreNumbers(sb: Superblock, d: Image)
    ensures forall n :: n in UsedSet(sb, d) <==> InodeUsed(sb, d, n)
    ensures UsedSet(sb, d) <= Numbers(sb.totalInodes)
  {
    hide TestBit, RegionBytes;
  }

  lemma NothingScanned(sb: Superblock, d: Image)
    ensures AllOk(sb, d, {}) && Collected(sb, d, {}, {}, map[], map[])
  {}

  lemma NextInQueue(seen: set<nat>, scanned: set<nat>, queue: seq<nat>)
    requires Queued(seen, scanned, queue) && queue != []
    ensures queue[0] in seen && queue[0] !in scanned && Queued(seen, scanned + {queue[0]}, queue[1..])
  {}

  lemma FewerOk(sb: Superblock, d: Image, ns: set<nat>, fewer: set<nat>)
    requires AllOk(sb, d, ns) && fewer <= ns
    ensures AllOk(sb, d, fewer)
  {
    hide InodeOk, Owned, FileAt;
  }

  lemma OkTargets(sb: Superblock, d: Image, n: nat, found: seq<nat>)
    requires InodeOk(sb, d, n) && found == TargetsOf(d, FileAt(sb, d, n))
    ensures forall k :: 0 <= k < |found| ==> found[k] in UsedSet(sb, d)
  {
    hide InodeOk, InodeUsed, FileAt, TargetsOf, UsedSet;
    OkDirectory(sb, d, n);
    UsedAreNumbers(sb, d);
  }

  lemma AllScanned(seen: set<nat>, scanned: set<nat>)
    requires Queued(seen, scanned, [])
    ensures scanned == seen
  {}

  lemma SeenShrinks(all: set<nat>, before: set<nat>, seen: set<nat>)
    requires before <= seen <= all && seen != before
    ensures |all - seen| < |all - before|
  {
    var x :| x in seen && x !in before;
    assert all - seen <= (all - before) - {x};
    SubsetSize(all - seen, (all - before) - {x});
  }

  lemma SubsetSize(a: set<nat>, b: set<nat>)
    requires a <= b
    ensures |a| <= |b|
  {
    assert b == a + (b - a);
    assert |b| == |a| + |b - a|;
  }

  method CheckUnreferenced(c: Checker)
    modifies c`issues
    ensures c.Clean() <==> old(c.Clean()) && forall b: nat :: DataBlock(c.sb, c.d, b) ==> b in c.refs
  {
    hide BlockUsed;
    ghost var wasClean := c.Clean();
    if c.sb.data.start < c.sb.totalBlocks {
      for b := c.sb.data.start to c.sb.totalBlocks
        invariant c.Clean() <==> wasClean && forall k: nat :: c.sb.data.start <= k < b && BlockUsed(c.sb, c.d, k) ==> k in c.refs
      {
        if BlockUsed(c.sb, c.d, b) && b !in c.refs {
          c.AddIssue(AllocatedDataBlockUnreferenced);
        }
      }
    }
  }

  /** Space and directories of the image are in order, apart from the namespace. */
  ghost predicate SpaceChecked(sb: Superblock, d: Image) {
    && BitmapsWellFormed(sb, d) && InodeUsed(sb, d, sb.rootInode) && AllOk(sb, d, UsedSet(sb, d))
    && (forall b: nat :: DataBlock(sb, d, b) ==> OwnedByOne(sb, d, UsedSet(sb, d), b))
  }

  lemma CollectedNamespace(sb: Superblock, d: Image, refs: set<nat>, decoded: map<nat, Inode>, entries: map<nat, seq<Entry>>)
    requires AllOk(sb, d, UsedSet(sb, d)) && Collected(sb, d, UsedSet(sb, d), refs, decoded, entries)
    ensures NamespaceFrom(decoded, entries) == NamespaceOf(sb, d) && Listings(NamespaceOf(sb, d))
    ensures NamespaceOf(sb, d).Keys == UsedSet(sb, d)
    ensures forall n :: n in UsedSet(sb, d) && IsDirectory(FileAt(sb, d, n).mode) ==> DirEntries(d, FileAt(sb, d, n)).Some?
  {
    hide InodeOk, Owned, FileAt, OwnedByOne, InodeUsed, DirEntries;
    var ns := NamespaceOf(sb, d);
    forall n | n in ns
      ensures NamesUnique(ns[n].entries) && (!ns[n].isDirectory ==> ns[n].entries == [])
      ensures IsDirectory(FileAt(sb, d, n).mode) ==> DirEntries(d, FileAt(sb, d, n)).Some?
    {
      OkNames(sb, d, n);
    }
    assert NamespaceFrom(decoded, entries) == ns;
  }

  lemma OkNames(sb: Superblock, d: Image, n: nat)
    requires InodeOk(sb, d, n)
    ensures var i := FileAt(sb, d, n); IsDirectory(i.mode) ==> DirEntries(d, i).Some? && NamesUnique(DirEntries(d, i).value)
  {
    hide MapOk, OwnBlocksDistinct, EntriesUpTo, TargetsUsed, NamesUnique, FileAt, InodeAt;
  }

  lemma OkIsReadable(sb: Superblock, d: Image, n: nat)
    requires InodeOk(sb, d, n) && InodeUsed(sb, d, n)
    ensures ReadInode(sb, d, n) == Success(FileAt(sb, d, n)) && OwnBlocksDistinct(d, FileAt(sb, d, n))
  {
    hide MapOk, OwnBlocksDistinct, UpToOk, MappingHolds, InodeAt;
    MapOkIs(sb, d, FileAt(sb, d, n));
  }

  /** Checked space is healthy space. */
  lemma CheckedIsHealthy(sb: Superblock, d: Image)
    requires ValidSuperblock(sb) && |d| == sb.totalBlocks && SpaceChecked(sb, d)
    ensures SpaceHealthy(sb, d)
  {
    hide InodeOk, Owned, FileAt, InodeUsed, ReadInode, OwnBlocksDistinct, BitmapsWellFormed, ValidSuperblock, DataBlock, UsedSet;
    UsedAreNumbers(sb, d);
    forall n | InodeUsed(sb, d, n)
      ensures ReadInode(sb, d, n) == Success(FileAt(sb, d, n)) && OwnBlocksDistinct(d, FileAt(sb, d, n))
    {
      OkIsReadable(sb, d, n);
    }
    forall b: nat | DataBlock(sb, d, b)
      ensures OwnedBySome(sb, d, b)
    {
      var n :| n in UsedSet(sb, d) && b in Owned(d, FileAt(sb, d, n));
      InNumbers(sb, d, n);
    }
  }

  lemma InNumbers(sb: Superblock, d: Image, n: nat)
    requires InodeUsed(sb, d, n)
    ensures 1 <= n <= sb.totalInodes
  {}

  /** A healthy image passes the space checks. */
  lemma HealthyIsChecked(sb: Superblock, d: Image)
    requires Healthy(sb, d)
    ensures SpaceChecked(sb, d)
  {
    hide InodeOk, Owned, FileAt, InodeUsed, ReadInode, OwnBlocksDistinct, BitmapsWellFormed, ValidSuperblock, DataBlock;
    hide UsedSet, NamesHealthy;
    UsedAreNumbers(sb, d);
    forall n | InodeUsed(sb, d, n)
      ensures InodeOk(sb, d, n)
    {
      HealthyInodeOk(sb, d, n);
    }
    HealthyRoot(sb, d);
    ReadIsFileAt(sb, d, sb.rootInode);
    forall b: nat | DataBlock(sb, d, b)
      ensures OwnedByOne(sb, d, UsedSet(sb, d), b)
    {
      var n :| 1 <= n <= sb.totalInodes && InodeUsed(sb, d, n) && b in Owned(d, FileAt(sb, d, n));
    }
  }

  lemma HealthyInodeOk(sb: Superblock, d: Image, n: nat)
    requires Healthy(sb, d) && InodeUsed(sb, d, n)
    ensures InodeOk(sb, d, n)
  {
    hide BitmapsWellFormed, OwnedBySome, Owned, MappingHolds, MapOk, ValidSuperblock, DataBlock, SingleParents, Reachable;
    hide LinksHealthy;
    hide InodeAt, EntriesUpTo, InodeUsed, OwnBlocksDistinct;
    var i := FileAt(sb, d, n);
    assert ReadInode(sb, d, n) == Success(i) && OwnBlocksDistinct(d, i);
    ReadInodeIsSmall(sb, d, n);
    MapOkIs(sb, d, i);
    if IsDirectory(i.mode) {
      HealthyDirOk(sb, d, n);
    }
  }

  lemma HealthyDirOk(sb: Superblock, d: Image, n: nat)
    requires Healthy(sb, d) && InodeUsed(sb, d, n) && IsDirectory(FileAt(sb, d, n).mode) && MapOk(sb, d, FileAt(sb, d, n))
    requires MappingHolds(sb, d, FileAt(sb, d, n))
    ensures DirOk(sb, d, FileAt(sb, d, n))
  {
    hide SpaceHealthy, MapOk, SingleParents, Reachable, LinksHealthy, EntriesUpTo, InodeUsed, NamesUnique, MappingHolds, FileAt;
    var i, ns := FileAt(sb, d, n), NamespaceOf(sb, d);
    MapOkIs(sb, d, i);
    InNumbers(sb, d, n);
    assert n in ns && EntriesHealthy(ns, sb.rootInode, ns[n]);
    var es := DirEntries(d, i).value;
    forall k | 0 <= k < |es|
      ensures InodeUsed(sb, d, es[k].inode)
    {
      assert EntryHealthy(ns, sb.rootInode, es[k]);
    }
  }

  // ---- The ledger ----

  function Named(es: seq<Entry>, name: Name): seq<Entry> {
    if es == [] then [] else Named(es[..|es| - 1], name) + if es[|es| - 1].name == name then [es[|es| - 1]] else []
  }

  lemma {:induction false} NamedIs(es: seq<Entry>, name: Name)
    requires NamesUnique(es)
    ensures |Named(es, name)| <= 1
    ensures forall e :: e in Named(es, name) <==> e in es && e.name == name
  {
    if es != [] {
      var n := |es| - 1;
      NamedIs(es[..n], name);
      assert es == es[..n] + [es[n]];
      if es[n].name == name {
        forall e | e in es[..n]
          ensures e.name != name
        {
          var k :| 0 <= k < n && es[k] == e;
        }
        NothingIn(Named(es[..n], name));
      }
    }
  }

  lemma NothingIn(es: seq<Entry>)
    ensures es == [] || es[0] in es
  {}

  predicate IdentityOk(found: seq<Entry>) {
    |found| == 1 && found[0].inode == LEDGER_INODE && found[0].kind == REGULAR
  }

  /** The ledger checks come to the identity and geometry a restart asks for. */
  lemma LedgerChecks(sb: Superblock, d: Image, es: seq<Entry>)
    requires Healthy(sb, d) && sb.featureIncompat == LEDGER_FEATURE && DirEntries(d, FileAt(sb, d, sb.rootInode)) == Some(es)
    ensures LedgerFile(sb, d) <==>
      IdentityOk(Named(es, LEDGER_NAME)) && InodeUsed(sb, d, LEDGER_INODE) && LedgerInode(FileAt(sb, d, LEDGER_INODE))
  {
    hide Healthy, LookupRoot, FileAt, InodeUsed, LedgerInode, NamespaceOf, DirEntries, Named;
    HealthyRoot(sb, d);
    NamedIs(es, LEDGER_NAME);
    LookupHealthy(sb, d, LEDGER_NAME);
    var ns, root := NamespaceOf(sb, d), sb.rootInode;
    if LedgerFile(sb, d) {
      assert ListedAs(ns, root, LEDGER_NAME, LEDGER_INODE);
      ListedIsNamed(sb, d, es);
    }
    if IdentityOk(Named(es, LEDGER_NAME)) && InodeUsed(sb, d, LEDGER_INODE) && LedgerInode(FileAt(sb, d, LEDGER_INODE)) {
      NamedIsListed(ns, root, es);
    }
  }

  lemma NamedIsListed(ns: Namespace, root: nat, es: seq<Entry>)
    requires root in ns && ns[root].entries == es && NamesUnique(es) && IdentityOk(Named(es, LEDGER_NAME))
    ensures ListedAs(ns, root, LEDGER_NAME, LEDGER_INODE)
  {
    hide Named;
    NamedIs(es, LEDGER_NAME);
    var e := Named(es, LEDGER_NAME)[0];
    assert e in Named(es, LEDGER_NAME) && e in es;
  }

  lemma ListedIsNamed(sb: Superblock, d: Image, es: seq<Entry>)
    requires Healthy(sb, d) && LedgerFile(sb, d) && DirEntries(d, FileAt(sb, d, sb.rootInode)) == Some(es)
    ensures IdentityOk(Named(es, LEDGER_NAME)) && InodeUsed(sb, d, LEDGER_INODE)
  {
    hide Healthy, LookupRoot, FileAt, InodeUsed, DirEntries, Named, NamespaceOf;
    LookupHealthy(sb, d, LEDGER_NAME);
    HealthyRoot(sb, d);
    var ns, root := NamespaceOf(sb, d), sb.rootInode;
    assert ListedAs(ns, root, LEDGER_NAME, LEDGER_INODE);
    var k :| 0 <= k < |es| && es[k].name == LEDGER_NAME && es[k].inode == LEDGER_INODE;
    NamedIs(es, LEDGER_NAME);
    assert es[k] in Named(es, LEDGER_NAME);
    KindOfEntry(sb, d, sb.rootInode, k);
  }

  lemma KindOfEntry(sb: Superblock, d: Image, p: nat, k: nat)
    requires Healthy(sb, d) && p in NamespaceOf(sb, d) && k < |NamespaceOf(sb, d)[p].entries|
    ensures var e := NamespaceOf(sb, d)[p].entries[k]; IsRegular(FileAt(sb, d, e.inode).mode) ==> e.kind == REGULAR
  {
    hide SpaceHealthy, FileAt, InodeUsed, DirEntries, SingleParents, Reachable, LinksHealthy, NamesUnique;
    var ns := NamespaceOf(sb, d);
    assert EntriesHealthy(ns, sb.rootInode, ns[p]) && EntryHealthy(ns, sb.rootInode, ns[p].entries[k]);
  }

  /** Identity, geometry and slots of the ledger. */
  method CheckLedger(c: Checker)
    requires ValidSuperblock(c.sb) && c.sb.featureIncompat == LEDGER_FEATURE
    requires c.Clean() ==> Healthy(c.sb, c.d) && Collected(c.sb, c.d, UsedSet(c.sb, c.d), c.refs.Keys, c.decoded, c.entries)
    requires c.complete ==> Surveyed(c.sb, c.d, c.decoded, c.entries)
    modifies c`issues, c`complete
    ensures c.Clean() <==> old(c.Clean()) && HasHistory(c.sb, c.d)
    ensures c.complete <==> old(c.complete) && LedgerLocated(c.sb, c.d)
  {
    hide Surveyed, AllLocated, Discovered;
    hide Healthy, Collected, Named, InodeUsed, LedgerFile, LedgerIs, UsedSet, FileAt, ValidSuperblock, Contents, MapOk;
    ghost var wasClean := c.Clean();
    if wasClean {
      LedgerEvidence(c.sb, c.d, c.refs.Keys, c.decoded, c.entries);
    }
    if c.complete {
      SurveyedLedger(c.sb, c.d, c.decoded, c.entries);
    }
    var root: nat := c.sb.rootInode;
    var es := if root in c.entries then c.entries[root] else [];
    if !IdentityOk(Named(es, LEDGER_NAME)) {
      c.AddIssue(RequestLedgerInvalid);
    }
    if LEDGER_INODE as nat !in c.decoded {
      c.AddIssue(RequestLedgerInvalid);
      c.complete := false;
      return;
    }
    var i := c.decoded[LEDGER_INODE];
    if !InodeUsed(c.sb, c.d, LEDGER_INODE) || !LedgerInode(i) {
      c.AddIssue(RequestLedgerInvalid);
    }
    if i.size == 0 || i.size > MAX_FILE_SIZE || i.size % BLOCK_SIZE != 0 {
      c.AddIssue(RequestLedgerInvalid);
      c.complete := false;
      return;
    }
    ghost var rs := CheckSlots(c, i);
    if c.Clean() {
      assert LedgerOn(c.sb, c.d, rs);
    }
  }

  lemma SurveyedLedger(sb: Superblock, d: Image, decoded: map<nat, Inode>, entries: map<nat, seq<Entry>>)
    requires Surveyed(sb, d, decoded, entries)
    ensures LEDGER_INODE as nat in decoded <==> Discovered(sb, d, LEDGER_INODE)
    ensures LEDGER_INODE as nat in decoded ==>
      decoded[LEDGER_INODE] == FileAt(sb, d, LEDGER_INODE) && decoded[LEDGER_INODE].size <= MAX_FILE_SIZE
  {
    hide Discovered, FileAt, DirEntries, TargetsOf;
    if LEDGER_INODE as nat in decoded {
      assert InodeEvident(sb, d, LEDGER_INODE);
      InodeIsSmall(sb, d, LEDGER_INODE);
    }
  }

  /** What the collected evidence says about the ledger of a healthy image. */
  lemma LedgerEvidence(sb: Superblock, d: Image, refs: set<nat>, decoded: map<nat, Inode>, entries: map<nat, seq<Entry>>)
    requires Healthy(sb, d) && sb.featureIncompat == LEDGER_FEATURE && Collected(sb, d, UsedSet(sb, d), refs, decoded, entries)
    ensures sb.rootInode as nat in entries
    ensures LedgerFile(sb, d) <==>
      && IdentityOk(Named(entries[sb.rootInode], LEDGER_NAME)) && LEDGER_INODE as nat in decoded
      && LedgerInode(decoded[LEDGER_INODE])
    ensures LEDGER_INODE as nat in decoded ==>
      && decoded[LEDGER_INODE] == FileAt(sb, d, LEDGER_INODE) && InodeUsed(sb, d, LEDGER_INODE)
      && MapOk(sb, d, decoded[LEDGER_INODE]) && decoded[LEDGER_INODE].size <= MAX_FILE_SIZE
  {
    hide Healthy, Named, InodeUsed, LedgerInode, LedgerFile, FileAt, DirEntries, OwnedByOne, UsedSet, MapOk, InodeOk;
    HealthyRoot(sb, d);
    ReadIsFileAt(sb, d, sb.rootInode);
    UsedAreNumbers(sb, d);
    LedgerChecks(sb, d, entries[sb.rootInode]);
    if LEDGER_INODE as nat in decoded {
      HealthyInodeOk(sb, d, LEDGER_INODE);
      OkMap(sb, d, LEDGER_INODE);
    }
  }

  lemma OkMap(sb: Superblock, d: Image, n: nat)
    requires InodeOk(sb, d, n)
    ensures MapOk(sb, d, FileAt(sb, d, n)) && FileAt(sb, d, n).size <= MAX_FILE_SIZE
  {
    hide MapOk, DirOk, OwnBlocksDistinct;
    InodeIsSmall(sb, d, n);
  }

  /** All slots, also behind a damaged one. */
  method CheckSlots(c: Checker, i: Inode) returns (ghost rs: seq<LedgerRecord>)
    requires 0 < i.size <= MAX_FILE_SIZE && i.size % BLOCK_SIZE == 0 && (c.Clean() ==> MapOk(c.sb, c.d, i))
    modifies c`issues, c`complete
    ensures c.Clean() ==> old(c.Clean()) && LedgerIs(Contents(c.d, i), rs)
    ensures old(c.Clean()) && !c.Clean() ==> forall ts :: !LedgerIs(Contents(c.d, i), ts)
    ensures c.complete <==> old(c.complete) && AllLocated(c.sb, c.d, i)
  {
    hide MapOk, Contents, SlotsSoFar, LedgerIs, LogicalBlock, MapBlock, At;
    ghost var wasClean, wasComplete := c.Clean(), c.complete;
    rs := [];
    var sawEmpty, ids: set<RequestId> := false, {};
    SlotsStart(c.d, i);
    for logical := 0 to i.size / BLOCK_SIZE
      invariant c.Clean() ==> SlotsSoFar(c.d, i, logical * RECORDS_PER_BLOCK, rs, sawEmpty, ids)
      invariant c.Clean() ==> wasClean
      invariant wasClean && !c.Clean() ==> forall ts :: !LedgerIs(Contents(c.d, i), ts)
      invariant c.complete <==> wasComplete && forall l :: 0 <= l < logical ==> LogicalBlock(c.sb, c.d, i, l).Some?
    {
      if wasClean {
        LogicalIs(c.sb, c.d, i, logical);
      }
      var physical := LogicalBlock(c.sb, c.d, i, logical);
      if physical == None {
        c.AddIssue(RequestLedgerInvalid);
        c.complete := false;
      } else {
        sawEmpty, ids, rs := CheckBlockSlots(c, i, logical, At(c.d, physical.value), sawEmpty, ids, rs, wasClean);
      }
    }
    if c.Clean() {
      SlotsEnd(c.d, i, rs, sawEmpty, ids);
    }
  }

  lemma SlotsStart(d: Image, i: Inode)
    requires i.size % BLOCK_SIZE == 0
    ensures SlotsSoFar(d, i, 0, [], false, {})
  {
    hide Contents;
    ScanStarts(Contents(d, i));
  }

  lemma SlotsEnd(d: Image, i: Inode, rs: seq<LedgerRecord>, sawEmpty: bool, ids: set<RequestId>)
    requires i.size % BLOCK_SIZE == 0 && SlotsSoFar(d, i, i.size / BLOCK_SIZE * RECORDS_PER_BLOCK, rs, sawEmpty, ids)
    ensures LedgerIs(Contents(d, i), rs)
  {
    hide Contents, Scanned, LedgerIs, RecordMap;
    ScanEnds(Contents(d, i), rs, sawEmpty);
  }

  ghost predicate SlotsSoFar(d: Image, i: Inode, k: nat, rs: seq<LedgerRecord>, sawEmpty: bool, ids: set<RequestId>) {
    Scanned(Contents(d, i), k, rs, sawEmpty) && ids == RecordMap(rs).Keys
  }

  method CheckBlockSlots(
    c: Checker, i: Inode, logical: nat, block: Block, saw: bool, known: set<RequestId>, ghost rs0: seq<LedgerRecord>, ghost wasClean: bool)
    returns (sawEmpty: bool, ids: set<RequestId>, ghost rs: seq<LedgerRecord>)
    requires i.size % BLOCK_SIZE == 0 && logical < i.size / BLOCK_SIZE
    requires c.Clean() ==> block == At(c.d, MapBlock(c.d, i, logical))
    requires c.Clean() ==> wasClean && SlotsSoFar(c.d, i, logical * RECORDS_PER_BLOCK, rs0, saw, known)
    requires wasClean && !c.Clean() ==> forall ts :: !LedgerIs(Contents(c.d, i), ts)
    modifies c`issues
    ensures c.Clean() ==> wasClean && SlotsSoFar(c.d, i, (logical + 1) * RECORDS_PER_BLOCK, rs, sawEmpty, ids)
    ensures wasClean && !c.Clean() ==> forall ts :: !LedgerIs(Contents(c.d, i), ts)
  {
    hide Contents, Scanned, LedgerIs, RecordMap, MapBlock, At, DecodeSlot;
    sawEmpty, ids, rs := saw, known, rs0;
    for local := 0 to RECORDS_PER_BLOCK
      invariant c.Clean() ==> old(c.Clean()) && SlotsSoFar(c.d, i, logical * RECORDS_PER_BLOCK + local, rs, sawEmpty, ids)
      invariant wasClean && !c.Clean() ==> forall ts :: !LedgerIs(Contents(c.d, i), ts)
    {
      ghost var k := logical * RECORDS_PER_BLOCK + local;
      SlotInBlock(c.d, i, logical, local);
      var slot := DecodeSlot(block[local * RECORD_SIZE..(local + 1) * RECORD_SIZE], logical * RECORDS_PER_BLOCK + local + 1);
      if c.Clean() {
        SlotChecked(Contents(c.d, i), k, rs, sawEmpty, slot);
      }
      match slot
      case Corrupt => c.AddIssue(RequestLedgerInvalid);
      case Empty => sawEmpty := true;
      case Used(record) =>
        if sawEmpty {
          c.AddIssue(RequestLedgerInvalid);
        }
        if record.id in ids {
          c.AddIssue(RequestLedgerInvalid);
        }
        ids := ids + {record.id};
        rs := rs + [record];
    }
  }

  lemma SlotChecked(b: seq<byte>, k: nat, rs: seq<LedgerRecord>, sawEmpty: bool, slot: Slot)
    requires Scanned(b, k, rs, sawEmpty) && k < Capacity(b) && slot == DecodeSlot(SlotAt(b, k), k + 1)
    ensures slot.Corrupt? || (slot.Used? && (sawEmpty || slot.record.id in RecordMap(rs))) ==> forall ts :: !LedgerIs(b, ts)
    ensures slot.Empty? ==> Scanned(b, k + 1, rs, true)
    ensures slot.Used? && !sawEmpty && slot.record.id !in RecordMap(rs) ==>
      && Scanned(b, k + 1, rs + [slot.record], sawEmpty)
      && RecordMap(rs + [slot.record]).Keys == RecordMap(rs).Keys + {slot.record.id}
  {
    hide Scanned, LedgerIs, RecordMap, DecodeSlot, SlotAt;
    if slot.Corrupt? || (slot.Used? && (sawEmpty || slot.record.id in RecordMap(rs))) {
      ScanRefuses(b, k, rs, sawEmpty, slot);
    } else {
      ScanStep(b, k, rs, sawEmpty, slot);
    }
  }

  // ---- The verdict ----

  datatype Verdict = HealthyImage | Inconsistent | Incomplete

  /** `ClassifyReport`: incomplete evidence comes before any issue. */
  function Classify(issues: seq<Issue>, complete: bool): Verdict {
    if !complete then Incomplete else if issues == [] then HealthyImage else Inconsistent
  }

  /** The phases that look at the file system itself. */
  method CheckFiles(c: Checker)
    requires ValidSuperblock(c.sb) && |c.d| == c.sb.totalBlocks && c.Clean()
    requires c.refs == map[] && c.decoded == map[] && c.entries == map[]
    modifies c
    ensures c.Clean() <==> Healthy(c.sb, c.d)
    ensures c.Clean() ==> Collected(c.sb, c.d, UsedSet(c.sb, c.d), c.refs.Keys, c.decoded, c.entries)
    ensures c.complete <==> Readable(c.sb, c.d) && IsDirectory(FileAt(c.sb, c.d, c.sb.rootInode).mode)
    ensures c.complete ==> Surveyed(c.sb, c.d, c.decoded, c.entries)
  {
    hide Readable, Surveyed, FileAt, DirectoriesOf, NodeKnown;
    hide ValidSuperblock, Healthy, Collected, BitmapsWellFormed, InodeUsed, AllOk, SpaceChecked, ChecksPass, UsedSet;
    hide NamespaceFrom, DataBlock;
    CheckGeometry(c);
    ScanInodes(c);
    CheckUnreferenced(c);
    if c.Clean() {
      SpaceIsChecked(c.sb, c.d, c.refs.Keys, c.decoded, c.entries);
    }
    ghost var space := c.Clean();
    if Healthy(c.sb, c.d) {
      HealthyPassesSpace(c.sb, c.d, c.refs.Keys, c.decoded, c.entries, space);
    }
    if c.complete {
      NoLooseEnds(c.sb, c.d, c.decoded, c.entries);
    }
    var names, complete := CheckNamespace(NamespaceFrom(c.decoded, c.entries), UsedSet(c.sb, c.d), c.sb.rootInode);
    c.issues, c.complete := c.issues + names, c.complete && complete;
    if space {
      NamesAreChecked(c.sb, c.d, c.refs.Keys, c.decoded, c.entries);
    }
  }

  lemma SpaceIsChecked(sb: Superblock, d: Image, refs: set<nat>, decoded: map<nat, Inode>, entries: map<nat, seq<Entry>>)
    requires BitmapsWellFormed(sb, d) && InodeUsed(sb, d, sb.rootInode) && AllOk(sb, d, UsedSet(sb, d))
    requires Collected(sb, d, UsedSet(sb, d), refs, decoded, entries) && forall b: nat :: DataBlock(sb, d, b) ==> b in refs
    ensures SpaceChecked(sb, d)
  {
    hide BitmapsWellFormed, InodeUsed, AllOk, UsedSet, DataBlock, OwnedByOne, DirEntries;
  }

  /** On a healthy image the phases up to the namespace find nothing. */
  lemma HealthyPassesSpace(
    sb: Superblock, d: Image, refs: set<nat>, decoded: map<nat, Inode>, entries: map<nat, seq<Entry>>, clean: bool)
    requires Healthy(sb, d)
    requires var scanned := BitmapsWellFormed(sb, d) && InodeUsed(sb, d, sb.rootInode) && AllOk(sb, d, UsedSet(sb, d));
      && (scanned ==> Collected(sb, d, UsedSet(sb, d), refs, decoded, entries))
      && (clean <==> scanned && forall b: nat :: DataBlock(sb, d, b) ==> b in refs)
    ensures clean
  {
    hide BitmapsWellFormed, InodeUsed, AllOk, UsedSet, DataBlock, OwnedByOne, DirEntries, Healthy;
    HealthyIsChecked(sb, d);
  }

  lemma NamesAreChecked(sb: Superblock, d: Image, refs: set<nat>, decoded: map<nat, Inode>, entries: map<nat, seq<Entry>>)
    requires ValidSuperblock(sb) && |d| == sb.totalBlocks && SpaceChecked(sb, d)
    requires Collected(sb, d, UsedSet(sb, d), refs, decoded, entries)
    ensures ChecksPass(NamespaceFrom(decoded, entries), UsedSet(sb, d), sb.rootInode) <==> Healthy(sb, d)
  {
    hide ValidSuperblock, Collected, BitmapsWellFormed, InodeUsed, AllOk, UsedSet, NamespaceFrom, DataBlock, ChecksPass;
    hide TreeHealthy, NamespaceOf;
    hide SpaceHealthy, FileAt, DirEntries;
    CheckedIsHealthy(sb, d);
    CollectedNamespace(sb, d, refs, decoded, entries);
    UsedAreNumbers(sb, d);
    var ns := NamespaceOf(sb, d);
    if TreeHealthy(ns, sb.rootInode) {
      TreePasses(ns, sb.rootInode);
    }
    if ChecksPass(ns, ns.Keys, sb.rootInode) {
      PassedIsTree(ns, sb.rootInode);
    }
  }

  /** What the verdict "healthy" means. */
  ghost predicate Passes(sb: Superblock, d: Image) {
    sb.featureIncompat <= LEDGER_FEATURE && JournalProtocol.Clean(sb, d) && Sound(sb, d)
  }

  /** The whole check. The verdict is "healthy" if and only if the journal is empty and the image is
      sound: space and references in bijection, a tree of directories, and a readable ledger if the
      image declares one. */
  method CheckImage(sb: Superblock, d: Image) returns (r: Result<Verdict>)
    requires ValidSuperblock(sb) && |d| == sb.totalBlocks
    ensures r.Failure? <==> sb.featureIncompat > LEDGER_FEATURE || Selected(sb, d) == None
    ensures r == Success(HealthyImage) <==> Passes(sb, d)
    ensures r == Success(Inconsistent) <==>
      sb.featureIncompat <= LEDGER_FEATURE && JournalProtocol.Clean(sb, d) && EvidenceComplete(sb, d) && !Sound(sb, d)
    ensures r == Success(Incomplete) <==>
      sb.featureIncompat <= LEDGER_FEATURE && Selected(sb, d).Some? && (!JournalProtocol.Clean(sb, d) || !EvidenceComplete(sb, d))
  {
    hide Readable, Surveyed, FileAt, LedgerLocated;
    hide ValidSuperblock, Selected, Healthy, Collected, UsedSet, HasHistory;
    if sb.featureIncompat > LEDGER_FEATURE {
      return Failure(ENOTSUP);
    }
    var selected := Selected(sb, d);
    if selected == None {
      return Failure(EUCLEAN);
    }
    if selected.value.control.usedBlocks != 0 {
      return Success(Incomplete);
    }
    var c := new Checker(sb, d);
    CheckFiles(c);
    if sb.featureIncompat == LEDGER_FEATURE {
      CheckLedger(c);
    }
    r := Success(Classify(c.issues, c.complete));
  }
}
