/** When the offline checker has seen enough for a verdict (src/checker/consistency_report.cpp): everything
    the image leads to can be located and decoded. */
module Evidence {
  import opened Bytes
  import opened OndiskFormat
  import opened Journal
  import opened ImageView
  import opened Directory
  import opened Health
  import opened NamespaceCheck
  import opened TreeCheck
  import opened ImageCheck
  import opened LedgerImage

  // ---- What the image leads to ----

  /** From the root or an allocated inode, along directory entries. */
  ghost predicate Trail(sb: Superblock, d: Image, p: seq<nat>) {
    && p != [] && (p[0] == sb.rootInode || InodeUsed(sb, d, p[0]))
    && forall k :: 0 <= k < |p| - 1 ==> p[k + 1] in TargetsOf(d, FileAt(sb, d, p[k]))
  }

  ghost predicate Discovered(sb: Superblock, d: Image, n: nat) {
    exists p :: Trail(sb, d, p) && p[|p| - 1] == n
  }

  /** Every inode the image leads to decodes, and every directory among them can be read. */
  ghost predicate Readable(sb: Superblock, d: Image) {
    forall n: nat :: Discovered(sb, d, n) ==> InodeEvident(sb, d, n)
  }

  /** The ledger file is there, and all its blocks can be located. */
  ghost predicate LedgerLocated(sb: Superblock, d: Image) {
    var i := FileAt(sb, d, LEDGER_INODE);
    Discovered(sb, d, LEDGER_INODE) && i.size != 0 && i.size % BLOCK_SIZE == 0 && AllLocated(sb, d, i)
  }

  predicate AllLocated(sb: Superblock, d: Image, i: Inode) {
    forall l :: 0 <= l < i.size / BLOCK_SIZE ==> LogicalBlock(sb, d, i, l).Some?
  }

  ghost predicate EvidenceComplete(sb: Superblock, d: Image) {
    && Readable(sb, d) && IsDirectory(FileAt(sb, d, sb.rootInode).mode)
    && (sb.featureIncompat == LEDGER_FEATURE ==> LedgerLocated(sb, d))
  }

  lemma StartIsDiscovered(sb: Superblock, d: Image, n: nat)
    requires n == sb.rootInode || InodeUsed(sb, d, n)
    ensures Discovered(sb, d, n)
  {
    hide InodeUsed, TargetsOf, FileAt;
    var p := [n];
    assert Trail(sb, d, p) && p[|p| - 1] == n;
  }

  lemma TargetIsDiscovered(sb: Superblock, d: Image, n: nat, k: nat)
    requires Discovered(sb, d, n) && k in TargetsOf(d, FileAt(sb, d, n))
    ensures Discovered(sb, d, k)
  {
    hide InodeUsed, TargetsOf, FileAt;
    var p :| Trail(sb, d, p) && p[|p| - 1] == n;
    var q := p + [k];
    forall j | 0 <= j < |q| - 1
      ensures q[j + 1] in TargetsOf(d, FileAt(sb, d, q[j]))
    {
      assert q[j] == p[j] && (j < |p| - 1 ==> q[j + 1] == p[j + 1]);
    }
    assert Trail(sb, d, q) && q[|q| - 1] == k;
  }

  // ---- What the scan knows ----

  /** Inodes and directories as the scan collected them. */
  ghost predicate Gathered(sb: Superblock, d: Image, ns: set<nat>, decoded: map<nat, Inode>, entries: map<nat, seq<Entry>>) {
    && decoded.Keys == ns && (forall n :: n in ns ==> decoded[n] == FileAt(sb, d, n))
    && (forall n :: n in entries <==> n in ns && IsDirectory(FileAt(sb, d, n).mode))
    && (forall n :: n in entries ==> DirEntries(d, FileAt(sb, d, n)) == Some(entries[n]))
  }

  ghost predicate Swept(
    sb: Superblock, d: Image, seen: set<nat>, scanned: set<nat>, decoded: map<nat, Inode>, entries: map<nat, seq<Entry>>)
  {
    && (forall n :: n in seen ==> Discovered(sb, d, n))
    && (forall n :: n in scanned ==> InodeEvident(sb, d, n))
    && (forall n, k :: n in scanned && k in TargetsOf(d, FileAt(sb, d, n)) ==> k in seen)
    && Gathered(sb, d, scanned, decoded, entries)
  }

  /** The scan has found exactly what the image leads to. */
  ghost predicate Surveyed(sb: Superblock, d: Image, decoded: map<nat, Inode>, entries: map<nat, seq<Entry>>) {
    (forall n: nat :: n in decoded <==> Discovered(sb, d, n)) && Swept(sb, d, decoded.Keys, decoded.Keys, decoded, entries)
  }

  lemma SweepStarts(sb: Superblock, d: Image, seen: set<nat>)
    requires forall n :: n in seen ==> n == sb.rootInode || InodeUsed(sb, d, n)
    ensures Swept(sb, d, seen, {}, map[], map[])
  {
    hide InodeUsed, Discovered;
    forall n | n in seen
      ensures Discovered(sb, d, n)
    {
      StartIsDiscovered(sb, d, n);
    }
  }

  lemma SweepOne(
    sb: Superblock, d: Image, seen: set<nat>, scanned: set<nat>, decoded: map<nat, Inode>, entries: map<nat, seq<Entry>>, n: nat, more: set<nat>)
    requires Swept(sb, d, seen, scanned, decoded, entries) && n in seen && n !in scanned && InodeEvident(sb, d, n)
    requires forall k :: k in more <==> k in seen || k in TargetsOf(d, FileAt(sb, d, n))
    ensures Swept(sb, d, more, scanned + {n}, decoded[n := FileAt(sb, d, n)], WithEntries(entries, n, d, FileAt(sb, d, n)))
  {
    hide InodeEvident, TargetsOf, FileAt, Discovered, DirEntries;
    EvidentDirectory(sb, d, n);
    forall k | k in more
      ensures Discovered(sb, d, k)
    {
      if k !in seen {
        TargetIsDiscovered(sb, d, n, k);
      }
    }
  }

  lemma EvidentDirectory(sb: Superblock, d: Image, n: nat)
    requires InodeEvident(sb, d, n)
    ensures IsDirectory(FileAt(sb, d, n).mode) ==> DirEntries(d, FileAt(sb, d, n)).Some?
  {
    hide LogicalBlock, TargetsInRange, FileAt, InodeAt, EntriesUpTo;
  }

  lemma SweepEnds(sb: Superblock, d: Image, seen: set<nat>, decoded: map<nat, Inode>, entries: map<nat, seq<Entry>>)
    requires Swept(sb, d, seen, seen, decoded, entries) && sb.rootInode as nat in seen && forall n: nat :: InodeUsed(sb, d, n) ==> n in seen
    ensures Surveyed(sb, d, decoded, entries) && Readable(sb, d)
  {
    hide InodeEvident, TargetsOf, FileAt, DirEntries, InodeUsed, Gathered;
    forall n: nat | Discovered(sb, d, n)
      ensures n in seen
    {
      var p :| Trail(sb, d, p) && p[|p| - 1] == n;
      TrailStays(sb, d, seen, p);
    }
    GatheredKeys(sb, d, seen, decoded, entries);
  }

  lemma GatheredKeys(sb: Superblock, d: Image, ns: set<nat>, decoded: map<nat, Inode>, entries: map<nat, seq<Entry>>)
    requires Gathered(sb, d, ns, decoded, entries)
    ensures decoded.Keys == ns
  {}

  lemma {:induction false} TrailStays(sb: Superblock, d: Image, s: set<nat>, p: seq<nat>)
    requires Trail(sb, d, p) && sb.rootInode as nat in s && forall n: nat :: InodeUsed(sb, d, n) ==> n in s
    requires forall n, k :: n in s && k in TargetsOf(d, FileAt(sb, d, n)) ==> k in s
    ensures p[|p| - 1] in s
    decreases |p|
  {
    hide InodeUsed, TargetsOf, FileAt;
    if |p| > 1 {
      var q := p[..|p| - 1];
      assert Trail(sb, d, q);
      TrailStays(sb, d, s, q);
      assert p[|p| - 2 + 1] in TargetsOf(d, FileAt(sb, d, p[|p| - 2]));
    }
  }

  // ---- The namespace of what was found ----

  /** The namespace of what was decoded. */
  function NamespaceFrom(decoded: map<nat, Inode>, entries: map<nat, seq<Entry>>): Namespace {
    map n | n in decoded ::
      Node(IsDirectory(decoded[n].mode), decoded[n].linkCount, if n in entries then entries[n] else [])
  }

  /** After a complete scan the namespace has no loose ends. */
  lemma NoLooseEnds(sb: Superblock, d: Image, decoded: map<nat, Inode>, entries: map<nat, seq<Entry>>)
    requires Surveyed(sb, d, decoded, entries)
    ensures var ns := NamespaceFrom(decoded, entries);
      && (forall p :: p in ns ==> NodeKnown(ns, ns[p].entries))
      && (sb.rootInode as nat in DirectoriesOf(ns) <==> IsDirectory(FileAt(sb, d, sb.rootInode).mode))
  {
    hide InodeEvident, FileAt, DirEntries, Discovered;
    var ns := NamespaceFrom(decoded, entries);
    StartIsDiscovered(sb, d, sb.rootInode);
    forall p, k | p in ns && 0 <= k < |ns[p].entries|
      ensures ns[p].entries[k].inode in ns
    {
      assert TargetsOf(d, FileAt(sb, d, p)) == Targets(ns[p].entries);
      assert Targets(ns[p].entries)[k] in Targets(ns[p].entries);
    }
  }
}
