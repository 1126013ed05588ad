/** The namespace half of the offline checker: link counts, entry kinds, cycles, second parents and
    reachability (src/checker/consistency_checker.cpp). It works on whatever the scan could decode, and
    reports nothing exactly when the namespace is a tree. */
module NamespaceCheck {
  import opened Bytes
  import opened Order
  import opened Directory
  import opened Health
  import opened GraphSearch

  datatype Issue =
    | MetadataBlockMarkedFree | BitmapTailNotReserved | RootInodeMarkedFree | InodeUndecodable | RootInodeNotDirectory
    | MissingRequiredBlock | BlockPointerBeyondEnd | ReferencedBlockOutOfRange | ReferencedBlockMarkedFree
    | DuplicateBlockReference | DirectoryRecordUndecodable | DuplicateDentryName | DentryTargetOutOfRange
    | DentryTargetInodeMarkedFree | AllocatedDataBlockUnreferenced | RootDirectoryReferenced | RegularFileHardLink
    | InodeLinkCountMismatch | DentryTypeMismatch | DirectoryCycle | DirectoryHardLink | InodeUnreachable
    | JournalRecoveryRequired | RequestLedgerInvalid

  function Targets(es: seq<Entry>): (r: seq<nat>)
    ensures |r| == |es| && forall k :: 0 <= k < |es| ==> r[k] == es[k].inode
  {
    if es == [] then [] else Targets(es[..|es| - 1]) + [es[|es| - 1].inode]
  }

  function EdgesOf(ns: Namespace): Edges {
    map n | n in ns :: Targets(ns[n].entries)
  }

  function DirectoriesOf(ns: Namespace): set<nat> {
    set n | n in ns && ns[n].isDirectory
  }

  // ---- Counting references ----

  /** The directory entries that name inode `n`. */
  function References(ns: Namespace, n: nat): set<(nat, nat)> {
    set p, k | p in ns && 0 <= k < |ns[p].entries| && ns[p].entries[k].inode == n :: (p, k)
  }

  function ChildCount(ns: Namespace, es: seq<Entry>): nat {
    if es == [] then 0
    else ChildCount(ns, es[..|es| - 1]) + (if es[|es| - 1].inode in ns && ns[es[|es| - 1].inode].isDirectory then 1 else 0)
  }

  function Get(counts: map<nat, nat>, n: nat): nat {
    if n in counts then counts[n] else 0
  }

  /** The references from the parents in `done` and the first `j` entries of `p`. */
  ghost function Counted(ns: Namespace, done: set<nat>, p: nat, j: nat, n: nat): set<(nat, nat)> {
    set x | x in References(ns, n) && (x.0 in done || (x.0 == p && x.1 < j))
  }

  lemma InCounted(ns: Namespace, done: set<nat>, p: nat, j: nat, n: nat, x: (nat, nat))
    ensures x in Counted(ns, done, p, j, n) <==>
      && x.0 in ns && x.1 < |ns[x.0].entries| && ns[x.0].entries[x.1].inode == n && (x.0 in done || (x.0 == p && x.1 < j))
  {
    assert x == (x.0, x.1);
  }

  lemma CountStep(ns: Namespace, done: set<nat>, p: nat, j: nat, n: nat)
    requires p in ns && p !in done && j < |ns[p].entries|
    ensures |Counted(ns, done, p, j + 1, n)| == |Counted(ns, done, p, j, n)| + (if ns[p].entries[j].inode == n then 1 else 0)
  {
    hide Counted;
    var was, now := Counted(ns, done, p, j, n), Counted(ns, done, p, j + 1, n);
    var added: set<(nat, nat)> := if ns[p].entries[j].inode == n then {(p, j)} else {};
    forall x: (nat, nat)
      ensures x in now <==> x in was + added
    {
      InCounted(ns, done, p, j, n, x);
      InCounted(ns, done, p, j + 1, n, x);
    }
    assert now == was + added && was !! added by { InCounted(ns, done, p, j, n, (p, j)); }
  }

  lemma CountNext(ns: Namespace, done: set<nat>, p: nat, q: nat, n: nat)
    requires p in ns && p !in done
    ensures Counted(ns, done + {p}, q, 0, n) == Counted(ns, done, p, |ns[p].entries|, n)
  {
    hide Counted;
    forall x: (nat, nat)
      ensures x in Counted(ns, done + {p}, q, 0, n) <==> x in Counted(ns, done, p, |ns[p].entries|, n)
    {
      InCounted(ns, done + {p}, q, 0, n, x);
      InCounted(ns, done, p, |ns[p].entries|, n, x);
    }
  }

  ghost predicate CountsAre(ns: Namespace, done: set<nat>, p: nat, j: nat, counts: map<nat, nat>) {
    forall n: nat :: Get(counts, n) == |Counted(ns, done, p, j, n)|
  }

  ghost predicate ChildrenAre(ns: Namespace, parents: set<nat>, children: map<nat, nat>) {
    forall p :: p in parents && p in ns ==> Get(children, p) == ChildCount(ns, ns[p].entries)
  }

  /** How often each inode is named, and how many child directories each directory has. */
  method CountLinks(ns: Namespace) returns (references: map<nat, nat>, children: map<nat, nat>)
    ensures forall n: nat :: Get(references, n) == |References(ns, n)|
    ensures ChildrenAre(ns, ns.Keys, children)
  {
    hide References, ChildCount, CountsAre, ChildrenAre;
    references, children := map[], map[];
    var rest := ns.Keys;
    ghost var done: set<nat> := {};
    CountStart(ns);
    while rest != {}
      invariant rest <= ns.Keys && done == ns.Keys - rest
      invariant CountsAre(ns, done, 0, 0, references) && ChildrenAre(ns, done, children)
    {
      var p := Least(rest);
      references, children := CountParent(ns, p, done, references, children);
      rest := rest - {p};
      done := done + {p};
    }
    CountEnd(ns, done, references);
  }

  lemma CountStart(ns: Namespace)
    ensures CountsAre(ns, {}, 0, 0, map[]) && ChildrenAre(ns, {}, map[])
    ensures forall n: nat :: |Counted(ns, {}, 0, 0, n)| == 0
  {
    forall n: nat
      ensures Counted(ns, {}, 0, 0, n) == {}
    {}
  }

  lemma CountEnd(ns: Namespace, done: set<nat>, references: map<nat, nat>)
    requires done == ns.Keys && CountsAre(ns, done, 0, 0, references)
    ensures forall n: nat :: Get(references, n) == |References(ns, n)|
  {
    hide Counted, References;
    forall n: nat
      ensures Get(references, n) == |References(ns, n)|
    {
      AllCounted(ns, done, n);
    }
  }

  lemma AllCounted(ns: Namespace, done: set<nat>, n: nat)
    requires done == ns.Keys
    ensures Counted(ns, done, 0, 0, n) == References(ns, n)
  {}

  method CountParent(ns: Namespace, p: nat, ghost done: set<nat>, references: map<nat, nat>, children: map<nat, nat>)
    returns (more: map<nat, nat>, counted: map<nat, nat>)
    requires p in ns && p !in done && CountsAre(ns, done, 0, 0, references) && ChildrenAre(ns, done, children)
    ensures CountsAre(ns, done + {p}, 0, 0, more) && ChildrenAre(ns, done + {p}, counted)
  {
    hide CountsAre;
    more := references;
    var es, directories := ns[p].entries, 0;
    CountMoves(ns, done, p, more);
    for j := 0 to |es|
      invariant CountsAre(ns, done, p, j, more)
      invariant directories == ChildCount(ns, es[..j])
    {
      var child := es[j].inode;
      CountOne(ns, done, p, j, more);
      more := more[child := Get(more, child) + 1];
      assert es[..j + 1][..j] == es[..j];
      if child in ns && ns[child].isDirectory {
        directories := directories + 1;
      }
    }
    assert es[..|es|] == es;
    CountAll(ns, done, p, more);
    counted := children[p := directories];
  }

  lemma CountMoves(ns: Namespace, done: set<nat>, p: nat, counts: map<nat, nat>)
    requires CountsAre(ns, done, 0, 0, counts)
    ensures CountsAre(ns, done, p, 0, counts)
  {
    hide Counted;
    forall n: nat
      ensures Get(counts, n) == |Counted(ns, done, p, 0, n)|
    {
      SameStart(ns, done, p, n);
    }
  }

  lemma CountOne(ns: Namespace, done: set<nat>, p: nat, j: nat, counts: map<nat, nat>)
    requires p in ns && p !in done && j < |ns[p].entries| && CountsAre(ns, done, p, j, counts)
    ensures var child := ns[p].entries[j].inode; CountsAre(ns, done, p, j + 1, counts[child := Get(counts, child) + 1])
  {
    hide Counted;
    var child := ns[p].entries[j].inode;
    var more := counts[child := Get(counts, child) + 1];
    forall n: nat
      ensures Get(more, n) == |Counted(ns, done, p, j + 1, n)|
    {
      CountStep(ns, done, p, j, n);
    }
  }

  lemma CountAll(ns: Namespace, done: set<nat>, p: nat, counts: map<nat, nat>)
    requires p in ns && p !in done && CountsAre(ns, done, p, |ns[p].entries|, counts)
    ensures CountsAre(ns, done + {p}, 0, 0, counts)
  {
    hide Counted;
    forall n: nat
      ensures Get(counts, n) == |Counted(ns, done + {p}, 0, 0, n)|
    {
      CountNext(ns, done, p, 0, n);
    }
  }

  lemma SameStart(ns: Namespace, done: set<nat>, p: nat, n: nat)
    ensures Counted(ns, done, p, 0, n) == Counted(ns, done, 0, 0, n)
  {}

  // ---- The checks ----

  /** Link counts and references, as the checker derives them. */
  predicate LinksMatch(ns: Namespace, root: nat, n: nat)
    requires n in ns
  {
    var references, children := |References(ns, n)|, ChildCount(ns, ns[n].entries);
    if ns[n].isDirectory then ns[n].links == if n == root then 2 + children else 1 + references + children
    else references <= 1 && ns[n].links == references
  }

  predicate EntryMatches(ns: Namespace, root: nat, e: Entry) {
    e.inode in ns && e.inode != root && e.kind == KindOf(ns[e.inode])
  }

  predicate EntriesMatch(ns: Namespace, root: nat) {
    forall p :: p in ns ==> NodeMatches(ns, root, ns[p].entries)
  }

  /** Root references, undecodable targets and kinds. */
  method CheckEntries(ns: Namespace, root: nat) returns (issues: seq<Issue>, complete: bool)
    ensures issues == [] && complete <==> EntriesMatch(ns, root)
    ensures complete <==> forall p :: p in ns ==> NodeKnown(ns, ns[p].entries)
  {
    hide EntryMatches, NodeKnown;
    issues, complete := [], true;
    var rest := ns.Keys;
    while rest != {}
      invariant rest <= ns.Keys
      invariant issues == [] && complete <==> forall p :: p in ns && p !in rest ==> NodeMatches(ns, root, ns[p].entries)
      invariant complete <==> forall p :: p in ns && p !in rest ==> NodeKnown(ns, ns[p].entries)
    {
      var p := Least(rest);
      var more, decoded := CheckNode(ns, root, ns[p].entries);
      issues, complete := issues + more, complete && decoded;
      rest := rest - {p};
    }
  }

  predicate NodeMatches(ns: Namespace, root: nat, es: seq<Entry>) {
    forall k :: 0 <= k < |es| ==> EntryMatches(ns, root, es[k])
  }

  /** Every entry leads to a node. */
  predicate NodeKnown(ns: Namespace, es: seq<Entry>) {
    forall k :: 0 <= k < |es| ==> es[k].inode in ns
  }

  method CheckNode(ns: Namespace, root: nat, es: seq<Entry>) returns (issues: seq<Issue>, complete: bool)
    ensures issues == [] && complete <==> NodeMatches(ns, root, es)
    ensures complete <==> NodeKnown(ns, es)
  {
    issues, complete := [], true;
    for j := 0 to |es|
      invariant issues == [] && complete <==> forall k :: 0 <= k < j ==> EntryMatches(ns, root, es[k])
      invariant complete <==> forall k :: 0 <= k < j ==> es[k].inode in ns
    {
      if es[j].inode == root {
        issues := issues + [RootDirectoryReferenced];
      }
      if es[j].inode !in ns {
        complete := false;
      } else if es[j].kind != KindOf(ns[es[j].inode]) {
        issues := issues + [DentryTypeMismatch];
      }
    }
  }

  /** Without complete evidence only surplus references of regular files are reported. */
  method CheckLinks(ns: Namespace, root: nat, complete: bool) returns (issues: seq<Issue>)
    ensures complete && root in DirectoriesOf(ns) ==> (issues == [] <==> forall n :: n in ns ==> LinksMatch(ns, root, n))
  {
    hide References, ChildCount, LinksMatch, ChildrenAre;
    var references, children := CountLinks(ns);
    issues := [];
    var rest := ns.Keys;
    while rest != {}
      invariant rest <= ns.Keys
      invariant complete && root in DirectoriesOf(ns) ==>
        (issues == [] <==> forall n :: n in ns && n !in rest ==> LinksMatch(ns, root, n))
    {
      var n := Least(rest);
      var more := CheckLink(ns, root, n, references, children, complete);
      issues := issues + more;
      rest := rest - {n};
    }
  }

  method CheckLink(ns: Namespace, root: nat, n: nat, references: map<nat, nat>, children: map<nat, nat>, complete: bool)
    returns (issues: seq<Issue>)
    requires n in ns && Get(references, n) == |References(ns, n)| && ChildrenAre(ns, ns.Keys, children)
    ensures complete && root in DirectoriesOf(ns) ==> (issues == [] <==> LinksMatch(ns, root, n))
  {
    hide References, ChildCount;
    issues := [];
    var expected := Get(references, n);
    if ns[n].isDirectory {
      expected := if n == root then 2 + Get(children, n) else 1 + Get(references, n) + Get(children, n);
    } else if Get(references, n) > 1 {
      issues := issues + [RegularFileHardLink];
    }
    if complete && (n != root || ns[n].isDirectory) && ns[n].links != expected {
      issues := issues + [InodeLinkCountMismatch];
    }
  }

  /** No directory is named twice. */
  predicate DirectoriesOnce(ns: Namespace) {
    forall n :: n in ns && ns[n].isDirectory ==> |References(ns, n)| <= 1
  }

  ghost predicate OnceSoFar(ns: Namespace, done: set<nat>, p: nat, j: nat, linked: set<nat>, clean: bool) {
    && (forall n: nat :: n in linked <==> n in ns && ns[n].isDirectory && |Counted(ns, done, p, j, n)| >= 1)
    && (clean <==> forall n: nat :: n in ns && ns[n].isDirectory ==> |Counted(ns, done, p, j, n)| <= 1)
  }

  method CheckParents(ns: Namespace) returns (issues: seq<Issue>)
    ensures issues == [] <==> DirectoriesOnce(ns)
  {
    hide References, OnceSoFar;
    var linked: set<nat> := {};
    issues := [];
    var rest := ns.Keys;
    ghost var done: set<nat> := {};
    OnceStart(ns);
    while rest != {}
      invariant rest <= ns.Keys && done == ns.Keys - rest
      invariant OnceSoFar(ns, done, 0, 0, linked, issues == [])
    {
      var p, more := Least(rest), [];
      more, linked := CheckChildren(ns, p, done, linked, issues == []);
      issues := issues + more;
      rest := rest - {p};
      done := done + {p};
    }
    OnceEnd(ns, done, linked, issues == []);
  }

  lemma OnceStart(ns: Namespace)
    ensures OnceSoFar(ns, {}, 0, 0, {}, true)
  {
    hide Counted;
    CountStart(ns);
  }

  lemma OnceEnd(ns: Namespace, done: set<nat>, linked: set<nat>, clean: bool)
    requires done == ns.Keys && OnceSoFar(ns, done, 0, 0, linked, clean)
    ensures clean <==> DirectoriesOnce(ns)
  {
    hide Counted, References;
    forall n: nat
      ensures Counted(ns, done, 0, 0, n) == References(ns, n)
    {
      AllCounted(ns, done, n);
    }
  }

  method CheckChildren(ns: Namespace, p: nat, ghost done: set<nat>, before: set<nat>, ghost clean: bool)
    returns (issues: seq<Issue>, linked: set<nat>)
    requires p in ns && p !in done && OnceSoFar(ns, done, 0, 0, before, clean)
    ensures OnceSoFar(ns, done + {p}, 0, 0, linked, clean && issues == [])
  {
    hide OnceSoFar;
    issues, linked := [], before;
    OnceMoves(ns, done, p, linked, clean);
    for j := 0 to |ns[p].entries|
      invariant OnceSoFar(ns, done, p, j, linked, clean && issues == [])
    {
      var child := ns[p].entries[j].inode;
      OnceStep(ns, done, p, j, linked, clean && issues == []);
      if child in ns && ns[child].isDirectory {
        if child in linked {
          issues := issues + [DirectoryHardLink];
        }
        linked := linked + {child};
      }
    }
    OnceNext(ns, done, p, linked, clean && issues == []);
  }

  lemma OnceMoves(ns: Namespace, done: set<nat>, p: nat, linked: set<nat>, clean: bool)
    requires OnceSoFar(ns, done, 0, 0, linked, clean)
    ensures OnceSoFar(ns, done, p, 0, linked, clean)
  {
    hide Counted;
    forall n: nat
      ensures Counted(ns, done, p, 0, n) == Counted(ns, done, 0, 0, n)
    {
      SameStart(ns, done, p, n);
    }
  }

  lemma OnceNext(ns: Namespace, done: set<nat>, p: nat, linked: set<nat>, clean: bool)
    requires p in ns && p !in done && OnceSoFar(ns, done, p, |ns[p].entries|, linked, clean)
    ensures OnceSoFar(ns, done + {p}, 0, 0, linked, clean)
  {
    hide Counted;
    forall n: nat
      ensures Counted(ns, done + {p}, 0, 0, n) == Counted(ns, done, p, |ns[p].entries|, n)
    {
      CountNext(ns, done, p, 0, n);
    }
  }

  lemma OnceStep(ns: Namespace, done: set<nat>, p: nat, j: nat, linked: set<nat>, clean: bool)
    requires p in ns && p !in done && j < |ns[p].entries| && OnceSoFar(ns, done, p, j, linked, clean)
    ensures var child := ns[p].entries[j].inode;
      if child in ns && ns[child].isDirectory
      then OnceSoFar(ns, done, p, j + 1, linked + {child}, clean && child !in linked)
      else OnceSoFar(ns, done, p, j + 1, linked, clean)
  {
    hide Counted;
    forall n: nat
      ensures |Counted(ns, done, p, j + 1, n)| == |Counted(ns, done, p, j, n)| + (if ns[p].entries[j].inode == n then 1 else 0)
    {
      CountStep(ns, done, p, j, n);
    }
  }

  /** Unreachable inodes, if everything reached was decoded. */
  method CheckReach(ns: Namespace, inUse: set<nat>, root: nat) returns (issues: seq<Issue>, complete: bool)
    ensures issues == [] && complete <==>
      && root in DirectoriesOf(ns)
      && (forall n :: Reached(EdgesOf(ns), DirectoriesOf(ns), root, n) ==> n in ns)
      && (forall n :: n in inUse && n != root ==> Reached(EdgesOf(ns), DirectoriesOf(ns), root, n))
    ensures complete <==>
      root in DirectoriesOf(ns) && forall n :: Reached(EdgesOf(ns), DirectoriesOf(ns), root, n) ==> n in ns
  {
    hide Reached, EdgesOf, DirectoriesOf;
    var seen := Reach(EdgesOf(ns), DirectoriesOf(ns), root);
    issues := [];
    complete := root in DirectoriesOf(ns) && seen <= ns.Keys;
    if complete {
      var rest := inUse;
      while rest != {}
        invariant rest <= inUse
        invariant issues == [] <==> forall n :: n in inUse && n !in rest && n != root ==> n in seen
      {
        var n := Least(rest);
        if n != root && n !in seen {
          issues := issues + [InodeUnreachable];
        }
        rest := rest - {n};
      }
    }
  }
}
