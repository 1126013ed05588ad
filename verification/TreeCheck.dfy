/** The namespace checks report nothing exactly when the namespace is a healthy tree. */
module TreeCheck {
  import opened Bytes
  import opened Directory
  import opened Health
  import opened GraphSearch
  import opened NamespaceCheck

  /** What the scan of the directories has already checked. */
  predicate Listings(ns: Namespace) {
    forall n :: n in ns ==> NamesUnique(ns[n].entries) && (!ns[n].isDirectory ==> ns[n].entries == [])
  }

  ghost predicate ChecksPass(ns: Namespace, inUse: set<nat>, root: nat) {
    && root in DirectoriesOf(ns) && EntriesMatch(ns, root)
    && (forall n :: n in ns ==> LinksMatch(ns, root, n))
    && !Cyclic(EdgesOf(ns), DirectoriesOf(ns)) && DirectoriesOnce(ns)
    && (forall n :: Reached(EdgesOf(ns), DirectoriesOf(ns), root, n) ==> n in ns)
    && (forall n :: n in inUse && n != root ==> Reached(EdgesOf(ns), DirectoriesOf(ns), root, n))
  }

  method CheckNamespace(ns: Namespace, inUse: set<nat>, root: nat) returns (issues: seq<Issue>, complete: bool)
    ensures issues == [] && complete <==> ChecksPass(ns, inUse, root)
    ensures complete <==> root in DirectoriesOf(ns) && forall p :: p in ns ==> NodeKnown(ns, ns[p].entries)
  {
    hide NodeKnown;
    KnownIsReached(ns, root);
    hide EntriesMatch, LinksMatch, Cyclic, DirectoriesOnce, Reached, EdgesOf, DirectoriesOf;
    issues, complete := CheckEntries(ns, root);
    if root in ns && root !in DirectoriesOf(ns) {
      issues := issues + [RootInodeNotDirectory];
    }
    var links := CheckLinks(ns, root, complete);
    var cycles := FindCycles(EdgesOf(ns), DirectoriesOf(ns));
    var parents := CheckParents(ns);
    var reach, reached := CheckReach(ns, inUse, root);
    issues := issues + links + (if cycles == [] then [] else [DirectoryCycle]) + parents + reach;
    complete := complete && reached;
  }

  /** If every entry leads to a node, whatever can be reached from the root is a node. */
  lemma KnownIsReached(ns: Namespace, root: nat)
    ensures root in DirectoriesOf(ns) && (forall p :: p in ns ==> NodeKnown(ns, ns[p].entries)) ==>
      forall n :: Reached(EdgesOf(ns), DirectoriesOf(ns), root, n) ==> n in ns
  {
    if root in DirectoriesOf(ns) && forall p :: p in ns ==> NodeKnown(ns, ns[p].entries) {
      forall n | Reached(EdgesOf(ns), DirectoriesOf(ns), root, n)
        ensures n in ns
      {
        var p :| Chain(EdgesOf(ns), DirectoriesOf(ns), root, p) && p[|p| - 1] == n;
        ChainIsKnown(ns, root, p);
      }
    }
  }

  lemma ChainIsKnown(ns: Namespace, root: nat, p: seq<nat>)
    requires root in DirectoriesOf(ns) && (forall q :: q in ns ==> NodeKnown(ns, ns[q].entries))
    requires Chain(EdgesOf(ns), DirectoriesOf(ns), root, p)
    ensures p[|p| - 1] in ns
  {
    if |p| > 1 {
      var parent, child := p[|p| - 2], p[|p| - 2 + 1];
      assert parent in DirectoriesOf(ns) && child in Children(EdgesOf(ns), parent);
      var es := ns[parent].entries;
      var k :| 0 <= k < |Targets(es)| && Targets(es)[k] == child;
      assert es[k].inode in ns;
    }
  }

  // ---- Chains and paths ----

  lemma ChildIs(ns: Namespace, p: nat, c: nat)
    requires Listings(ns)
    ensures HasChild(ns, p, c) <==> p in DirectoriesOf(ns) && c in Children(EdgesOf(ns), p)
  {
    if HasChild(ns, p, c) {
      var k :| 0 <= k < |ns[p].entries| && ns[p].entries[k].inode == c;
      assert Targets(ns[p].entries)[k] == c;
    }
    if p in DirectoriesOf(ns) && c in Children(EdgesOf(ns), p) {
      var k :| 0 <= k < |Targets(ns[p].entries)| && Targets(ns[p].entries)[k] == c;
      assert ns[p].entries[k].inode == c;
    }
  }

  lemma PathIsChain(ns: Namespace, root: nat, p: seq<nat>)
    requires Listings(ns)
    ensures Path(ns, root, p) <==> Chain(EdgesOf(ns), DirectoriesOf(ns), root, p)
  {
    hide Listings, HasChild, EdgesOf, DirectoriesOf, Children;
    if Path(ns, root, p) {
      forall k | 0 <= k < |p| - 1
        ensures p[k] in DirectoriesOf(ns) && p[k + 1] in Children(EdgesOf(ns), p[k])
      {
        ChildIs(ns, p[k], p[k + 1]);
      }
    }
    if Chain(EdgesOf(ns), DirectoriesOf(ns), root, p) {
      forall k | 0 <= k < |p| - 1
        ensures HasChild(ns, p[k], p[k + 1])
      {
        ChildIs(ns, p[k], p[k + 1]);
      }
    }
  }

  lemma ReachableIsReached(ns: Namespace, root: nat, n: nat)
    requires Listings(ns)
    ensures Reachable(ns, root, n) <==> Reached(EdgesOf(ns), DirectoriesOf(ns), root, n)
  {
    hide Listings, EdgesOf, DirectoriesOf, HasChild, Children;
    if Reachable(ns, root, n) {
      var p :| Path(ns, root, p) && p[|p| - 1] == n;
      PathIsChain(ns, root, p);
    }
    if Reached(EdgesOf(ns), DirectoriesOf(ns), root, n) {
      var p :| Chain(EdgesOf(ns), DirectoriesOf(ns), root, p) && p[|p| - 1] == n;
      PathIsChain(ns, root, p);
    }
  }

  // ---- References ----

  lemma InReferences(ns: Namespace, n: nat, p: nat, k: nat)
    ensures (p, k) in References(ns, n) <==> Refers(ns, p, k, n)
  {}

  /** At most one reference, as the checker counts them, is at most one parent entry. */
  lemma {:induction false} AtMostOneReference(ns: Namespace, n: nat, p: nat, j: nat, q: nat, k: nat)
    requires |References(ns, n)| <= 1 && Refers(ns, p, j, n) && Refers(ns, q, k, n)
    ensures p == q && j == k
  {
    hide References;
    InReferences(ns, n, p, j);
    InReferences(ns, n, q, k);
    if (p, j) != (q, k) {
      assert |{(p, j), (q, k)}| == 2;
      Subset({(p, j), (q, k)}, References(ns, n));
    }
  }

  lemma Subset(a: set<(nat, nat)>, b: set<(nat, nat)>)
    requires a <= b
    ensures |a| <= |b|
  {
    assert b == a + (b - a);
    assert |b| == |a| + |b - a|;
  }

  lemma SingleIsAtMostOne(ns: Namespace, n: nat)
    requires SingleParents(ns)
    ensures |References(ns, n)| <= 1
  {
    hide References, SingleParents;
    if References(ns, n) != {} {
      var x :| x in References(ns, n);
      forall y | y in References(ns, n)
        ensures y == x
      {
        SameReference(ns, n, x, y);
      }
      assert References(ns, n) == {x};
    }
  }

  lemma SameReference(ns: Namespace, n: nat, x: (nat, nat), y: (nat, nat))
    requires SingleParents(ns) && x in References(ns, n) && y in References(ns, n)
    ensures x == y
  {
    assert Refers(ns, x.0, x.1, n) && Refers(ns, y.0, y.1, n);
    assert x == (x.0, x.1) && y == (y.0, y.1);
  }

  /** Something reachable that is not the root is named somewhere. */
  lemma ReachableIsNamed(ns: Namespace, root: nat, n: nat)
    requires Reachable(ns, root, n) && n != root
    ensures |References(ns, n)| >= 1
  {
    var p :| Path(ns, root, p) && p[|p| - 1] == n;
    assert HasChild(ns, p[|p| - 2], p[|p| - 2 + 1]);
    var k :| 0 <= k < |ns[p[|p| - 2]].entries| && ns[p[|p| - 2]].entries[k].inode == n;
    assert (p[|p| - 2], k) in References(ns, n);
  }

  lemma {:induction false} ChildCounts(ns: Namespace, root: nat, es: seq<Entry>)
    requires NodeMatches(ns, root, es)
    ensures ChildCount(ns, es) == ChildDirectories(es)
  {
    if es != [] {
      var n := |es| - 1;
      assert NodeMatches(ns, root, es[..n]);
      ChildCounts(ns, root, es[..n]);
      LastDirectory(es);
      assert EntryMatches(ns, root, es[n]);
    }
  }

  lemma {:induction false} LastDirectory(es: seq<Entry>)
    requires es != []
    ensures ChildDirectories(es) == ChildDirectories(es[..|es| - 1]) + (if es[|es| - 1].kind == DIRECTORY then 1 else 0)
  {
    if |es| > 1 {
      LastDirectory(es[1..]);
      assert es[1..][..|es| - 2] == es[..|es| - 1][1..];
    }
  }

  // ---- A tree has no cycle ----

  /** Going up from a node on a cycle stays on the cycle, so it never gets to the root. */
  lemma {:induction false} NotOnCycle(ns: Namespace, root: nat, path: seq<nat>, cycle: seq<nat>, k: nat)
    requires TreeHealthy(ns, root) && Path(ns, root, path) && Cycle(EdgesOf(ns), DirectoriesOf(ns), cycle)
    requires k < |cycle| && path[|path| - 1] == cycle[k]
    ensures false
    decreases |path|
  {
    hide EntriesHealthy, LinksHealthy, Reachable, EdgesOf, DirectoriesOf, Children;
    TreeListings(ns, root);
    var j: nat := if k == 0 then |cycle| - 1 else k;
    assert cycle[j] == cycle[k] && j > 0;
    CycleParent(ns, cycle, j);
    if |path| == 1 {
      RootIsNotNamed(ns, root, cycle[j - 1]);
    } else {
      var up := path[..|path| - 1];
      assert HasChild(ns, path[|path| - 2], path[|path| - 2 + 1]);
      SameParent(ns, root, path[|path| - 2], cycle[j - 1], cycle[k]);
      assert Path(ns, root, up);
      NotOnCycle(ns, root, up, cycle, j - 1);
    }
  }

  lemma CycleParent(ns: Namespace, cycle: seq<nat>, j: nat)
    requires Listings(ns) && Cycle(EdgesOf(ns), DirectoriesOf(ns), cycle) && 0 < j < |cycle|
    ensures HasChild(ns, cycle[j - 1], cycle[j])
  {
    hide Listings, HasChild, EdgesOf, DirectoriesOf, Children;
    assert Edge(EdgesOf(ns), DirectoriesOf(ns), cycle[j - 1], cycle[j - 1 + 1]);
    ChildIs(ns, cycle[j - 1], cycle[j]);
  }

  lemma RootIsNotNamed(ns: Namespace, root: nat, p: nat)
    requires TreeHealthy(ns, root)
    ensures !HasChild(ns, p, root)
  {
    hide LinksHealthy, Reachable, SingleParents;
    if p in ns {
      assert EntriesHealthy(ns, root, ns[p]);
      forall k | 0 <= k < |ns[p].entries|
        ensures ns[p].entries[k].inode != root
      {
        assert EntryHealthy(ns, root, ns[p].entries[k]);
      }
    }
  }

  lemma SameParent(ns: Namespace, root: nat, p: nat, q: nat, c: nat)
    requires TreeHealthy(ns, root) && HasChild(ns, p, c) && HasChild(ns, q, c)
    ensures p == q
  {
    hide LinksHealthy, Reachable, EntriesHealthy;
    var j :| 0 <= j < |ns[p].entries| && ns[p].entries[j].inode == c;
    var k :| 0 <= k < |ns[q].entries| && ns[q].entries[k].inode == c;
    assert Refers(ns, p, j, c) && Refers(ns, q, k, c);
  }

  lemma TreeListings(ns: Namespace, root: nat)
    requires TreeHealthy(ns, root)
    ensures Listings(ns)
  {
    hide LinksHealthy, Reachable, SingleParents, EntryHealthy, NamesUnique;
  }

  lemma TreesAreAcyclic(ns: Namespace, root: nat)
    requires TreeHealthy(ns, root)
    ensures !Cyclic(EdgesOf(ns), DirectoriesOf(ns))
  {
    hide EntriesHealthy, LinksHealthy, SingleParents, EdgesOf;
    if Cyclic(EdgesOf(ns), DirectoriesOf(ns)) {
      var cycle :| Cycle(EdgesOf(ns), DirectoriesOf(ns), cycle);
      assert Edge(EdgesOf(ns), DirectoriesOf(ns), cycle[0], cycle[0 + 1]);
      assert Reachable(ns, root, cycle[0]);
      var path :| Path(ns, root, path) && path[|path| - 1] == cycle[0];
      NotOnCycle(ns, root, path, cycle, 0);
    }
  }

  // ---- The equivalence ----

  lemma LinksOfTree(ns: Namespace, root: nat, n: nat)
    requires TreeHealthy(ns, root) && n in ns
    ensures LinksMatch(ns, root, n) && NodeMatches(ns, root, ns[n].entries)
  {
    hide Reachable, SingleParents, References, NamesUnique;
    assert EntriesHealthy(ns, root, ns[n]) && LinksHealthy(ns[n]);
    forall k | 0 <= k < |ns[n].entries|
      ensures EntryMatches(ns, root, ns[n].entries[k])
    {
      assert EntryHealthy(ns, root, ns[n].entries[k]);
    }
    ChildCounts(ns, root, ns[n].entries);
    SingleIsAtMostOne(ns, n);
    if n != root {
      ReachableIsNamed(ns, root, n);
    }
  }

  /** A healthy tree passes every check. */
  lemma TreePasses(ns: Namespace, root: nat)
    requires TreeHealthy(ns, root)
    ensures ChecksPass(ns, ns.Keys, root)
  {
    hide EntriesHealthy, LinksHealthy, SingleParents, References, Reachable, Reached, EdgesOf, LinksMatch, NodeMatches, Cyclic;
    TreeListings(ns, root);
    TreesAreAcyclic(ns, root);
    forall n | n in ns
      ensures LinksMatch(ns, root, n) && NodeMatches(ns, root, ns[n].entries) && |References(ns, n)| <= 1
      ensures Reached(EdgesOf(ns), DirectoriesOf(ns), root, n)
    {
      LinksOfTree(ns, root, n);
      SingleIsAtMostOne(ns, n);
      ReachableIsReached(ns, root, n);
    }
    forall n | Reached(EdgesOf(ns), DirectoriesOf(ns), root, n)
      ensures n in ns
    {
      ReachableIsReached(ns, root, n);
      ReachableIsInside(ns, root, n);
    }
  }

  lemma ReachableIsInside(ns: Namespace, root: nat, n: nat)
    requires TreeHealthy(ns, root) && Reachable(ns, root, n)
    ensures n in ns
  {
    hide LinksHealthy, SingleParents;
    var p :| Path(ns, root, p) && p[|p| - 1] == n;
    if |p| > 1 {
      assert HasChild(ns, p[|p| - 2], p[|p| - 2 + 1]);
      var k :| 0 <= k < |ns[p[|p| - 2]].entries| && ns[p[|p| - 2]].entries[k].inode == n;
      assert EntryHealthy(ns, root, ns[p[|p| - 2]].entries[k]);
    }
  }

  lemma NodeOfPassed(ns: Namespace, root: nat, n: nat)
    requires Listings(ns) && ChecksPass(ns, ns.Keys, root) && n in ns
    ensures EntriesHealthy(ns, root, ns[n]) && LinksHealthy(ns[n]) && Reachable(ns, root, n) && |References(ns, n)| <= 1
  {
    hide Reached, References, NamesUnique, Cyclic, EdgesOf, Reachable;
    assert NodeMatches(ns, root, ns[n].entries) && LinksMatch(ns, root, n);
    forall k | 0 <= k < |ns[n].entries|
      ensures EntryHealthy(ns, root, ns[n].entries[k])
    {
      assert EntryMatches(ns, root, ns[n].entries[k]);
    }
    ChildCounts(ns, root, ns[n].entries);
    if n == root {
      RootReachable(ns, root);
    } else {
      ReachableIsReached(ns, root, n);
      ReachableIsNamed(ns, root, n);
    }
  }

  lemma RootReachable(ns: Namespace, root: nat)
    ensures Reachable(ns, root, root)
  {
    assert Path(ns, root, [root]) && [root][|[root]| - 1] == root;
  }

  /** A namespace that passes every check is a healthy tree. */
  lemma PassedIsTree(ns: Namespace, root: nat)
    requires Listings(ns) && ChecksPass(ns, ns.Keys, root)
    ensures TreeHealthy(ns, root)
  {
    hide EntriesHealthy, LinksHealthy, References, Reachable, Reached, EdgesOf, LinksMatch, Cyclic, Listings;
    forall n | n in ns
      ensures EntriesHealthy(ns, root, ns[n]) && LinksHealthy(ns[n]) && Reachable(ns, root, n) && |References(ns, n)| <= 1
    {
      NodeOfPassed(ns, root, n);
    }
    forall p: nat, j: nat, q: nat, k: nat, c: nat | Refers(ns, p, j, c) && Refers(ns, q, k, c)
      ensures p == q && j == k
    {
      assert NodeMatches(ns, root, ns[p].entries);
      assert EntryMatches(ns, root, ns[p].entries[j]);
      AtMostOneReference(ns, c, p, j, q, k);
    }
  }
}
