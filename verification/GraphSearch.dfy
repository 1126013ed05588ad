/** The two graph searches of the offline checker (src/checker/consistency_checker.cpp): a three-colour
    depth-first search for directory cycles, and a breadth-first search from the root. Both work on any
    graph, however damaged the image it was read from. */
module GraphSearch {
  import opened Order

  type Edges = map<nat, seq<nat>>

  function Children(edges: Edges, n: nat): seq<nat> {
    if n in edges then edges[n] else []
  }

  /** An edge between two decoded directories. */
  predicate Edge(edges: Edges, dirs: set<nat>, u: nat, v: nat) {
    u in dirs && v in dirs && v in Children(edges, u)
  }

  ghost predicate Walk(edges: Edges, dirs: set<nat>, p: seq<nat>) {
    p != [] && forall k :: 0 <= k < |p| - 1 ==> Edge(edges, dirs, p[k], p[k + 1])
  }

  ghost predicate Cycle(edges: Edges, dirs: set<nat>, p: seq<nat>) {
    Walk(edges, dirs, p) && |p| >= 2 && p[0] == p[|p| - 1]
  }

  ghost predicate Cyclic(edges: Edges, dirs: set<nat>) {
    exists p :: Cycle(edges, dirs, p)
  }

  // ---- Depth-first search ----

  datatype Frame = Frame(node: nat, next: nat)

  datatype Back = Back(parent: nat, child: nat)

  /** The stack is a walk: each frame was pushed for the edge its predecessor looked at last. */
  ghost predicate StackIsWalk(edges: Edges, dirs: set<nat>, stack: seq<Frame>) {
    && (forall k :: 0 <= k < |stack| ==> stack[k].node in dirs && stack[k].next <= |Children(edges, stack[k].node)|)
    && (forall k :: 0 <= k < |stack| - 1 ==>
          0 < stack[k].next && Children(edges, stack[k].node)[stack[k].next - 1] == stack[k + 1].node)
    && (forall j, k :: 0 <= j < k < |stack| ==> stack[j].node != stack[k].node)
  }

  /** How many edges of a frame are finished: the last one only once its child is. */
  function Finished(stack: seq<Frame>, k: nat): int
    requires k < |stack|
  {
    if k == |stack| - 1 then stack[k].next else stack[k].next - 1
  }

  /** The directories behind the finished edges of every frame are done. */
  ghost predicate ChildrenDone(edges: Edges, dirs: set<nat>, stack: seq<Frame>, done: set<nat>) {
    forall k, j ::
      (&& 0 <= k < |stack| && 0 <= j < Finished(stack, k) && j < |Children(edges, stack[k].node)|
       && Children(edges, stack[k].node)[j] in dirs)
      ==> Children(edges, stack[k].node)[j] in done
  }

  /** Every child directory of a finished node was finished earlier. */
  ghost predicate Ranked(edges: Edges, dirs: set<nat>, order: seq<nat>) {
    && (forall j, k :: 0 <= j < k < |order| ==> order[j] != order[k])
    && forall a, v :: 0 <= a < |order| && Edge(edges, dirs, order[a], v) ==> v in order[..a]
  }

  ghost predicate Colours(stack: seq<Frame>, active: set<nat>, done: set<nat>, order: seq<nat>) {
    && (forall n :: n in active <==> exists k :: 0 <= k < |stack| && stack[k].node == n)
    && (forall n :: n in done <==> n in order)
    && active !! done
  }

  /** The frames from `k` on, as a walk. */
  function Nodes(stack: seq<Frame>, k: nat): (p: seq<nat>)
    requires k <= |stack|
    decreases |stack| - k
    ensures |p| == |stack| - k && forall j :: 0 <= j < |p| ==> p[j] == stack[k + j].node
  {
    if k == |stack| then [] else [stack[k].node] + Nodes(stack, k + 1)
  }

  /** An edge back into the stack closes a cycle. */
  lemma BackEdgeIsCycle(edges: Edges, dirs: set<nat>, stack: seq<Frame>, child: nat, k: nat)
    requires StackIsWalk(edges, dirs, stack) && k < |stack| && stack[k].node == child
    requires Edge(edges, dirs, stack[|stack| - 1].node, child)
    ensures Cyclic(edges, dirs)
  {
    var p := Nodes(stack, k) + [child];
    forall j | 0 <= j < |p| - 1
      ensures Edge(edges, dirs, p[j], p[j + 1])
    {
      if j < |p| - 2 {
        assert Children(edges, stack[k + j].node)[stack[k + j].next - 1] == stack[k + j + 1].node;
      }
    }
    assert Cycle(edges, dirs, p);
  }

  /** Along a walk through finished nodes the finishing order goes down, so no walk returns. */
  lemma {:induction false} WalksDescend(edges: Edges, dirs: set<nat>, order: seq<nat>, p: seq<nat>, a: nat) returns (b: nat)
    requires Ranked(edges, dirs, order) && Walk(edges, dirs, p) && a < |order| && order[a] == p[0]
    ensures b <= a && order[b] == p[|p| - 1] && (|p| >= 2 ==> b < a)
    decreases |p|
  {
    if |p| == 1 {
      b := a;
    } else {
      assert Edge(edges, dirs, p[0], p[1]);
      var c :| 0 <= c < a && order[c] == p[1];
      forall k | 0 <= k < |p[1..]| - 1
        ensures Edge(edges, dirs, p[1..][k], p[1..][k + 1])
      {
        assert Edge(edges, dirs, p[k + 1], p[k + 1 + 1]);
      }
      b := WalksDescend(edges, dirs, order, p[1..], c);
    }
  }

  lemma RankedIsAcyclic(edges: Edges, dirs: set<nat>, order: seq<nat>)
    requires Ranked(edges, dirs, order) && forall n :: n in dirs ==> n in order
    ensures !Cyclic(edges, dirs)
  {
    if Cyclic(edges, dirs) {
      var p :| Cycle(edges, dirs, p);
      assert Edge(edges, dirs, p[0], p[0 + 1]);
      var a :| 0 <= a < |order| && order[a] == p[0];
      var b := WalksDescend(edges, dirs, order, p, a);
    }
  }

  /** Popping a frame whose edges are all looked at finishes its node. */
  lemma PopKeeps(edges: Edges, dirs: set<nat>, stack: seq<Frame>, done: set<nat>, order: seq<nat>)
    requires stack != [] && StackIsWalk(edges, dirs, stack) && ChildrenDone(edges, dirs, stack, done)
    requires Ranked(edges, dirs, order) && (forall n :: n in done <==> n in order)
    requires var top := stack[|stack| - 1]; top.next >= |Children(edges, top.node)| && top.node !in done
    ensures var n := stack[|stack| - 1].node;
      && Ranked(edges, dirs, order + [n]) && ChildrenDone(edges, dirs, stack[..|stack| - 1], done + {n})
  {
    var top := stack[|stack| - 1];
    var rest, more := stack[..|stack| - 1], order + [top.node];
    forall a, v | 0 <= a < |more| && Edge(edges, dirs, more[a], v)
      ensures v in more[..a]
    {
      if a == |order| {
        var j :| 0 <= j < |Children(edges, top.node)| && Children(edges, top.node)[j] == v;
        assert Finished(stack, |stack| - 1) == top.next;
        assert more[..a] == order;
      } else {
        assert more[..a] == order[..a];
      }
    }
    forall k, j | 0 <= k < |rest| && 0 <= j < Finished(rest, k) && j < |Children(edges, rest[k].node)|
      && Children(edges, rest[k].node)[j] in dirs
      ensures Children(edges, rest[k].node)[j] in done + {top.node}
    {
      if j == stack[k].next - 1 {
        assert k == |stack| - 2;
      } else {
        assert j < Finished(stack, k);
      }
    }
  }

  /** Looking at one more edge whose child is done, or is no directory. */
  lemma StepKeeps(edges: Edges, dirs: set<nat>, stack: seq<Frame>, done: set<nat>)
    requires stack != [] && StackIsWalk(edges, dirs, stack) && ChildrenDone(edges, dirs, stack, done)
    requires var top := stack[|stack| - 1];
      && top.next < |Children(edges, top.node)|
      && (Children(edges, top.node)[top.next] in dirs ==> Children(edges, top.node)[top.next] in done)
    ensures ChildrenDone(edges, dirs, Stepped(stack), done)
  {
    var next := Stepped(stack);
    forall k, j | 0 <= k < |next| && 0 <= j < Finished(next, k) && j < |Children(edges, next[k].node)|
      && Children(edges, next[k].node)[j] in dirs
      ensures Children(edges, next[k].node)[j] in done
    {
      if k < |stack| - 1 || j < stack[k].next {
        assert j < Finished(stack, k);
      }
    }
  }

  function Stepped(stack: seq<Frame>): (r: seq<Frame>)
    requires stack != []
    ensures |r| == |stack| && r[|r| - 1] == Frame(stack[|stack| - 1].node, stack[|stack| - 1].next + 1)
  {
    stack[|stack| - 1 := stack[|stack| - 1].(next := stack[|stack| - 1].next + 1)]
  }

  lemma SteppedIsWalk(edges: Edges, dirs: set<nat>, stack: seq<Frame>)
    requires stack != [] && StackIsWalk(edges, dirs, stack)
    requires stack[|stack| - 1].next < |Children(edges, stack[|stack| - 1].node)|
    ensures StackIsWalk(edges, dirs, Stepped(stack))
  {}

  lemma PushIsWalk(edges: Edges, dirs: set<nat>, stack: seq<Frame>, child: nat)
    requires stack != [] && StackIsWalk(edges, dirs, stack) && child in dirs
    requires stack[|stack| - 1].next < |Children(edges, stack[|stack| - 1].node)|
    requires Children(edges, stack[|stack| - 1].node)[stack[|stack| - 1].next] == child
    requires forall k :: 0 <= k < |stack| ==> stack[k].node != child
    ensures StackIsWalk(edges, dirs, Stepped(stack) + [Frame(child, 0)])
  {
    SteppedIsWalk(edges, dirs, stack);
    AppendFrame(edges, dirs, Stepped(stack), child);
  }

  lemma AppendFrame(edges: Edges, dirs: set<nat>, stack: seq<Frame>, child: nat)
    requires stack != [] && StackIsWalk(edges, dirs, stack) && child in dirs
    requires 0 < stack[|stack| - 1].next && Children(edges, stack[|stack| - 1].node)[stack[|stack| - 1].next - 1] == child
    requires forall k :: 0 <= k < |stack| ==> stack[k].node != child
    ensures StackIsWalk(edges, dirs, stack + [Frame(child, 0)])
  {
    hide Children;
  }

  lemma PushKeeps(edges: Edges, dirs: set<nat>, stack: seq<Frame>, child: nat, done: set<nat>)
    requires stack != [] && ChildrenDone(edges, dirs, stack, done)
    ensures ChildrenDone(edges, dirs, Stepped(stack) + [Frame(child, 0)], done)
  {
    hide Children;
    var next := Stepped(stack) + [Frame(child, 0)];
    forall k, j | 0 <= k < |next| && 0 <= j < Finished(next, k) && j < |Children(edges, next[k].node)|
      && Children(edges, next[k].node)[j] in dirs
      ensures Children(edges, next[k].node)[j] in done
    {
      assert k < |stack| && j < Finished(stack, k);
    }
  }

  /** All cycle reports of the search, each an edge back into the active part. */
  method FindCycles(edges: Edges, dirs: set<nat>) returns (found: seq<Back>)
    ensures found == [] <==> !Cyclic(edges, dirs)
  {
    hide Cyclic, Edge;
    var done: set<nat> := {};
    ghost var order := [];
    found := [];
    var starts := Ascending(dirs);
    for s := 0 to |starts|
      invariant done <= dirs && forall k :: 0 <= k < s ==> starts[k] in done
      invariant forall n :: n in done <==> n in order
      invariant found == [] ==> Ranked(edges, dirs, order)
      invariant found != [] ==> Cyclic(edges, dirs)
    {
      if starts[s] !in done {
        var more;
        more, done, order := SearchFrom(edges, dirs, starts[s], done, order, found == []);
        found := found + more;
      }
    }
    if found == [] {
      assert forall n :: n in dirs ==> n in starts;
      RankedIsAcyclic(edges, dirs, order);
    }
  }

  /** One tree of the search. */
  method SearchFrom(edges: Edges, dirs: set<nat>, start: nat, finished: set<nat>, ghost order0: seq<nat>, ghost clean: bool)
    returns (found: seq<Back>, done: set<nat>, ghost order: seq<nat>)
    requires start in dirs && start !in finished && finished <= dirs && forall n :: n in finished <==> n in order0
    requires clean ==> Ranked(edges, dirs, order0)
    ensures finished <= done <= dirs && start in done && forall n :: n in done <==> n in order
    ensures clean && found == [] ==> Ranked(edges, dirs, order)
    ensures found != [] ==> Cyclic(edges, dirs)
  {
    hide Cyclic, Edge, StackIsWalk, ChildrenDone, Ranked, Colours, Stepped, Unseen;
    found, done, order := [], finished, order0;
    var stack := [Frame(start, 0)];
    var active := {start};
    StartIsWalk(edges, dirs, start, done);
    StartColours(start, done, order);
    while stack != []
      invariant StackIsWalk(edges, dirs, stack) && Colours(stack, active, done, order)
      invariant finished <= done <= dirs && active <= dirs && (start in done || start in active)
      invariant clean && found == [] ==> Ranked(edges, dirs, order) && ChildrenDone(edges, dirs, stack, done)
      invariant found != [] ==> Cyclic(edges, dirs)
      decreases Unseen(dirs, done, active), |stack|, if stack == [] then 0 else Left(edges, stack[|stack| - 1])
    {
      var top := stack[|stack| - 1];
      TopIsFrame(edges, dirs, stack);
      FinishedColours(stack, active, done, order);
      if top.next >= |Children(edges, top.node)| {
        PopColours(edges, dirs, stack, active, done, order);
        if clean && found == [] {
          PopKeeps(edges, dirs, stack, done, order);
        }
        PopUnseen(dirs, done, active, top.node);
        done, active := done + {top.node}, active - {top.node};
        order := order + [top.node];
        stack := stack[..|stack| - 1];
      } else {
        var child := Children(edges, top.node)[top.next];
        SteppedIsWalk(edges, dirs, stack);
        StepColours(stack, active, done, order);
        if child in dirs && child in active {
          ghost var k := ActiveFrame(stack, active, done, order, child);
          EdgeIs(edges, dirs, top.node, top.next);
          BackEdgeIsCycle(edges, dirs, stack, child, k);
          found := found + [Back(top.node, child)];
          stack := Stepped(stack);
        } else if child in dirs && child !in done {
          PushColours(stack, active, done, order, child);
          PushIsWalk(edges, dirs, stack, child);
          if clean && found == [] {
            PushKeeps(edges, dirs, stack, child, done);
          }
          UnseenShrinks(dirs, done, active, child);
          active := active + {child};
          stack := Stepped(stack) + [Frame(child, 0)];
        } else {
          if clean && found == [] {
            StepKeeps(edges, dirs, stack, done);
          }
          stack := Stepped(stack);
        }
      }
    }
    FinishedColours(stack, active, done, order);
  }

  ghost function Unseen(dirs: set<nat>, done: set<nat>, active: set<nat>): nat {
    |dirs - done - active|
  }

  function Left(edges: Edges, f: Frame): nat {
    if f.next < |Children(edges, f.node)| then |Children(edges, f.node)| - f.next else 0
  }

  lemma StartIsWalk(edges: Edges, dirs: set<nat>, start: nat, done: set<nat>)
    requires start in dirs
    ensures StackIsWalk(edges, dirs, [Frame(start, 0)]) && ChildrenDone(edges, dirs, [Frame(start, 0)], done)
  {}

  lemma TopIsFrame(edges: Edges, dirs: set<nat>, stack: seq<Frame>)
    requires StackIsWalk(edges, dirs, stack) && stack != []
    ensures stack[|stack| - 1].node in dirs && StackIsWalk(edges, dirs, stack[..|stack| - 1])
    ensures forall k :: 0 <= k < |stack| - 1 ==> stack[k].node != stack[|stack| - 1].node
  {}

  lemma EdgeIs(edges: Edges, dirs: set<nat>, u: nat, j: nat)
    requires u in dirs && j < |Children(edges, u)| && Children(edges, u)[j] in dirs
    ensures Edge(edges, dirs, u, Children(edges, u)[j])
  {}

  lemma StartColours(start: nat, done: set<nat>, order: seq<nat>)
    requires start !in done && forall n :: n in done <==> n in order
    ensures Colours([Frame(start, 0)], {start}, done, order)
  {
    assert [Frame(start, 0)][0].node == start;
  }

  lemma ActiveFrame(stack: seq<Frame>, active: set<nat>, done: set<nat>, order: seq<nat>, n: nat) returns (k: nat)
    requires Colours(stack, active, done, order) && n in active
    ensures k < |stack| && stack[k].node == n
  {
    k :| 0 <= k < |stack| && stack[k].node == n;
  }

  lemma FinishedColours(stack: seq<Frame>, active: set<nat>, done: set<nat>, order: seq<nat>)
    requires Colours(stack, active, done, order)
    ensures forall n :: n in done <==> n in order
    ensures stack == [] ==> active == {}
  {}

  lemma PopColours(edges: Edges, dirs: set<nat>, stack: seq<Frame>, active: set<nat>, done: set<nat>, order: seq<nat>)
    requires stack != [] && Colours(stack, active, done, order)
    requires forall k :: 0 <= k < |stack| - 1 ==> stack[k].node != stack[|stack| - 1].node
    ensures var n := stack[|stack| - 1].node;
      n in active && n !in done && Colours(stack[..|stack| - 1], active - {n}, done + {n}, order + [n])
  {
    var n, rest := stack[|stack| - 1].node, stack[..|stack| - 1];
    forall m | m in active - {n}
      ensures exists k :: 0 <= k < |rest| && rest[k].node == m
    {
      var k :| 0 <= k < |stack| && stack[k].node == m;
      assert rest[k].node == m;
    }
  }

  lemma StepColours(stack: seq<Frame>, active: set<nat>, done: set<nat>, order: seq<nat>)
    requires stack != [] && Colours(stack, active, done, order)
    ensures Colours(Stepped(stack), active, done, order)
  {
    var next := Stepped(stack);
    forall n | n in active
      ensures exists k :: 0 <= k < |next| && next[k].node == n
    {
      var k :| 0 <= k < |stack| && stack[k].node == n;
      assert next[k].node == n;
    }
  }

  lemma PushColours(stack: seq<Frame>, active: set<nat>, done: set<nat>, order: seq<nat>, child: nat)
    requires stack != [] && Colours(stack, active, done, order) && child !in active && child !in done
    ensures Colours(Stepped(stack) + [Frame(child, 0)], active + {child}, done, order)
    ensures forall k :: 0 <= k < |stack| ==> stack[k].node != child
  {
    StepColours(stack, active, done, order);
    var next := Stepped(stack) + [Frame(child, 0)];
    forall n | n in active + {child}
      ensures exists k :: 0 <= k < |next| && next[k].node == n
    {
      if n == child {
        assert next[|stack|].node == n;
      } else {
        var k :| 0 <= k < |Stepped(stack)| && Stepped(stack)[k].node == n;
        assert next[k].node == n;
      }
    }
  }

  lemma UnseenShrinks(dirs: set<nat>, done: set<nat>, active: set<nat>, child: nat)
    requires child in dirs && child !in done && child !in active
    ensures Unseen(dirs, done, active + {child}) < Unseen(dirs, done, active)
  {
    assert dirs - done - (active + {child}) == (dirs - done - active) - {child};
  }

  lemma PopUnseen(dirs: set<nat>, done: set<nat>, active: set<nat>, n: nat)
    requires n in active
    ensures Unseen(dirs, done + {n}, active - {n}) == Unseen(dirs, done, active)
  {
    assert dirs - (done + {n}) - (active - {n}) == dirs - done - active;
  }

  // ---- Breadth-first search ----

  /** A chain of entries from the root; only directories have entries to follow. */
  ghost predicate Chain(edges: Edges, dirs: set<nat>, root: nat, p: seq<nat>) {
    && p != [] && p[0] == root
    && forall k :: 0 <= k < |p| - 1 ==> p[k] in dirs && p[k + 1] in Children(edges, p[k])
  }

  ghost predicate Reached(edges: Edges, dirs: set<nat>, root: nat, n: nat) {
    exists p :: Chain(edges, dirs, root, p) && p[|p| - 1] == n
  }

  lemma ReachedNext(edges: Edges, dirs: set<nat>, root: nat, u: nat, v: nat)
    requires Reached(edges, dirs, root, u) && u in dirs && v in Children(edges, u)
    ensures Reached(edges, dirs, root, v)
  {
    var p :| Chain(edges, dirs, root, p) && p[|p| - 1] == u;
    assert Chain(edges, dirs, root, p + [v]);
    assert (p + [v])[|p|] == v;
  }

  /** A set that holds the root and is closed under entries holds everything a chain leads to. */
  lemma {:induction false} ClosedHolds(edges: Edges, dirs: set<nat>, root: nat, seen: set<nat>, p: seq<nat>)
    requires root in seen && Chain(edges, dirs, root, p)
    requires forall u, v :: u in seen && u in dirs && v in Children(edges, u) ==> v in seen
    ensures p[|p| - 1] in seen
    decreases |p|
  {
    if |p| > 1 {
      var q := p[..|p| - 1];
      assert Chain(edges, dirs, root, q);
      ClosedHolds(edges, dirs, root, seen, q);
      assert p[|p| - 2] in dirs && p[|p| - 2 + 1] in Children(edges, p[|p| - 2]);
    }
  }

  function AllChildren(edges: Edges): set<nat> {
    set n, k | n in edges && 0 <= k < |edges[n]| :: edges[n][k]
  }

  /** The set of everything reachable from the root, exactly. */
  method Reach(edges: Edges, dirs: set<nat>, root: nat) returns (seen: set<nat>)
    ensures forall n :: n in seen <==> Reached(edges, dirs, root, n)
  {
    hide Reached, Children;
    seen := {root};
    var queue := [root];
    RootIsReached(edges, dirs, root);
    ghost var all := AllChildren(edges) + {root};
    while queue != []
      invariant root in seen && seen <= all
      invariant forall n :: n in seen ==> Reached(edges, dirs, root, n)
      invariant forall n :: n in queue ==> n in seen
      invariant forall u, v :: u in seen && u !in queue && u in dirs && v in Children(edges, u) ==> v in seen
      decreases |all - seen|, |queue|
    {
      var n := queue[0];
      ghost var was, before := seen, queue;
      queue := queue[1..];
      if n in dirs {
        var children := Children(edges, n);
        ChildrenAreKnown(edges, n);
        for j := 0 to |children|
          invariant was <= seen <= all && (seen == was ==> queue == before[1..])
          invariant forall m :: m in seen ==> Reached(edges, dirs, root, m)
          invariant forall m :: m in queue ==> m in seen
          invariant forall m :: m in before[1..] ==> m in queue
          invariant forall m :: m in seen && m !in was ==> m in queue
          invariant forall i :: 0 <= i < j ==> children[i] in seen
        {
          if children[j] !in seen {
            ReachedNext(edges, dirs, root, n, children[j]);
            seen := seen + {children[j]};
            queue := queue + [children[j]];
          }
        }
      }
      forall u, v | u in seen && u !in queue && u in dirs && v in Children(edges, u)
        ensures v in seen
      {
        if u != n {
          assert u in was && u !in before[1..] && u !in before;
        }
      }
      if seen != was {
        SeenGrows(all, was, seen);
      }
    }
    forall n | Reached(edges, dirs, root, n)
      ensures n in seen
    {
      ReachedIsHeld(edges, dirs, root, seen, n);
    }
  }

  lemma RootIsReached(edges: Edges, dirs: set<nat>, root: nat)
    ensures Reached(edges, dirs, root, root)
  {
    assert Chain(edges, dirs, root, [root]);
    assert [root][|[root]| - 1] == root;
  }

  lemma ChildrenAreKnown(edges: Edges, n: nat)
    ensures forall j :: 0 <= j < |Children(edges, n)| ==> Children(edges, n)[j] in AllChildren(edges)
  {}

  lemma SeenGrows(all: set<nat>, was: set<nat>, seen: set<nat>)
    requires was < seen <= all
    ensures |all - seen| < |all - was|
  {
    assert all - seen < all - was by {
      var x :| x in seen && x !in was;
      assert x in all - was && x !in all - seen;
    }
    ProperSubset(all - seen, all - was);
  }

  lemma ProperSubset(a: set<nat>, b: set<nat>)
    requires a < b
    ensures |a| < |b|
  {
    assert b == a + (b - a);
    assert |b| == |a| + |b - a|;
    assert b - a != {};
  }

  lemma ReachedIsHeld(edges: Edges, dirs: set<nat>, root: nat, seen: set<nat>, n: nat)
    requires Reached(edges, dirs, root, n) && root in seen
    requires forall u, v :: u in seen && u in dirs && v in Children(edges, u) ==> v in seen
    ensures n in seen
  {
    var p :| Chain(edges, dirs, root, p) && p[|p| - 1] == n;
    ClosedHolds(edges, dirs, root, seen, p);
  }
}
