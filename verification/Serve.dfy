/** The recursive start of a node graph, serve.go: which nodes are started, for a fixed graph
    and filters that depend on the node only. Changes of the graph while serving and what a
    started node does are not part of this model. */
module Serve {
  import opened Prelude
  import opened Graph

  datatype ServeConfig = ServeConfig(g: PushGraph, nodeTreeFilter: Option<Node -> bool>, nodeFilter: Option<Node -> bool>) {
    predicate InTree(n: Node) { nodeTreeFilter.None? || nodeTreeFilter.value(n) }

    predicate Accepted(n: Node) { nodeFilter.None? || nodeFilter.value(n) }

    /** Nobody pushes to nil: serving a nil node panics. */
    ghost predicate Valid() { g.WellFormed() && forall n :: n in g.Nodes() ==> !g.PushesNil(n) }

    /** From a node whose tree is skipped nothing is visited. */
    ghost function Next(): map<Node, set<Node>> {
      map n | n in g.packetsTo :: if InTree(n) then (set m | m in g.packetsTo && g.Pushes(n, m)) else {}
    }
  }

  /** Between two states of the visited set: only reachable nodes were visited, the successors of
      those whose tree is not skipped too, and exactly the accepted ones were started, once. */
  ghost predicate Served(c: ServeConfig, roots: seq<Node>, v0: set<Node>, v1: set<Node>, started: seq<Node>) {
    && v0 <= v1 <= c.g.Nodes()
    && Distinct(started)
    && (forall n :: n in started <==> n in v1 - v0 && c.InTree(n) && c.Accepted(n))
    && (forall n :: n in v1 - v0 ==> Reachable(c.Next(), roots, n))
    && (forall n :: n in v1 - v0 && n in c.Next() ==> c.Next()[n] <= v1)
    && (forall n :: n in roots ==> n in v1)
  }

  /** As Served for the root n alone, but n is not started and its successors not all visited. */
  ghost predicate BelowServed(c: ServeConfig, n: Node, v0: set<Node>, v1: set<Node>, started: seq<Node>) {
    && v0 + {n} <= v1 <= c.g.Nodes()
    && Distinct(started)
    && (forall m :: m in started <==> m in v1 - v0 && m != n && c.InTree(m) && c.Accepted(m))
    && (forall m :: m in v1 - v0 ==> Reachable(c.Next(), [n], m))
    && (forall m :: m in v1 - v0 && m != n && m in c.Next() ==> c.Next()[m] <= v1)
  }

  ghost predicate Covers(c: ServeConfig, roots: seq<Node>, others: seq<Node>) {
    forall x :: Reachable(c.Next(), others, x) ==> Reachable(c.Next(), roots, x)
  }

  lemma ServedThen(c: ServeConfig, roots: seq<Node>, done: seq<Node>, n: Node,
                   v0: set<Node>, v1: set<Node>, v2: set<Node>, a: seq<Node>, b: seq<Node>)
    requires Served(c, done, v0, v1, a) && Served(c, [n], v1, v2, b)
    requires forall x :: x in done ==> x in roots
    ensures Served(c, done + [n], v0, v2, a + b)
  {
    assert v2 - v0 == (v1 - v0) + (v2 - v1);
    RootCovers(c, done + [n], done);
    RootCovers(c, done + [n], [n]);
    hide Reachable, IsPath;
    DistinctConcat(a, b);
  }

  lemma DistinctConcat<T>(a: seq<T>, b: seq<T>)
    requires Distinct(a) && Distinct(b) && forall x :: x in a ==> x !in b
    ensures Distinct(a + b)
  {
    forall i, j | 0 <= i < j < |a + b| ensures (a + b)[i] != (a + b)[j] {
      if i < |a| <= j {
        assert a[i] in a && b[j - |a|] in b;
      }
    }
  }

  /** All of n's destinations visited: n is served once it is started or skipped. */
  lemma Finish(c: ServeConfig, n: Node, v0: set<Node>, v1: set<Node>, below: seq<Node>)
    requires c.InTree(n) && n !in v0 && BelowServed(c, n, v0, v1, below)
    requires forall m :: c.g.Pushes(n, m) ==> m in v1
    ensures Served(c, [n], v0, v1, if c.Accepted(n) then below + [n] else below)
  {
    hide Reachable, IsPath;
    DistinctConcat(below, [n]);
  }

  /** A skipped tree. */
  lemma Skipped(c: ServeConfig, n: Node, v0: set<Node>)
    requires n !in v0 && v0 + {n} <= c.g.Nodes()
    ensures !c.InTree(n) ==> Served(c, [n], v0, v0 + {n}, [])
    ensures BelowServed(c, n, v0, v0 + {n}, [])
  {
    assert v0 + {n} - v0 == {n};
    RootReachable(c.Next(), [n], n);
    hide Reachable, IsPath;
  }

  lemma RootCovers(c: ServeConfig, roots: seq<Node>, some: seq<Node>)
    requires forall n :: n in some ==> n in roots
    ensures Covers(c, roots, some)
  {
    forall x | Reachable(c.Next(), some, x) ensures Reachable(c.Next(), roots, x) {
      var p :| IsPath(c.Next(), p) && p[0] in some && p[|p| - 1] == x;
      assert p[0] in roots;
    }
  }

  lemma BelowThen(c: ServeConfig, n: Node, m: Node, v0: set<Node>, v1: set<Node>, v2: set<Node>, a: seq<Node>, b: seq<Node>)
    requires c.Valid() && c.InTree(n) && n in c.g.Nodes() && m in c.g.Nodes() && c.g.Pushes(n, m)
    requires n !in v0 && BelowServed(c, n, v0, v1, a) && Served(c, [m], v1, v2, b)
    ensures BelowServed(c, n, v0, v2, a + b) && m in v2
  {
    assert v2 - v0 == (v1 - v0) + (v2 - v1);
    forall x | Reachable(c.Next(), [m], x) ensures Reachable(c.Next(), [n], x) {
      ReachableVia(c.Next(), [n], n, m, x);
    }
    hide Reachable, IsPath;
    DistinctConcat(a, b);
  }

  lemma NothingServed(c: ServeConfig, v: set<Node>)
    requires v <= c.g.Nodes()
    ensures Served(c, [], v, v, [])
  {
  }

  lemma AlreadyServed(c: ServeConfig, n: Node, v: set<Node>)
    requires v <= c.g.Nodes() && n in v
    ensures Served(c, [n], v, v, [])
  {
  }

  lemma ServedWithin(c: ServeConfig, roots: seq<Node>, v0: set<Node>, v1: set<Node>, started: seq<Node>)
    requires Served(c, roots, v0, v1, started)
    ensures v0 <= v1 <= c.g.Nodes()
  {
  }

  lemma BelowWithin(c: ServeConfig, n: Node, v0: set<Node>, v1: set<Node>, started: seq<Node>)
    requires BelowServed(c, n, v0, v1, started)
    ensures v0 + {n} <= v1 <= c.g.Nodes()
  {
  }

  lemma Destination(c: ServeConfig, n: Node, m: Node)
    requires c.Valid() && n in c.g.Nodes() && c.g.Pushes(n, m)
    ensures m in c.g.Nodes()
  {
  }

  lemma Appended<T>(s0: seq<T>, mine: seq<T>, s1: seq<T>, s2: seq<T>)
    requires s1 == s0 + mine && s1 <= s2
    ensures s2 == s0 + (mine + s2[|s1|..])
  {
  }

  class Server {
    const c: ServeConfig
    var dstAlreadyVisited: set<Node>
    /** The nodes whose Serve goroutine was started, in order. */
    var started: seq<Node>

    constructor (c: ServeConfig)
      ensures this.c == c && dstAlreadyVisited == {} && started == []
    {
      this.c, dstAlreadyVisited, started := c, {}, [];
    }

    method ServeAll(nodes: seq<Node>)
      requires c.Valid() && dstAlreadyVisited <= c.g.Nodes() && forall n :: n in nodes ==> n in c.g.Nodes()
      modifies this
      ensures old(started) <= started
      ensures Served(c, nodes, old(dstAlreadyVisited), dstAlreadyVisited, started[|old(started)|..])
      decreases c.g.Nodes() - dstAlreadyVisited, 1
    {
      hide Reachable, IsPath, Served;
      ghost var v0, s0, mine := dstAlreadyVisited, started, [];
      NothingServed(c, v0);
      assert nodes[..0] == [] && started == s0 + mine;
      for i := 0 to |nodes|
        invariant started == s0 + mine && v0 <= dstAlreadyVisited <= c.g.Nodes()
        invariant Served(c, nodes[..i], v0, dstAlreadyVisited, mine)
      {
        ghost var v1, s1 := dstAlreadyVisited, started;
        assert nodes[i] in nodes;
        ServeOne(nodes[i]);
        ghost var more := started[|s1|..];
        Appended(s0, mine, s1, started);
        ServedWithin(c, [nodes[i]], v1, dstAlreadyVisited, more);
        assert nodes[..i + 1] == nodes[..i] + [nodes[i]];
        ServedThen(c, nodes, nodes[..i], nodes[i], v0, v1, dstAlreadyVisited, mine, more);
        mine := mine + more;
      }
      assert nodes[..|nodes|] == nodes && started[|s0|..] == mine;
    }

    /** The function literal of the loop. */
    method ServeOne(n: Node)
      requires c.Valid() && dstAlreadyVisited <= c.g.Nodes() && n in c.g.Nodes()
      modifies this
      ensures old(started) <= started
      ensures Served(c, [n], old(dstAlreadyVisited), dstAlreadyVisited, started[|old(started)|..])
      decreases c.g.Nodes() - dstAlreadyVisited, 0
    {
      ghost var v0, s0 := dstAlreadyVisited, started;
      hide Served, BelowServed, Reachable, IsPath;
      if n in dstAlreadyVisited {
        AlreadyServed(c, n, v0);
        assert started[|s0|..] == [];
        return;
      }
      Skipped(c, n, v0);
      dstAlreadyVisited := dstAlreadyVisited + {n};
      if !c.InTree(n) {
        assert started[|s0|..] == [];
        return;
      }
      assert started == s0 + [];
      ghost var below := ServeDestinations(n, c.g.PacketsOf(n), v0, s0, []);
      below := ServeDestinations(n, c.g.FramesOf(n), v0, s0, below);
      Finish(c, n, v0, dstAlreadyVisited, below);
      if !c.Accepted(n) {
        assert started[|s0|..] == below;
        return;
      }
      started := started + [n];
      assert started == s0 + (below + [n]) && started[|s0|..] == below + [n];
    }

    /** The loops over the destinations of n. */
    method ServeDestinations(n: Node, dests: seq<Option<Node>>, ghost v0: set<Node>, ghost s0: seq<Node>, ghost below: seq<Node>)
      returns (ghost below': seq<Node>)
      requires c.Valid() && c.InTree(n) && n in c.g.Nodes() && n !in v0
      requires forall d :: d in dests ==> d in c.g.PacketsOf(n) || d in c.g.FramesOf(n)
      requires started == s0 + below && BelowServed(c, n, v0, dstAlreadyVisited, below)
      modifies this
      ensures started == s0 + below' && BelowServed(c, n, v0, dstAlreadyVisited, below')
      ensures old(dstAlreadyVisited) <= dstAlreadyVisited
      ensures forall m :: Some(m) in dests ==> m in dstAlreadyVisited
      decreases c.g.Nodes() - dstAlreadyVisited, 2
    {
      hide Reachable, IsPath, Served, BelowServed;
      below' := below;
      for j := 0 to |dests|
        invariant started == s0 + below' && BelowServed(c, n, v0, dstAlreadyVisited, below')
        invariant old(dstAlreadyVisited) <= dstAlreadyVisited
        invariant forall i :: 0 <= i < j && dests[i].Some? ==> dests[i].value in dstAlreadyVisited
      {
        assert dests[j] in dests && !c.g.PushesNil(n);
        var m := dests[j].value;
        ghost var v1, s1 := dstAlreadyVisited, started;
        BelowWithin(c, n, v0, v1, below');
        Destination(c, n, m);
        ServeAll([m]);
        ghost var more := started[|s1|..];
        Appended(s0, below', s1, started);
        ServedWithin(c, [m], v1, dstAlreadyVisited, more);
        BelowThen(c, n, m, v0, v1, dstAlreadyVisited, below', more);
        below' := below' + more;
      }
      forall m | Some(m) in dests ensures m in dstAlreadyVisited {
        var i :| 0 <= i < |dests| && dests[i] == Some(m);
      }
    }
  }

  /** A path all of whose nodes, the last included, the tree filter accepts. */
  ghost predicate AcceptedPath(c: ServeConfig, p: seq<Node>) {
    && IsPath(c.g.Next(), p)
    && (c.nodeTreeFilter.Some? ==> forall i :: 0 <= i < |p| ==> c.nodeTreeFilter.value(p[i]))
  }

  lemma AcceptedPathExactly(c: ServeConfig, roots: seq<Node>, n: Node)
    ensures (Reachable(c.Next(), roots, n) && c.InTree(n)) <==>
      exists p :: AcceptedPath(c, p) && p[0] in roots && p[|p| - 1] == n
  {
    if Reachable(c.Next(), roots, n) && c.InTree(n) {
      var p :| IsPath(c.Next(), p) && p[0] in roots && p[|p| - 1] == n;
      forall i | 0 <= i < |p| ensures c.InTree(p[i]) {
        if i < |p| - 1 { assert p[i + 1] in c.Next()[p[i]]; }
      }
      forall i | 0 <= i < |p| - 1 ensures p[i] in c.g.Next() && p[i + 1] in c.g.Next()[p[i]] {
        assert p[i + 1] in c.Next()[p[i]];
      }
      assert AcceptedPath(c, p);
    }
    if p :| AcceptedPath(c, p) && p[0] in roots && p[|p| - 1] == n {
      forall i | 0 <= i < |p| - 1 ensures p[i] in c.Next() && p[i + 1] in c.Next()[p[i]] {
        assert p[i + 1] in c.g.Next()[p[i]];
      }
      assert IsPath(c.Next(), p);
    }
  }

  /** Serve starts each node at most once, and exactly the nodes NodeFilter accepts that can be
      reached through nodes all accepted by NodeTreeFilter. */
  method Serve(c: ServeConfig, nodes: seq<Node>) returns (started: seq<Node>)
    requires c.Valid() && forall n :: n in nodes ==> n in c.g.Nodes()
    ensures Distinct(started)
    ensures c.nodeTreeFilter.Some? ==> forall n :: n in started ==> c.nodeTreeFilter.value(n)
    ensures forall n :: n in started <==>
      && (c.nodeFilter.Some? ==> c.nodeFilter.value(n))
      && exists p :: AcceptedPath(c, p) && p[0] in nodes && p[|p| - 1] == n
  {
    var s := new Server(c);
    s.ServeAll(nodes);
    started := s.started;
    assert s.started[0..] == started;
    ghost var v := s.dstAlreadyVisited;
    assert v - {} == v;
    forall n ensures n in started <==>
      && (c.nodeFilter.Some? ==> c.nodeFilter.value(n))
      && exists p :: AcceptedPath(c, p) && p[0] in nodes && p[|p| - 1] == n
    {
      AcceptedPathExactly(c, nodes, n);
      if Reachable(c.Next(), nodes, n) {
        ClosedHoldsReachable(c.Next(), nodes, v, n);
      }
    }
  }
}
