/** Node graphs, their successors (next_layer.go) and reachability. Graphs may be cyclic. */
module Graph {
  import opened Prelude

  type Node = nat

  datatype ItemType = PacketInput | FrameInput

  /** For each node its PushPacketsTos and PushFramesTos; None is a nil destination. */
  datatype PushGraph = PushGraph(packetsTo: map<Node, seq<Option<Node>>>, framesTo: map<Node, seq<Option<Node>>>) {
    ghost predicate WellFormed() {
      && packetsTo.Keys == framesTo.Keys
      && (forall n, m :: n in packetsTo && Some(m) in packetsTo[n] ==> m in packetsTo)
      && (forall n, m :: n in framesTo && Some(m) in framesTo[n] ==> m in packetsTo)
    }

    ghost function Nodes(): set<Node> { packetsTo.Keys }

    function PacketsOf(n: Node): seq<Option<Node>> { if n in packetsTo then packetsTo[n] else [] }

    function FramesOf(n: Node): seq<Option<Node>> { if n in framesTo then framesTo[n] else [] }

    function DestinationsOf(n: Node, t: ItemType): seq<Option<Node>> {
      if t == PacketInput then PacketsOf(n) else FramesOf(n)
    }

    predicate Pushes(n: Node, m: Node) { Some(m) in PacketsOf(n) || Some(m) in FramesOf(n) }

    predicate PushesNil(n: Node) { None in PacketsOf(n) || None in FramesOf(n) }

    ghost function Next(): map<Node, set<Node>> {
      map n | n in packetsTo :: set m | m in packetsTo && Pushes(n, m)
    }
  }

  datatype Successor = Successor(node: Node, itemType: ItemType)

  ghost predicate Distinct<T>(xs: seq<T>) {
    forall i, j :: 0 <= i < j < |xs| ==> xs[i] != xs[j]
  }

  /** nextLayer over one list of destinations: what is new is appended, nil is an error. */
  method AddDestinations(dests: seq<Option<Node>>, itemType: ItemType, isSet: set<(Option<Node>, ItemType)>,
                         before: seq<Successor>)
    returns (isSet': set<(Option<Node>, ItemType)>, next: seq<Successor>, nil: bool)
    requires Distinct(before) && forall r :: r in before ==> (Some(r.node), r.itemType) in isSet
    requires forall m, t :: (Some(m), t) in isSet ==> Successor(m, t) in before
    ensures before <= next && Distinct(next)
    ensures forall r :: r in next ==> (Some(r.node), r.itemType) in isSet'
    ensures forall m, t :: (Some(m), t) in isSet' ==> Successor(m, t) in next
    ensures forall r :: r in next <==> r in before || (r.itemType == itemType && Some(r.node) in dests)
    ensures nil <==> None in dests && (None, itemType) !in isSet
    ensures isSet' == isSet + (set d | d in dests :: (d, itemType))
  {
    isSet', next, nil := isSet, before, false;
    for i := 0 to |dests|
      invariant before <= next && Distinct(next)
      invariant forall r :: r in next ==> (Some(r.node), r.itemType) in isSet'
      invariant forall m, t :: (Some(m), t) in isSet' ==> Successor(m, t) in next
      invariant forall r :: r in next <==> r in before || (r.itemType == itemType && Some(r.node) in dests[..i])
      invariant nil <==> None in dests[..i] && (None, itemType) !in isSet
      invariant isSet' == isSet + (set d | d in dests[..i] :: (d, itemType))
    {
      assert dests[..i + 1] == dests[..i] + [dests[i]];
      var r := (dests[i], itemType);
      if r in isSet' {
        continue;
      }
      isSet' := isSet' + {r};
      if dests[i].None? {
        nil := true;
        continue;
      }
      next := next + [Successor(dests[i].value, itemType)];
    }
    assert dests[..|dests|] == dests;
  }

  ghost predicate IsSuccessor(g: PushGraph, nodes: seq<Node>, r: Successor)
  {
    exists n :: n in nodes && Some(r.node) in g.DestinationsOf(n, r.itemType)
  }

  /** nextLayer: every destination once per kind of item, an error exactly if some is nil. */
  method NextLayerByType(g: PushGraph, nodes: seq<Node>) returns (next: seq<Successor>, failed: bool)
    ensures Distinct(next)
    ensures forall r :: r in next <==> IsSuccessor(g, nodes, r)
    ensures forall m: Node :: Successor(m, PacketInput) in next <==>
      exists n :: n in nodes && n in g.packetsTo && Some(m) in g.packetsTo[n]
    ensures forall m: Node :: Successor(m, FrameInput) in next <==>
      exists n :: n in nodes && n in g.framesTo && Some(m) in g.framesTo[n]
    ensures failed <==> exists n :: n in nodes && g.PushesNil(n)
  {
    var isSet: set<(Option<Node>, ItemType)> := {};
    next, failed := [], false;
    for i := 0 to |nodes|
      invariant Distinct(next)
      invariant forall r :: r in next ==> (Some(r.node), r.itemType) in isSet
      invariant forall m, t :: (Some(m), t) in isSet ==> Successor(m, t) in next
      invariant forall r :: r in next <==> IsSuccessor(g, nodes[..i], r)
      invariant (None, PacketInput) in isSet || (None, FrameInput) in isSet ==> failed
      invariant failed <==> exists n :: n in nodes[..i] && g.PushesNil(n)
    {
      var n := nodes[i];
      ghost var before := next;
      assert nodes[..i + 1] == nodes[..i] + [n];
      var nil;
      isSet, next, nil := AddDestinations(g.PacketsOf(n), PacketInput, isSet, next);
      failed := failed || nil;
      isSet, next, nil := AddDestinations(g.FramesOf(n), FrameInput, isSet, next);
      failed := failed || nil;
      forall r ensures r in next <==> IsSuccessor(g, nodes[..i + 1], r) {
        SuccessorsOfOneMore(g, nodes[..i], n, r);
      }
      assert failed <==> g.PushesNil(n) || exists m :: m in nodes[..i] && g.PushesNil(m);
    }
    assert nodes[..|nodes|] == nodes;
    SuccessorsAre(g, nodes);
  }

  lemma SuccessorsAre(g: PushGraph, nodes: seq<Node>)
    ensures forall m: Node :: IsSuccessor(g, nodes, Successor(m, PacketInput)) <==>
      exists n :: n in nodes && n in g.packetsTo && Some(m) in g.packetsTo[n]
    ensures forall m: Node :: IsSuccessor(g, nodes, Successor(m, FrameInput)) <==>
      exists n :: n in nodes && n in g.framesTo && Some(m) in g.framesTo[n]
  {
  }

  lemma SuccessorsOfOneMore(g: PushGraph, nodes: seq<Node>, n: Node, r: Successor)
    ensures IsSuccessor(g, nodes + [n], r) <==>
      IsSuccessor(g, nodes, r) || Some(r.node) in g.DestinationsOf(n, r.itemType)
  {
    if IsSuccessor(g, nodes, r) {
      var m :| m in nodes && Some(r.node) in g.DestinationsOf(m, r.itemType);
      assert m in nodes + [n];
    }
    assert n in nodes + [n];
  }

  /** NextLayer: the distinct successors of the nodes. */
  method NextLayer(g: PushGraph, nodes: seq<Node>) returns (result: seq<Node>, failed: bool)
    ensures Distinct(result)
    ensures forall m :: m in result <==> exists n :: n in nodes && g.Pushes(n, m)
    ensures failed <==> exists n :: n in nodes && g.PushesNil(n)
  {
    var preResult;
    preResult, failed := NextLayerByType(g, nodes);
    var isSet: set<Node> := {};
    result := [];
    for i := 0 to |preResult|
      invariant Distinct(result)
      invariant forall m :: m in result <==> m in isSet
      invariant forall m :: m in result <==> exists j :: 0 <= j < i && preResult[j].node == m
    {
      if preResult[i].node in isSet {
        continue;
      }
      isSet := isSet + {preResult[i].node};
      result := result + [preResult[i].node];
    }
    forall m ensures m in result <==> exists n :: n in nodes && g.Pushes(n, m) {
      PushesAreSuccessors(g, nodes, preResult, m);
    }
  }

  lemma PushesAreSuccessors(g: PushGraph, nodes: seq<Node>, rs: seq<Successor>, m: Node)
    requires forall r :: r in rs <==> IsSuccessor(g, nodes, r)
    ensures (exists j :: 0 <= j < |rs| && rs[j].node == m) <==> exists n :: n in nodes && g.Pushes(n, m)
  {
    if j :| 0 <= j < |rs| && rs[j].node == m {
      assert IsSuccessor(g, nodes, rs[j]);
    }
    if n :| n in nodes && g.Pushes(n, m) {
      var r := if Some(m) in g.PacketsOf(n) then Successor(m, PacketInput) else Successor(m, FrameInput);
      assert IsSuccessor(g, nodes, r);
      assert r in rs;
    }
  }

  // ---- Reachability ----

  ghost predicate IsPath(next: map<Node, set<Node>>, p: seq<Node>) {
    && p != []
    && forall i :: 0 <= i < |p| - 1 ==> p[i] in next && p[i + 1] in next[p[i]]
  }

  ghost predicate Reachable(next: map<Node, set<Node>>, roots: seq<Node>, n: Node) {
    exists p :: IsPath(next, p) && p[0] in roots && p[|p| - 1] == n
  }

  lemma RootReachable(next: map<Node, set<Node>>, roots: seq<Node>, n: Node)
    requires n in roots
    ensures Reachable(next, roots, n)
  {
    assert IsPath(next, [n]);
  }

  /** What is reachable from a successor of a root is reachable from the root. */
  lemma ReachableVia(next: map<Node, set<Node>>, roots: seq<Node>, n: Node, m: Node, x: Node)
    requires n in roots && n in next && m in next[n] && Reachable(next, [m], x)
    ensures Reachable(next, roots, x)
  {
    var p :| IsPath(next, p) && p[0] in [m] && p[|p| - 1] == x;
    var q := [n] + p;
    assert IsPath(next, q);
  }

  /** A set that holds the roots and all successors of its members holds all that is reachable. */
  lemma ClosedHoldsReachable(next: map<Node, set<Node>>, roots: seq<Node>, s: set<Node>, x: Node)
    requires forall n :: n in roots ==> n in s
    requires forall n :: n in s && n in next ==> next[n] <= s
    requires Reachable(next, roots, x)
    ensures x in s
  {
    var p :| IsPath(next, p) && p[0] in roots && p[|p| - 1] == x;
    var i := 0;
    while i < |p| - 1
      invariant 0 <= i < |p| && p[i] in s
    {
      i := i + 1;
    }
  }
}
