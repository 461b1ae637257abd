/** The depth-first traversal of traverse.go, over any graph, with a callback that may ask to
    stop and may fail. */
module Traverse {
  import opened Prelude
  import opened Graph

  datatype CallbackResult = Proceed | Stop | Fail

  datatype Call = Call(parent: Option<Node>, itemType: Option<ItemType>, node: Node, result: CallbackResult)

  // ---- What a (part of a) traversal did ----

  /** The graph and which nodes have a processor. */
  datatype World = World(g: PushGraph, processors: set<Node>)

  ghost predicate OncePerNode(calls: seq<Call>) {
    forall i, j :: 0 <= i < j < |calls| ==> calls[i].node != calls[j].node
  }

  ghost predicate AnyError(w: World, reached: set<Node>, calls: seq<Call>) {
    || (exists n :: n in reached && (w.g.PushesNil(n) || n !in w.processors))
    || (exists c :: c in calls && c.result == Fail)
  }

  /** Between two states of the visited set, stopped or not: calls only for newly visited nodes
      with a processor, one each; only nodes reachable from the roots were visited. */
  ghost predicate Sound(w: World, roots: seq<Node>, parent: Option<Node>, v0: set<Node>, v1: set<Node>, calls: seq<Call>, failed: bool) {
    && v0 <= v1 <= w.g.Nodes()
    && OncePerNode(calls)
    && (forall c :: c in calls ==> c.node in v1 - v0 && c.node in w.processors && c.parent == parent)
    && (forall n :: n in v1 - v0 ==> Reachable(w.g.Next(), roots, n))
    && (failed <==> AnyError(w, v1 - v0, calls))
  }

  /** The item type of each call is the one given for the roots, on a root, or one by which some
      visited node pushes to the node called. */
  ghost predicate Typed(w: World, roots: seq<Node>, itemType: Option<ItemType>, reached: set<Node>, calls: seq<Call>) {
    forall c :: c in calls ==>
      || (c.itemType == itemType && c.node in roots)
      || (c.itemType.Some? && PushedBy(w, reached, c.itemType.value, c.node))
  }

  ghost predicate PushedBy(w: World, reached: set<Node>, itemType: ItemType, m: Node) {
    exists n :: n in reached && Some(m) in w.g.DestinationsOf(n, itemType)
  }

  lemma PushedByMore(w: World, reached: set<Node>, more: set<Node>, itemType: ItemType, m: Node)
    requires PushedBy(w, reached, itemType, m) && reached <= more
    ensures PushedBy(w, more, itemType, m)
  {
  }

  /** What is reached through some of the roots, or as they push it, is typed for all of them. */
  lemma TypedThen(w: World, roots: seq<Node>, itemType: Option<ItemType>, x: set<Node>, a: seq<Call>,
                  others: seq<Node>, otherType: Option<ItemType>, y: set<Node>, b: seq<Call>, z: set<Node>)
    requires Typed(w, roots, itemType, x, a) && Typed(w, others, otherType, y, b) && x <= z && y <= z
    requires forall m :: m in others ==>
      || (m in roots && otherType == itemType)
      || (otherType.Some? && PushedBy(w, z, otherType.value, m))
    ensures Typed(w, roots, itemType, z, a + b)
  {
    hide PushedBy;
    forall c | c in a + b && !(c.itemType == itemType && c.node in roots)
      ensures c.itemType.Some? && PushedBy(w, z, c.itemType.value, c.node)
    {
      if c in a {
        PushedByMore(w, x, z, c.itemType.value, c.node);
      } else if !(c.itemType == otherType && c.node in others) {
        PushedByMore(w, y, z, c.itemType.value, c.node);
      }
    }
  }

  /** Not stopped: the roots are visited, so are all successors of newly visited nodes, and every
      newly visited node that has a processor got its call. */
  ghost predicate Complete(w: World, roots: seq<Node>, v0: set<Node>, v1: set<Node>, calls: seq<Call>) {
    && (forall n :: n in roots ==> n in v1)
    && ClosedFrom(w, v0, v1)
    && AllCalled(w, v1 - v0, calls)
    && (forall c :: c in calls ==> c.result != Stop)
  }

  ghost predicate ClosedFrom(w: World, v0: set<Node>, v1: set<Node>) {
    forall n :: n in v1 - v0 && n in w.g.Next() ==> w.g.Next()[n] <= v1
  }

  ghost predicate AllCalled(w: World, reached: set<Node>, calls: seq<Call>) {
    forall n :: n in reached && n in w.processors ==> exists c :: c in calls && c.node == n
  }

  /** The last call, and no other, asked to stop. */
  ghost predicate Stopped(calls: seq<Call>) {
    && calls != [] && calls[|calls| - 1].result == Stop
    && forall i :: 0 <= i < |calls| - 1 ==> calls[i].result != Stop
  }

  ghost predicate Covers(w: World, roots: seq<Node>, others: seq<Node>) {
    forall x :: Reachable(w.g.Next(), others, x) ==> Reachable(w.g.Next(), roots, x)
  }

  lemma SoundThen(w: World, roots: seq<Node>, others: seq<Node>, parent: Option<Node>,
                  v0: set<Node>, v1: set<Node>, v2: set<Node>, a: seq<Call>, b: seq<Call>, fa: bool, fb: bool)
    requires Sound(w, roots, parent, v0, v1, a, fa) && Sound(w, others, parent, v1, v2, b, fb) && Covers(w, roots, others)
    ensures Sound(w, roots, parent, v0, v2, a + b, fa || fb)
  {
    hide Reachable, IsPath;
    assert v2 - v0 == (v1 - v0) + (v2 - v1);
    assert AnyError(w, v2 - v0, a + b) <==> AnyError(w, v1 - v0, a) || AnyError(w, v2 - v1, b) by {
      ErrorsAdd(w, v1 - v0, v2 - v1, a, b);
    }
  }

  lemma ErrorsAdd(w: World, x: set<Node>, y: set<Node>, a: seq<Call>, b: seq<Call>)
    ensures AnyError(w, x + y, a + b) <==> AnyError(w, x, a) || AnyError(w, y, b)
  {
    if c :| c in a && c.result == Fail { assert c in a + b; }
    if c :| c in b && c.result == Fail { assert c in a + b; }
  }

  lemma AllCalledAdd(w: World, x: set<Node>, y: set<Node>, a: seq<Call>, b: seq<Call>)
    requires AllCalled(w, x, a) && AllCalled(w, y, b)
    ensures AllCalled(w, x + y, a + b)
  {
    forall n | n in x + y && n in w.processors ensures exists c :: c in a + b && c.node == n {
      if n in x {
        var c :| c in a && c.node == n;
        assert c in a + b;
      } else {
        var c :| c in b && c.node == n;
        assert c in a + b;
      }
    }
  }

  lemma RootCovers(w: World, nodes: seq<Node>, n: Node)
    requires n in nodes
    ensures Covers(w, nodes, [n])
  {
    forall x | Reachable(w.g.Next(), [n], x) ensures Reachable(w.g.Next(), nodes, x) {
      var p :| IsPath(w.g.Next(), p) && p[0] in [n] && p[|p| - 1] == x;
      assert p[0] in nodes;
    }
  }

  lemma SuccessorCovers(w: World, n: Node, m: Node)
    requires w.g.WellFormed() && n in w.g.Nodes() && w.g.Pushes(n, m)
    ensures m in w.g.Nodes() && Covers(w, [n], [m])
  {
    forall x | Reachable(w.g.Next(), [m], x) ensures Reachable(w.g.Next(), [n], x) {
      ReachableVia(w.g.Next(), [n], n, m, x);
    }
  }

  lemma StoppedAtOnce(calls: seq<Call>)
    requires |calls| == 1 && calls[0].result == Stop
    ensures Stopped(calls)
  {
  }

  lemma StoppedThen(a: seq<Call>, b: seq<Call>)
    requires (forall c :: c in a ==> c.result != Stop) && Stopped(b)
    ensures Stopped(a + b)
  {
    forall i | 0 <= i < |a + b| - 1 ensures (a + b)[i].result != Stop {
      if i < |a| { assert a[i] in a; }
    }
  }

  lemma CompleteThen(w: World, roots: seq<Node>, others: seq<Node>, v0: set<Node>, v1: set<Node>, v2: set<Node>,
                     a: seq<Call>, b: seq<Call>)
    requires v0 <= v1 <= v2 && Complete(w, roots, v0, v1, a) && Complete(w, others, v1, v2, b)
    ensures Complete(w, roots + others, v0, v2, a + b)
  {
    assert v2 - v0 == (v1 - v0) + (v2 - v1);
    AllCalledAdd(w, v1 - v0, v2 - v1, a, b);
  }

  /** As ClosedFrom, but n's own successors are still being visited. */
  ghost predicate ClosedBut(w: World, v0: set<Node>, v1: set<Node>, n: Node) {
    forall m :: m in v1 - v0 && m != n && m in w.g.Next() ==> w.g.Next()[m] <= v1
  }

  /** n and its call, before any successor. */
  lemma VisitedAlone(w: World, parent: Option<Node>, itemType: Option<ItemType>, v0: set<Node>, n: Node, calls: seq<Call>, failed: bool)
    requires n !in v0 && n in w.g.Nodes() && v0 <= w.g.Nodes()
    requires if n in w.processors then |calls| == 1 && calls[0].node == n && calls[0].parent == parent else calls == []
    requires failed <==> w.g.PushesNil(n) || n !in w.processors || (calls != [] && calls[0].result == Fail)
    ensures Sound(w, [n], parent, v0, v0 + {n}, calls, failed)
    ensures (calls != [] ==> calls[0].itemType == itemType) ==> Typed(w, [n], itemType, v0 + {n} - v0, calls)
    ensures ClosedBut(w, v0, v0 + {n}, n) && AllCalled(w, v0 + {n} - v0, calls)
  {
    assert v0 + {n} - v0 == {n};
    RootReachable(w.g.Next(), [n], n);
    if calls != [] {
      assert calls[0] in calls;
    }
    hide Reachable, IsPath;
  }

  /** The empty part of a traversal. */
  lemma NothingVisited(w: World, roots: seq<Node>, parent: Option<Node>, itemType: Option<ItemType>, v: set<Node>)
    requires v <= w.g.Nodes()
    ensures Sound(w, roots, parent, v, v, [], false) && Complete(w, [], v, v, []) && Typed(w, roots, itemType, v - v, [])
  {
  }

  lemma AlreadyVisited(w: World, n: Node, v: set<Node>)
    requires n in v
    ensures Complete(w, [n], v, v, [])
  {
  }

  lemma CallsGoOn(w: World, roots: seq<Node>, v0: set<Node>, v1: set<Node>, calls: seq<Call>)
    requires Complete(w, roots, v0, v1, calls)
    ensures forall c :: c in calls ==> c.result != Stop
  {
  }

  lemma PushedByRoot(w: World, n: Node, r: Successor, reached: set<Node>)
    requires n in reached && IsSuccessor(w.g, [n], r)
    ensures PushedBy(w, reached, r.itemType, r.node)
  {
  }

  lemma SuccessorIsPushed(w: World, n: Node, r: Successor)
    requires IsSuccessor(w.g, [n], r)
    ensures w.g.Pushes(n, r.node)
  {
  }

  /** One more successor of n is visited. */
  lemma VisitedThen(w: World, n: Node, m: Node, v0: set<Node>, v1: set<Node>, v2: set<Node>, a: seq<Call>, b: seq<Call>)
    requires v0 + {n} <= v1 <= v2
    requires ClosedBut(w, v0, v1, n) && AllCalled(w, v1 - v0, a) && Complete(w, [m], v1, v2, b)
    ensures ClosedBut(w, v0, v2, n) && AllCalled(w, v2 - v0, a + b) && m in v2
    ensures (forall c :: c in a ==> c.result != Stop) ==> forall c :: c in a + b ==> c.result != Stop
  {
    assert v2 - v0 == (v1 - v0) + (v2 - v1);
    AllCalledAdd(w, v1 - v0, v2 - v1, a, b);
    assert m in [m];
  }

  lemma SoundGrows(w: World, roots: seq<Node>, parent: Option<Node>, v0: set<Node>, v1: set<Node>, calls: seq<Call>, failed: bool)
    requires Sound(w, roots, parent, v0, v1, calls, failed)
    ensures v0 <= v1 <= w.g.Nodes()
  {
  }

  lemma CompleteVisit(w: World, n: Node, v0: set<Node>, v1: set<Node>, calls: seq<Call>)
    requires ClosedBut(w, v0, v1, n) && AllCalled(w, v1 - v0, calls) && n in v1
    requires forall c :: c in calls ==> c.result != Stop
    requires n in w.g.Next() ==> w.g.Next()[n] <= v1
    ensures Complete(w, [n], v0, v1, calls)
  {
  }

  class Traversal {
    const w: World
    var alreadyVisited: set<Node>
    var log: seq<Call>

    constructor (w: World)
      ensures this.w == w && alreadyVisited == {} && log == []
    {
      this.w, alreadyVisited, log := w, {}, [];
    }

    /** Calls the callback; what it answers is its own affair. */
    method Callback(parent: Option<Node>, itemType: Option<ItemType>, n: Node) returns (res: CallbackResult)
      modifies this`log
      ensures log == old(log) + [Call(parent, itemType, n, res)]
    {
      res := *;
      log := log + [Call(parent, itemType, n, res)];
    }

    method TraverseFrom(parent: Option<Node>, itemType: Option<ItemType>, nodes: seq<Node>)
      returns (shouldContinue: bool, failed: bool)
      requires w.g.WellFormed() && alreadyVisited <= w.g.Nodes() && forall n :: n in nodes ==> n in w.g.Nodes()
      modifies this
      ensures old(log) <= log
      ensures Sound(w, nodes, parent, old(alreadyVisited), alreadyVisited, log[|old(log)|..], failed)
      ensures Typed(w, nodes, itemType, alreadyVisited - old(alreadyVisited), log[|old(log)|..])
      ensures shouldContinue ==> Complete(w, nodes, old(alreadyVisited), alreadyVisited, log[|old(log)|..])
      ensures !shouldContinue ==> Stopped(log[|old(log)|..])
      decreases w.g.Nodes() - alreadyVisited, 1
    {
      shouldContinue, failed := true, false;
      ghost var v0, l0, calls := alreadyVisited, log, [];
      assert log == l0 + [];
      hide Reachable, IsPath, Sound, Complete, Stopped, Typed;
      NothingVisited(w, nodes, parent, itemType, v0);
      for i := 0 to |nodes|
        invariant log == l0 + calls && shouldContinue
        invariant Sound(w, nodes, parent, v0, alreadyVisited, calls, failed)
        invariant Typed(w, nodes, itemType, alreadyVisited - v0, calls)
        invariant Complete(w, nodes[..i], v0, alreadyVisited, calls)
      {
        var n := nodes[i];
        assert nodes[..i + 1] == nodes[..i] + [n];
        SoundGrows(w, nodes, parent, v0, alreadyVisited, calls, failed);
        CallsGoOn(w, nodes[..i], v0, alreadyVisited, calls);
        if n in alreadyVisited {
          AlreadyVisited(w, n, alreadyVisited);
          CompleteThen(w, nodes[..i], [n], v0, alreadyVisited, alreadyVisited, calls, []);
          assert calls + [] == calls;
          continue;
        }
        ghost var v1, l1 := alreadyVisited, log;
        var err;
        shouldContinue, err := Visit(parent, itemType, n);
        ghost var more := log[|l1|..];
        assert log == l0 + (calls + more);
        SoundGrows(w, [n], parent, v1, alreadyVisited, more, err);
        RootCovers(w, nodes, n);
        SoundThen(w, nodes, [n], parent, v0, v1, alreadyVisited, calls, more, failed, err);
        TypedThen(w, nodes, itemType, v1 - v0, calls, [n], itemType, alreadyVisited - v1, more, alreadyVisited - v0);
        failed := failed || err;
        if !shouldContinue {
          StoppedThen(calls, more);
          calls := calls + more;
          assert log[|l0|..] == calls;
          return;
        }
        CompleteThen(w, nodes[..i], [n], v0, v1, alreadyVisited, calls, more);
        calls := calls + more;
      }
      assert nodes[..|nodes|] == nodes && log[|l0|..] == calls;
    }

    /** The body of traverse's loop for a node that was not visited yet. */
    method Visit(parent: Option<Node>, itemType: Option<ItemType>, n: Node)
      returns (shouldContinue: bool, failed: bool)
      requires w.g.WellFormed() && alreadyVisited <= w.g.Nodes() && n in w.g.Nodes() && n !in alreadyVisited
      modifies this
      ensures old(log) <= log
      ensures Sound(w, [n], parent, old(alreadyVisited), alreadyVisited, log[|old(log)|..], failed)
      ensures Typed(w, [n], itemType, alreadyVisited - old(alreadyVisited), log[|old(log)|..])
      ensures shouldContinue ==> Complete(w, [n], old(alreadyVisited), alreadyVisited, log[|old(log)|..])
      ensures !shouldContinue ==> Stopped(log[|old(log)|..])
      decreases w.g.Nodes() - alreadyVisited, 0
    {
      hide Reachable, IsPath, AnyError, Sound, Complete, ClosedBut, AllCalled, Stopped, Typed, PushedBy, IsSuccessor, Covers;
      ghost var v0, l0, calls := alreadyVisited, log, [];
      shouldContinue := true;
      alreadyVisited := alreadyVisited + {n};
      var nextNodes;
      nextNodes, failed := NextLayerByType(w.g, [n]);
      if n !in w.processors {
        failed := true;
      } else {
        var res := Callback(parent, itemType, n);
        calls := [Call(parent, itemType, n, res)];
        failed := failed || res == Fail;
        if res == Stop {
          VisitedAlone(w, parent, itemType, v0, n, calls, failed);
          assert log[|l0|..] == calls;
          StoppedAtOnce(calls);
          return false, failed;
        }
      }
      VisitedAlone(w, parent, itemType, v0, n, calls, failed);
      for j := 0 to |nextNodes|
        invariant log == l0 + calls && shouldContinue && v0 + {n} <= alreadyVisited
        invariant Sound(w, [n], parent, v0, alreadyVisited, calls, failed)
        invariant Typed(w, [n], itemType, alreadyVisited - v0, calls)
        invariant ClosedBut(w, v0, alreadyVisited, n) && AllCalled(w, alreadyVisited - v0, calls)
        invariant forall c :: c in calls ==> c.result != Stop
        invariant forall k :: 0 <= k < j ==> nextNodes[k].node in alreadyVisited
      {
        SoundGrows(w, [n], parent, v0, alreadyVisited, calls, failed);
        var r := nextNodes[j];
        assert r in nextNodes;
        SuccessorIsPushed(w, n, r);
        SuccessorCovers(w, n, r.node);
        ghost var v1, l1 := alreadyVisited, log;
        var err;
        shouldContinue, err := TraverseFrom(parent, Some(r.itemType), [r.node]);
        SoundGrows(w, [r.node], parent, v1, alreadyVisited, log[|l1|..], err);
        ghost var more := log[|l1|..];
        assert log == l0 + (calls + more);
        SoundThen(w, [n], [r.node], parent, v0, v1, alreadyVisited, calls, more, failed, err);
        PushedByRoot(w, n, r, alreadyVisited - v0);
        TypedThen(w, [n], itemType, v1 - v0, calls, [r.node], Some(r.itemType), alreadyVisited - v1, more, alreadyVisited - v0);
        failed := failed || err;
        if !shouldContinue {
          StoppedThen(calls, more);
          assert log[|l0|..] == calls + more;
          return;
        }
        VisitedThen(w, n, r.node, v0, v1, alreadyVisited, calls, more);
        calls := calls + more;
      }
      forall m | m in w.g.Next()[n] ensures m in alreadyVisited {
        SuccessorListed(w, n, nextNodes, m);
      }
      CompleteVisit(w, n, v0, alreadyVisited, calls);
      assert log[|l0|..] == calls;
    }
  }

  lemma SuccessorListed(w: World, n: Node, rs: seq<Successor>, m: Node)
    requires n in w.g.Next() && m in w.g.Next()[n] && forall r :: r in rs <==> IsSuccessor(w.g, [n], r)
    ensures exists k :: 0 <= k < |rs| && rs[k].node == m
  {
    PushesAreSuccessors(w.g, [n], rs, m);
    assert n in [n] && w.g.Pushes(n, m);
  }

  /** Traverse: if the callback never asks to stop, it is called exactly once on each node that
      is reachable from the given ones and has a processor, and on no other; after it asks to
      stop it is never called again. The parent it is given is none, whatever the node. */
  method Traverse(w: World, nodes: seq<Node>) returns (failed: bool, stopped: bool, calls: seq<Call>)
    requires w.g.WellFormed() && forall n :: n in nodes ==> n in w.g.Nodes()
    ensures OncePerNode(calls)
    ensures forall c :: c in calls ==> c.node in w.processors && Reachable(w.g.Next(), nodes, c.node) && c.parent == None
    ensures !stopped ==> forall n :: Reachable(w.g.Next(), nodes, n) && n in w.processors ==>
      exists c :: c in calls && c.node == n
    ensures stopped <==> exists c :: c in calls && c.result == Stop
    ensures stopped ==> Stopped(calls)
    ensures forall c :: c in calls && c.itemType == None ==> c.node in nodes
    ensures forall c :: c in calls && c.itemType == Some(PacketInput) ==>
      exists n :: Reachable(w.g.Next(), nodes, n) && n in w.g.packetsTo && Some(c.node) in w.g.packetsTo[n]
    ensures forall c :: c in calls && c.itemType == Some(FrameInput) ==>
      exists n :: Reachable(w.g.Next(), nodes, n) && n in w.g.framesTo && Some(c.node) in w.g.framesTo[n]
    ensures !stopped ==> (failed <==>
      || (exists n :: Reachable(w.g.Next(), nodes, n) && n in w.g.Nodes() && (w.g.PushesNil(n) || n !in w.processors))
      || (exists c :: c in calls && c.result == Fail))
  {
    var t := new Traversal(w);
    var shouldContinue;
    shouldContinue, failed := t.TraverseFrom(None, None, nodes);
    calls, stopped := t.log, !shouldContinue;
    assert t.log[0..] == t.log;
    ghost var v := t.alreadyVisited;
    assert v - {} == v;
    hide *;
    SoundMeans(w, nodes, v, calls, failed);
    TypedMeans(w, nodes, v, calls, failed);
    if stopped {
      StoppedMeans(calls);
    } else {
      CompleteMeans(w, nodes, v, calls, failed);
    }
  }

  lemma SoundMeans(w: World, nodes: seq<Node>, v: set<Node>, calls: seq<Call>, failed: bool)
    requires Sound(w, nodes, None, {}, v, calls, failed)
    ensures OncePerNode(calls)
    ensures forall c :: c in calls ==> c.node in w.processors && Reachable(w.g.Next(), nodes, c.node) && c.parent == None
  {
  }

  lemma TypedMeans(w: World, nodes: seq<Node>, v: set<Node>, calls: seq<Call>, failed: bool)
    requires Sound(w, nodes, None, {}, v, calls, failed) && Typed(w, nodes, None, v, calls)
    ensures forall c :: c in calls && c.itemType == None ==> c.node in nodes
    ensures forall c :: c in calls && c.itemType == Some(PacketInput) ==>
      exists n :: Reachable(w.g.Next(), nodes, n) && n in w.g.packetsTo && Some(c.node) in w.g.packetsTo[n]
    ensures forall c :: c in calls && c.itemType == Some(FrameInput) ==>
      exists n :: Reachable(w.g.Next(), nodes, n) && n in w.g.framesTo && Some(c.node) in w.g.framesTo[n]
  {
    assert v - {} == v;
    hide Reachable;
  }

  lemma StoppedMeans(calls: seq<Call>)
    requires Stopped(calls)
    ensures exists c :: c in calls && c.result == Stop
  {
    assert calls[|calls| - 1] in calls;
  }

  lemma CompleteMeans(w: World, nodes: seq<Node>, v: set<Node>, calls: seq<Call>, failed: bool)
    requires Sound(w, nodes, None, {}, v, calls, failed) && Complete(w, nodes, {}, v, calls)
    ensures forall n :: Reachable(w.g.Next(), nodes, n) && n in w.processors ==> exists c :: c in calls && c.node == n
    ensures !exists c :: c in calls && c.result == Stop
    ensures failed <==>
      || (exists n :: Reachable(w.g.Next(), nodes, n) && n in w.g.Nodes() && (w.g.PushesNil(n) || n !in w.processors))
      || (exists c :: c in calls && c.result == Fail)
  {
    assert v - {} == v;
    forall n | Reachable(w.g.Next(), nodes, n) ensures n in v {
      ClosedHoldsReachable(w.g.Next(), nodes, v, n);
    }
    hide Reachable;
  }
}
