/** What holds of every run of the DTS merge: the index of per-stream DTSs, the two internal
    assertions, and the merge itself. */
module ReorderTheorems {
  import opened Heap
  import opened ReorderModel

  /** Every reachable state, whatever the configuration, the arrivals, the failures of the
      output channel and the order of ties: see Inv for what is kept. */
  lemma ReachableStates(c: Config, es: seq<Event>)
    requires Legal(c, Init, es)
    ensures Inv(c, Run(c, Init, es))
  {
    InitInv(c);
    RunKeepsInv(c, Init, es);
  }

  // ---- When the two copies of the queue agree ----

  ghost predicate CopiesAgree(s: State) {
    forall k :: k in s.streams ==> s.streams[k] == Proj(s.queue, k)
  }

  lemma {:induction false} ProjSum(a: multiset<Item>, b: multiset<Item>, k: StreamKey)
    ensures Proj(a + b, k) == Proj(a, k) + Proj(b, k)
    decreases |b|, 1
  {
    if b == multiset{} {
      assert a + b == a;
    } else {
      ProjSumStep(a, b, k);
    }
  }

  lemma {:induction false} ProjSumStep(a: multiset<Item>, b: multiset<Item>, k: StreamKey)
    requires b != multiset{}
    ensures Proj(a + b, k) == Proj(a, k) + Proj(b, k)
    decreases |b|, 0
  {
    hide Proj, One;
    var x := ProjUnfold(b, k);
    var rest := b - multiset{x};
    ProjSum(a, rest, k);
    ProjAdd(a + rest, x, k);
    assert a + b == a + rest + multiset{x};
  }

  lemma ProjContains(q: multiset<Item>, x: Item)
    requires x in q
    ensures x.dts as int in Proj(q, Key(x))
  {
    ProjRemove(q, x, Key(x));
  }

  /** The copies agree exactly when the discard-on-full branch has left nothing behind. */
  lemma CopiesAgreeExactly(c: Config, s: State)
    requires Inv(c, s)
    ensures CopiesAgree(s) <==> s.stale == multiset{}
  {
    hide Proj;
    if s.stale == multiset{} {
      assert s.queue + s.stale == s.queue;
    } else {
      var x := Member(s.stale);
      var k := Key(x);
      ProjSum(s.queue, s.stale, k);
      ProjContains(s.stale, x);
      assert Proj(s.queue, k)[x.dts as int] < Proj(s.queue + s.stale, k)[x.dts as int];
    }
  }

  ghost predicate Discards(es: seq<Event>) {
    exists i :: 0 <= i < |es| && es[i].DiscardOldest?
  }

  lemma StaleStep(c: Config, s: State, e: Event)
    requires Enabled(c, s, e)
    ensures s.stale <= Apply(c, s, e).stale
    ensures if e.DiscardOldest? then Apply(c, s, e).stale != multiset{} else Apply(c, s, e).stale == s.stale
  {
    hide Announced, Pushed, Popped, Emitted, Time;
    var s1 := s.(failed := false);
    match e
    case Announce(k) => StaleKept(c, s1, k);
    case DiscardOldest(x) => assert x in Apply(c, s, e).stale;
    case Enqueue(x) =>
      StaleKept(c, s1, Key(x));
      StaleKeptByPush(c, Announced(s1, Key(x)), x);
    case Send(x, delivered, _) => PopFields(s1, x);
      EmitFields(c, Popped(s1, x), x, delivered);
    case _ =>
  }

  lemma StaleKept(c: Config, s: State, k: StreamKey)
    ensures Announced(s, k).stale == s.stale && k in Announced(s, k).streams
  {
  }

  lemma StaleKeptByPush(c: Config, a: State, x: Item)
    requires Key(x) in a.streams
    ensures Pushed(a, x).stale == a.stale
  {
  }

  lemma DiscardsSplit(es: seq<Event>)
    requires es != []
    ensures Discards(es) <==> es[0].DiscardOldest? || Discards(es[1..])
  {
    var rest := es[1..];
    assert forall i :: 1 <= i < |es| ==> es[i] == rest[i - 1];
    if j :| 0 <= j < |rest| && rest[j].DiscardOldest? {
      assert es[j + 1].DiscardOldest?;
    }
  }

  lemma {:induction false} StaleOnlyFromDiscards(c: Config, s: State, es: seq<Event>)
    requires Legal(c, s, es) && s.stale == multiset{}
    ensures Run(c, s, es).stale == multiset{} <==> !Discards(es)
    decreases |es|
  {
    hide Apply, Enabled, Discards;
    if es == [] {
      assert !Discards(es) by { NothingDiscarded(); }
    } else {
      var t, rest := Apply(c, s, es[0]), es[1..];
      StaleStep(c, s, es[0]);
      DiscardsSplit(es);
      if es[0].DiscardOldest? {
        StaleGrows(c, t, rest);
      } else {
        StaleOnlyFromDiscards(c, t, rest);
      }
    }
  }

  lemma NothingDiscarded()
    ensures !Discards([])
  {
  }

  lemma {:induction false} StaleGrows(c: Config, s: State, es: seq<Event>)
    requires Legal(c, s, es)
    ensures s.stale <= Run(c, s, es).stale
    decreases |es|
  {
    hide Apply, Enabled;
    if es != [] {
      StaleStep(c, s, es[0]);
      StaleGrows(c, Apply(c, s, es[0]), es[1..]);
    }
  }

  /** Over all runs: the per-stream DTSs are those of the queued items, stream by stream, if
      and only if the run never discarded an item to make space. */
  lemma AgreementOverRuns(c: Config, es: seq<Event>)
    requires Legal(c, Init, es)
    ensures CopiesAgree(Run(c, Init, es)) <==> !Discards(es)
    ensures !c.discardUnordered ==> !Discards(es)
  {
    ReachableStates(c, es);
    CopiesAgreeExactly(c, Run(c, Init, es));
    StaleOnlyFromDiscards(c, Init, es);
    if !c.discardUnordered {
      NoDiscardsUnlessConfigured(c, Init, es);
    }
  }

  lemma {:induction false} NoDiscardsUnlessConfigured(c: Config, s: State, es: seq<Event>)
    requires Legal(c, s, es) && !c.discardUnordered
    ensures !Discards(es)
    decreases |es|
  {
    if es != [] {
      assert !es[0].DiscardOldest?;
      var t, rest := Apply(c, s, es[0]), es[1..];
      hide Apply, Enabled;
      NoDiscardsUnlessConfigured(c, t, rest);
      assert forall i :: 1 <= i < |es| ==> es[i] == rest[i - 1];
    }
  }

  // ---- The internal assertions ----

  lemma OldestMatches(c: Config, s: State, x: Item)
    requires Inv(c, s) && s.stale == multiset{} && IsMin(x, s.queue, Dts)
    ensures Matches(s, x)
  {
    hide Proj;
    assert s.queue + s.stale == s.queue;
    var k := Key(x);
    ProjContains(s.queue, x);
    forall d | d in s.streams[k] ensures x.dts <= d {
      var y := ProjWitness(s.queue, k, d);
      assert Dts(x) <= Dts(y);
    }
  }

  /** With no stream empty, every stream has an item in the queue. */
  lemma EveryStreamReady(c: Config, s: State, k: StreamKey) returns (y: Item)
    requires Inv(c, s) && s.stale == multiset{} && s.emptyCount == 0 && k in s.streams
    ensures y in s.queue && Key(y) == k
  {
    hide Proj;
    assert s.queue + s.stale == s.queue;
    assert k !in Empties(s.streams);
    var d := Member(s.streams[k]);
    y := ProjWitness(s.queue, k, d);
  }

  /** While nothing has been discarded to make space, and there is room for one item, no pop
      meets an empty queue and the two copies always yield the same DTS. */
  lemma AssertionsHold(c: Config, s: State, cause: PopCause)
    requires Inv(c, s) && s.stale == multiset{} && c.capacity >= 1
    ensures !CrashEnabled(c, s, cause)
  {
    forall x | IsMin(x, s.queue, Dts) ensures Matches(s, x) {
      OldestMatches(c, s, x);
    }
    if s.queue == multiset{} && s.started && s.emptyCount == 0 {
      hide Index;
      var k :| k in s.streams;
      var y := EveryStreamReady(c, s, k);
    }
  }

  /** x's DTS is the least of its stream exactly when no left-behind DTS of the stream is less. */
  lemma MatchesUnlessStale(c: Config, s: State, x: Item)
    requires Inv(c, s) && IsMin(x, s.queue, Dts)
    ensures Matches(s, x) <==> forall y :: y in s.stale && Key(y) == Key(x) ==> x.dts <= y.dts
  {
    var k, bag := Key(x), s.queue + s.stale;
    hide Proj;
    assert x in bag;
    ProjContains(bag, x);
    if Matches(s, x) {
      forall y | y in s.stale && Key(y) == k ensures x.dts <= y.dts {
        ProjContains(bag, y);
        assert Same(x.dts) <= Same(y.dts);
      }
    }
    if forall y :: y in s.stale && Key(y) == k ==> x.dts <= y.dts {
      forall d | d in s.streams[k] ensures Same(x.dts) <= Same(d) {
        var y := ProjWitness(bag, k, d);
        if y in s.queue {
          assert Dts(x) <= Dts(y);
        }
      }
    }
  }

  /** With room for one item, the pop for a send crashes exactly when that send is due and either
      a discarded DTS is less than that of the popped item of the same stream, or nothing but
      discarded DTSs is left. */
  lemma CrashesExactly(c: Config, s: State, reason: SendReason)
    requires Inv(c, s) && c.capacity >= 1
    ensures CrashEnabled(c, s, ForSending(reason)) <==>
      || (reason == AllStreamsReady && s.queue == multiset{} && s.started && s.emptyCount == 0)
      || (exists x, y :: IsMin(x, s.queue, Dts) && SendDue(c, s, x, reason)
            && y in s.stale && Key(y) == Key(x) && y.dts < x.dts)
  {
    forall x | IsMin(x, s.queue, Dts)
      ensures Matches(s, x) <==> forall y :: y in s.stale && Key(y) == Key(x) ==> x.dts <= y.dts
    {
      MatchesUnlessStale(c, s, x);
    }
    hide Inv, Matches, IsMin, IsBehind;
  }

  /** No run without discards crashes. */
  lemma NoCrashInRuns(c: Config, es: seq<Event>, cause: PopCause)
    requires Legal(c, Init, es) && c.capacity >= 1 && !Discards(es)
    ensures !CrashEnabled(c, Run(c, Init, es), cause)
  {
    ReachableStates(c, es);
    StaleOnlyFromDiscards(c, Init, es);
    AssertionsHold(c, Run(c, Init, es), cause);
  }
}
