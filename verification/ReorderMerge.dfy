/** The merge itself: when every stream is announced before the first item and brings
    nondecreasing DTSs, the output is the sorted merge of the streams. */
module ReorderMerge {
  import opened Prelude
  import opened AvConv
  import opened Heap
  import opened ReorderModel
  import opened ReorderTheorems

  // ---- What the caller has to bring ----

  ghost predicate PerStreamOrdered(xs: seq<Item>) {
    forall i, j :: 0 <= i < j < |xs| && Key(xs[i]) == Key(xs[j]) ==> xs[i].dts <= xs[j].dts
  }

  ghost predicate NonNegative(xs: seq<Item>) {
    forall i :: 0 <= i < |xs| ==> 0 <= xs[i].dts
  }

  ghost predicate OneTimeBase(xs: seq<Item>) {
    forall i, j :: 0 <= i < |xs| && 0 <= j < |xs| ==> xs[i].timeBase == xs[j].timeBase
  }

  /** The order of raw DTSs, by which the heap compares, is the order in time. */
  ghost predicate TimeCompatible(xs: seq<Item>) {
    && (forall a :: a in xs ==> 0 <= Time(a))
    && (forall a, b :: a in xs && b in xs && a.dts <= b.dts ==> Time(a) <= Time(b))
  }

  lemma OneTimeBaseIsCompatible(xs: seq<Item>)
    requires NonNegative(xs) && OneTimeBase(xs)
    ensures TimeCompatible(xs)
  {
    forall a | a in xs ensures 0 <= Time(a) {
      DurationMonotone(a.dts, a.dts, a.timeBase);
    }
    forall a, b | a in xs && b in xs && a.dts <= b.dts ensures Time(a) <= Time(b) {
      DurationMonotone(a.dts, b.dts, a.timeBase);
    }
  }

  /** No stream is new once items flow, and items are queued and sent in their turn: none is sent
      or discarded to make space, none is sent early to catch up, none is dropped. Deliveries
      may still fail. That an item is not far ahead or behind is not asked here: if it were, the
      call (see ReorderCalls) would not consist of such steps. */
  ghost predicate CleanStep(s: State, e: Event) {
    match e
    case Announce(k) => k in s.streams || s.offered == []
    case Enqueue(x) => Key(x) in s.streams
    case Start => true
    case Send(_, _, reason) => reason.AllStreamsReady?
    case Drop(_, _) => false
    case DiscardOldest(_) => false
  }

  ghost predicate Clean(c: Config, s: State, es: seq<Event>)
    requires Legal(c, s, es)
    decreases |es|
  {
    es == [] || (CleanStep(s, es[0]) && Clean(c, Apply(c, s, es[0]), es[1..]))
  }

  lemma {:induction false} CleanAppend(c: Config, s: State, es: seq<Event>, e: Event)
    requires Legal(c, s, es) && Clean(c, s, es)
    requires Enabled(c, Run(c, s, es), e) && CleanStep(Run(c, s, es), e)
    ensures Legal(c, s, es + [e]) && Clean(c, s, es + [e])
    decreases |es|
  {
    hide Apply, Enabled, CleanStep;
    RunAppend(c, s, es, e);
    var next := es + [e];
    if es == [] {
      assert next == [e];
    } else {
      CleanAppend(c, Apply(c, s, es[0]), es[1..], e);
      assert next[0] == es[0] && next[1..] == es[1..] + [e];
    }
  }

  lemma {:induction false} CleanConcat(c: Config, s: State, a: seq<Event>, b: seq<Event>)
    requires Legal(c, s, a) && Clean(c, s, a) && Legal(c, Run(c, s, a), b) && Clean(c, Run(c, s, a), b)
    ensures Legal(c, s, a + b) && Clean(c, s, a + b)
    decreases |a|
  {
    hide Apply, Enabled, CleanStep;
    RunConcat(c, s, a, b);
    var ab := a + b;
    if a == [] {
      assert ab == b;
    } else {
      CleanConcat(c, Apply(c, s, a[0]), a[1..], b);
      assert ab[0] == a[0] && ab[1..] == a[1..] + b;
    }
  }

  ghost predicate AllDelivered(es: seq<Event>) {
    forall i :: 0 <= i < |es| && es[i].Send? ==> es[i].delivered
  }

  // ---- The invariant of the merge ----

  ghost predicate SortedByDts(xs: seq<Item>) {
    forall i, j :: 0 <= i < j < |xs| ==> xs[i].dts <= xs[j].dts
  }

  /** Stream k has brought an item as late as d. */
  ghost predicate Reached(offered: seq<Item>, k: StreamKey, d: int) {
    exists i :: 0 <= i < |offered| && Key(offered[i]) == k && d <= offered[i].dts
  }

  /** m is the last item popped: nothing queued is earlier, and no stream can bring less. */
  ghost predicate Frontier(s: State, m: Item) {
    && m in s.offered
    && s.prevDTS == Time(m)
    && (forall x :: x in s.queue ==> m.dts <= x.dts)
    && (forall x :: x in s.sent ==> x.dts <= m.dts)
    && (forall k :: k in s.streams ==> Reached(s.offered, k, m.dts))
  }

  ghost predicate MergeInv(s: State) {
    && !s.backwards
    && s.stale == multiset{}
    && SortedByDts(s.sent)
    && match s.last
       case None => s.prevDTS == 0 && s.sent == []
       case Some(m) => Frontier(s, m)
  }

  lemma EnqueueFields(s: State, x: Item)
    requires Key(x) in s.streams
    ensures var t := Enqueued(s, x);
      && t.offered == s.offered + [x] && t.queue == s.queue + multiset{x} && t.streams.Keys == s.streams.Keys
      && t.last == s.last && t.sent == s.sent && t.stale == s.stale
      && t.prevDTS == s.prevDTS && t.backwards == s.backwards && t.lost == s.lost
  {
  }

  lemma FrontierAfterEnqueue(s: State, t: State, x: Item, m: Item)
    requires Frontier(s, m) && Key(x) in s.streams && PerStreamOrdered(s.offered + [x])
    requires t.offered == s.offered + [x] && t.queue == s.queue + multiset{x} && t.streams.Keys == s.streams.Keys
    requires t.prevDTS == s.prevDTS && t.sent == s.sent
    ensures Frontier(t, m)
  {
    hide Time;
    var i :| 0 <= i < |s.offered| && Key(s.offered[i]) == Key(x) && m.dts <= s.offered[i].dts;
    assert t.offered[i] == s.offered[i] && t.offered[|s.offered|] == x;
    assert m.dts <= x.dts;
    forall k | k in t.streams ensures Reached(t.offered, k, m.dts) {
      var j :| 0 <= j < |s.offered| && Key(s.offered[j]) == k && m.dts <= s.offered[j].dts;
      assert t.offered[j] == s.offered[j];
    }
  }

  lemma EnqueueKeepsMerge(s: State, x: Item)
    requires MergeInv(s) && Key(x) in s.streams && PerStreamOrdered(s.offered + [x])
    ensures MergeInv(Enqueued(s, x)) && Enqueued(s, x).lost == s.lost
  {
    hide Time, Enqueued, Frontier, PerStreamOrdered;
    EnqueueFields(s, x);
    if s.last.Some? {
      FrontierAfterEnqueue(s, Enqueued(s, x), x, s.last.value);
    }
  }

  lemma PopMovesFrontier(c: Config, s: State, x: Item)
    requires Inv(c, s) && MergeInv(s) && s.emptyCount == 0 && IsMin(x, s.queue, Dts)
    ensures x in s.offered && Key(x) in s.streams
    ensures forall k :: k in s.streams ==> Reached(s.offered, k, x.dts)
  {
    hide Time, Index;
    assert x in multiset(s.offered);
    forall k | k in s.streams ensures Reached(s.offered, k, x.dts) {
      var y := EveryStreamReady(c, s, k);
      assert y in multiset(s.offered);
      var i :| 0 <= i < |s.offered| && s.offered[i] == y;
      assert Dts(x) <= Dts(y);
    }
    PopKeepsIndex(s, x);
  }

  lemma InOrderSendFields(c: Config, s: State, x: Item, delivered: bool)
    requires Key(x) in s.streams && s.prevDTS <= Time(x)
    ensures var t := Emitted(c, Popped(s, x), x, delivered);
      && t.queue == s.queue - multiset{x} && t.streams.Keys == s.streams.Keys && t.offered == s.offered
      && t.last == Some(x) && t.prevDTS == Time(x) && t.backwards == s.backwards && t.stale == s.stale
      && t.sent == (if delivered then s.sent + [x] else s.sent)
      && (delivered ==> t.lost == s.lost)
  {
    hide Time;
  }

  lemma NextIsNotEarlier(s: State, x: Item)
    requires MergeInv(s) && x in s.queue && x in s.offered && TimeCompatible(s.offered)
    ensures s.prevDTS <= Time(x)
    ensures SortedByDts(s.sent + [x]) && forall y :: y in s.sent ==> y.dts <= x.dts
  {
    hide Time;
  }

  lemma FrontierAfterSend(s: State, t: State, x: Item)
    requires x in s.offered && IsMin(x, s.queue, Dts)
    requires forall k :: k in s.streams ==> Reached(s.offered, k, x.dts)
    requires forall y :: y in s.sent ==> y.dts <= x.dts
    requires t.queue <= s.queue && t.streams.Keys == s.streams.Keys && t.offered == s.offered
    requires t.prevDTS == Time(x) && (t.sent == s.sent || t.sent == s.sent + [x])
    ensures Frontier(t, x)
  {
    hide Time, Reached;
    forall y | y in t.queue ensures x.dts <= y.dts {
      assert Dts(x) <= Dts(y);
    }
  }

  lemma SendKeepsMerge(c: Config, s: State, x: Item, delivered: bool)
    requires Inv(c, s) && MergeInv(s) && s.emptyCount == 0 && IsMin(x, s.queue, Dts)
    requires TimeCompatible(s.offered)
    ensures Key(x) in s.streams
    ensures var t := Emitted(c, Popped(s, x), x, delivered);
      && MergeInv(t)
      && (delivered ==> t.lost == s.lost)
  {
    PopMovesFrontier(c, s, x);
    NextIsNotEarlier(s, x);
    InOrderSendFields(c, s, x, delivered);
    hide Time, Index, Emitted, Popped, TimeCompatible, Reached, Frontier, Inv;
    FrontierAfterSend(s, Emitted(c, Popped(s, x), x, delivered), x);
  }

  lemma AnnounceKeepsMerge(s: State, k: StreamKey)
    requires MergeInv(s) && (k in s.streams || s.offered == [])
    ensures MergeInv(Announced(s, k)) && Announced(s, k).lost == s.lost
  {
    hide Time;
  }

  lemma FlagsAreFree(c: Config, s: State, t: State)
    requires t == s.(failed := t.failed, started := t.started) && MergeInv(s)
    ensures MergeInv(t)
    ensures Inv(c, s) && t.started == s.started ==> Inv(c, t)
  {
    hide Time, Index;
  }

  lemma StepKeepsMerge(c: Config, s: State, e: Event)
    requires Inv(c, s) && MergeInv(s) && Enabled(c, s, e) && CleanStep(s, e)
    requires PerStreamOrdered(Apply(c, s, e).offered) && TimeCompatible(Apply(c, s, e).offered)
    ensures MergeInv(Apply(c, s, e))
    ensures (e.Send? ==> e.delivered) ==> Apply(c, s, e).lost == s.lost
  {
    hide Time, Inv, Emitted, Popped, Enqueued, Announced, MergeInv, PerStreamOrdered, TimeCompatible;
    var s1 := s.(failed := false);
    FlagsAreFree(c, s, s1);
    match e
    case Announce(k) => AnnounceKeepsMerge(s1, k);
    case Enqueue(x) =>
      EnqueueFields(s1, x);
      EnqueueKeepsMerge(s1, x);
    case Start => FlagsAreFree(c, s1, s1.(started := true));
    case Send(x, delivered, _) =>
      PopFields(s1, x);
      EmitFields(c, Popped(s1, x), x, delivered);
      SendKeepsMerge(c, s1, x, delivered);
  }

  lemma {:induction false} OfferedGrows(c: Config, s: State, es: seq<Event>)
    requires Legal(c, s, es)
    ensures s.offered <= Run(c, s, es).offered
    decreases |es|
  {
    if es != [] {
      hide Apply, Enabled;
      OfferedStep(c, s, es[0]);
      OfferedGrows(c, Apply(c, s, es[0]), es[1..]);
    }
  }

  lemma OfferedStep(c: Config, s: State, e: Event)
    requires Enabled(c, s, e)
    ensures s.offered <= Apply(c, s, e).offered
  {
    hide Time, Emitted, Popped, Enqueued, Announced;
    var s1 := s.(failed := false);
    match e
    case Announce(k) => OfferedKept(s1, k);
    case Enqueue(x) =>
      OfferedKept(s1, Key(x));
      OfferedByEnqueue(s1, x);
    case Send(x, delivered, _) =>
      PopFields(s1, x);
      EmitFields(c, Popped(s1, x), x, delivered);
    case _ =>
  }

  lemma OfferedKept(s: State, k: StreamKey)
    ensures Announced(s, k).offered == s.offered && k in Announced(s, k).streams
  {
  }

  lemma OfferedByEnqueue(s: State, x: Item)
    ensures Enqueued(s, x).offered == Announced(s, Key(x)).offered + [x]
  {
    OfferedKept(s, Key(x));
    hide Announced;
  }

  lemma PrefixOrdered(xs: seq<Item>, ys: seq<Item>)
    requires xs <= ys && PerStreamOrdered(ys) && TimeCompatible(ys)
    ensures PerStreamOrdered(xs) && TimeCompatible(xs)
  {
    hide Time;
    assert forall i :: 0 <= i < |xs| ==> xs[i] == ys[i];
    assert forall a :: a in xs ==> a in ys;
  }

  lemma {:induction false} RunKeepsMerge(c: Config, s: State, es: seq<Event>)
    requires Inv(c, s) && MergeInv(s) && Legal(c, s, es) && Clean(c, s, es)
    requires PerStreamOrdered(Run(c, s, es).offered) && TimeCompatible(Run(c, s, es).offered)
    ensures MergeInv(Run(c, s, es))
    ensures AllDelivered(es) ==> Run(c, s, es).lost == s.lost
    decreases |es|
  {
    hide Apply, Enabled, Inv, MergeInv, CleanStep, PerStreamOrdered, TimeCompatible;
    if es != [] {
      var t, rest := Apply(c, s, es[0]), es[1..];
      OfferedGrows(c, t, rest);
      PrefixOrdered(t.offered, Run(c, t, rest).offered);
      StepKeepsInv(c, s, es[0]);
      StepKeepsMerge(c, s, es[0]);
      assert AllDelivered(es) ==> AllDelivered(rest) by {
        assert forall i :: 0 <= i < |rest| ==> rest[i] == es[i + 1];
      }
      RunKeepsMerge(c, t, rest);
    }
  }

  /** The main theorem, for every clean run, any number of streams and any tie-breaking: the
      order check never fails, the output is sorted by raw DTS and by time, nothing still
      queued precedes anything already sent, and every item offered is queued or was popped;
      without delivery failures output and queue are exactly the items offered. */
  lemma MergeIsCorrect(c: Config, es: seq<Event>)
    requires Legal(c, Init, es) && Clean(c, Init, es)
    requires var xs := Run(c, Init, es).offered; PerStreamOrdered(xs) && TimeCompatible(xs)
    ensures var s := Run(c, Init, es);
      && !s.backwards
      && SortedByDts(s.sent) && SortedByTime(s.sent)
      && (forall x, y :: x in s.sent && y in s.queue ==> x.dts <= y.dts)
      && multiset(s.offered) == s.queue + multiset(s.sent) + s.lost
      && (AllDelivered(es) ==> multiset(s.offered) == s.queue + multiset(s.sent))
  {
    hide Time, Apply, Enabled;
    InitInv(c);
    RunKeepsInv(c, Init, es);
    RunKeepsMerge(c, Init, es);
    var s := Run(c, Init, es);
    assert MergeInv(s);
    forall x, y | x in s.sent && y in s.queue ensures x.dts <= y.dts {
      assert s.last.Some?;
    }
  }

  /** The kernel's stated promise, for streams that share a time base. */
  lemma MergeWithOneTimeBase(c: Config, es: seq<Event>)
    requires Legal(c, Init, es) && Clean(c, Init, es)
    requires var xs := Run(c, Init, es).offered; PerStreamOrdered(xs) && NonNegative(xs) && OneTimeBase(xs)
    ensures var s := Run(c, Init, es); !s.backwards && SortedByDts(s.sent) && SortedByTime(s.sent)
  {
    OneTimeBaseIsCompatible(Run(c, Init, es).offered);
    MergeIsCorrect(c, es);
  }
}
