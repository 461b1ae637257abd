/** The kernel object of kernel/reorder_monotonic_dts.go: real heaps, a counter kept by hand
    and loops, each method refining the step model. */
module ReorderKernel {
  import opened Prelude
  import opened AvConv
  import opened Heap
  import opened ReorderModel
  import opened ReorderTheorems
  import opened ReorderMerge
  import opened ReorderCalls

  datatype SendError = WentBackwards | ContextDone | KernelClosed

  /** A Go panic (a failed assertion, or a pop of an empty heap) is an outcome of its own;
      nothing is claimed about the object after it. */
  datatype Outcome = Ok | Failed(error: SendError) | Panicked

  function EndOf(res: Outcome): End {
    match res
    case Ok => Through
    case Failed(_) => Error
    case Panicked => Panic
  }

  /** Each stream's heap holds the model's DTSs of that stream. */
  ghost predicate IndexHeaps(streams: map<StreamKey, seq<int>>, model: map<StreamKey, multiset<int>>) {
    && model.Keys == streams.Keys
    && (forall k :: k in streams ==> IsHeap(streams[k], Same) && model[k] == multiset(streams[k]))
  }

  lemma IndexHeapsUpdate(streams: map<StreamKey, seq<int>>, model: map<StreamKey, multiset<int>>, k: StreamKey, h: seq<int>)
    requires IndexHeaps(streams, model) && IsHeap(h, Same)
    ensures IndexHeaps(streams[k := h], model[k := multiset(h)])
    ensures multiset(h) == multiset{} <==> h == []
  {
    assert |multiset(h)| == |h|;
  }

  lemma StreamHeap(streams: map<StreamKey, seq<int>>, model: map<StreamKey, multiset<int>>, k: StreamKey)
    requires IndexHeaps(streams, model) && k in streams
    ensures k in model && model[k] == multiset(streams[k]) && IsHeap(streams[k], Same)
  {
  }

  lemma IndexKeys(streams: map<StreamKey, seq<int>>, model: map<StreamKey, multiset<int>>)
    requires IndexHeaps(streams, model)
    ensures model.Keys == streams.Keys
  {
  }

  lemma NothingToMatch(s: State, streams: map<StreamKey, seq<int>>, x: Item)
    requires IndexHeaps(streams, s.streams) && IsMin(x, s.queue, Dts)
    requires Key(x) !in streams || streams[Key(x)] == []
    ensures CannotPop(s)
  {
    assert !Matches(s, x);
  }

  /** The object's fields, as the model sees them. */
  ghost predicate Abstracts(items: seq<Item>, streams: map<StreamKey, seq<int>>, emptyCount: int,
                            started: bool, prevDTS: int, output: seq<Item>, m: State) {
    && IsHeap(items, Dts) && m.queue == multiset(items)
    && IndexHeaps(streams, m.streams)
    && m.emptyCount == emptyCount && m.started == started && m.prevDTS == prevDTS && m.sent == output
  }

  lemma AbstractsPop(items: seq<Item>, streams: map<StreamKey, seq<int>>, s: State, x: Item, rest: seq<Item>, h: seq<int>)
    requires Abstracts(items, streams, s.emptyCount, s.started, s.prevDTS, s.sent, s)
    requires IsHeap(rest, Dts) && multiset(rest) == multiset(items) - multiset{x}
    requires Key(x) in streams && IsHeap(h, Same) && multiset(h) == multiset(streams[Key(x)]) - multiset{x.dts as int}
    ensures Key(x) in s.streams
    ensures var t := Popped(s.(failed := false), x);
      && !t.failed && t.offered == s.offered
      && Abstracts(rest, streams[Key(x) := h], if h == [] then s.emptyCount + 1 else s.emptyCount,
                   s.started, s.prevDTS, s.sent, t)
  {
    hide IsHeap, IndexHeaps;
    IndexKeys(streams, s.streams);
    StreamHeap(streams, s.streams, Key(x));
    IndexHeapsUpdate(streams, s.streams, Key(x), h);
  }

  lemma AbstractsIgnoresFailed(items: seq<Item>, streams: map<StreamKey, seq<int>>, s: State)
    requires Abstracts(items, streams, s.emptyCount, s.started, s.prevDTS, s.sent, s)
    ensures Abstracts(items, streams, s.emptyCount, s.started, s.prevDTS, s.sent, s.(failed := false))
  {
  }

  lemma AbstractsFields(items: seq<Item>, streams: map<StreamKey, seq<int>>, emptyCount: int,
                        started: bool, prevDTS: int, output: seq<Item>, m: State)
    requires Abstracts(items, streams, emptyCount, started, prevDTS, output, m)
    ensures m.queue == multiset(items) && m.emptyCount == emptyCount
    ensures m.started == started && m.prevDTS == prevDTS && m.sent == output
    ensures m.queue == multiset{} <==> items == []
  {
    assert |multiset(items)| == |items|;
  }

  /** The queue is empty, or a least item does not carry its stream's least DTS. */
  ghost predicate CannotPop(s: State) {
    s.queue == multiset{} || exists x :: IsMin(x, s.queue, Dts) && !Matches(s, x)
  }

  lemma PopFailureIsCrash(c: Config, s: State, reason: SendReason)
    requires CannotPop(s)
    requires s.queue == multiset{} ==> EmptyPopDue(c, s, reason)
    requires forall x :: IsMin(x, s.queue, Dts) ==> SendDue(c, s, x, reason)
    ensures CrashEnabled(c, s, ForSending(reason))
  {
  }

  lemma SendEnabled(c: Config, s: State, x: Item, delivered: bool, reason: SendReason)
    requires IsMin(x, s.queue, Dts) && Matches(s, x) && SendDue(c, s, x, reason)
    ensures var e := Send(x, delivered, reason);
      Enabled(c, s, e) && Apply(c, s, e) == Emitted(c, Popped(s.(failed := false), x), x, delivered)
  {
  }

  lemma EnqueueEnabled(c: Config, s: State, items: seq<Item>, x: Item)
    requires s.queue == multiset(items) && |items| < c.capacity
    ensures Enabled(c, s, Enqueue(x)) && Apply(c, s, Enqueue(x)) == Enqueued(s.(failed := false), x)
    ensures var t := Enqueued(s.(failed := false), x);
      t.started == s.started && t.prevDTS == s.prevDTS && t.sent == s.sent && !t.failed
      && t.offered == s.offered + [x] && t.stale == s.stale
  {
    assert |s.queue| == |items|;
  }

  lemma StartEnabled(c: Config, items: seq<Item>, streams: map<StreamKey, seq<int>>, prevDTS: int, output: seq<Item>, s: State)
    requires Abstracts(items, streams, 0, s.started, prevDTS, output, s) && streams != map[]
    ensures Enabled(c, s, Start)
    ensures Abstracts(items, streams, 0, true, prevDTS, output, Apply(c, s, Start))
    ensures Apply(c, s, Start).offered == s.offered
  {
    hide IsHeap;
    var k :| k in streams;
    assert k in s.streams;
  }

  lemma AnnounceEnabled(c: Config, items: seq<Item>, streams: map<StreamKey, seq<int>>, s: State, k: StreamKey)
    requires Abstracts(items, streams, s.emptyCount, s.started, s.prevDTS, s.sent, s)
    ensures Enabled(c, s, Announce(k))
    ensures Abstracts(items, if k in streams then streams else streams[k := []],
                      if k in streams then s.emptyCount else s.emptyCount + 1,
                      s.started, s.prevDTS, s.sent, Apply(c, s, Announce(k)))
    ensures Apply(c, s, Announce(k)).offered == s.offered
  {
    assert IsHeap<int>([], Same);
    hide IsHeap, IndexHeaps;
    IndexKeys(streams, s.streams);
    IndexHeapsUpdate(streams, s.streams, k, []);
  }

  lemma MatchesExactly(s: State, x: Item, least: int)
    requires IsMin(x, s.queue, Dts) && Key(x) in s.streams && IsMin(least, s.streams[Key(x)], Same)
    ensures if x.dts == least then Matches(s, x) else CannotPop(s)
  {
    assert Same(least) == least && Same(x.dts) == x.dts;
    assert Matches(s, x) <==> x.dts == least;
  }

  /** Lines 157-179 of pushToQueue. */
  method PushBoth(items: seq<Item>, streams: map<StreamKey, seq<int>>, ghost s: State, item: Item)
    returns (queue: seq<Item>, streams': map<StreamKey, seq<int>>, emptied: int)
    requires Abstracts(items, streams, s.emptyCount, s.started, s.prevDTS, s.sent, s)
    ensures |queue| == |items| + 1 && Key(item) in streams'
    ensures Abstracts(queue, streams', s.emptyCount + emptied, s.started, s.prevDTS, s.sent, Enqueued(s, item))
  {
    hide Abstracts, IsHeap, Enqueued;
    streams', emptied := streams, 0;
    AbstractsHeaps(items, streams, s);
    queue := Push(items, Dts, item);
    var streamKey := Key(item);
    if streamKey !in streams' {
      streams', emptied := streams'[streamKey := []], emptied + 1;
    }
    if streams'[streamKey] == [] {
      emptied := emptied - 1;
    }
    var h := Push(streams'[streamKey], Same, item.dts);
    AbstractsPush(items, streams, s, item, queue, h);
    streams' := streams'[streamKey := h];
    assert streams' == streams[streamKey := h];
  }

  lemma AbstractsHeaps(items: seq<Item>, streams: map<StreamKey, seq<int>>, s: State)
    requires Abstracts(items, streams, s.emptyCount, s.started, s.prevDTS, s.sent, s)
    ensures IsHeap(items, Dts) && IsHeap<int>([], Same) && forall k :: k in streams ==> IsHeap(streams[k], Same)
  {
  }

  lemma AbstractsPush(items: seq<Item>, streams: map<StreamKey, seq<int>>, s: State, x: Item, queue: seq<Item>, h: seq<int>)
    requires Abstracts(items, streams, s.emptyCount, s.started, s.prevDTS, s.sent, s)
    requires IsHeap(queue, Dts) && multiset(queue) == multiset(items) + multiset{x}
    requires IsHeap(h, Same)
    requires multiset(h) == (if Key(x) in streams then multiset(streams[Key(x)]) else multiset{}) + multiset{x.dts as int}
    ensures var delta := if Key(x) !in streams then 0 else if streams[Key(x)] == [] then -1 else 0;
      Abstracts(queue, streams[Key(x) := h], s.emptyCount + delta, s.started, s.prevDTS, s.sent, Enqueued(s, x))
  {
    hide IsHeap, IndexHeaps, Enqueued;
    IndexKeys(streams, s.streams);
    if Key(x) in streams {
      StreamHeap(streams, s.streams, Key(x));
      assert |multiset(streams[Key(x)])| == |streams[Key(x)]|;
    }
    IndexHeapsUpdate(streams, s.streams, Key(x), h);
    EnqueuedFields(s, x, multiset(h));
  }

  lemma EnqueuedFields(s: State, x: Item, h: multiset<int>)
    requires h == (if Key(x) in s.streams then s.streams[Key(x)] else multiset{}) + multiset{x.dts as int}
    ensures var t := Enqueued(s, x);
      && t.queue == s.queue + multiset{x} && t.streams == s.streams[Key(x) := h]
      && t.emptyCount == s.emptyCount + (if Key(x) !in s.streams then 0 else if s.streams[Key(x)] == multiset{} then -1 else 0)
      && t.started == s.started && t.prevDTS == s.prevDTS && t.sent == s.sent
  {
    assert Enqueued(s, x).streams == s.streams[Key(x) := h];
  }

  method PopBoth(items: seq<Item>, streams: map<StreamKey, seq<int>>, ghost s: State)
    returns (item: Option<Item>, queue: seq<Item>, streams': map<StreamKey, seq<int>>, emptied: nat)
    requires Abstracts(items, streams, s.emptyCount, s.started, s.prevDTS, s.sent, s)
    ensures item.None? ==> CannotPop(s)
    ensures item.Some? ==>
      && IsMin(item.value, s.queue, Dts) && Matches(s, item.value) && Key(item.value) in s.streams && |queue| < |items|
      && var t := Popped(s.(failed := false), item.value);
         !t.failed && t.offered == s.offered && Abstracts(queue, streams', s.emptyCount + emptied, s.started, s.prevDTS, s.sent, t)
  {
    item, queue, streams', emptied := None, items, streams, 0;
    if items == [] {
      return;
    }
    hide IsHeap, IsMin, IndexHeaps, Matches, Popped, CannotPop;
    IndexKeys(streams, s.streams);
    var oldestItem;
    oldestItem, queue := Pop(items, Dts);
    var streamKey := Key(oldestItem);
    if streamKey !in streams || streams[streamKey] == [] {
      NothingToMatch(s, streams, oldestItem);
      return;
    }
    StreamHeap(streams, s.streams, streamKey);
    var oldDTS, streamQueue := Pop(streams[streamKey], Same);
    MatchesExactly(s, oldestItem, oldDTS);
    if oldestItem.dts != oldDTS {
      return;
    }
    AbstractsPop(items, streams, s, oldestItem, queue, streamQueue);
    item, streams' := Some(oldestItem), streams[streamKey := streamQueue];
    emptied := if streamQueue == [] then 1 else 0;
  }

  lemma {:induction false} SendsAreClean(c: Config, s: State, evs: seq<Event>)
    requires Legal(c, s, evs) && SendsFor(evs, AllStreamsReady)
    ensures Clean(c, s, evs)
    decreases |evs|
  {
    hide Apply, Enabled;
    if evs != [] {
      assert evs[0].Send?;
      SendsAreClean(c, Apply(c, s, evs[0]), evs[1..]);
    }
  }

  /** The item's stream is known, there is room, and the item is neither far ahead nor behind. */
  ghost predicate Regular(c: Config, s: State, x: Item) {
    && Key(x) in s.streams && |s.queue| < c.capacity
    && forall y :: IsMin(y, s.queue, Dts) ==> !IsTooOld(c, y.dts, x.dts) && !IsTooNew(c, y.dts, x.dts)
  }

  lemma EnqueueEvents(c: Config, s: State, evs: seq<Event>, x: Item)
    requires Legal(c, s, evs) && Enabled(c, Run(c, s, evs), Enqueue(x))
    ensures Legal(c, s, evs + [Enqueue(x)]) && Run(c, s, evs + [Enqueue(x)]) == Apply(c, Run(c, s, evs), Enqueue(x))
    ensures Enqueue(x) in evs + [Enqueue(x)]
    ensures forall r :: SendFails(c, s, evs + [Enqueue(x)], r) <==> SendFails(c, s, evs, r)
    ensures evs == [] && Key(x) in s.streams ==> Clean(c, s, evs + [Enqueue(x)])
  {
    hide Enabled, Apply;
    RunAppend(c, s, evs, Enqueue(x));
    if evs == [] && Key(x) in s.streams {
      CleanAppend(c, s, evs, Enqueue(x));
    }
    OtherEvent(c, s, evs, Enqueue(x));
    assert (evs + [Enqueue(x)])[|evs|] == Enqueue(x);
  }

  /** What the merge theorem asks of the items. */
  ghost predicate InOrder(xs: seq<Item>) {
    PerStreamOrdered(xs) && TimeCompatible(xs)
  }

  class ReorderMonotonicDTS {
    const config: Config
    /** Neither the context ends nor the kernel is closed while the object is used. */
    const undisturbed: bool
    var ItemQueue: seq<Item>
    var StreamsDTSs: map<StreamKey, seq<int>>
    var emptyQueuesCount: int
    var Started: bool
    var PrevDTS: int
    /** What the output channels have taken, in order. */
    var output: seq<Item>
    ghost var model: State

    ghost predicate Represents()
      reads this
    {
      Abstracts(ItemQueue, StreamsDTSs, emptyQueuesCount, Started, PrevDTS, output, model)
    }

    ghost predicate Valid()
      reads this
    {
      Represents() && Inv(config, model)
    }

    constructor (config: Config, undisturbed: bool)
      ensures Valid() && this.config == config && this.undisturbed == undisturbed && model == Init
    {
      this.config, this.undisturbed := config, undisturbed;
      ItemQueue, StreamsDTSs, emptyQueuesCount, Started, PrevDTS, output := [], map[], 0, false, 0, [];
      model := Init;
      InitInv(config);
    }

    /** doSendItem, after the item left both queues. */
    method DoSendItem(item: Item) returns (res: Outcome, ghost delivered: bool)
      requires Represents() && !model.failed
      modifies this`PrevDTS, this`output, this`model
      ensures Represents()
      ensures model == Emitted(config, old(model), item, delivered)
      ensures res != Panicked && (res.Failed? <==> model.failed)
      ensures res == Failed(WentBackwards) <==> !config.discardUnordered && old(PrevDTS) > Time(item)
      ensures res == Failed(WentBackwards) ==> model.backwards
      ensures undisturbed && old(PrevDTS) <= Time(item) ==> delivered
      ensures undisturbed && res.Failed? ==> res == Failed(WentBackwards)
      ensures old(model).backwards || old(PrevDTS) > Time(item) <==> model.backwards
      ensures delivered ==> output == old(output) + [item]
      ensures model.offered == old(model).offered
    {
      delivered := false;
      model := Emitted(config, model, item, delivered);
      var dts := Time(item);
      if PrevDTS > dts {
        return if config.discardUnordered then Ok else Failed(WentBackwards), delivered;
      }
      PrevDTS := dts;
      // the select among the output channel, the context and the kernel's closure
      var ended, closed: bool := *, *;
      if !undisturbed && ended {
        return Failed(if closed then KernelClosed else ContextDone), delivered;
      }
      output := output + [item];
      delivered := true;
      model := Emitted(config, old(model), item, delivered);
      return Ok, delivered;
    }

    /** Lines 255-272 of sendOneItemFromQueue: pop both copies, compare, count. */
    method PopOldest() returns (res: Option<Item>)
      requires Represents()
      modifies this`ItemQueue, this`StreamsDTSs, this`emptyQueuesCount, this`model
      ensures res.None? ==> CannotPop(old(model))
      ensures res.Some? ==>
        && IsMin(res.value, old(model.queue), Dts) && Matches(old(model), res.value)
        && Represents() && model == Popped(old(model).(failed := false), res.value)
        && |ItemQueue| < |old(ItemQueue)| && !model.failed && model.offered == old(model).offered
    {
      hide Abstracts, IsMin, Matches, Popped, CannotPop;
      ghost var s := model;
      AbstractsFields(ItemQueue, StreamsDTSs, emptyQueuesCount, Started, PrevDTS, output, s);
      var queue, streams, emptied;
      res, queue, streams, emptied := PopBoth(ItemQueue, StreamsDTSs, s);
      if res.Some? {
        ItemQueue, StreamsDTSs := queue, streams;
        emptyQueuesCount := emptyQueuesCount + emptied;
        model := Popped(s.(failed := false), res.value);
      }
    }

    method SendOneItemFromQueue(ghost reason: SendReason) returns (res: Outcome, ghost evs: seq<Event>)
      requires Valid()
      requires forall x :: IsMin(x, model.queue, Dts) ==> SendDue(config, model, x, reason)
      requires ItemQueue == [] ==> EmptyPopDue(config, model, reason)
      modifies this`ItemQueue, this`StreamsDTSs, this`emptyQueuesCount, this`PrevDTS, this`output, this`model
      ensures res == Panicked ==> evs == [] && CrashEnabled(config, old(model), ForSending(reason))
      ensures res != Panicked ==>
        && Valid() && |ItemQueue| < |old(ItemQueue)|
        && SendsFor(evs, reason)
        && Legal(config, old(model), evs) && model == Run(config, old(model), evs)
        && (res.Failed? <==> model.failed)
        && (res.Failed? <==> SendFails(config, old(model), evs, reason))
        && |evs| == 1 && Enabled(config, old(model), evs[0]) && model == Apply(config, old(model), evs[0])
        && (res == Failed(WentBackwards) ==> model.backwards)
        && (undisturbed && res.Failed? ==> res == Failed(WentBackwards))
        && (undisturbed && !model.backwards ==> AllDelivered(evs))
        && model.offered == old(model).offered
    {
      hide Apply, Enabled, Inv, IsMin, IsHeap, IndexHeaps, Matches, Popped, Emitted, CrashEnabled, CannotPop;
      evs := [];
      ghost var s := model;
      var popped := PopOldest();
      if popped == None {
        PopFailureIsCrash(config, s, reason);
        return Panicked, evs;
      }
      ghost var delivered;
      res, delivered := DoSendItem(popped.value);
      SendEnabled(config, s, popped.value, delivered, reason);
      ghost var e := Send(popped.value, delivered, reason);
      evs := [e];
      RunAppend(config, s, [], e);
      StepKeepsInv(config, s, e);
    }

    lemma LoopPanics(s: State, reason: SendReason, evs: seq<Event>)
      requires Legal(config, s, evs) && SendsFor(evs, reason) && !SendFails(config, s, evs, reason)
      requires CrashEnabled(config, Run(config, s, evs), ForSending(reason))
      ensures SendLoop(config, s, reason, evs, Panic)
    {
      hide Legal, Run, SendFails, CrashEnabled;
    }

    lemma LoopEnds(s: State, reason: SendReason, evs: seq<Event>)
      requires Legal(config, s, evs) && SendsFor(evs, reason) && !SendFails(config, s, evs, reason)
      requires LoopDone(Run(config, s, evs), config, reason)
      ensures SendLoop(config, s, reason, evs, Through)
    {
      hide Legal, Run, SendFails, LoopDone;
    }

    /** What the two loops know when they send. */
    lemma ReadyToSend()
      requires Represents() && Started && emptyQueuesCount == 0
      ensures forall x :: IsMin(x, model.queue, Dts) ==> SendDue(config, model, x, AllStreamsReady)
      ensures EmptyPopDue(config, model, AllStreamsReady)
    {
      AbstractsFields(ItemQueue, StreamsDTSs, emptyQueuesCount, Started, PrevDTS, output, model);
      hide IsMin, Abstracts;
    }

    lemma NothingRun(s: State)
      ensures Legal(config, s, []) && Run(config, s, []) == s
      ensures forall reason :: !SendFails(config, s, [], reason)
    {
    }

    /** Appending the events of one more send to those of the call so far. */
    lemma Continue(s: State, evs: seq<Event>, t: State, more: seq<Event>)
      requires Legal(config, s, evs) && t == Run(config, s, evs) && Legal(config, t, more)
      ensures Legal(config, s, evs + more) && Run(config, s, evs + more) == Run(config, t, more)
      ensures forall reason :: SendFails(config, s, evs + more, reason) <==>
        SendFails(config, s, evs, reason) || SendFails(config, t, more, reason)
      ensures t.backwards ==> Run(config, s, evs + more).backwards
      ensures AllDelivered(evs) && AllDelivered(more) ==> AllDelivered(evs + more)
    {
      BackwardsStays(config, t, more);
      RunConcat(config, s, evs, more);
      forall reason ensures SendFails(config, s, evs + more, reason) <==>
        SendFails(config, s, evs, reason) || SendFails(config, t, more, reason)
      {
        FailsInEither(config, s, evs, more, reason);
      }
    }

    method PullAndSendPendingItems() returns (res: Outcome, ghost evs: seq<Event>)
      requires Valid() && Started
      modifies this`ItemQueue, this`StreamsDTSs, this`emptyQueuesCount, this`PrevDTS, this`output, this`model
      ensures Legal(config, old(model), evs) && SendsFor(evs, AllStreamsReady)
      ensures res == Panicked ==> CrashEnabled(config, Run(config, old(model), evs), ForSending(AllStreamsReady))
      ensures res != Panicked ==> Valid() && model == Run(config, old(model), evs) && model.offered == old(model).offered
      ensures res == Failed(WentBackwards) ==> model.backwards
      ensures undisturbed && res.Failed? ==> res == Failed(WentBackwards)
      ensures res != Panicked && undisturbed && !model.backwards ==> AllDelivered(evs)
      ensures res == Ok ==> emptyQueuesCount != 0
      ensures SendLoop(config, old(model), AllStreamsReady, evs, EndOf(res))
    {
      hide Apply, Enabled, Inv, IsMin, CrashEnabled, Abstracts, Legal, Run, SendFails, SendLoop;
      evs, res := [], Ok;
      ghost var s := model;
      NothingRun(s);
      AbstractsFields(ItemQueue, StreamsDTSs, emptyQueuesCount, Started, PrevDTS, output, model);
      while emptyQueuesCount == 0
        invariant Valid() && Started && res == Ok && model.offered == s.offered
        invariant Legal(config, s, evs) && model == Run(config, s, evs) && SendsFor(evs, AllStreamsReady)
        invariant !SendFails(config, s, evs, AllStreamsReady)
        invariant undisturbed && !model.backwards ==> AllDelivered(evs)
        decreases |ItemQueue|
      {
        ghost var t, more := model, [];
        ReadyToSend();
        res, more := SendOneItemFromQueue(AllStreamsReady);
        if res == Panicked {
          LoopPanics(s, AllStreamsReady, evs);
          return;
        }
        Continue(s, evs, t, more);
        LoopGoesOn(config, s, AllStreamsReady, evs, more[0]);
        assert more == [more[0]];
        evs := evs + more;
        if res.Failed? {
          return;
        }
        AbstractsFields(ItemQueue, StreamsDTSs, emptyQueuesCount, Started, PrevDTS, output, model);
      }
      AbstractsFields(ItemQueue, StreamsDTSs, emptyQueuesCount, Started, PrevDTS, output, model);
      LoopEnds(s, AllStreamsReady, evs);
    }

    method CurrentDTS() returns (res: Option<Int64>)
      requires Represents()
      ensures res.None? <==> ItemQueue == []
      ensures res.None? ==> forall x :: !IsMin(x, model.queue, Dts)
      ensures res.Some? ==> forall x :: IsMin(x, model.queue, Dts) ==> x.dts == res.value
      ensures res.Some? ==> exists x :: IsMin(x, model.queue, Dts) && x.dts == res.value
    {
      if ItemQueue == [] {
        return None;
      }
      RootIsMin(ItemQueue, Dts);
      var root := ItemQueue[0];
      forall x | IsMin(x, model.queue, Dts) ensures x.dts == root.dts {
        assert Dts(x) <= Dts(root) <= Dts(x);
      }
      return Some(root.dts);
    }

    method EnforceLowDTSDifference(newItemDTS: Int64)
      returns (shouldContinue: bool, res: Outcome, ghost evs: seq<Event>)
      requires Valid()
      modifies this`ItemQueue, this`StreamsDTSs, this`emptyQueuesCount, this`PrevDTS, this`output, this`model
      ensures Legal(config, old(model), evs) && SendsFor(evs, CatchUp(newItemDTS))
      ensures res == Panicked ==> CrashEnabled(config, Run(config, old(model), evs), ForSending(CatchUp(newItemDTS)))
      ensures res != Panicked ==> Valid() && model == Run(config, old(model), evs) && (res.Failed? ==> model.failed)
      ensures res == Failed(WentBackwards) ==> model.backwards
      ensures res != Panicked ==> model.offered == old(model).offered
      ensures undisturbed && res.Failed? ==> res == Failed(WentBackwards)
      ensures res != Panicked && undisturbed && !model.backwards ==> AllDelivered(evs)
      ensures shouldContinue ==> res == Ok
      ensures res == Ok && !shouldContinue ==> ItemQueue == old(ItemQueue) && output == old(output)
      ensures res.Failed? <==> SendFails(config, old(model), evs, CatchUp(newItemDTS))
      ensures res == Ok && !shouldContinue ==>
        evs == [] && Behind(config, model, newItemDTS)
      ensures Behind(config, old(model), newItemDTS) ==>
        res == Ok && !shouldContinue
      ensures shouldContinue && Ahead(config, old(model), newItemDTS) ==>
        LoopDone(model, config, CatchUp(newItemDTS))
      ensures Ahead(config, old(model), newItemDTS) ==>
        !Behind(config, old(model), newItemDTS) ==>
        SendLoop(config, old(model), CatchUp(newItemDTS), evs, EndOf(res))
      ensures evs != [] || res != Ok ==> Ahead(config, old(model), newItemDTS)
    {
      hide Apply, Enabled, Inv, IsMin, CrashEnabled, Abstracts, Legal, Run, SendFails, SendLoop;
      shouldContinue, res, evs := true, Ok, [];
      ghost var s := model;
      NothingRun(s);
      var current := CurrentDTS();
      if current == None {
        return;
      }
      var dtsDiff: int := Wrap64(newItemDTS - current.value);
      if Wrap64(-dtsDiff) > Limit(config) {
        shouldContinue := false;
        return;
      }
      if dtsDiff > Limit(config) {
        while true
          invariant Valid() && shouldContinue && res == Ok && model.offered == s.offered
          invariant Legal(config, s, evs) && model == Run(config, s, evs) && SendsFor(evs, CatchUp(newItemDTS))
          invariant !SendFails(config, s, evs, CatchUp(newItemDTS))
          invariant undisturbed && !model.backwards ==> AllDelivered(evs)
          decreases |ItemQueue|
        {
          current := CurrentDTS();
          if current == None || Wrap64(current.value + Limit(config)) >= newItemDTS {
            break;
          }
          ghost var t, more := model, [];
          res, more := SendOneItemFromQueue(CatchUp(newItemDTS));
          if res == Panicked {
            LoopPanics(s, CatchUp(newItemDTS), evs);
            shouldContinue := false;
            return;
          }
          Continue(s, evs, t, more);
          LoopGoesOn(config, s, CatchUp(newItemDTS), evs, more[0]);
          assert more == [more[0]];
          evs := evs + more;
          if res.Failed? {
            shouldContinue := false;
            return;
          }
        }
        LoopEnds(s, CatchUp(newItemDTS), evs);
      }
    }

    method EnqueueItem(item: Item)
      requires Valid() && |ItemQueue| < config.capacity
      modifies this`ItemQueue, this`StreamsDTSs, this`emptyQueuesCount, this`model
      ensures Enabled(config, old(model), Enqueue(item)) && StreamsDTSs != map[]
      ensures model.offered == old(model).offered + [item]
      ensures Valid() && model == Apply(config, old(model), Enqueue(item))
    {
      hide Abstracts, Inv, Apply, Enabled, Enqueued;
      ghost var s := model.(failed := false);
      AbstractsFields(ItemQueue, StreamsDTSs, emptyQueuesCount, Started, PrevDTS, output, model);
      AbstractsIgnoresFailed(ItemQueue, StreamsDTSs, model);
      EnqueueEnabled(config, model, ItemQueue, item);
      StepKeepsInv(config, model, Enqueue(item));
      var queue, streams, emptied := PushBoth(ItemQueue, StreamsDTSs, s, item);
      ItemQueue, StreamsDTSs := queue, streams;
      emptyQueuesCount := emptyQueuesCount + emptied;
      model := Enqueued(s, item);
    }

    /** The discard-on-full branch: only the queue of items is popped. */
    method DiscardOldestItem() returns (ghost discarded: Item)
      requires Valid() && ItemQueue != [] && config.discardUnordered && |ItemQueue| >= config.capacity
      modifies this`ItemQueue, this`model
      ensures |ItemQueue| == |old(ItemQueue)| - 1 && model.offered == old(model).offered
      ensures Enabled(config, old(model), DiscardOldest(discarded))
      ensures Valid() && model == Apply(config, old(model), DiscardOldest(discarded))
    {
      assert |multiset(ItemQueue)| == |ItemQueue|;
      hide Inv, IndexHeaps, IsMin;
      var oldest, queue := Pop(ItemQueue, Dts);
      discarded := oldest;
      StepKeepsInv(config, model, DiscardOldest(oldest));
      model := Apply(config, model, DiscardOldest(oldest));
      ItemQueue := queue;
    }

    ghost method DropItem(s: State, evs: seq<Event>, item: Item, reason: DropReason) returns (evs': seq<Event>)
      requires Valid() && Legal(config, s, evs) && model == Run(config, s, evs)
      requires Enabled(config, model, Drop(item, reason))
      modifies this`model
      ensures evs' == evs + [Drop(item, reason)] && model.backwards == old(model.backwards)
      ensures AllDelivered(evs) ==> AllDelivered(evs')
      ensures model.offered == old(model).offered + [item]
      ensures Valid() && Legal(config, s, evs') && model == Run(config, s, evs')
      ensures forall r :: SendFails(config, s, evs', r) <==> SendFails(config, s, evs, r)
    {
      RunAppend(config, s, evs, Drop(item, reason));
      evs' := evs + [Drop(item, reason)];
      OtherEvent(config, s, evs, Drop(item, reason));
      StepKeepsInv(config, model, Drop(item, reason));
      hide Inv, IndexHeaps, IsHeap, IsMin;
      model := Apply(config, model, Drop(item, reason));
    }

    method StartSending()
      requires Valid() && emptyQueuesCount == 0 && StreamsDTSs != map[]
      modifies this`Started, this`model
      ensures Started && Enabled(config, old(model), ReorderModel.Start)
      ensures Valid() && model == Apply(config, old(model), ReorderModel.Start)
      ensures ItemQueue == old(ItemQueue) && model.offered == old(model).offered
    {
      hide Inv, Abstracts, Apply, Enabled;
      AbstractsFields(ItemQueue, StreamsDTSs, emptyQueuesCount, Started, PrevDTS, output, model);
      StartEnabled(config, ItemQueue, StreamsDTSs, PrevDTS, output, model);
      StepKeepsInv(config, model, ReorderModel.Start);
      model := Apply(config, model, ReorderModel.Start);
      Started := true;
    }

    lemma QueueSizes()
      requires Valid()
      ensures |model.queue| == |ItemQueue| <= config.capacity
      ensures ItemQueue == [] && config.capacity == 0 && config.discardUnordered ==>
        CrashEnabled(config, model, ForDiscarding)
    {
      assert |multiset(ItemQueue)| == |ItemQueue|;
    }

    /** With room for one item and without the discarding mode, every state of a call is safe. */
    lemma NoPanic(s: State, evs: seq<Event>)
      requires Inv(config, s) && Legal(config, s, evs)
      ensures !config.discardUnordered && config.capacity >= 1 ==>
        forall d :: !CallCrashEnabled(config, Run(config, s, evs), d)
    {
      hide Inv, CrashEnabled, Run, Legal;
      RunKeepsInv(config, s, evs);
      if !config.discardUnordered && config.capacity >= 1 {
        var t := Run(config, s, evs);
        NothingStale(config, t);
        forall cause ensures !CrashEnabled(config, t, cause) {
          AssertionsHold(config, t, cause);
        }
      }
    }

    lemma NothingStale(c: Config, s: State)
      requires Inv(c, s) && !c.discardUnordered
      ensures s.stale == multiset{}
    {
    }

    lemma DropEnabled(item: Item)
      ensures model.failed ==> Enabled(config, model, Drop(item, SendFailed))
      ensures FarBehind(config, model, item) ==> Enabled(config, model, Drop(item, TooOld))
    {
    }

    /** Every item is taken into the queue or dropped. It is lost without an error exactly when it
        is far behind, or when the send that was to make room failed; it is lost with an error
        exactly when a catch-up send failed. */
    method PushToQueue(item: Item, startConditionMet: bool)
      returns (res: Outcome, ghost evs: seq<Event>, ghost queued: bool)
      requires Valid()
      modifies this`ItemQueue, this`StreamsDTSs, this`emptyQueuesCount, this`Started, this`PrevDTS, this`output, this`model
      ensures Legal(config, old(model), evs)
      ensures res != Panicked ==> Valid() && model == Run(config, old(model), evs)
      ensures res == Panicked ==> CallCrashEnabled(config, Run(config, old(model), evs), item.dts)
      ensures !config.discardUnordered && config.capacity >= 1 ==> res != Panicked
      ensures res != Panicked ==> model.offered == old(model).offered + [item]
      ensures queued <==> Enqueue(item) in evs
      ensures res == Failed(WentBackwards) ==> model.backwards
      ensures res == Ok && queued && (Started || startConditionMet) ==> emptyQueuesCount != 0
      ensures Started && !old(Started) ==> startConditionMet
      ensures Regular(config, old(model), item) ==> Clean(config, old(model), evs) && queued
      ensures FarBehind(config, old(model), item) ==> res == Ok && evs == [Drop(item, TooOld)]
      ensures res != Panicked ==> (res == Ok && !queued <==>
        FarBehind(config, old(model), item) || SendFails(config, old(model), evs, MakeSpace))
      ensures res != Panicked ==>
        (res.Failed? && !queued <==> SendFails(config, old(model), evs, CatchUp(item.dts)))
      ensures undisturbed && res.Failed? ==> res == Failed(WentBackwards)
      ensures res != Panicked && undisturbed && !model.backwards ==> AllDelivered(evs)
      ensures IsCall(config, old(model), item, startConditionMet, evs, EndOf(res))
      // in plain integers: an item too far before all that is queued changes nothing
      ensures NoWrap(config, multiset(old(ItemQueue)), item.dts) && FarBefore(config, item, multiset(old(ItemQueue))) ==>
        res == Ok && !queued && ItemQueue == old(ItemQueue) && output == old(output)
      // no other is lost without an error, unless the send to make room failed
      ensures NoWrap(config, multiset(old(ItemQueue)), item.dts) && res == Ok && !queued ==>
        FarBefore(config, item, multiset(old(ItemQueue))) || SendFails(config, old(model), evs, MakeSpace)
      // what is too far before a queued item has left the queue, and only that was sent to catch up
      ensures NoWrap(config, multiset(old(ItemQueue)), item.dts) && queued && res != Panicked ==>
        NotFarAfter(config, item, multiset(ItemQueue))
      ensures NoWrap(config, multiset(old(ItemQueue)), item.dts) ==> CatchesUp(config, evs, item.dts)
    {
      hide Apply, Enabled, Inv, IsMin, CrashEnabled, Abstracts, IsTooOld, IsTooNew, SendLoop, IsTake;
      hide Legal, Run, SendFails, Clean, IsCall, Regular, NoWrap, CatchesUp, AllDelivered, FarBefore, NotFarAfter, Behind, Ahead, LoopDone, OnlyQueues;
      ghost var s := model;
      NothingRun(s);
      RegularIsNear(s, item);
      AbstractsFields(ItemQueue, StreamsDTSs, emptyQueuesCount, Started, PrevDTS, output, model);
      BehindOrBefore(s, item);
      queued := false;
      var shouldContinue;
      shouldContinue, res, evs := EnforceLowDTSDifference(item.dts);
      if res == Panicked {
        CaughtUp(s, evs, item);
        CatchUpIs(config, s, item, startConditionMet, evs, [], Panic);
        assert evs + [] == evs;
        NoPanic(s, evs);
        return;
      }
      DropEnabled(item);
      NoneFails(config, s, evs, MakeSpace);
      CaughtUp(s, evs, item);
      if res.Failed? {
        CatchUpIs(config, s, item, startConditionMet, evs, [Drop(item, SendFailed)], Error);
        CatchesUpOnly(config, evs, [Drop(item, SendFailed)], item.dts);
        evs := DropItem(s, evs, item, SendFailed);
        return;
      }
      if !shouldContinue {
        CatchesUpOnly(config, evs, [Drop(item, TooOld)], item.dts);
        evs := DropItem(s, evs, item, TooOld);
        DroppedAtOnce(s, item, startConditionMet);
        return;
      }
      assert !FarBehind(config, s, item);
      CaughtUpOrNear(s, item);
      ghost var more;
      res, more, queued := TakeItem(item, startConditionMet);
      ghost var t := Run(config, s, evs);
      StillNear(t, more, item);
      CallTaken(s, t, item, startConditionMet, evs, more, EndOf(res));
      Continue(s, evs, t, more);
      NoneFails(config, t, more, CatchUp(item.dts));
      CatchesUpOnly(config, evs, more, item.dts);
      evs := evs + more;
      if res == Panicked {
        NoPanic(s, evs);
      } else {
        AbstractsFields(ItemQueue, StreamsDTSs, emptyQueuesCount, Started, PrevDTS, output, model);
      }
    }

    lemma CaughtUpOrNear(s: State, item: Item)
      requires NoWrap(config, s.queue, item.dts) ==> NoWrap(config, model.queue, item.dts)
      requires if FarAhead(config, s, item) then LoopDone(model, config, CatchUp(item.dts)) else model == s
      ensures NoWrap(config, s.queue, item.dts) ==> NotFarAfter(config, item, model.queue)
    {
      hide FarAhead, LoopDone, NoWrap, NotFarAfter;
      if NoWrap(config, s.queue, item.dts) {
        NearEnough(config, model, item);
      }
    }

    lemma StillNear(t: State, more: seq<Event>, item: Item)
      requires Legal(config, t, more) && OnlyQueues(more, item)
      ensures NotFarAfter(config, item, t.queue) ==> NotFarAfter(config, item, Run(config, t, more).queue)
    {
      hide Legal, Run;
      RunQueues(config, t, more, item);
    }

    lemma BehindOrBefore(s: State, item: Item)
      ensures NoWrap(config, s.queue, item.dts) ==> (FarBehind(config, s, item) <==> FarBefore(config, item, s.queue))
    {
      hide NoWrap, FarBehind, FarBefore;
      if NoWrap(config, s.queue, item.dts) {
        FarBehindExactly(config, s, item);
      }
    }

    lemma CaughtUp(s: State, evs: seq<Event>, item: Item)
      requires Legal(config, s, evs) && SendsFor(evs, CatchUp(item.dts))
      ensures NoWrap(config, s.queue, item.dts) ==>
        CatchesUp(config, evs, item.dts) && NoWrap(config, Run(config, s, evs).queue, item.dts)
    {
      hide Legal, Run;
      if NoWrap(config, s.queue, item.dts) {
        LoopCatchesUp(config, s, evs, item.dts);
        SendsQueueNothing(config, s, evs, CatchUp(item.dts));
      }
    }

    lemma DroppedAtOnce(s: State, item: Item, startMet: bool)
      requires FarBehind(config, s, item)
      ensures IsCall(config, s, item, startMet, [Drop(item, TooOld)], Through)
    {
      hide FarBehind;
    }

    lemma TakenAtOnce(s: State, item: Item, startMet: bool, evs: seq<Event>, end: End)
      requires !FarBehind(config, s, item) && !FarAhead(config, s, item) && IsTake(config, s, item, startMet, evs, end)
      ensures IsCall(config, s, item, startMet, evs, end)
    {
      hide FarBehind, FarAhead, IsTake;
    }

    /** The item was taken, after the catch-up sends if it was far ahead. */
    lemma CallTaken(s: State, t: State, item: Item, startMet: bool, evs: seq<Event>, more: seq<Event>, end: End)
      requires Legal(config, s, evs) && t == Run(config, s, evs) && !FarBehind(config, s, item)
      requires if FarAhead(config, s, item) then SendLoop(config, s, CatchUp(item.dts), evs, Through) else evs == []
      requires IsTake(config, t, item, startMet, more, end)
      ensures IsCall(config, s, item, startMet, evs + more, end)
      ensures !FarAhead(config, s, item) ==> t == s && evs + more == more
    {
      hide FarBehind, FarAhead, IsTake, SendLoop, IsCall;
      if FarAhead(config, s, item) {
        CatchUpIs(config, s, item, startMet, evs, more, end);
      } else {
        assert evs + more == more;
        TakenAtOnce(s, item, startMet, more, end);
      }
    }

    lemma RegularIsNear(s: State, item: Item)
      ensures Regular(config, s, item) ==> !FarBehind(config, s, item) && !FarAhead(config, s, item)
      ensures Regular(config, s, item) ==> Key(item) in s.streams && |s.queue| < config.capacity
    {
      hide IsMin, IsTooOld, IsTooNew;
    }

    lemma TakePanics(s: State, item: Item, startMet: bool)
      requires |s.queue| >= config.capacity
      requires CrashEnabled(config, s, if config.discardUnordered then ForDiscarding else ForSending(MakeSpace))
      ensures IsTake(config, s, item, startMet, [], Panic)
    {
      hide CrashEnabled;
    }

    lemma FlushFails(s: State, item: Item, startMet: bool, e: Event)
      requires |s.queue| >= config.capacity && !config.discardUnordered
      requires Enabled(config, s, e) && e.Send? && e.reason == MakeSpace && Apply(config, s, e).failed
      ensures IsTake(config, s, item, startMet, [e] + [Drop(item, SendFailed)], Through)
    {
      hide Enabled, Apply;
      assert ([e] + [Drop(item, SendFailed)])[1..] == [Drop(item, SendFailed)];
    }

    /** Room was there or made, then the item was stored. */
    lemma TakeDone(s: State, t: State, item: Item, startMet: bool, room: seq<Event>, pull: seq<Event>, end: End)
      requires Enabled(config, t, Enqueue(item)) && IsPull(config, Apply(config, t, Enqueue(item)), startMet, pull, end)
      requires |s.queue| < config.capacity ==> room == [] && t == s
      requires |s.queue| >= config.capacity ==>
        && |room| == 1 && Enabled(config, s, room[0]) && t == Apply(config, s, room[0])
        && if config.discardUnordered then room[0].DiscardOldest?
           else room[0].Send? && room[0].reason == MakeSpace && !t.failed
      ensures IsTake(config, s, item, startMet, room + [Enqueue(item)] + pull, end)
    {
      hide Enabled, Apply, IsStore, IsPull;
      StoreIs(config, t, item, startMet, pull, end);
      var store := [Enqueue(item)] + pull;
      assert room + [Enqueue(item)] + pull == room + store;
      if |s.queue| < config.capacity {
        assert room + store == store;
      } else {
        TakeIs(config, s, item, startMet, room[0], store, end);
        assert room == [room[0]];
      }
    }

    /** Lines 146-200 of pushToQueue. */
    method TakeItem(item: Item, startConditionMet: bool)
      returns (res: Outcome, ghost evs: seq<Event>, ghost queued: bool)
      requires Valid()
      modifies this`ItemQueue, this`StreamsDTSs, this`emptyQueuesCount, this`Started, this`PrevDTS, this`output, this`model
      ensures Legal(config, old(model), evs)
      ensures res != Panicked ==> Valid() && model == Run(config, old(model), evs)
      ensures res == Panicked ==> CallCrashEnabled(config, Run(config, old(model), evs), item.dts)
      ensures res != Panicked ==> model.offered == old(model).offered + [item]
      ensures queued <==> Enqueue(item) in evs
      ensures res == Failed(WentBackwards) ==> model.backwards
      ensures res == Ok && queued && (Started || startConditionMet) ==> emptyQueuesCount != 0
      ensures Started && !old(Started) ==> startConditionMet
      ensures Key(item) in old(model).streams && |old(model).queue| < config.capacity ==>
        Clean(config, old(model), evs) && queued
      ensures res != Panicked ==> (!queued <==> SendFails(config, old(model), evs, MakeSpace))
      ensures res != Panicked && !queued ==> res == Ok
      ensures NoSendFor(evs, CatchUp(item.dts))
      ensures undisturbed && res.Failed? ==> res == Failed(WentBackwards)
      ensures res != Panicked && undisturbed && !model.backwards ==> AllDelivered(evs)
      ensures OnlyQueues(evs, item)
      ensures IsTake(config, old(model), item, startConditionMet, evs, EndOf(res))
    {
      hide Apply, Enabled, Inv, IsMin, CrashEnabled, Abstracts, IsPull, IsStore, IsTake, Legal, Run, SendFails, Clean, AllDelivered, OnlyQueues;
      ghost var s := model;
      NothingRun(s);
      queued := false;
      res, evs := MakeRoom();
      if res == Panicked {
        OneQueued([], [], item);
        TakePanics(s, item, startConditionMet);
        return;
      }
      if res.Failed? {
        // the error is not returned
        DropEnabled(item);
        FlushFails(s, item, startConditionMet, evs[0]);
        OneQueued(evs + [Drop(item, SendFailed)], [], item);
        assert evs == [evs[0]];
        evs := DropItem(s, evs, item, SendFailed);
        return Ok, evs, queued;
      }
      ghost var room, stored := evs, model;
      EnqueueItem(item);
      BackwardsStaysOnce(config, stored, Enqueue(item));
      EnqueueEvents(config, s, evs, item);
      evs, queued := evs + [Enqueue(item)], true;
      ghost var sends;
      res, sends := PullWhenReady(startConditionMet);
      TakeDone(s, stored, item, startConditionMet, room, sends, EndOf(res));
      ghost var t := Run(config, s, evs);
      Continue(s, evs, t, sends);
      NoneFails(config, t, sends, MakeSpace);
      OneQueued(room, sends, item);
      EnqueueDelivered(room, item);
      CleanThen(s, evs, sends);
      evs := evs + sends;
    }

    lemma CleanThen(s: State, evs: seq<Event>, sends: seq<Event>)
      requires Legal(config, s, evs) && Legal(config, Run(config, s, evs), sends) && Clean(config, Run(config, s, evs), sends)
      ensures Legal(config, s, evs + sends) && (Clean(config, s, evs) ==> Clean(config, s, evs + sends))
    {
      hide Clean, Legal, Run;
      RunConcat(config, s, evs, sends);
      if Clean(config, s, evs) {
        CleanConcat(config, s, evs, sends);
      }
    }

    lemma OneQueued(room: seq<Event>, sends: seq<Event>, item: Item)
      requires forall i :: 0 <= i < |room| ==> !room[i].Enqueue?
      requires forall i :: 0 <= i < |sends| ==> !sends[i].Enqueue?
      ensures OnlyQueues(room, item) && OnlyQueues(room + [Enqueue(item)] + sends, item)
    {
    }

    lemma EnqueueDelivered(room: seq<Event>, item: Item)
      ensures AllDelivered(room) ==> AllDelivered(room + [Enqueue(item)])
    {
    }

    /** Lines 175-199 of pushToQueue, after both copies have the item. */
    method PullWhenReady(startConditionMet: bool) returns (res: Outcome, ghost evs: seq<Event>)
      requires Valid() && StreamsDTSs != map[]
      modifies this`ItemQueue, this`StreamsDTSs, this`emptyQueuesCount, this`Started, this`PrevDTS, this`output, this`model
      ensures Legal(config, old(model), evs) && Clean(config, old(model), evs)
      ensures forall i :: 0 <= i < |evs| ==> evs[i].Start? || (evs[i].Send? && evs[i].reason == AllStreamsReady)
      ensures res == Panicked ==> CrashEnabled(config, Run(config, old(model), evs), ForSending(AllStreamsReady))
      ensures res != Panicked ==> Valid() && model == Run(config, old(model), evs) && model.offered == old(model).offered
      ensures res == Failed(WentBackwards) ==> model.backwards
      ensures res == Ok && (Started || startConditionMet) ==> emptyQueuesCount != 0
      ensures Started && !old(Started) ==> startConditionMet
      ensures undisturbed && res.Failed? ==> res == Failed(WentBackwards)
      ensures res != Panicked && undisturbed && !model.backwards ==> AllDelivered(evs)
      ensures IsPull(config, old(model), startConditionMet, evs, EndOf(res))
    {
      hide Apply, Enabled, Inv, IsMin, CrashEnabled, Abstracts, SendLoop;
      res, evs := Ok, [];
      AbstractsFields(ItemQueue, StreamsDTSs, emptyQueuesCount, Started, PrevDTS, output, model);
      if emptyQueuesCount != 0 {
        return;
      }
      ghost var s, wasStarted := model, Started;
      if !Started {
        if !startConditionMet {
          return;
        }
        StartSending();
        RunAppend(config, s, evs, ReorderModel.Start);
        CleanAppend(config, s, evs, ReorderModel.Start);
        evs := evs + [ReorderModel.Start];
      }
      ghost var sends;
      res, sends := PullAndSendPendingItems();
      if wasStarted {
        assert evs + sends == sends;
      } else {
        PullIs(config, s, sends, EndOf(res));
        assert evs == [ReorderModel.Start];
      }
      Continue(s, evs, Run(config, s, evs), sends);
      SendsAreClean(config, Run(config, s, evs), sends);
      CleanConcat(config, s, evs, sends);
      evs := evs + sends;
    }

    /** Lines 146-156 of pushToQueue. */
    method MakeRoom() returns (res: Outcome, ghost evs: seq<Event>)
      requires Valid()
      modifies this`ItemQueue, this`StreamsDTSs, this`emptyQueuesCount, this`PrevDTS, this`output, this`model
      ensures Legal(config, old(model), evs)
      ensures forall i :: 0 <= i < |evs| ==>
        evs[i].DiscardOldest? || (evs[i].Send? && evs[i].reason == MakeSpace)
      ensures res.Failed? <==> SendFails(config, old(model), evs, MakeSpace)
      ensures res == Panicked ==> CrashEnabled(config, Run(config, old(model), evs),
                                               if config.discardUnordered then ForDiscarding else ForSending(MakeSpace))
      ensures res != Panicked ==> Valid() && model == Run(config, old(model), evs) && (res.Failed? ==> model.failed)
      ensures res == Ok ==> |ItemQueue| < config.capacity
      ensures |old(model).queue| < config.capacity ==> res == Ok && evs == []
      ensures undisturbed && res.Failed? ==> res == Failed(WentBackwards)
      ensures res != Panicked && undisturbed && !model.backwards ==> AllDelivered(evs)
      ensures res == Panicked ==> evs == []
      ensures |old(model).queue| >= config.capacity && res != Panicked ==>
        && |evs| == 1 && Enabled(config, old(model), evs[0]) && model == Apply(config, old(model), evs[0])
        && (if config.discardUnordered then evs[0].DiscardOldest? && res == Ok
            else evs[0].Send? && evs[0].reason == MakeSpace && (res.Failed? <==> model.failed))
      ensures res != Panicked ==> model.offered == old(model).offered
    {
      hide Apply, Enabled, Inv, IsMin, CrashEnabled, Abstracts;
      res, evs := Ok, [];
      QueueSizes();
      if |ItemQueue| >= config.capacity {
        if config.discardUnordered {
          if ItemQueue == [] {
            return Panicked, evs;
          }
          ghost var s := model;
          ghost var discarded := DiscardOldestItem();
          RunAppend(config, s, [], DiscardOldest(discarded));
          evs := [DiscardOldest(discarded)];
        } else {
          res, evs := SendOneItemFromQueue(MakeSpace);
        }
      }
    }

    /** Calls one after the other, as a reader loop makes them, up to the first that does not end well.
        `before` is what happened to the object until now. If that and the calls are regular, and
        the items that came so far are ordered per stream and in time as their DTSs are, no call
        fails the order check, what the output channels have taken is sorted by DTS and by time,
        nothing queued precedes it, and every item that came is there, queued or not delivered;
        undisturbed, every call ends well and none is missing. */
    method SendAll(items: seq<Item>, startConditionMet: seq<bool>, ghost before: seq<Event>)
      returns (res: Outcome, ghost evs: seq<Event>, ghost regular: bool, ghost done: nat)
      requires Valid() && |startConditionMet| == |items|
      requires Legal(config, Init, before) && model == Run(config, Init, before)
      modifies this`ItemQueue, this`StreamsDTSs, this`emptyQueuesCount, this`Started, this`PrevDTS, this`output, this`model
      ensures Legal(config, Init, before + evs) && done <= |items|
      ensures res != Panicked ==>
        Valid() && model == Run(config, Init, before + evs) && model.offered == old(model).offered + items[..done]
      ensures res == Ok ==> done == |items|
      ensures res != Panicked && regular && Clean(config, Init, before) && InOrder(model.offered) ==>
        && res != Failed(WentBackwards) && !model.backwards
        && SortedByDts(output) && SortedByTime(output)
        && (forall x, y :: x in output && y in ItemQueue ==> x.dts <= y.dts)
        && multiset(model.offered) == multiset(ItemQueue) + multiset(output) + model.lost
        && (undisturbed && AllDelivered(before) ==>
              res == Ok && multiset(model.offered) == multiset(ItemQueue) + multiset(output))
    {
      hide Apply, Enabled, Inv, IsMin, Abstracts, Clean, Regular, InOrder, AllDelivered, SortedByTime, SortedByDts, IsCall, FarBehind,
           Legal, Run, SendFails, CallCrashEnabled, CallsMade;
      res, evs, regular, done := Ok, [], true, 0;
      ghost var offered := model.offered;
      NoCallsMade(before, offered);
      assert items[..0] == [] && before + [] == before;
      for i := 0 to |items|
        invariant Valid() && res == Ok && done == i
        invariant CallsMade(before, evs, regular, model, offered + items[..i])
        invariant undisturbed && !model.backwards && AllDelivered(before) ==> AllDelivered(before + evs)
      {
        ghost var m, more, queued, still := model, [], false, regular;
        CallsMean(before, evs, regular, model, offered + items[..i]);
        regular := regular && Regular(config, model, items[i]);
        res, more, queued := PushToQueue(items[i], startConditionMet[i]);
        CallMade(before, evs, still, m, offered + items[..i], more, regular, items[i]);
        MoreDelivered(before + evs, more);
        assert before + evs + more == before + (evs + more);
        if res != Panicked {
          BackwardsStays(config, m, more);
        }
        MoreItems(offered, items, i);
        evs, done := evs + more, i + 1;
        if res != Ok {
          CallsMean(before, evs, regular, Run(config, m, more), offered + items[..done]);
          if res != Panicked {
            Merged(before + evs);
          }
          return;
        }
      }
      assert items[..|items|] == items;
      CallsMean(before, evs, regular, model, offered + items);
      Merged(before + evs);
    }

    /** After the events before and those of the calls, m is reached, and these items came. */
    ghost predicate CallsMade(before: seq<Event>, evs: seq<Event>, regular: bool, m: State, offered: seq<Item>) {
      && Legal(config, Init, before) && Legal(config, Init, before + evs) && m == Run(config, Init, before + evs)
      && m.offered == offered
      && (regular && Clean(config, Init, before) ==> Clean(config, Init, before + evs))
    }

    lemma NoCallsMade(before: seq<Event>, offered: seq<Item>)
      requires Legal(config, Init, before) && Run(config, Init, before).offered == offered
      ensures CallsMade(before, [], true, Run(config, Init, before), offered + [])
    {
      hide Legal, Run, Clean;
      assert before + [] == before && offered + [] == offered;
    }

    lemma CallMade(before: seq<Event>, evs: seq<Event>, regular: bool, m: State, offered: seq<Item>,
                   more: seq<Event>, regular': bool, x: Item)
      requires CallsMade(before, evs, regular, m, offered) && Legal(config, m, more)
      requires regular' ==> regular && Clean(config, m, more)
      ensures Legal(config, Init, before + (evs + more))
      ensures Run(config, m, more).offered == offered + [x] ==>
        CallsMade(before, evs + more, regular', Run(config, m, more), offered + [x])
    {
      hide Legal, Run, Clean;
      RunConcat(config, Init, before + evs, more);
      assert before + evs + more == before + (evs + more);
      if regular' && Clean(config, Init, before) {
        CleanConcat(config, Init, before + evs, more);
      }
    }

    lemma CallsMean(before: seq<Event>, evs: seq<Event>, regular: bool, m: State, offered: seq<Item>)
      ensures CallsMade(before, evs, regular, m, offered) ==>
        && Legal(config, Init, before + evs) && m == Run(config, Init, before + evs) && m.offered == offered
      ensures CallsMade(before, evs, regular, m, offered) && regular && Clean(config, Init, before) ==>
        Clean(config, Init, before + evs)
    {
      hide Legal, Run, Clean;
    }

    lemma MoreDelivered(evs: seq<Event>, more: seq<Event>)
      ensures AllDelivered(evs) && AllDelivered(more) ==> AllDelivered(evs + more)
    {
    }

    lemma MoreItems(offered: seq<Item>, items: seq<Item>, i: nat)
      requires i < |items|
      ensures offered + items[..i] + [items[i]] == offered + items[..i + 1]
    {
    }

    /** The merge theorem, of the object's fields. */
    lemma Merged(es: seq<Event>)
      requires Valid() && Legal(config, Init, es) && model == Run(config, Init, es)
      ensures Clean(config, Init, es) && InOrder(model.offered) ==>
        && !model.backwards && SortedByDts(output) && SortedByTime(output)
        && (forall x, y :: x in output && y in ItemQueue ==> x.dts <= y.dts)
        && multiset(model.offered) == multiset(ItemQueue) + multiset(output) + model.lost
        && (AllDelivered(es) ==> multiset(model.offered) == multiset(ItemQueue) + multiset(output))
    {
      hide AllDelivered, Abstracts, Inv, Clean, PerStreamOrdered, TimeCompatible, Legal, Run, SortedByDts, SortedByTime;
      AbstractsFields(ItemQueue, StreamsDTSs, emptyQueuesCount, Started, PrevDTS, output, model);
      if Clean(config, Init, es) && InOrder(model.offered) {
        MergeIsCorrect(config, es);
        forall x, y | x in output && y in ItemQueue ensures x.dts <= y.dts {
          assert y in model.queue;
        }
      }
    }

    /** NotifyAboutPacketSource: a stream's queue exists, empty, before its first packet. */
    method NotifyAboutPacketSource(streamIndices: seq<nat>, source: SourceId) returns (ghost evs: seq<Event>)
      requires Valid()
      modifies this`StreamsDTSs, this`emptyQueuesCount, this`model
      ensures Legal(config, old(model), evs) && Valid() && model == Run(config, old(model), evs)
      ensures |evs| == |streamIndices| && model.offered == old(model).offered
      ensures old(model).offered == [] ==> Clean(config, old(model), evs)
      // a later packet of this source on one of these streams belongs to an announced stream
      ensures forall x: Item :: x.Packet? && x.source == source && x.index in streamIndices ==> Key(x) in StreamsDTSs
      ensures forall i :: 0 <= i < |evs| ==> evs[i] == Announce(StreamKey(streamIndices[i], Some(source)))
    {
      hide Apply, Enabled, Inv, IsMin, Abstracts;
      evs := [];
      ghost var s := model;
      for i := 0 to |streamIndices|
        invariant Legal(config, s, evs) && Valid() && model == Run(config, s, evs)
        invariant |evs| == i && model.offered == s.offered
        invariant s.offered == [] ==> Clean(config, s, evs)
        invariant forall j :: 0 <= j < i ==> evs[j] == Announce(StreamKey(streamIndices[j], Some(source)))
        invariant forall j :: 0 <= j < i ==> StreamKey(streamIndices[j], Some(source)) in StreamsDTSs
      {
        AnnounceStream(StreamKey(streamIndices[i], Some(source)));
        ghost var e := Announce(StreamKey(streamIndices[i], Some(source)));
        RunAppend(config, s, evs, e);
        if s.offered == [] {
          CleanAppend(config, s, evs, e);
        }
        evs := evs + [e];
      }
    }

    method AnnounceStream(key: StreamKey)
      requires Valid()
      modifies this`StreamsDTSs, this`emptyQueuesCount, this`model
      ensures Enabled(config, old(model), Announce(key)) && model.offered == old(model).offered
      ensures key in StreamsDTSs && old(StreamsDTSs).Keys <= StreamsDTSs.Keys
      ensures Valid() && model == Apply(config, old(model), Announce(key))
    {
      hide Inv, Abstracts, Apply, Enabled;
      AbstractsFields(ItemQueue, StreamsDTSs, emptyQueuesCount, Started, PrevDTS, output, model);
      AnnounceEnabled(config, ItemQueue, StreamsDTSs, model, key);
      StepKeepsInv(config, model, Announce(key));
      model := Apply(config, model, Announce(key));
      if key !in StreamsDTSs {
        StreamsDTSs := StreamsDTSs[key := []];
        emptyQueuesCount := emptyQueuesCount + 1;
      }
    }
  }
}
