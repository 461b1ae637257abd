/** Which events one call of pushToQueue makes, and sessions: calls one after the other. Every call
    of the kernel object makes such events, so what holds of sessions holds of the object, and
    runs that fail are given as sessions. */
module ReorderCalls {
  import opened AvConv
  import opened Heap
  import opened ReorderModel

  /** A DTS is further behind the queue than the configuration allows, as pushToQueue finds it. */
  ghost predicate Behind(c: Config, s: State, d: Int64) {
    exists y :: IsMin(y, s.queue, Dts) && IsTooOld(c, y.dts, d)
  }

  ghost predicate Ahead(c: Config, s: State, d: Int64) {
    exists y :: IsMin(y, s.queue, Dts) && IsTooNew(c, y.dts, d)
  }

  ghost predicate FarBehind(c: Config, s: State, x: Item) { Behind(c, s, x.dts) }

  ghost predicate FarAhead(c: Config, s: State, x: Item) { Ahead(c, s, x.dts) }

  ghost predicate SendsFor(evs: seq<Event>, reason: SendReason) {
    forall i :: 0 <= i < |evs| ==> evs[i].Send? && evs[i].reason == reason
  }

  /** A call, or a part of it, goes through, ends with an error, or panics. */
  datatype End = Through | Error | Panic

  /** The loop that sends for this reason has no more to do. */
  ghost predicate LoopDone(s: State, c: Config, reason: SendReason) {
    match reason
    case AllStreamsReady => s.emptyCount != 0
    case CatchUp(d) => forall y :: IsMin(y, s.queue, Dts) ==> !IsBehind(c, y.dts, d)
    case MakeSpace => false
  }

  /** A loop of sends: until it is done, the first one that fails, or a panic. */
  ghost predicate SendLoop(c: Config, s: State, reason: SendReason, evs: seq<Event>, end: End) {
    && Legal(c, s, evs) && SendsFor(evs, reason)
    && match end
       case Through => !SendFails(c, s, evs, reason) && LoopDone(Run(c, s, evs), c, reason)
       case Panic => !SendFails(c, s, evs, reason) && CrashEnabled(c, Run(c, s, evs), ForSending(reason))
       case Error =>
         && evs != [] && SendFails(c, s, evs, reason)
         && Legal(c, s, evs[..|evs| - 1]) && !SendFails(c, s, evs[..|evs| - 1], reason)
  }

  /** Lines 180-199: nothing while a stream is empty or the start is not due; else the start, if it
      was not made yet, and the sends. */
  ghost predicate IsPull(c: Config, s: State, startMet: bool, evs: seq<Event>, end: End) {
    if s.emptyCount != 0 || (!s.started && !startMet) then evs == [] && end == Through
    else if s.started then SendLoop(c, s, AllStreamsReady, evs, end)
    else evs != [] && evs[0] == Start && Enabled(c, s, Start) && SendLoop(c, Apply(c, s, Start), AllStreamsReady, evs[1..], end)
  }

  /** Lines 157-199. */
  ghost predicate IsStore(c: Config, s: State, x: Item, startMet: bool, evs: seq<Event>, end: End) {
    evs != [] && evs[0] == Enqueue(x) && Enabled(c, s, evs[0]) && IsPull(c, Apply(c, s, evs[0]), startMet, evs[1..], end)
  }

  /** Lines 146-199: with room the item is stored at once; else the oldest item is discarded, or it
      is sent and if that fails the new item is dropped without an error. */
  ghost predicate IsTake(c: Config, s: State, x: Item, startMet: bool, evs: seq<Event>, end: End) {
    if |s.queue| < c.capacity then IsStore(c, s, x, startMet, evs, end)
    else if evs == [] then
      end == Panic && CrashEnabled(c, s, if c.discardUnordered then ForDiscarding else ForSending(MakeSpace))
    else
      && Enabled(c, s, evs[0])
      && (if c.discardUnordered then evs[0].DiscardOldest? else evs[0].Send? && evs[0].reason == MakeSpace)
      && var t := Apply(c, s, evs[0]);
         if evs[0].Send? && t.failed then evs[1..] == [Drop(x, SendFailed)] && end == Through
         else IsStore(c, t, x, startMet, evs[1..], end)
  }

  /** The catch-up sends before an item that is far ahead, then the rest of the call. */
  ghost predicate AfterCatchUp(c: Config, s: State, x: Item, startMet: bool, sends: seq<Event>, rest: seq<Event>, end: End) {
    || (end == Panic && rest == [] && SendLoop(c, s, CatchUp(x.dts), sends, Panic))
    || (end == Error && rest == [Drop(x, SendFailed)] && SendLoop(c, s, CatchUp(x.dts), sends, Error))
    || (SendLoop(c, s, CatchUp(x.dts), sends, Through) && IsTake(c, Run(c, s, sends), x, startMet, rest, end))
  }

  /** What pushToQueue does with item x in state s. */
  ghost predicate IsCall(c: Config, s: State, x: Item, startMet: bool, evs: seq<Event>, end: End) {
    if FarBehind(c, s, x) then evs == [Drop(x, TooOld)] && end == Through
    else if !FarAhead(c, s, x) then IsTake(c, s, x, startMet, evs, end)
    else exists k :: 0 <= k <= |evs| && AfterCatchUp(c, s, x, startMet, evs[..k], evs[k..], end)
  }

  // ---- In plain integers ----

  lemma {:induction false} OldestExists(queue: multiset<Item>) returns (y: Item)
    requires queue != multiset{}
    ensures IsMin(y, queue, Dts)
    decreases |queue|
  {
    var x :| x in queue;
    var rest := queue - multiset{x};
    y := x;
    if rest != multiset{} {
      var z := OldestExists(rest);
      if Dts(z) < Dts(x) {
        y := z;
      }
      forall w | w in queue ensures Dts(y) <= Dts(w) {
        if w != x {
          assert w in rest;
        }
      }
    } else {
      assert queue == multiset{x};
    }
  }

  /** An item is far behind if it is more than the allowed difference before everything queued. */
  lemma FarBehindExactly(c: Config, s: State, x: Item)
    requires NoWrap(c, s.queue, x.dts)
    ensures FarBehind(c, s, x) <==> FarBefore(c, x, s.queue)
  {
    hide IsTooOld;
    forall y | y in s.queue ensures IsTooOld(c, y.dts, x.dts) <==> x.dts < y.dts - c.maxDifference {
      TooOldExactly(c, y.dts, x.dts);
    }
    if FarBehind(c, s, x) {
      var y :| IsMin(y, s.queue, Dts) && IsTooOld(c, y.dts, x.dts);
      forall z | z in s.queue ensures x.dts < z.dts - c.maxDifference {
        assert Dts(y) <= Dts(z);
      }
    } else if s.queue != multiset{} {
      var y := OldestExists(s.queue);
    }
  }

  /** Nothing queued is more than the allowed difference before the item, if the oldest is not. */
  lemma NearEnough(c: Config, s: State, x: Item)
    requires NoWrap(c, s.queue, x.dts)
    requires !FarAhead(c, s, x) || LoopDone(s, c, CatchUp(x.dts))
    ensures NotFarAfter(c, x, s.queue)
  {
    hide IsTooNew, IsBehind;
    if s.queue != multiset{} {
      var y := OldestExists(s.queue);
      TooNewExactly(c, y.dts, x.dts);
      BehindExactly(c, y.dts, x.dts);
      forall z | z in s.queue ensures x.dts <= z.dts + c.maxDifference {
        assert Dts(y) <= Dts(z);
      }
    }
  }

  lemma {:induction false} BackwardsStays(c: Config, s: State, evs: seq<Event>)
    requires Legal(c, s, evs)
    ensures s.backwards ==> Run(c, s, evs).backwards
    decreases |evs|
  {
    hide Apply, Enabled;
    if evs != [] {
      BackwardsStaysOnce(c, s, evs[0]);
      BackwardsStays(c, Apply(c, s, evs[0]), evs[1..]);
    }
  }

  lemma BackwardsStaysOnce(c: Config, s: State, e: Event)
    requires Enabled(c, s, e)
    ensures s.backwards ==> Apply(c, s, e).backwards
  {
    hide Time, IsMin, Matches;
  }

  /** Of all items only x is queued by these events. */
  ghost predicate OnlyQueues(evs: seq<Event>, x: Item) {
    forall i :: 0 <= i < |evs| && evs[i].Enqueue? ==> evs[i].item == x
  }

  lemma StepQueues(c: Config, s: State, e: Event)
    requires Enabled(c, s, e)
    ensures forall y :: y in Apply(c, s, e).queue ==> y in s.queue || e == Enqueue(y)
  {
    hide Time;
    if e.Send? {
      PopStreams(s.(failed := false), e.item);
      EmitFields(c, Popped(s.(failed := false), e.item), e.item, e.delivered);
      hide Popped, Emitted;
    }
  }

  lemma {:induction false} RunQueues(c: Config, s: State, evs: seq<Event>, x: Item)
    requires Legal(c, s, evs) && OnlyQueues(evs, x)
    ensures forall y :: y in Run(c, s, evs).queue ==> y in s.queue || y == x
    decreases |evs|
  {
    hide Apply, Enabled;
    if evs != [] {
      StepQueues(c, s, evs[0]);
      assert evs[0].Enqueue? ==> evs[0].item == x;
      RunQueues(c, Apply(c, s, evs[0]), evs[1..], x);
    }
  }

  lemma {:induction false} SendsQueueNothing(c: Config, s: State, evs: seq<Event>, reason: SendReason)
    requires Legal(c, s, evs) && SendsFor(evs, reason)
    ensures forall y :: y in Run(c, s, evs).queue ==> y in s.queue
    decreases |evs|
  {
    hide Apply, Enabled;
    if evs != [] {
      StepQueues(c, s, evs[0]);
      assert evs[0].Send?;
      SendsQueueNothing(c, Apply(c, s, evs[0]), evs[1..], reason);
    }
  }

  /** Every catch-up send is of an item more than the allowed difference before the new one. */
  ghost predicate CatchesUp(c: Config, evs: seq<Event>, d: Int64) {
    forall i :: 0 <= i < |evs| && evs[i].Send? && evs[i].reason == CatchUp(d) ==> evs[i].item.dts + c.maxDifference < d
  }

  lemma {:induction false} LoopCatchesUp(c: Config, s: State, evs: seq<Event>, d: Int64)
    requires Legal(c, s, evs) && SendsFor(evs, CatchUp(d)) && NoWrap(c, s.queue, d)
    ensures CatchesUp(c, evs, d)
    decreases |evs|
  {
    hide Apply;
    if evs != [] {
      assert evs[0].Send? && evs[0].reason == CatchUp(d);
      BehindExactly(c, evs[0].item.dts, d);
      StepQueues(c, s, evs[0]);
      hide Enabled, IsBehind;
      LoopCatchesUp(c, Apply(c, s, evs[0]), evs[1..], d);
      assert forall i :: 1 <= i < |evs| ==> evs[i] == evs[1..][i - 1];
    }
  }

  /** Events that do not send to catch up may follow. */
  lemma CatchesUpOnly(c: Config, a: seq<Event>, b: seq<Event>, d: Int64)
    requires NoSendFor(b, CatchUp(d))
    ensures CatchesUp(c, a, d) ==> CatchesUp(c, a + b, d)
  {
  }

  // ---- Building calls ----

  lemma StoreIs(c: Config, s: State, x: Item, startMet: bool, pull: seq<Event>, end: End)
    requires Enabled(c, s, Enqueue(x)) && IsPull(c, Apply(c, s, Enqueue(x)), startMet, pull, end)
    ensures IsStore(c, s, x, startMet, [Enqueue(x)] + pull, end)
  {
    hide Enabled, Apply, IsPull;
    assert ([Enqueue(x)] + pull)[1..] == pull;
  }

  lemma PullIs(c: Config, s: State, sends: seq<Event>, end: End)
    requires s.emptyCount == 0 && !s.started && Enabled(c, s, Start)
    requires SendLoop(c, Apply(c, s, Start), AllStreamsReady, sends, end)
    ensures IsPull(c, s, true, [Start] + sends, end)
  {
    hide Enabled, Apply, SendLoop;
    assert ([Start] + sends)[1..] == sends;
  }

  /** Room is made by e, then the item is stored. */
  lemma TakeIs(c: Config, s: State, x: Item, startMet: bool, e: Event, store: seq<Event>, end: End)
    requires |s.queue| >= c.capacity && Enabled(c, s, e)
    requires if c.discardUnordered then e.DiscardOldest? else e.Send? && e.reason == MakeSpace && !Apply(c, s, e).failed
    requires IsStore(c, Apply(c, s, e), x, startMet, store, end)
    ensures IsTake(c, s, x, startMet, [e] + store, end)
  {
    hide Enabled, Apply, IsStore;
    assert ([e] + store)[1..] == store;
  }

  lemma CatchUpIs(c: Config, s: State, x: Item, startMet: bool, sends: seq<Event>, rest: seq<Event>, end: End)
    requires !FarBehind(c, s, x) && FarAhead(c, s, x) && AfterCatchUp(c, s, x, startMet, sends, rest, end)
    ensures IsCall(c, s, x, startMet, sends + rest, end)
  {
    hide FarBehind, FarAhead, AfterCatchUp;
    var evs := sends + rest;
    assert evs[..|sends|] == sends && evs[|sends|..] == rest;
  }

  /** One send of a loop. */
  lemma LoopGoesOn(c: Config, s: State, reason: SendReason, evs: seq<Event>, e: Event)
    requires Legal(c, s, evs) && SendsFor(evs, reason) && !SendFails(c, s, evs, reason)
    requires Enabled(c, Run(c, s, evs), e) && e.Send? && e.reason == reason
    ensures Legal(c, s, evs + [e]) && SendsFor(evs + [e], reason)
    ensures SendFails(c, s, evs + [e], reason) <==> Apply(c, Run(c, s, evs), e).failed
    ensures Apply(c, Run(c, s, evs), e).failed ==> SendLoop(c, s, reason, evs + [e], Error)
  {
    hide Enabled, Apply;
    RunAppend(c, s, evs, e);
    var t := Run(c, s, evs);
    assert [e][1..] == [] && Legal(c, Apply(c, t, e), []);
    assert Legal(c, t, [e]);
    FailsInEither(c, s, evs, [e], reason);
    assert (evs + [e])[..|evs|] == evs;
  }

  // ---- Sessions ----

  /** Streams are announced one at a time (NotifyAboutPacketSource), items are pushed. */
  datatype Call =
    | Announcement(key: StreamKey)
    | Pushing(item: Item, startMet: bool, events: seq<Event>, end: End)

  function EventsOf(call: Call): seq<Event> {
    if call.Announcement? then [Announce(call.key)] else call.events
  }

  ghost predicate CallAt(c: Config, s: State, call: Call) {
    call.Pushing? ==>
      Legal(c, s, call.events) && call.end != Panic && IsCall(c, s, call.item, call.startMet, call.events, call.end)
  }

  function AllEvents(calls: seq<Call>): seq<Event> {
    if calls == [] then [] else EventsOf(calls[0]) + AllEvents(calls[1..])
  }

  lemma AnnouncementIsLegal(c: Config, s: State, k: StreamKey)
    ensures Legal(c, s, [Announce(k)]) && Run(c, s, [Announce(k)]) == Apply(c, s, Announce(k))
  {
    hide Apply;
    assert [Announce(k)][1..] == [];
    assert Legal(c, Apply(c, s, Announce(k)), []);
  }

  ghost function CallRun(c: Config, s: State, call: Call): State
    requires CallAt(c, s, call)
  {
    if call.Announcement? then Apply(c, s, Announce(call.key)) else Run(c, s, call.events)
  }

  /** Each call is one that the kernel makes in the state that the calls before it led to, and none
      of them panics. */
  ghost predicate Session(c: Config, s: State, calls: seq<Call>)
    decreases |calls|
  {
    calls == [] || (CallAt(c, s, calls[0]) && Session(c, CallRun(c, s, calls[0]), calls[1..]))
  }

  lemma CallIsRun(c: Config, s: State, call: Call)
    requires CallAt(c, s, call)
    ensures Legal(c, s, EventsOf(call)) && Run(c, s, EventsOf(call)) == CallRun(c, s, call)
  {
    hide Apply, Enabled, IsCall, Legal, Run;
    if call.Announcement? {
      AnnouncementIsLegal(c, s, call.key);
    }
  }

  /** The state a session leads to. */
  ghost function Served(c: Config, s: State, calls: seq<Call>): State
    requires Session(c, s, calls)
    decreases |calls|
  {
    if calls == [] then s else Served(c, CallRun(c, s, calls[0]), calls[1..])
  }

  /** Sessions are runs of the step model. */
  lemma {:induction false} SessionIsRun(c: Config, s: State, calls: seq<Call>)
    requires Session(c, s, calls)
    ensures Legal(c, s, AllEvents(calls)) && Run(c, s, AllEvents(calls)) == Served(c, s, calls)
    decreases |calls|
  {
    hide CallAt, CallRun, Apply, Enabled;
    if calls != [] {
      CallIsRun(c, s, calls[0]);
      SessionIsRun(c, CallRun(c, s, calls[0]), calls[1..]);
      hide Legal, Run;
      RunConcat(c, s, EventsOf(calls[0]), AllEvents(calls[1..]));
    }
  }

  lemma {:induction false} SessionAppend(c: Config, s: State, calls: seq<Call>, call: Call)
    requires Session(c, s, calls) && CallAt(c, Served(c, s, calls), call)
    ensures Session(c, s, calls + [call]) && Served(c, s, calls + [call]) == CallRun(c, Served(c, s, calls), call)
    ensures AllEvents(calls + [call]) == AllEvents(calls) + EventsOf(call)
    decreases |calls|
  {
    hide CallAt, CallRun;
    var longer := calls + [call];
    if calls == [] {
      assert longer[1..] == [] && AllEvents(longer) == EventsOf(call) + [];
      assert Session(c, CallRun(c, s, call), []);
    } else {
      SessionAppend(c, CallRun(c, s, calls[0]), calls[1..], call);
      assert longer[0] == calls[0] && longer[1..] == calls[1..] + [call];
      Associate(EventsOf(calls[0]), AllEvents(calls[1..]), EventsOf(call));
    }
  }

  lemma Associate<T>(x: seq<T>, y: seq<T>, z: seq<T>)
    ensures x + (y + z) == (x + y) + z
  {
  }
}
