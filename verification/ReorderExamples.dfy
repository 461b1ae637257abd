/** Sessions that show why the conditions of the merge theorem and of the index theorem are there. */
module ReorderExamples {
  import opened Prelude
  import opened AvConv
  import opened Heap
  import opened ReorderModel
  import opened ReorderMerge
  import opened ReorderCalls

  const STREAM_A := StreamKey(0, Some(1))
  const STREAM_B := StreamKey(1, Some(1))

  // ---- Sessions, and clean ones ----

  /** The events of the session are clean, as the merge theorem asks. */
  ghost predicate CleanSession(c: Config, calls: seq<Call>) {
    Session(c, Init, calls) && Legal(c, Init, AllEvents(calls)) && Clean(c, Init, AllEvents(calls))
  }

  lemma NoCalls(c: Config)
    ensures Session(c, Init, []) && Served(c, Init, []) == Init && CleanSession(c, [])
  {
  }

  lemma OneMoreCall(c: Config, calls: seq<Call>, call: Call)
    requires Session(c, Init, calls) && CallAt(c, Served(c, Init, calls), call)
    ensures Session(c, Init, calls + [call])
    ensures Served(c, Init, calls + [call]) == CallRun(c, Served(c, Init, calls), call)
    ensures Legal(c, Served(c, Init, calls), EventsOf(call))
    ensures CleanSession(c, calls) && Clean(c, Served(c, Init, calls), EventsOf(call)) ==> CleanSession(c, calls + [call])
  {
    hide CallAt, CallRun, Legal, Clean, Run;
    SessionAppend(c, Init, calls, call);
    SessionIsRun(c, Init, calls);
    SessionIsRun(c, Init, calls + [call]);
    CallIsRun(c, Served(c, Init, calls), call);
    if CleanSession(c, calls) && Clean(c, Served(c, Init, calls), EventsOf(call)) {
      CleanConcat(c, Init, AllEvents(calls), EventsOf(call));
    }
  }

  // ---- Two kinds of calls ----

  /** x is as far from the oldest item as the configuration allows, or nearer, and not behind it. */
  lemma NotFar(c: Config, s: State, x: Item, y: Item)
    requires IsMin(y, s.queue, Dts) && 0 <= x.dts - y.dts <= Limit(c)
    ensures !FarBehind(c, s, x) && !FarAhead(c, s, x)
  {
    hide IsMin, IsTooOld, IsTooNew;
    WithinLimit(c, y.dts, x.dts);
    forall z | IsMin(z, s.queue, Dts) ensures z.dts == y.dts {
      OneLeast(s.queue, y, z);
    }
  }

  lemma OneLeast(queue: multiset<Item>, y: Item, z: Item)
    requires IsMin(y, queue, Dts) && IsMin(z, queue, Dts)
    ensures y.dts == z.dts
  {
    assert Dts(y) <= Dts(z) <= Dts(y);
  }

  lemma WithinLimit(c: Config, current: Int64, new_: Int64)
    requires 0 <= new_ - current <= Limit(c)
    ensures !IsTooOld(c, current, new_) && !IsTooNew(c, current, new_)
  {
    var diff := new_ - current;
    assert Wrap64(diff) == diff && Wrap64(-diff) == -diff;
    hide Limit, Wrap64;
  }

  lemma NothingQueued(c: Config, s: State, x: Item)
    requires s.queue == multiset{}
    ensures !FarBehind(c, s, x) && !FarAhead(c, s, x)
  {
  }

  lemma OneEvent(c: Config, s: State, e: Event)
    requires Enabled(c, s, e)
    ensures Legal(c, s, [e]) && Run(c, s, [e]) == Apply(c, s, e)
    ensures CleanStep(s, e) ==> Clean(c, s, [e])
  {
    hide Enabled, Apply, CleanStep;
    assert [e][1..] == [] && Legal(c, Apply(c, s, e), []);
  }

  lemma OneEventMore(c: Config, s: State, e: Event, es: seq<Event>)
    requires Enabled(c, s, e) && Legal(c, Apply(c, s, e), es)
    ensures Legal(c, s, [e] + es) && Run(c, s, [e] + es) == Run(c, Apply(c, s, e), es)
    ensures CleanStep(s, e) && Clean(c, Apply(c, s, e), es) ==> Clean(c, s, [e] + es)
  {
    hide Enabled, Apply, CleanStep;
    assert ([e] + es)[1..] == es;
  }

  /** An item is queued, and then a stream is empty or the start is not due. */
  lemma QuietCall(c: Config, s: State, x: Item, startMet: bool) returns (call: Call)
    requires |s.queue| < c.capacity && !FarBehind(c, s, x) && !FarAhead(c, s, x)
    requires Enqueued(s.(failed := false), x).emptyCount != 0 || (!s.started && !startMet)
    ensures CallAt(c, s, call) && CallRun(c, s, call) == Enqueued(s.(failed := false), x)
    ensures Legal(c, s, EventsOf(call)) && (Key(x) in s.streams ==> Clean(c, s, EventsOf(call)))
  {
    hide FarBehind, FarAhead, Enqueued, Legal, Run, Clean, SendLoop;
    call := Pushing(x, startMet, [Enqueue(x)], Through);
    OneEvent(c, s, Enqueue(x));
    assert Enqueued(s.(failed := false), x).started == s.started by { EnqueuedStarted(s.(failed := false), x); }
    assert [Enqueue(x)] + [] == [Enqueue(x)];
    StoreIs(c, s, x, startMet, [], Through);
  }

  lemma EnqueuedStarted(s: State, x: Item)
    ensures Enqueued(s, x).started == s.started && Enqueued(s, x).prevDTS == s.prevDTS
    ensures Enqueued(s, x).backwards == s.backwards && Enqueued(s, x).offered == s.offered + [x]
    ensures Enqueued(s, x).queue == s.queue + multiset{x}
  {
  }

  /** The state after y, the only item of its stream, was popped and sent. */
  ghost predicate SentFrom(v: State, y: Item, w: State) {
    && w.queue == v.queue - multiset{y} && w.streams == v.streams[Key(y) := multiset{}]
    && w.emptyCount == v.emptyCount + 1 && w.started == v.started && w.offered == v.offered
    && (w.backwards <==> v.backwards || v.prevDTS > Time(y))
    && (v.prevDTS <= Time(y) ==> w.prevDTS == Time(y) && !w.failed)
  }

  lemma SendAlone(c: Config, v: State, y: Item)
    requires IsMin(y, v.queue, Dts) && Key(y) in v.streams && v.streams[Key(y)] == multiset{y.dts as int}
    requires v.started && v.emptyCount == 0
    ensures var e := Send(y, true, AllStreamsReady);
      Enabled(c, v, e) && CleanStep(v, e) && SentFrom(v, y, Apply(c, v, e))
  {
    hide Time;
    PopStreams(v.(failed := false), y);
    hide IsMin;
    assert Matches(v, y) by { LeastOfOne(y.dts); }
  }

  lemma LeastOfOne(d: int)
    ensures IsMin(d, multiset{d}, Same)
  {
  }

  /** A single send, after which a stream is empty. */
  lemma OneSend(c: Config, v: State, y: Item) returns (end: End)
    requires IsMin(y, v.queue, Dts) && Key(y) in v.streams && v.streams[Key(y)] == multiset{y.dts as int}
    requires v.started && v.emptyCount == 0
    ensures var e := Send(y, true, AllStreamsReady);
      && end != Panic && SendLoop(c, v, AllStreamsReady, [e], end)
      && Legal(c, v, [e]) && Clean(c, v, [e]) && SentFrom(v, y, Run(c, v, [e]))
  {
    var e := Send(y, true, AllStreamsReady);
    SendAlone(c, v, y);
    hide Enabled, Apply, IsMin, CleanStep, Time;
    OneEvent(c, v, e);
    assert [] + [e] == [e];
    LoopGoesOn(c, v, AllStreamsReady, [], e);
    end := if Apply(c, v, e).failed then Error else Through;
  }

  /** An item is queued, then every stream has one, and the oldest is sent. */
  lemma SendingCall(c: Config, s: State, x: Item, y: Item) returns (call: Call)
    requires |s.queue| < c.capacity && !FarBehind(c, s, x) && !FarAhead(c, s, x)
    requires var u := Enqueued(s.(failed := false), x);
      && u.emptyCount == 0 && IsMin(y, u.queue, Dts)
      && Key(y) in u.streams && u.streams[Key(y)] == multiset{y.dts as int}
    ensures CallAt(c, s, call)
    ensures SentFrom(Enqueued(s.(failed := false), x).(started := true), y, CallRun(c, s, call))
    ensures Legal(c, s, EventsOf(call)) && (Key(x) in s.streams ==> Clean(c, s, EventsOf(call)))
  {
    hide FarBehind, FarAhead, Enqueued, Time, SendLoop, IsMin, Legal, Run, Clean, SentFrom;
    var u := Enqueued(s.(failed := false), x);
    EnqueuedStarted(s.(failed := false), x);
    assert Enabled(c, s, Enqueue(x)) && Apply(c, s, Enqueue(x)) == u;
    var v := u.(started := true);
    var e := Send(y, true, AllStreamsReady);
    var end := OneSend(c, v, y);
    var pull := [e];
    if !u.started {
      StartStep(c, u);
      assert Apply(c, u, Start) == v by { assert !u.failed by { EnqueuedNotFailed(s, x); } }
      OneEventMore(c, u, Start, [e]);
      PullIs(c, u, [e], end);
      pull := [Start] + [e];
    } else {
      assert v == u;
    }
    hide Enabled, Apply;
    OneEventMore(c, s, Enqueue(x), pull);
    StoreIs(c, s, x, true, pull, end);
    call := Pushing(x, true, [Enqueue(x)] + pull, end);
  }

  lemma EnqueuedNotFailed(s: State, x: Item)
    ensures !Enqueued(s.(failed := false), x).failed
  {
  }

  lemma StartStep(c: Config, s: State)
    requires s.emptyCount == 0 && s.streams != map[]
    ensures Enabled(c, s, Start) && Apply(c, s, Start) == s.(failed := false, started := true) && CleanStep(s, Start)
  {
  }

  // ---- Two streams ----

  /** Streams A and B, what each has queued, and the rest of what matters. */
  ghost predicate TwoStreams(s: State, queue: multiset<Item>, a: multiset<int>, b: multiset<int>,
                             empty: int, started: bool, prevDTS: int, offered: seq<Item>) {
    && s.queue == queue && s.streams == map[STREAM_A := a, STREAM_B := b] && s.emptyCount == empty
    && s.started == started && s.prevDTS == prevDTS && s.offered == offered && !s.backwards
  }

  lemma AnnounceBoth(c: Config) returns (calls: seq<Call>)
    ensures CleanSession(c, calls) && Session(c, Init, calls)
    ensures TwoStreams(Served(c, Init, calls), multiset{}, multiset{}, multiset{}, 2, false, 0, [])
  {
    NoCalls(c);
    OneEvent(c, Init, Announce(STREAM_A));
    OneMoreCall(c, [], Announcement(STREAM_A));
    var s := CallRun(c, Init, Announcement(STREAM_A));
    assert s.streams == map[STREAM_A := multiset{}] && s.emptyCount == 1;
    OneEvent(c, s, Announce(STREAM_B));
    OneMoreCall(c, [] + [Announcement(STREAM_A)], Announcement(STREAM_B));
    calls := [] + [Announcement(STREAM_A)] + [Announcement(STREAM_B)];
    hide CleanSession;
    assert CallRun(c, s, Announcement(STREAM_B)).streams == map[STREAM_A := multiset{}, STREAM_B := multiset{}];
  }

  lemma EnqueueFirstA(s: State, x: Item, b: multiset<int>, queue: multiset<Item>, empty: int, started: bool, prevDTS: int, offered: seq<Item>)
    requires TwoStreams(s, queue, multiset{}, b, empty, started, prevDTS, offered) && Key(x) == STREAM_A
    ensures TwoStreams(Enqueued(s.(failed := false), x), queue + multiset{x}, multiset{x.dts as int}, b,
                       empty - 1, started, prevDTS, offered + [x])
  {
    hide Enqueued;
    EnqueueFirst(s.(failed := false), x);
    UpdateA(multiset{}, b, multiset{x.dts as int});
  }

  lemma UpdateA(a: multiset<int>, b: multiset<int>, m: multiset<int>)
    ensures map[STREAM_A := a, STREAM_B := b][STREAM_A := m] == map[STREAM_A := m, STREAM_B := b]
  {
  }

  lemma UpdateB(a: multiset<int>, b: multiset<int>, m: multiset<int>)
    ensures map[STREAM_A := a, STREAM_B := b][STREAM_B := m] == map[STREAM_A := a, STREAM_B := m]
  {
  }

  lemma EnqueueFirstB(s: State, x: Item, a: multiset<int>, queue: multiset<Item>, empty: int, started: bool, prevDTS: int, offered: seq<Item>)
    requires TwoStreams(s, queue, a, multiset{}, empty, started, prevDTS, offered) && Key(x) == STREAM_B
    ensures TwoStreams(Enqueued(s.(failed := false), x), queue + multiset{x}, a, multiset{x.dts as int},
                       empty - 1, started, prevDTS, offered + [x])
  {
    hide Enqueued;
    EnqueueFirst(s.(failed := false), x);
    UpdateB(a, multiset{}, multiset{x.dts as int});
  }

  /** The first item of an announced stream. */
  lemma EnqueueFirst(s: State, x: Item)
    requires Key(x) in s.streams && s.streams[Key(x)] == multiset{}
    ensures var u := Enqueued(s, x);
      && u.queue == s.queue + multiset{x} && u.streams == s.streams[Key(x) := multiset{x.dts as int}]
      && u.emptyCount == s.emptyCount - 1 && u.started == s.started && u.prevDTS == s.prevDTS
      && u.offered == s.offered + [x] && u.backwards == s.backwards
  {
    assert multiset{} + multiset{x.dts as int} == multiset{x.dts as int};
  }

  lemma SentOfA(v: State, y: Item, w: State, queue: multiset<Item>, b: multiset<int>, prevDTS: int, offered: seq<Item>)
    requires TwoStreams(v, queue, multiset{y.dts as int}, b, 0, true, prevDTS, offered)
    requires SentFrom(v, y, w) && Key(y) == STREAM_A && prevDTS <= Time(y)
    ensures TwoStreams(w, queue - multiset{y}, multiset{}, b, 1, true, Time(y), offered)
  {
    hide Time;
    UpdateA(multiset{y.dts as int}, b, multiset{});
  }

  lemma FirstOfTwo(a: Item, b: Item)
    requires a.dts <= b.dts
    ensures IsMin(a, multiset{a, b}, Dts) && multiset{a, b} - multiset{a} == multiset{b}
    ensures multiset{a} + multiset{b} == multiset{a, b} && multiset{b} + multiset{a} == multiset{a, b}
    ensures multiset{} + multiset{a} == multiset{a} && multiset{} + multiset{b} == multiset{b}
    ensures IsMin(a, multiset{a}, Dts) && IsMin(b, multiset{b}, Dts)
  {
    assert Dts(a) <= Dts(b);
  }

  /** With b queued, the other stream empty and b's time before the last one sent, the next item of
      that stream makes the call send b, and the order check fails. */
  lemma NextCallFails(c: Config, calls: seq<Call>, a: Item, b: Item, a2: Item, prevDTS: int) returns (calls': seq<Call>)
    requires Session(c, Init, calls) && c.capacity >= 2
    requires TwoStreams(Served(c, Init, calls), multiset{b}, multiset{}, multiset{b.dts as int}, 1, true, prevDTS, [a, b])
    requires Key(a2) == STREAM_A && Key(b) == STREAM_B && 0 <= a2.dts - b.dts <= Limit(c) && Time(b) < prevDTS
    ensures Session(c, Init, calls')
    ensures Served(c, Init, calls').backwards && Served(c, Init, calls').offered == [a, b, a2]
    ensures CleanSession(c, calls) ==> CleanSession(c, calls')
  {
    hide Session, CleanSession, Clean, Legal, CallAt, CallRun, FarBehind, FarAhead, IsMin, Time, Enqueued;
    var s := Served(c, Init, calls);
    FirstOfTwo(b, a2);
    NotFar(c, s, a2, b);
    EnqueueFirstA(s, a2, multiset{b.dts as int}, multiset{b}, 1, true, prevDTS, [a, b]);
    var call := SendingCall(c, s, a2, b);
    OneMoreCall(c, calls, call);
    calls' := calls + [call];
    assert [a, b] + [a2] == [a, b, a2];
  }

  /** Two announced streams whose time bases disagree on two raw DTSs, d <= e, no farther apart than
      the configuration allows: the heap sends the item at d first, and the item at e, which is
      earlier in time, then fails the order check. All other conditions of the merge theorem hold. */
  lemma MixedTimeBasesFail(c: Config, d: Int64, e: Int64, tbA: TimeBase, tbB: TimeBase) returns (calls: seq<Call>)
    requires c.capacity >= 2 && 0 <= d <= e && e - d <= Limit(c) && Duration(e, tbB) < Duration(d, tbA)
    ensures CleanSession(c, calls) && Session(c, Init, calls) && Served(c, Init, calls).backwards
    ensures var xs := Served(c, Init, calls).offered; PerStreamOrdered(xs) && NonNegative(xs) && InBases(xs, tbA, tbB)
  {
    hide CleanSession, Clean, Legal, CallAt, CallRun, FarBehind, FarAhead, IsMin, Enqueued;
    DurationMonotone(d, d, tbA);
    hide Duration;
    var a, b, a2 := Packet(0, 0, 1, d, tbA), Packet(1, 1, 1, e, tbB), Packet(2, 0, 1, e, tbA);
    calls := AnnounceBoth(c);
    calls := OneEach(c, calls, a, b);
    calls := NextCallFails(c, calls, a, b, a2, Time(a));
    ThreeItems(a, b, a2);
  }

  /** One item of each stream, and the older one is sent. */
  lemma OneEach(c: Config, calls: seq<Call>, a: Item, b: Item) returns (calls': seq<Call>)
    requires CleanSession(c, calls) && Session(c, Init, calls) && c.capacity >= 2
    requires TwoStreams(Served(c, Init, calls), multiset{}, multiset{}, multiset{}, 2, false, 0, [])
    requires Key(a) == STREAM_A && Key(b) == STREAM_B && 0 <= b.dts - a.dts <= Limit(c) && 0 <= Time(a)
    ensures CleanSession(c, calls') && Session(c, Init, calls')
    ensures TwoStreams(Served(c, Init, calls'), multiset{b}, multiset{}, multiset{b.dts as int}, 1, true, Time(a), [a, b])
  {
    hide Session, CleanSession, Clean, Legal, CallAt, CallRun, FarBehind, FarAhead, IsMin, Time, Enqueued;
    var s := Served(c, Init, calls);
    FirstOfTwo(a, b);
    NothingQueued(c, s, a);
    EnqueueFirstA(s, a, multiset{}, multiset{}, 2, false, 0, []);
    var call := QuietCall(c, s, a, true);
    OneMoreCall(c, calls, call);
    calls' := calls + [call];
    assert [] + [a] == [a];
    calls' := SecondOfB(c, calls', a, b);
  }

  lemma SecondOfB(c: Config, calls: seq<Call>, a: Item, b: Item) returns (calls': seq<Call>)
    requires CleanSession(c, calls) && Session(c, Init, calls) && c.capacity >= 2
    requires TwoStreams(Served(c, Init, calls), multiset{a}, multiset{a.dts as int}, multiset{}, 1, false, 0, [a])
    requires Key(a) == STREAM_A && Key(b) == STREAM_B && 0 <= b.dts - a.dts <= Limit(c) && 0 <= Time(a)
    ensures CleanSession(c, calls') && Session(c, Init, calls')
    ensures TwoStreams(Served(c, Init, calls'), multiset{b}, multiset{}, multiset{b.dts as int}, 1, true, Time(a), [a, b])
  {
    hide Session, CleanSession, Clean, Legal, CallAt, CallRun, FarBehind, FarAhead, IsMin, Time, Enqueued, SentFrom;
    var s := Served(c, Init, calls);
    FirstOfTwo(a, b);
    NotFar(c, s, b, a);
    EnqueueFirstB(s, b, multiset{a.dts as int}, multiset{a}, 1, false, 0, [a]);
    assert [a] + [b] == [a, b];
    var call := SendingCall(c, s, b, a);
    OneMoreCall(c, calls, call);
    calls' := calls + [call];
    var v := Enqueued(s.(failed := false), b).(started := true);
    SentOfA(v, a, CallRun(c, s, call), multiset{a, b}, multiset{b.dts as int}, 0, [a, b]);
  }

  lemma ThreeItems(a: Item, b: Item, a2: Item)
    requires Key(a) == Key(a2) != Key(b) && 0 <= a.dts <= a2.dts && 0 <= b.dts
    ensures PerStreamOrdered([a, b, a2]) && NonNegative([a, b, a2])
    ensures a.timeBase == a2.timeBase ==> InBases([a, b, a2], a.timeBase, b.timeBase)
    ensures a.timeBase == b.timeBase == a2.timeBase ==> OneTimeBase([a, b, a2])
  {
  }

  /** Each stream keeps to one of two time bases. */
  ghost predicate InBases(xs: seq<Item>, tbA: TimeBase, tbB: TimeBase) {
    && (forall x :: x in xs ==> x.timeBase == tbA || x.timeBase == tbB)
    && (forall x, y :: x in xs && y in xs && Key(x) == Key(y) ==> x.timeBase == y.timeBase)
  }

  /** The second stream shows up only with its first item b, after an item a of the first stream that
      is later in time was sent: the next item of that stream, not before b and no farther from
      it than the configuration allows, makes b fail the order check, whatever the time bases
      and even if both streams are ordered. */
  lemma LateStreamFails(c: Config, a: Item, b: Item, a2: Item) returns (calls: seq<Call>)
    requires c.capacity >= 2 && Key(a) == Key(a2) == STREAM_A && Key(b) == STREAM_B
    requires 0 <= Time(a) && Time(b) < Time(a) && 0 <= a2.dts - b.dts <= Limit(c)
    ensures Session(c, Init, calls)
    ensures Served(c, Init, calls).backwards && Served(c, Init, calls).offered == [a, b, a2]
    ensures 0 <= a.dts <= a2.dts && 0 <= b.dts ==> PerStreamOrdered([a, b, a2]) && NonNegative([a, b, a2])
  {
    hide Session, CleanSession, CallAt, CallRun, FarBehind, FarAhead, IsMin, Time, Enqueued, PerStreamOrdered, NonNegative;
    if 0 <= a.dts <= a2.dts && 0 <= b.dts {
      ThreeItems(a, b, a2);
    }
    calls := OneSent(c, a);
    var s := Served(c, Init, calls);
    NothingQueued(c, s, b);
    NewStream(s, b, Time(a), [a]);
    var call := QuietCall(c, s, b, true);
    OneMoreCall(c, calls, call);
    calls := calls + [call];
    assert [a] + [b] == [a, b];
    calls := NextCallFails(c, calls, a, b, a2, Time(a));
  }

  /** A lone stream sends its items as they come. */
  lemma OneSent(c: Config, x: Item) returns (calls: seq<Call>)
    requires c.capacity >= 1 && Key(x) == STREAM_A && Time(x) >= 0
    ensures Session(c, Init, calls)
    ensures var s := Served(c, Init, calls);
      && s.queue == multiset{} && s.streams == map[STREAM_A := multiset{}] && s.emptyCount == 1
      && s.started && s.prevDTS == Time(x) && s.offered == [x] && !s.backwards
  {
    hide Session, CleanSession, CallAt, CallRun, FarBehind, FarAhead, Time;
    NoCalls(c);
    NothingQueued(c, Init, x);
    FirstEver(x);
    var call := SendingCall(c, Init, x, x);
    OneMoreCall(c, [], call);
    calls := [] + [call];
    assert map[STREAM_A := multiset{x.dts as int}][STREAM_A := multiset{}] == map[STREAM_A := multiset{}];
    assert multiset{x} - multiset{x} == multiset{};
  }

  lemma FirstEver(x: Item)
    ensures var u := Enqueued(Init.(failed := false), x);
      && u.queue == multiset{x} && u.streams == map[Key(x) := multiset{x.dts as int}] && u.emptyCount == 0
      && !u.started && u.prevDTS == 0 && u.offered == [x] && !u.backwards && IsMin(x, u.queue, Dts)
      && u.lost == multiset{}
  {
    assert multiset{} + multiset{x.dts as int} == multiset{x.dts as int};
  }

  lemma NewStream(s: State, y: Item, prevDTS: int, offered: seq<Item>)
    requires s.queue == multiset{} && s.streams == map[STREAM_A := multiset{}] && s.emptyCount == 1 && s.started
    requires s.prevDTS == prevDTS && s.offered == offered && !s.backwards && Key(y) == STREAM_B
    ensures TwoStreams(Enqueued(s.(failed := false), y), multiset{y}, multiset{}, multiset{y.dts as int},
                       1, true, prevDTS, offered + [y])
  {
    assert multiset{} + multiset{y.dts as int} == multiset{y.dts as int};
  }

  // ---- Discarding ----

  /** Three items of streams A, A and B that come in order, as far apart as the configuration allows:
      discarding the first to make space leaves its DTS in its stream's heap, so the call with the
      third one, after discarding, queueing and starting, panics at its first send. */
  lemma DiscardingCrashes(c: Config, a: Item, a2: Item, b: Item) returns (calls: seq<Call>, last: seq<Event>)
    requires c.discardUnordered && c.capacity == 2
    requires Key(a) == Key(a2) == STREAM_A && Key(b) == STREAM_B
    requires a.dts < a2.dts <= b.dts && b.dts - a.dts <= Limit(c)
    ensures Session(c, Init, calls) && IsCall(c, Served(c, Init, calls), b, true, last, Panic)
    ensures last == [DiscardOldest(a), Enqueue(b), Start]
  {
    hide Session, CleanSession, CallAt, CallRun, FarBehind, FarAhead, IsMin, Enqueued, IsTake;
    calls := AnnounceBoth(c);
    calls := TwoOfA(c, calls, a, a2);
    var s := Served(c, Init, calls);
    FirstOfTwo(a, a2);
    NotFar(c, s, b, a);
    last := [DiscardOldest(a), Enqueue(b), Start];
    PanickingCall(c, s, a, a2, b);
  }

  lemma TwoOfA(c: Config, calls: seq<Call>, x: Item, y: Item) returns (calls': seq<Call>)
    requires Session(c, Init, calls) && c.capacity >= 2 && Key(x) == Key(y) == STREAM_A
    requires TwoStreams(Served(c, Init, calls), multiset{}, multiset{}, multiset{}, 2, false, 0, [])
    requires 0 <= y.dts - x.dts <= Limit(c)
    ensures Session(c, Init, calls')
    ensures TwoStreams(Served(c, Init, calls'), multiset{x, y}, multiset{x.dts as int, y.dts as int}, multiset{},
                       1, false, 0, [x, y])
  {
    hide Session, CleanSession, CallAt, CallRun, FarBehind, FarAhead, IsMin, Enqueued;
    var s := Served(c, Init, calls);
    FirstOfTwo(x, y);
    NothingQueued(c, s, x);
    EnqueueFirstA(s, x, multiset{}, multiset{}, 2, false, 0, []);
    var call := QuietCall(c, s, x, true);
    OneMoreCall(c, calls, call);
    calls' := calls + [call];
    assert [] + [x] == [x] && [x] + [y] == [x, y];
    var t := Served(c, Init, calls');
    NotFar(c, t, y, x);
    EnqueueSecondA(t, x, y);
    call := QuietCall(c, t, y, true);
    OneMoreCall(c, calls', call);
    calls' := calls' + [call];
  }

  lemma EnqueueSecondA(s: State, x: Item, y: Item)
    requires TwoStreams(s, multiset{x}, multiset{x.dts as int}, multiset{}, 1, false, 0, [x]) && Key(y) == STREAM_A
    ensures TwoStreams(Enqueued(s.(failed := false), y), multiset{x, y}, multiset{x.dts as int, y.dts as int}, multiset{},
                       1, false, 0, [x, y])
  {
    Pair(x, y);
    Pair(x.dts as int, y.dts as int);
    UpdateA(multiset{x.dts as int}, multiset{}, multiset{x.dts as int, y.dts as int});
  }

  lemma Pair<T>(x: T, y: T)
    ensures multiset{x} + multiset{y} == multiset{x, y} && [x] + [y] == [x, y] && multiset{x} != multiset{}
  {
  }

  lemma PanickingCall(c: Config, s: State, a: Item, a2: Item, b: Item)
    requires TwoStreams(s, multiset{a, a2}, multiset{a.dts as int, a2.dts as int}, multiset{}, 1, false, 0, [a, a2])
    requires c.discardUnordered && c.capacity == 2 && !FarBehind(c, s, b) && !FarAhead(c, s, b)
    requires Key(a) == Key(a2) == STREAM_A && Key(b) == STREAM_B && a.dts < a2.dts <= b.dts
    ensures IsCall(c, s, b, true, [DiscardOldest(a), Enqueue(b), Start], Panic)
  {
    hide FarBehind, FarAhead, Enqueued, IsStore, IsMin;
    var e := DiscardOldest(a);
    FirstOfTwo(a, a2);
    assert Enabled(c, s, e);
    var t := Apply(c, s, e);
    assert TwoStreams(t, multiset{a2}, multiset{a.dts as int, a2.dts as int}, multiset{}, 1, false, 0, [a, a2]);
    hide Enabled, Apply, TwoStreams;
    StuckStore(c, t, a, a2, b);
    TwoQueued(s, a, a2);
    TakeIs(c, s, b, true, e, [Enqueue(b), Start], Panic);
    assert [e] + [Enqueue(b), Start] == [e, Enqueue(b), Start];
  }

  lemma TwoQueued(s: State, a: Item, a2: Item)
    requires TwoStreams(s, multiset{a, a2}, multiset{a.dts as int, a2.dts as int}, multiset{}, 1, false, 0, [a, a2])
    ensures |s.queue| == 2
  {
  }

  lemma StuckStore(c: Config, t: State, a: Item, a2: Item, b: Item)
    requires TwoStreams(t, multiset{a2}, multiset{a.dts as int, a2.dts as int}, multiset{}, 1, false, 0, [a, a2])
    requires c.capacity == 2 && Key(a2) == STREAM_A && Key(b) == STREAM_B && a.dts < a2.dts <= b.dts
    ensures IsStore(c, t, b, true, [Enqueue(b), Start], Panic)
  {
    hide Enqueued, IsMin, SendLoop;
    FirstOfTwo(a2, b);
    EnqueueFirstB(t, b, multiset{a.dts as int, a2.dts as int}, multiset{a2}, 1, false, 0, [a, a2]);
    var u := Enqueued(t.(failed := false), b);
    assert Enabled(c, t, Enqueue(b)) && Apply(c, t, Enqueue(b)) == u;
    assert STREAM_A in u.streams;
    StartStep(c, u);
    StuckStart(c, u.(failed := false, started := true), a, a2);
    hide Enabled, Apply;
    PullIs(c, u, [], Panic);
    StoreIs(c, t, b, true, [Start] + [], Panic);
    assert [Enqueue(b)] + ([Start] + []) == [Enqueue(b), Start];
  }

  /** The oldest item does not carry the least DTS of its stream. */
  lemma StuckStart(c: Config, v: State, a: Item, a2: Item)
    requires IsMin(a2, v.queue, Dts) && v.started && v.emptyCount == 0
    requires Key(a2) in v.streams && v.streams[Key(a2)] == multiset{a.dts as int, a2.dts as int} && a.dts < a2.dts
    ensures SendLoop(c, v, AllStreamsReady, [], Panic)
  {
    assert !Matches(v, a2) by { assert Same(a.dts) < Same(a2.dts); }
    assert SendDue(c, v, a2, AllStreamsReady);
    assert Legal(c, v, []) && Run(c, v, []) == v;
    hide IsMin, Matches;
  }

  // ---- An item lost without an error ----

  /** A full queue whose flush fails: item y is neither too old nor far ahead, is dropped, and the
      call ends without an error. */
  lemma FailedFlushLosesItem(c: Config, x: Item, y: Item) returns (calls: seq<Call>)
    requires c.capacity == 1 && !c.discardUnordered && 0 <= y.dts - x.dts <= Limit(c) && Time(x) >= 0
    ensures Session(c, Init, calls) && |calls| == 2
    ensures calls[1].Pushing? && calls[1].item == y && calls[1].end == Through
    ensures var s := Served(c, Init, calls); y in s.lost && y !in s.queue && s.offered == [x, y]
  {
    hide Session, CleanSession, CallRun, FarBehind, FarAhead, Time, Enqueued;
    NoCalls(c);
    NothingQueued(c, Init, x);
    FirstEver(x);
    var call := QuietCall(c, Init, x, false);
    OneMoreCall(c, [], call);
    calls := [] + [call];
    var s := Served(c, Init, calls);
    NotFar(c, s, y, x);
    call := LosingCall(c, s, x, y);
    OneMoreCall(c, calls, call);
    calls := calls + [call];
  }

  lemma LosingCall(c: Config, s: State, x: Item, y: Item) returns (call: Call)
    requires c.capacity == 1 && !c.discardUnordered && s.queue == multiset{x} && s.prevDTS <= Time(x)
    requires Key(x) in s.streams && s.streams[Key(x)] == multiset{x.dts as int}
    requires s.offered == [x] && IsMin(x, s.queue, Dts) && !FarBehind(c, s, y) && !FarAhead(c, s, y)
    ensures CallAt(c, s, call) && call.Pushing? && call.item == y && call.end == Through
    ensures var t := CallRun(c, s, call); y in t.lost && y !in t.queue && t.offered == [x, y]
  {
    var e, e' := Send(x, false, MakeSpace), Drop(y, SendFailed);
    assert Matches(s, x) by { LeastOfOne(x.dts); }
    assert Enabled(c, s, e);
    FailingSend(c, s, x);
    var t := Apply(c, s, e);
    assert Enabled(c, t, e');
    assert Apply(c, t, e') == t.(failed := false, offered := t.offered + [y], lost := t.lost + multiset{y});
    hide Apply, Enabled, Time, FarBehind, FarAhead, Legal, Run, IsMin, Matches;
    OneEvent(c, t, e');
    OneEventMore(c, s, e, [e']);
    assert ([e] + [e'])[1..] == [e'];
    call := Pushing(y, true, [e] + [e'], Through);
  }

  lemma FailingSend(c: Config, s: State, x: Item)
    requires Enabled(c, s, Send(x, false, MakeSpace)) && s.prevDTS <= Time(x)
    ensures var t := Apply(c, s, Send(x, false, MakeSpace));
      t.failed && t.queue == s.queue - multiset{x} && t.offered == s.offered
  {
    hide Time;
  }
}
