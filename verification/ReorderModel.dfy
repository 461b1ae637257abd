/** The step model of the K-way DTS merge, kernel/reorder_monotonic_dts.go.

    A state holds the two copies the kernel keeps of what is queued (all items, and the DTSs
    per stream) and the hand-maintained number of empty streams. An event is one atomic piece
    of a call. Heaps appear as multisets: which of several least items is popped is left open,
    as the order of equal DTSs is not defined by the heap. */
module ReorderModel {
  import opened Prelude
  import opened AvConv
  import opened Heap

  type SourceId = nat

  /** Frames are keyed without a source, packets with one. */
  datatype StreamKey = StreamKey(index: int, source: Option<SourceId>)

  datatype Item =
    | Packet(id: nat, index: int, source: SourceId, dts: Int64, timeBase: TimeBase)
    | Frame(id: nat, index: int, dts: Int64, timeBase: TimeBase)

  function Key(x: Item): StreamKey {
    StreamKey(x.index, if x.Packet? then Some(x.source) else None)
  }

  function Dts(x: Item): int { x.dts }

  function Same(d: int): int { d }

  function Time(x: Item): int { Duration(x.dts, x.timeBase) }

  datatype Config = Config(capacity: nat, maxDifference: nat, discardUnordered: bool)

  /** Code state first, then what happened so far: every item offered to the kernel, those
      passed on, those dropped on any path, those popped by the discard-on-full branch
      (whose DTS stays behind in its stream's heap), and the last item popped for sending. */
  datatype State = State(
    queue: multiset<Item>,
    streams: map<StreamKey, multiset<int>>,
    emptyCount: int,
    started: bool,
    prevDTS: int,
    offered: seq<Item>,
    sent: seq<Item>,
    lost: multiset<Item>,
    stale: multiset<Item>,
    last: Option<Item>,
    backwards: bool,
    failed: bool)

  const Init := State(multiset{}, map[], 0, false, 0, [], [], multiset{}, multiset{}, None, false, false)

  datatype DropReason = TooOld | SendFailed

  /** Why an item is popped: every stream has one; to make space; the new item is far ahead. */
  datatype SendReason = AllStreamsReady | MakeSpace | CatchUp(newDts: Int64)

  datatype Event =
    | Announce(key: StreamKey)
    | Drop(item: Item, dropReason: DropReason)
    | DiscardOldest(item: Item)
    | Enqueue(item: Item)
    | Start
    | Send(item: Item, delivered: bool, reason: SendReason)

  // ---- The comparisons of enforceLowDTSDifference, in 64-bit arithmetic ----

  function Limit(c: Config): Int64 { Wrap64(c.maxDifference) }

  predicate IsTooOld(c: Config, current: Int64, new_: Int64) {
    var diff: int := Wrap64(new_ - current);
    Wrap64(-diff) > Limit(c)
  }

  predicate IsTooNew(c: Config, current: Int64, new_: Int64) {
    Wrap64(new_ - current) > Limit(c)
  }

  predicate IsBehind(c: Config, current: Int64, new_: Int64) {
    Wrap64(current + Limit(c)) < new_
  }

  /** No DTS is negative, and adding the allowed difference to a queued one stays within 64 bits. */
  ghost predicate NoWrap(c: Config, queue: multiset<Item>, d: Int64) {
    && c.maxDifference < 0x8000_0000_0000_0000 && 0 <= d
    && forall y :: y in queue ==> 0 <= y.dts && y.dts + c.maxDifference < 0x8000_0000_0000_0000
  }

  /** Everything queued is more than the allowed difference after x. */
  ghost predicate FarBefore(c: Config, x: Item, queue: multiset<Item>) {
    queue != multiset{} && forall y :: y in queue ==> x.dts < y.dts - c.maxDifference
  }

  /** Nothing queued is more than the allowed difference before x. */
  ghost predicate NotFarAfter(c: Config, x: Item, queue: multiset<Item>) {
    forall y :: y in queue ==> x.dts <= y.dts + c.maxDifference
  }

  /** In plain integers: an item is too old if it is more than the allowed difference before the
      oldest queued one. */
  lemma TooOldExactly(c: Config, current: Int64, new_: Int64)
    requires c.maxDifference < 0x8000_0000_0000_0000 && 0 <= current && 0 <= new_
    ensures IsTooOld(c, current, new_) <==> new_ < current - c.maxDifference
  {
  }

  /** It is too new if it is more than that after it. */
  lemma TooNewExactly(c: Config, current: Int64, new_: Int64)
    requires c.maxDifference < 0x8000_0000_0000_0000 && 0 <= current && 0 <= new_
    ensures IsTooNew(c, current, new_) <==> new_ > current + c.maxDifference
  {
  }

  lemma BehindExactly(c: Config, current: Int64, new_: Int64)
    requires 0 <= current && current + c.maxDifference < 0x8000_0000_0000_0000
    ensures IsBehind(c, current, new_) <==> current + c.maxDifference < new_
  {
  }

  ghost predicate SendDue(c: Config, s: State, x: Item, reason: SendReason) {
    match reason
    case AllStreamsReady => s.started && s.emptyCount == 0
    case MakeSpace => !c.discardUnordered && |s.queue| >= c.capacity
    case CatchUp(newDts) => IsBehind(c, x.dts, newDts)
  }

  /** The least DTS of x's stream is x's own: the assertion of sendOneItemFromQueue. */
  ghost predicate Matches(s: State, x: Item) {
    Key(x) in s.streams && IsMin(x.dts as int, s.streams[Key(x)], Same)
  }

  ghost predicate Enabled(c: Config, s: State, e: Event) {
    match e
    case Announce(_) => true
    case Drop(x, TooOld) => exists y :: IsMin(y, s.queue, Dts) && IsTooOld(c, y.dts, x.dts)
    case Drop(x, SendFailed) => s.failed
    case DiscardOldest(x) => c.discardUnordered && |s.queue| >= c.capacity && IsMin(x, s.queue, Dts)
    case Enqueue(x) => |s.queue| < c.capacity
    case Start => s.emptyCount == 0 && s.streams != map[]
    case Send(x, _, reason) => IsMin(x, s.queue, Dts) && SendDue(c, s, x, reason) && Matches(s, x)
  }

  /** What pops the queue of items: a send, or the discard-on-full branch. */
  datatype PopCause = ForSending(reason: SendReason) | ForDiscarding

  /** The pop is made even of an empty queue. */
  ghost predicate EmptyPopDue(c: Config, s: State, reason: SendReason) {
    match reason
    case AllStreamsReady => s.started && s.emptyCount == 0
    case MakeSpace => !c.discardUnordered && c.capacity == 0
    case CatchUp(_) => false
  }

  /** A pop that is due finds the queue empty, or it is for a send and makes the assertion of
      sendOneItemFromQueue fail. */
  ghost predicate CrashEnabled(c: Config, s: State, cause: PopCause) {
    match cause
    case ForDiscarding => s.queue == multiset{} && c.discardUnordered && c.capacity == 0
    case ForSending(reason) =>
      || (s.queue == multiset{} && EmptyPopDue(c, s, reason))
      || exists x :: IsMin(x, s.queue, Dts) && SendDue(c, s, x, reason) && !Matches(s, x)
  }

  /** The pops that pushToQueue can come to with an item of DTS d. */
  ghost predicate CallCrashEnabled(c: Config, s: State, d: Int64) {
    || CrashEnabled(c, s, ForDiscarding)
    || CrashEnabled(c, s, ForSending(MakeSpace))
    || CrashEnabled(c, s, ForSending(CatchUp(d)))
    || CrashEnabled(c, s, ForSending(AllStreamsReady))
  }

  ghost function Announced(s: State, k: StreamKey): State {
    if k in s.streams then s
    else s.(streams := s.streams[k := multiset{}], emptyCount := s.emptyCount + 1)
  }

  ghost function Enqueued(s: State, x: Item): State {
    Pushed(Announced(s, Key(x)), x)
  }

  ghost function Pushed(a: State, x: Item): State
    requires Key(x) in a.streams
  {
    a.(queue := a.queue + multiset{x},
       streams := a.streams[Key(x) := a.streams[Key(x)] + multiset{x.dts as int}],
       emptyCount := if a.streams[Key(x)] == multiset{} then a.emptyCount - 1 else a.emptyCount,
       offered := a.offered + [x])
  }

  /** Lines 255-272: both copies lose the item. */
  ghost function Popped(s: State, x: Item): State
    requires Key(x) in s.streams
  {
    var rest := s.streams[Key(x)] - multiset{x.dts as int};
    s.(queue := s.queue - multiset{x},
       streams := s.streams[Key(x) := rest],
       emptyCount := if rest == multiset{} then s.emptyCount + 1 else s.emptyCount,
       last := Some(x))
  }

  /** doSendItem: the order check, then the channel. */
  ghost function Emitted(c: Config, s: State, x: Item, delivered: bool): State {
    if s.prevDTS > Time(x) then
      s.(lost := s.lost + multiset{x}, backwards := true, failed := !c.discardUnordered)
    else if delivered then
      s.(prevDTS := Time(x), sent := s.sent + [x])
    else
      s.(prevDTS := Time(x), lost := s.lost + multiset{x}, failed := true)
  }

  ghost function Apply(c: Config, s0: State, e: Event): State
    requires Enabled(c, s0, e)
  {
    var s := s0.(failed := false);
    match e
    case Announce(k) => Announced(s, k)
    case Drop(x, _) => s.(offered := s.offered + [x], lost := s.lost + multiset{x})
    case DiscardOldest(x) => s.(queue := s.queue - multiset{x}, stale := s.stale + multiset{x})
    case Enqueue(x) => Enqueued(s, x)
    case Start => s.(started := true)
    case Send(x, delivered, _) => Emitted(c, Popped(s, x), x, delivered)
  }

  ghost predicate Legal(c: Config, s: State, es: seq<Event>)
    decreases |es|
  {
    es == [] || (Enabled(c, s, es[0]) && Legal(c, Apply(c, s, es[0]), es[1..]))
  }

  ghost function Run(c: Config, s: State, es: seq<Event>): State
    requires Legal(c, s, es)
    decreases |es|
  {
    if es == [] then s else Run(c, Apply(c, s, es[0]), es[1..])
  }

  lemma {:induction false} RunConcat(c: Config, s: State, a: seq<Event>, b: seq<Event>)
    requires Legal(c, s, a) && Legal(c, Run(c, s, a), b)
    ensures Legal(c, s, a + b) && Run(c, s, a + b) == Run(c, Run(c, s, a), b)
    decreases |a|
  {
    hide Apply, Enabled;
    if a == [] {
      assert a + b == b;
    } else {
      var t := Apply(c, s, a[0]);
      RunConcat(c, t, a[1..], b);
      var ab := a + b;
      assert ab[0] == a[0] && ab[1..] == a[1..] + b;
    }
  }

  lemma RunAppend(c: Config, s: State, es: seq<Event>, e: Event)
    requires Legal(c, s, es) && Enabled(c, Run(c, s, es), e)
    ensures Legal(c, s, es + [e]) && Run(c, s, es + [e]) == Apply(c, Run(c, s, es), e)
  {
    var t := Run(c, s, es);
    hide Apply, Enabled;
    assert Legal(c, Apply(c, t, e), []);
    assert [e][1..] == [];
    assert Legal(c, t, [e]) && Run(c, t, [e]) == Apply(c, t, e);
    RunConcat(c, s, es, [e]);
  }

  // ---- Sends that fail ----

  /** One of the events is a send for the given reason that fails. */
  ghost predicate SendFails(c: Config, s: State, evs: seq<Event>, reason: SendReason)
    requires Legal(c, s, evs)
    decreases |evs|
  {
    evs != [] && ((evs[0].Send? && evs[0].reason == reason && Apply(c, s, evs[0]).failed)
      || SendFails(c, Apply(c, s, evs[0]), evs[1..], reason))
  }

  ghost predicate NoSendFor(evs: seq<Event>, reason: SendReason) {
    forall i :: 0 <= i < |evs| ==> !evs[i].Send? || evs[i].reason != reason
  }

  lemma {:induction false} NoneFails(c: Config, s: State, evs: seq<Event>, reason: SendReason)
    requires Legal(c, s, evs) && NoSendFor(evs, reason)
    ensures !SendFails(c, s, evs, reason)
    decreases |evs|
  {
    hide Apply, Enabled;
    if evs != [] {
      assert !evs[0].Send? || evs[0].reason != reason;
      NoneFails(c, Apply(c, s, evs[0]), evs[1..], reason);
    }
  }

  lemma {:induction false} FailsInEither(c: Config, s: State, a: seq<Event>, b: seq<Event>, reason: SendReason)
    requires Legal(c, s, a) && Legal(c, Run(c, s, a), b)
    ensures Legal(c, s, a + b)
    ensures SendFails(c, s, a + b, reason) <==> SendFails(c, s, a, reason) || SendFails(c, Run(c, s, a), b, reason)
    decreases |a|
  {
    hide Apply, Enabled;
    RunConcat(c, s, a, b);
    var ab := a + b;
    if a == [] {
      assert ab == b;
    } else {
      assert ab[0] == a[0] && ab[1..] == a[1..] + b;
      FailsInEither(c, Apply(c, s, a[0]), a[1..], b, reason);
    }
  }

  lemma OtherEvent(c: Config, s: State, evs: seq<Event>, e: Event)
    requires Legal(c, s, evs) && Enabled(c, Run(c, s, evs), e) && !e.Send?
    ensures Legal(c, s, evs + [e])
    ensures forall r :: SendFails(c, s, evs + [e], r) <==> SendFails(c, s, evs, r)
  {
    RunAppend(c, s, evs, e);
    hide Apply, Enabled;
    var t := Run(c, s, evs);
    assert [e][1..] == [] && Legal(c, Apply(c, t, e), []);
    assert Legal(c, t, [e]);
    forall r ensures Legal(c, s, evs + [e]) && (SendFails(c, s, evs + [e], r) <==> SendFails(c, s, evs, r)) {
      FailsInEither(c, s, evs, [e], r);
      NoneFails(c, t, [e], r);
    }
  }

  // ---- The DTSs of one stream within a bag of items ----

  ghost function One(x: Item, k: StreamKey): multiset<int> {
    if Key(x) == k then multiset{x.dts as int} else multiset{}
  }

  ghost function Proj(q: multiset<Item>, k: StreamKey): multiset<int>
    decreases |q|
  {
    if q == multiset{} then multiset{}
    else var x :| x in q; Proj(q - multiset{x}, k) + One(x, k)
  }

  lemma ProjUnfold(q: multiset<Item>, k: StreamKey) returns (x: Item)
    requires q != multiset{}
    ensures x in q && Proj(q, k) == Proj(q - multiset{x}, k) + One(x, k)
  {
    x :| x in q && Proj(q, k) == Proj(q - multiset{x}, k) + One(x, k);
  }

  lemma {:induction false} ProjRemove(q: multiset<Item>, y: Item, k: StreamKey)
    requires y in q
    ensures Proj(q, k) == Proj(q - multiset{y}, k) + One(y, k)
    decreases |q|
  {
    hide Proj, One;
    var x := ProjUnfold(q, k);
    if x != y {
      var q1, q2 := q - multiset{x}, q - multiset{y};
      ProjRemove(q1, y, k);
      ProjRemove(q2, x, k);
      var rest := q1 - multiset{y};
      assert q2 - multiset{x} == rest;
      var p, px, py := Proj(rest, k), One(x, k), One(y, k);
      assert Proj(q1, k) == p + py && Proj(q2, k) == p + px;
      assert (p + py) + px == (p + px) + py;
    }
  }

  lemma ProjAdd(q: multiset<Item>, y: Item, k: StreamKey)
    ensures Proj(q + multiset{y}, k) == Proj(q, k) + One(y, k)
  {
    ProjRemove(q + multiset{y}, y, k);
    assert q + multiset{y} - multiset{y} == q;
  }

  lemma {:induction false} ProjWitness(q: multiset<Item>, k: StreamKey, d: int) returns (y: Item)
    requires d in Proj(q, k)
    ensures y in q && Key(y) == k && y.dts == d
    decreases |q|
  {
    var x :| x in q && Proj(q, k) == Proj(q - multiset{x}, k) + One(x, k);
    if d in One(x, k) {
      y := x;
    } else {
      y := ProjWitness(q - multiset{x}, k, d);
    }
  }

  lemma Member<T>(m: multiset<T>) returns (x: T)
    requires m != multiset{}
    ensures x in m
  {
    x :| x in m;
  }

  // ---- The per-stream index of a bag of items ----

  ghost function Empties(m: map<StreamKey, multiset<int>>): set<StreamKey> {
    set k | k in m && m[k] == multiset{}
  }

  /** Each stream holds exactly the DTSs of its items in the bag, and `emptyCount` of them hold none. */
  ghost predicate Index(bag: multiset<Item>, streams: map<StreamKey, multiset<int>>, emptyCount: int) {
    && (forall x :: x in bag ==> Key(x) in streams)
    && (forall k :: k in streams ==> streams[k] == Proj(bag, k))
    && emptyCount == |Empties(streams)|
  }

  lemma IndexAnnounce(bag: multiset<Item>, streams: map<StreamKey, multiset<int>>, emptyCount: int, k: StreamKey)
    requires Index(bag, streams, emptyCount) && k !in streams
    ensures Index(bag, streams[k := multiset{}], emptyCount + 1)
  {
    hide Proj;
    assert Empties(streams[k := multiset{}]) == Empties(streams) + {k};
    NothingProjected(bag, k);
  }

  lemma NothingProjected(bag: multiset<Item>, k: StreamKey)
    requires forall x :: x in bag ==> Key(x) != k
    ensures Proj(bag, k) == multiset{}
  {
    hide Proj;
    if Proj(bag, k) != multiset{} {
      var d := Member(Proj(bag, k));
      var y := ProjWitness(bag, k, d);
      assert false;
    }
  }

  lemma IndexAdd(bag: multiset<Item>, streams: map<StreamKey, multiset<int>>, emptyCount: int, x: Item)
    requires Index(bag, streams, emptyCount) && Key(x) in streams
    ensures Index(bag + multiset{x}, streams[Key(x) := streams[Key(x)] + multiset{x.dts as int}],
                  if streams[Key(x)] == multiset{} then emptyCount - 1 else emptyCount)
  {
    hide Proj;
    var k := Key(x);
    var after := streams[k := streams[k] + multiset{x.dts as int}];
    forall k' | k' in after ensures after[k'] == Proj(bag + multiset{x}, k') {
      ProjAdd(bag, x, k');
    }
    EmptiesAfterAddition(streams, k, x.dts);
    hide Empties, One;
  }

  lemma EmptiesAfterAddition(streams: map<StreamKey, multiset<int>>, k: StreamKey, d: int)
    requires k in streams
    ensures |Empties(streams[k := streams[k] + multiset{d}])| ==
      |Empties(streams)| - if streams[k] == multiset{} then 1 else 0
  {
    assert Empties(streams[k := streams[k] + multiset{d}]) == Empties(streams) - {k};
  }

  lemma IndexRemove(bag: multiset<Item>, streams: map<StreamKey, multiset<int>>, emptyCount: int, x: Item)
    requires Index(bag, streams, emptyCount) && x in bag
    ensures x.dts as int in streams[Key(x)]
    ensures var rest := streams[Key(x)] - multiset{x.dts as int};
      Index(bag - multiset{x}, streams[Key(x) := rest], if rest == multiset{} then emptyCount + 1 else emptyCount)
  {
    hide Proj;
    var k, d: int := Key(x), x.dts;
    ProjRemove(bag, x, k);
    assert d in streams[k];
    var rest := streams[k] - multiset{d};
    var after := streams[k := rest];
    forall k' | k' in after ensures after[k'] == Proj(bag - multiset{x}, k') {
      ProjRemove(bag, x, k');
    }
    EmptiesAfterRemoval(streams, k, d);
  }

  lemma EmptiesAfterRemoval(streams: map<StreamKey, multiset<int>>, k: StreamKey, d: int)
    requires k in streams && d in streams[k]
    ensures var rest := streams[k] - multiset{d};
      |Empties(streams[k := rest])| == |Empties(streams)| + if rest == multiset{} then 1 else 0
  {
    var rest := streams[k] - multiset{d};
    var after := streams[k := rest];
    if rest == multiset{} {
      assert Empties(after) == Empties(streams) + {k};
    } else {
      assert Empties(after) == Empties(streams);
    }
  }

  // ---- Every run ----

  ghost predicate SortedByTime(xs: seq<Item>) {
    forall i, j :: 0 <= i < j < |xs| ==> Time(xs[i]) <= Time(xs[j])
  }

  /** What became of the items offered so far. */
  ghost predicate Conserved(s: State) {
    multiset(s.offered) == s.queue + multiset(s.sent) + s.lost + s.stale
  }

  ghost predicate SentInOrder(sent: seq<Item>, prevDTS: int) {
    && SortedByTime(sent)
    && (forall x :: x in sent ==> Time(x) <= prevDTS)
  }

  /** Index, capacity, conservation and order, in every reachable state. */
  ghost predicate Inv(c: Config, s: State) {
    && Index(s.queue + s.stale, s.streams, s.emptyCount)
    && |s.queue| <= c.capacity
    && (s.started ==> s.streams != map[])
    && Conserved(s)
    && SentInOrder(s.sent, s.prevDTS)
    && (!c.discardUnordered ==> s.stale == multiset{})
  }

  lemma InitInv(c: Config)
    ensures Inv(c, Init)
  {
    assert Empties(map[]) == {};
  }

  lemma AnnounceKeepsInv(c: Config, s: State, k: StreamKey)
    requires Inv(c, s)
    ensures Inv(c, Announced(s, k))
  {
    hide Index, Time;
    if k !in s.streams {
      IndexAnnounce(s.queue + s.stale, s.streams, s.emptyCount, k);
    }
  }

  lemma PushKeepsInv(c: Config, a: State, x: Item)
    requires Inv(c, a) && |a.queue| < c.capacity && Key(x) in a.streams
    ensures Inv(c, Pushed(a, x))
  {
    hide Index, SentInOrder, Pushed;
    IndexAdd(a.queue + a.stale, a.streams, a.emptyCount, x);
    PushedFields(a, x);
    BagAfterPush(a.queue, a.stale, x);
    var t := Pushed(a, x);
    assert Key(x) in t.streams;
  }

  lemma BagAfterPush(queue: multiset<Item>, stale: multiset<Item>, x: Item)
    ensures queue + multiset{x} + stale == queue + stale + multiset{x}
  {
  }

  lemma PushedFields(a: State, x: Item)
    requires Key(x) in a.streams
    ensures var t := Pushed(a, x);
      && t.queue == a.queue + multiset{x} && t.offered == a.offered + [x] && t.started == a.started
      && t.sent == a.sent && t.lost == a.lost && t.stale == a.stale && t.prevDTS == a.prevDTS
      && t.streams == a.streams[Key(x) := a.streams[Key(x)] + multiset{x.dts as int}]
      && t.emptyCount == if a.streams[Key(x)] == multiset{} then a.emptyCount - 1 else a.emptyCount
  {
  }

  lemma EnqueueKeepsInv(c: Config, s: State, x: Item)
    requires Inv(c, s) && |s.queue| < c.capacity
    ensures Inv(c, Enqueued(s, x))
  {
    AnnounceKeepsInv(c, s, Key(x));
    hide Inv, Pushed;
    PushKeepsInv(c, Announced(s, Key(x)), x);
  }

  lemma BagAfterPop(queue: multiset<Item>, stale: multiset<Item>, x: Item)
    requires x in queue
    ensures queue - multiset{x} + stale == queue + stale - multiset{x}
  {
  }

  lemma PopStreams(s: State, x: Item)
    requires Key(x) in s.streams
    ensures var p, rest := Popped(s, x), s.streams[Key(x)] - multiset{x.dts as int};
      && p.queue == s.queue - multiset{x} && p.stale == s.stale && p.streams == s.streams[Key(x) := rest]
      && p.emptyCount == if rest == multiset{} then s.emptyCount + 1 else s.emptyCount
  {
  }

  lemma PopKeepsIndex(s: State, x: Item)
    requires x in s.queue && Index(s.queue + s.stale, s.streams, s.emptyCount)
    ensures Key(x) in s.streams
    ensures var t := Popped(s, x); Index(t.queue + t.stale, t.streams, t.emptyCount)
  {
    IndexRemove(s.queue + s.stale, s.streams, s.emptyCount, x);
    BagAfterPop(s.queue, s.stale, x);
    assert Key(x) in s.streams;
    PopStreams(s, x);
    hide Index, Popped;
  }

  lemma EmitKeepsOrder(c: Config, s: State, x: Item, delivered: bool)
    requires SentInOrder(s.sent, s.prevDTS)
    ensures var t := Emitted(c, s, x, delivered); SentInOrder(t.sent, t.prevDTS)
  {
    hide Time;
  }

  lemma EmitFields(c: Config, s: State, x: Item, delivered: bool)
    ensures var t := Emitted(c, s, x, delivered);
      && t.queue == s.queue && t.stale == s.stale && t.streams == s.streams
      && t.emptyCount == s.emptyCount && t.started == s.started
      && t.offered == s.offered && multiset(t.sent) + t.lost == multiset(s.sent) + s.lost + multiset{x}
  {
    hide Time;
  }

  lemma PopFields(s: State, x: Item)
    requires x in s.queue && Key(x) in s.streams
    ensures var p := Popped(s, x);
      && s.queue == p.queue + multiset{x} && |p.queue| < |s.queue|
      && p.streams != map[] && p.started == s.started && p.stale == s.stale
      && p.offered == s.offered && p.sent == s.sent && p.lost == s.lost && p.prevDTS == s.prevDTS
  {
    assert Key(x) in Popped(s, x).streams;
  }

  lemma SendConserves(c: Config, s: State, x: Item, delivered: bool)
    requires Conserved(s) && x in s.queue && Key(x) in s.streams
    ensures Conserved(Emitted(c, Popped(s, x), x, delivered))
  {
    hide Emitted, Popped;
    PopFields(s, x);
    var p := Popped(s, x);
    EmitFields(c, p, x, delivered);
    var t := Emitted(c, p, x, delivered);
    var gone := multiset(t.sent) + t.lost;
    assert gone == multiset(s.sent) + s.lost + multiset{x};
    assert t.queue + multiset(t.sent) + t.lost + t.stale == t.queue + gone + t.stale;
  }

  lemma SendKeepsInv(c: Config, s: State, x: Item, delivered: bool)
    requires Inv(c, s) && x in s.queue && Key(x) in s.streams
    ensures Inv(c, Emitted(c, Popped(s, x), x, delivered))
  {
    hide Index, SentInOrder, Emitted, Popped, Conserved;
    SendConserves(c, s, x, delivered);
    PopKeepsIndex(s, x);
    PopFields(s, x);
    var p := Popped(s, x);
    EmitKeepsOrder(c, p, x, delivered);
    EmitFields(c, p, x, delivered);
  }

  lemma DropKeepsInv(c: Config, s: State, x: Item)
    requires Inv(c, s)
    ensures Inv(c, s.(offered := s.offered + [x], lost := s.lost + multiset{x}))
  {
    hide Index, SentInOrder;
  }

  lemma DiscardKeepsInv(c: Config, s: State, x: Item)
    requires Inv(c, s) && x in s.queue && c.discardUnordered
    ensures Inv(c, s.(queue := s.queue - multiset{x}, stale := s.stale + multiset{x}))
  {
    hide Index, SentInOrder;
    assert s.queue - multiset{x} + (s.stale + multiset{x}) == s.queue + s.stale;
    assert s.queue == s.queue - multiset{x} + multiset{x};
  }

  lemma StepKeepsInv(c: Config, s: State, e: Event)
    requires Inv(c, s) && Enabled(c, s, e)
    ensures Inv(c, Apply(c, s, e))
  {
    hide Announced, Enqueued, Popped, Emitted;
    var s1 := s.(failed := false);
    assert Inv(c, s1);
    hide Inv;
    match e
    case Announce(k) => AnnounceKeepsInv(c, s1, k);
    case Drop(x, _) => DropKeepsInv(c, s1, x);
    case DiscardOldest(x) => DiscardKeepsInv(c, s1, x);
    case Enqueue(x) => EnqueueKeepsInv(c, s1, x);
    case Start => StartKeepsInv(c, s1);
    case Send(x, delivered, _) => SendKeepsInv(c, s1, x, delivered);
  }

  lemma StartKeepsInv(c: Config, s: State)
    requires Inv(c, s) && s.streams != map[]
    ensures Inv(c, s.(started := true))
  {
    hide Index, SentInOrder;
  }

  lemma {:induction false} RunKeepsInv(c: Config, s: State, es: seq<Event>)
    requires Inv(c, s) && Legal(c, s, es)
    ensures Inv(c, Run(c, s, es))
    decreases |es|
  {
    hide Apply, Enabled, Inv;
    if es != [] {
      StepKeepsInv(c, s, es[0]);
      RunKeepsInv(c, Apply(c, s, es[0]), es[1..]);
    }
  }
}
