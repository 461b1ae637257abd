/** Sending one output object to one destination, node/node_serve.go: which counters move on
    which exit. */
module PushToDestination {
  import opened Prelude
  import opened Counters
  import P = Pipeline

  /** The object built for the destination; `id` stands for its payload. */
  datatype Input = Input(id: nat)

  datatype PushTo = PushTo(node: Option<Node>, condition: Option<Input -> bool>)

  /** What happens around the call: whether the context ends, and whether the channel may be full. */
  datatype Surroundings = Surroundings(contextEnds: bool, queueFills: bool)

  datatype ServeConfig = ServeConfig(frameDropVideo: bool, frameDropAudio: bool, frameDropOther: bool)

  class Node {
    const Addressed: CountersSection
    const Received: CountersSection
    const Missed: CountersSection
    const inputFilter: Option<Input -> bool>
    /** The processor takes no input of this kind. */
    const discardsInput: bool
    /** Everything ever put into the input channel; its reader is not part of this file. */
    var inputChan: seq<Input>

    ghost function View(): Seen
      reads this, Addressed
    {
      Seen(Addressed.counts, Addressed.bytes, inputChan)
    }

    ghost predicate Valid() {
      Addressed != Received && Addressed != Missed && Received != Missed
    }

    constructor (inputFilter: Option<Input -> bool>, discardsInput: bool)
      ensures Valid() && inputChan == []
      ensures fresh(Addressed) && fresh(Received) && fresh(Missed)
    {
      this.inputFilter, this.discardsInput := inputFilter, discardsInput;
      inputChan := [];
      Addressed := new CountersSection();
      Received := new CountersSection();
      Missed := new CountersSection();
    }
  }

  function Meets(condition: Option<Input -> bool>, x: Input): bool {
    condition.None? || condition.value(x)
  }

  /** The inputs that pass the push condition, in order. */
  function Passing(inputs: seq<Input>, condition: Option<Input -> bool>): seq<Input> {
    if inputs == [] then []
    else if Meets(condition, inputs[0]) then [inputs[0]] + Passing(inputs[1..], condition)
    else Passing(inputs[1..], condition)
  }

  lemma {:induction false} PassingAppend(inputs: seq<Input>, condition: Option<Input -> bool>, i: nat)
    requires i < |inputs|
    ensures Passing(inputs[..i + 1], condition) ==
      Passing(inputs[..i], condition) + (if Meets(condition, inputs[i]) then [inputs[i]] else [])
  {
    if i == 0 {
      assert inputs[..1][1..] == [];
    } else {
      PassingAppend(inputs[1..], condition, i - 1);
      assert inputs[..i + 1][1..] == inputs[1..][..i] && inputs[..i][1..] == inputs[1..][..i - 1];
    }
  }

  lemma {:induction false} PassingPrefix(inputs: seq<Input>, condition: Option<Input -> bool>, i: nat)
    requires i <= |inputs|
    ensures Passing(inputs[..i], condition) <= Passing(inputs, condition)
    decreases |inputs| - i
  {
    if i == |inputs| {
      assert inputs[..i] == inputs;
    } else {
      PassingAppend(inputs, condition, i);
      PassingPrefix(inputs, condition, i + 1);
    }
  }

  predicate Drops(config: ServeConfig, mediaType: int) {
    if mediaType == MEDIA_AUDIO then config.frameDropAudio
    else if mediaType == MEDIA_VIDEO then config.frameDropVideo
    else config.frameDropOther
  }

  predicate MayDrop(config: ServeConfig, env: Surroundings, obj: Object) {
    env.queueFills && Drops(config, obj.mediaType)
  }

  function Trues(flags: seq<bool>): nat {
    if flags == [] then 0 else Trues(flags[..|flags| - 1]) + (if flags[|flags| - 1] then 1 else 0)
  }

  /** How pushToDestination ends. */
  datatype Exit = AllDone | ContextEnded | InputRefused | QueueFull

  /** Up to here each attempt was pushed, or each was discarded; `flags` are their isPushed flags. */
  ghost predicate GoingOn(n: Node, attempted: seq<Input>, flags: seq<bool>, pushed: seq<Input>) {
    && |flags| == |attempted| && |pushed| == Trues(flags) <= |flags|
    && pushed == (if n.discardsInput then [] else attempted)
    && forall x :: x in attempted ==> Meets(n.inputFilter, x)
  }

  /** What the way out says of the attempts: all inputs were attempted, or the last attempt (or
      the one that was to come) is the only one to fail, and why. */
  ghost predicate Ended(n: Node, exit: Exit, passing: seq<Input>, attempted: seq<Input>, flags: seq<bool>,
                        pushed: seq<Input>, drops: bool) {
    && |flags| == |attempted| && |pushed| == Trues(flags) <= |flags|
    && attempted <= passing
    && (forall x :: x in pushed ==> Meets(n.inputFilter, x))
    && (n.discardsInput ==> pushed == [])
    && match exit
       case AllDone => attempted == passing && (n.discardsInput || pushed == attempted)
       case ContextEnded => n.discardsInput || pushed == attempted || FailedLast(attempted, pushed)
       case InputRefused => attempted != [] && !Meets(n.inputFilter, attempted[|attempted| - 1])
         && (n.discardsInput || FailedLast(attempted, pushed))
       case QueueFull => drops && !n.discardsInput && FailedLast(attempted, pushed)
  }

  ghost predicate FailedLast(attempted: seq<Input>, pushed: seq<Input>) {
    attempted != [] && pushed == attempted[..|attempted| - 1]
  }

  lemma TruesOfMore(flags: seq<bool>, f: bool)
    ensures Trues(flags + [f]) == Trues(flags) + (if f then 1 else 0)
  {
    assert (flags + [f])[..|flags|] == flags;
  }

  lemma StartsOff(n: Node)
    ensures GoingOn(n, [], [], [])
  {
  }

  lemma GoesOn(n: Node, attempted: seq<Input>, flags: seq<bool>, pushed: seq<Input>, x: Input, isPushed: bool)
    requires GoingOn(n, attempted, flags, pushed) && Meets(n.inputFilter, x) && (isPushed <==> !n.discardsInput)
    ensures GoingOn(n, attempted + [x], flags + [isPushed], if isPushed then pushed + [x] else pushed)
  {
    TruesOfMore(flags, isPushed);
  }

  lemma EndsHere(n: Node, exit: Exit, passing: seq<Input>, attempted: seq<Input>, flags: seq<bool>, pushed: seq<Input>,
                 drops: bool, x: Input)
    requires GoingOn(n, attempted, flags, pushed) && attempted + [x] <= passing && Reason(n, exit, x, drops)
    ensures Ended(n, exit, passing, attempted + [x], flags + [false], pushed, drops)
    ensures exit == ContextEnded ==> Ended(n, exit, passing, attempted, flags, pushed, drops)
  {
    TruesOfMore(flags, false);
    assert (attempted + [x])[..|attempted|] == attempted;
    assert attempted <= passing;
  }

  predicate Reason(n: Node, exit: Exit, x: Input, drops: bool) {
    match exit
    case AllDone => false
    case ContextEnded => true
    case InputRefused => !Meets(n.inputFilter, x)
    case QueueFull => drops && !n.discardsInput
  }

  // ---- Its steps in the transition system ----

  /** From s, a sender has addressed k objects of cell c, pushed some of them, and reported some
      as received or as missed. */
  ghost function Sent(s: P.State, c: Cell, k: nat, pushed: nat, received: nat, missed: nat): P.State
    requires received <= pushed && pushed + missed <= k
  {
    s.(addressed := Plus(s.addressed, c, k), held := Plus(s.held, c, k - pushed - missed),
       reported := Plus(s.reported, c, pushed - received), inputChan := Plus(s.inputChan, c, pushed),
       received := Plus(s.received, c, received), missed := Plus(s.missed, c, missed))
  }

  /** The trace is what such a sender does, from whatever state. */
  ghost predicate Follows(s: P.State, c: Cell, k: nat, pushed: nat, received: nat, missed: nat, trace: seq<P.Event>)
    requires received <= pushed && pushed + missed <= k
  {
    P.Leads(false, s, trace, Sent(s, c, k, pushed, received, missed))
  }

  lemma FollowsFirst(s: P.State, c: Cell)
    ensures Follows(s, c, 0, 0, 0, 0, [])
  {
    P.LeadsNowhere(false, s);
    assert Sent(s, c, 0, 0, 0, 0) == s;
  }

  lemma PlusOne(m: multiset<Cell>, c: Cell, k: nat)
    ensures Plus(m, c, k) + multiset{c} == Plus(m, c, k + 1)
    ensures Plus(m, c, k + 1) - multiset{c} == Plus(m, c, k) && c in Plus(m, c, k + 1)
  {
  }

  lemma FollowsAddress(s: P.State, c: Cell, k: nat, pushed: nat, trace: seq<P.Event>)
    requires pushed <= k && Follows(s, c, k, pushed, 0, 0, trace)
    ensures Follows(s, c, k + 1, pushed, 0, 0, trace + [P.Address(c)])
  {
    hide P.Leads, Plus;
    PlusOne(s.addressed, c, k);
    PlusOne(s.held, c, k - pushed);
    P.LeadsOn(false, s, trace, Sent(s, c, k, pushed, 0, 0), P.Address(c));
  }

  lemma FollowsPush(s: P.State, c: Cell, k: nat, pushed: nat, trace: seq<P.Event>)
    requires pushed < k && Follows(s, c, k, pushed, 0, 0, trace)
    ensures Follows(s, c, k, pushed + 1, 0, 0, trace + [P.PushInput(c)])
  {
    hide P.Leads, Plus;
    PlusOne(s.held, c, k - pushed - 1);
    PlusOne(s.reported, c, pushed);
    PlusOne(s.inputChan, c, pushed);
    P.LeadsOn(false, s, trace, Sent(s, c, k, pushed, 0, 0), P.PushInput(c));
  }

  lemma FollowsReceived(s: P.State, c: Cell, k: nat, pushed: nat, received: nat, missed: nat, trace: seq<P.Event>)
    requires received < pushed && pushed + missed <= k && Follows(s, c, k, pushed, received, missed, trace)
    ensures Follows(s, c, k, pushed, received + 1, missed, trace + [P.CountReceived(c)])
  {
    hide P.Leads, Plus;
    PlusOne(s.reported, c, pushed - received - 1);
    PlusOne(s.received, c, received);
    P.LeadsOn(false, s, trace, Sent(s, c, k, pushed, received, missed), P.CountReceived(c));
  }

  lemma FollowsMissed(s: P.State, c: Cell, k: nat, pushed: nat, received: nat, missed: nat, trace: seq<P.Event>)
    requires received <= pushed && pushed + missed < k && Follows(s, c, k, pushed, received, missed, trace)
    ensures Follows(s, c, k, pushed, received, missed + 1, trace + [P.CountMissed(c)])
  {
    hide P.Leads, Plus;
    PlusOne(s.held, c, k - pushed - missed - 1);
    PlusOne(s.missed, c, missed);
    P.LeadsOn(false, s, trace, Sent(s, c, k, pushed, received, missed), P.CountMissed(c));
  }

  // ---- One turn of the loop ----

  /** The counters and the channel of the destination. */
  datatype Seen = Seen(counts: multiset<Cell>, bytes: multiset<Cell>, chan: seq<Input>)

  /** What was attempted, with the isPushed flags, what was pushed, and the steps taken. */
  datatype Attempts = Attempts(inputs: seq<Input>, flags: seq<bool>, pushed: seq<Input>, trace: seq<P.Event>)

  /** Just these attempts were counted as addressed, just these inputs are in the channel. */
  ghost predicate Accounts(s: P.State, obj: Object, before: Seen, now: Seen, a: Attempts) {
    && |a.pushed| <= |a.flags|
    && now.chan == before.chan + a.pushed
    && Grew(before.counts, before.bytes, now.counts, now.bytes, ObjectCell(obj), |a.flags|, obj.size)
    && Follows(s, ObjectCell(obj), |a.flags|, |a.pushed|, 0, 0, a.trace)
  }

  /** What PushOne does to what is seen. */
  ghost predicate Attempted(now: Seen, next: Seen, obj: Object, x: Input, addressed: bool, isPushed: bool) {
    && next.chan == (if isPushed then now.chan + [x] else now.chan)
    && (addressed ==> next.counts == Plus(now.counts, ObjectCell(obj), 1))
    && (addressed ==> next.bytes == Plus(now.bytes, ObjectCell(obj), obj.size))
    && (!addressed ==> next.counts == now.counts && next.bytes == now.bytes)
  }

  function Steps(obj: Object, addressed: bool, isPushed: bool): seq<P.Event> {
    (if addressed then [P.Address(ObjectCell(obj))] else []) + (if isPushed then [P.PushInput(ObjectCell(obj))] else [])
  }

  function Next(a: Attempts, obj: Object, x: Input, addressed: bool, isPushed: bool): Attempts {
    if !addressed then a
    else Attempts(a.inputs + [x], a.flags + [isPushed], if isPushed then a.pushed + [x] else a.pushed,
                  a.trace + Steps(obj, true, isPushed))
  }

  lemma AccountsFirst(s: P.State, obj: Object, before: Seen)
    ensures Accounts(s, obj, before, before, Attempts([], [], [], []))
  {
    FollowsFirst(s, ObjectCell(obj));
    hide Follows;
    assert before.chan + [] == before.chan;
  }

  lemma AccountsNext(s: P.State, obj: Object, before: Seen, now: Seen, next: Seen, a: Attempts, x: Input,
                     addressed: bool, isPushed: bool)
    requires Accounts(s, obj, before, now, a) && Attempted(now, next, obj, x, addressed, isPushed)
    requires isPushed ==> addressed
    ensures Accounts(s, obj, before, next, Next(a, obj, x, addressed, isPushed))
  {
    var c, k, p := ObjectCell(obj), |a.flags|, |a.pushed|;
    hide Follows, Grew, Plus, ObjectCell;
    if addressed {
      GrewOne(before.counts, before.bytes, now.counts, now.bytes, c, k, obj.size);
      FollowsAddress(s, c, k, p, a.trace);
      if isPushed {
        FollowsPush(s, c, k + 1, p, a.trace + [P.Address(c)]);
        PushedNext(before.chan, a.pushed, x);
        PushedNext(a.trace, [P.Address(c)], P.PushInput(c));
      } else {
        assert [P.Address(c)] + [] == [P.Address(c)];
      }
    }
  }

  // ---- The code ----

  /** One input that meets the push condition: whether it was addressed, whether it entered the
      channel, and why the loop ends with it if it does. The context may end, and the channel
      be full, at any time. */
  method PushOne(n: Node, x: Input, config: ServeConfig, env: Surroundings, obj: Object, ghost trace: seq<P.Event>)
    returns (addressed: bool, isPushed: bool, exit: Option<Exit>, ghost trace': seq<P.Event>)
    requires n.Valid()
    modifies n, n.Addressed
    ensures Attempted(old(n.View()), n.View(), obj, x, addressed, isPushed)
    ensures isPushed ==> addressed
    ensures exit == Some(ContextEnded) ==> env.contextEnds
    ensures !addressed ==> exit == Some(ContextEnded)
    ensures exit.None? ==> addressed && Meets(n.inputFilter, x) && (isPushed <==> !n.discardsInput)
    ensures exit.Some? ==> !isPushed && Reason(n, exit.value, x, MayDrop(config, env, obj))
    ensures trace' == trace + Steps(obj, addressed, isPushed)
  {
    addressed, isPushed, exit, trace' := false, false, Some(ContextEnded), trace;
    var done := *;
    if env.contextEnds && done {
      return;
    }
    n.Addressed.Increment(obj.sub, obj.mediaType, obj.size);
    addressed, trace' := true, trace' + [P.Address(ObjectCell(obj))];
    if !Meets(n.inputFilter, x) {
      return true, false, Some(InputRefused), trace';
    }
    done := *;
    done := done && env.contextEnds;
    if n.discardsInput {
      return true, false, if done then Some(ContextEnded) else None, trace';
    }
    if done {
      return;
    }
    if Drops(config, obj.mediaType) {
      var full := *;
      if env.queueFills && full {
        return true, false, Some(QueueFull), trace';
      }
    }
    n.inputChan := n.inputChan + [x];
    return true, true, None, trace' + [P.PushInput(ObjectCell(obj))];
  }

  /** The loop of pushToDestination up to its return. The deferred incrementReceived calls are
      collected as their isPushed flags; `attempted` are the inputs they stand for. */
  method PushEach(n: Node, inputs: seq<Input>, condition: Option<Input -> bool>, config: ServeConfig, env: Surroundings,
                  obj: Object, ghost s: P.State)
    returns (exit: Exit, deferred: seq<bool>, ghost a: Attempts)
    requires n.Valid()
    modifies n, n.Addressed
    ensures deferred == a.flags
    ensures exit == ContextEnded ==> env.contextEnds
    ensures Ended(n, exit, Passing(inputs, condition), a.inputs, a.flags, a.pushed, MayDrop(config, env, obj))
    ensures Accounts(s, obj, old(n.View()), n.View(), a)
  {
    hide Passing, Meets, MayDrop, GoingOn, Ended, Reason, Accounts, Attempted, Steps;
    deferred, a := [], Attempts([], [], [], []);
    ghost var before := n.View();
    AccountsFirst(s, obj, before);
    PassingNothing(condition);
    assert inputs[..0] == [];
    StartsOff(n);
    for i := 0 to |inputs|
      invariant a.inputs == Passing(inputs[..i], condition) && deferred == a.flags
      invariant GoingOn(n, a.inputs, a.flags, a.pushed)
      invariant Accounts(s, obj, before, n.View(), a)
    {
      var x := inputs[i];
      PassingNext(inputs, condition, i);
      if !Meets(condition, x) {
        continue;
      }
      ghost var now := n.View();
      ghost var trace;
      var addressed, isPushed, out;
      addressed, isPushed, out, trace := PushOne(n, x, config, env, obj, a.trace);
      AccountsNext(s, obj, before, now, n.View(), a, x, addressed, isPushed);
      if out.Some? {
        exit := out.value;
        EndsHere(n, exit, Passing(inputs, condition), a.inputs, a.flags, a.pushed, MayDrop(config, env, obj), x);
      } else {
        GoesOn(n, a.inputs, a.flags, a.pushed, x, isPushed);
      }
      a := Next(a, obj, x, addressed, isPushed);
      if addressed {
        deferred := deferred + [isPushed];
      }
      if out.Some? {
        return;
      }
    }
    assert inputs[..|inputs|] == inputs;
    exit := AllDone;
    EndsDone(n, Passing(inputs, condition), a.flags, a.pushed, MayDrop(config, env, obj));
  }

  lemma EndsDone(n: Node, attempted: seq<Input>, flags: seq<bool>, pushed: seq<Input>, drops: bool)
    requires GoingOn(n, attempted, flags, pushed)
    ensures Ended(n, AllDone, attempted, attempted, flags, pushed, drops)
  {
  }

  lemma PassingNext(inputs: seq<Input>, condition: Option<Input -> bool>, i: nat)
    requires i < |inputs|
    ensures Passing(inputs[..i + 1], condition) ==
      if Meets(condition, inputs[i]) then Passing(inputs[..i], condition) + [inputs[i]] else Passing(inputs[..i], condition)
    ensures Passing(inputs[..i + 1], condition) <= Passing(inputs, condition)
  {
    hide Passing, Meets;
    PassingAppend(inputs, condition, i);
    PassingPrefix(inputs, condition, i + 1);
  }

  lemma PushedNext<T>(chan: seq<T>, pushed: seq<T>, x: T)
    ensures chan + (pushed + [x]) == chan + pushed + [x]
  {
  }

  lemma PassingNothing(condition: Option<Input -> bool>)
    ensures Passing([], condition) == []
  {
  }

  lemma {:induction false} TruesAtMost(flags: seq<bool>)
    ensures Trues(flags) <= |flags|
  {
    if flags != [] {
      TruesAtMost(flags[..|flags| - 1]);
    }
  }

  lemma NoTrues()
    ensures Trues([]) == 0
  {
  }

  lemma TruesAppend(flags: seq<bool>, i: nat)
    requires i < |flags|
    ensures Trues(flags[..i + 1]) == Trues(flags[..i]) + (if flags[i] then 1 else 0)
  {
    assert flags[..i + 1][..i] == flags[..i];
  }

  /** The deferred incrementReceived calls, last one first. */
  method RunDeferred(n: Node, deferred: seq<bool>, obj: Object, ghost s: P.State, ghost trace: seq<P.Event>)
    returns (ghost received: nat, ghost missed: nat, ghost trace': seq<P.Event>)
    requires n.Valid() && Trues(deferred) <= |deferred|
    requires Follows(s, ObjectCell(obj), |deferred|, Trues(deferred), 0, 0, trace)
    modifies n.Received, n.Missed
    ensures received == Trues(deferred) && received + missed == |deferred|
    ensures Grew(old(n.Received.counts), old(n.Received.bytes), n.Received.counts, n.Received.bytes,
                 ObjectCell(obj), received, obj.size)
    ensures Grew(old(n.Missed.counts), old(n.Missed.bytes), n.Missed.counts, n.Missed.bytes,
                 ObjectCell(obj), missed, obj.size)
    ensures Follows(s, ObjectCell(obj), |deferred|, received, received, missed, trace')
  {
    hide Grew, Trues, Plus, CellOf, Follows;
    ghost var c := ObjectCell(obj);
    ghost var rc, mc, rb, mb := n.Received.counts, n.Missed.counts, n.Received.bytes, n.Missed.bytes;
    received, missed, trace' := 0, 0, trace;
    GrewNot(rc, rb, c, obj.size);
    GrewNot(mc, mb, c, obj.size);
    var i := |deferred|;
    NoTrues();
    assert deferred[..i] == deferred && deferred[..0] == [];
    ghost var pushed := Trues(deferred);
    while i > 0
      invariant 0 <= i <= |deferred|
      invariant received <= pushed && pushed + missed <= |deferred|
      invariant Trues(deferred[..i]) <= i
      invariant Follows(s, c, |deferred|, pushed, received, missed, trace')
      invariant received + Trues(deferred[..i]) == Trues(deferred) && received + missed == |deferred| - i
      invariant Grew(rc, rb, n.Received.counts, n.Received.bytes, c, received, obj.size)
      invariant Grew(mc, mb, n.Missed.counts, n.Missed.bytes, c, missed, obj.size)
    {
      i := i - 1;
      TruesAppend(deferred, i);
      TruesAtMost(deferred[..i]);
      if deferred[i] {
        GrewOne(rc, rb, n.Received.counts, n.Received.bytes, c, received, obj.size);
        FollowsReceived(s, c, |deferred|, pushed, received, missed, trace');
        n.Received.Increment(obj.sub, obj.mediaType, obj.size);
        received, trace' := received + 1, trace' + [P.CountReceived(c)];
      } else {
        GrewOne(mc, mb, n.Missed.counts, n.Missed.bytes, c, missed, obj.size);
        FollowsMissed(s, c, |deferred|, pushed, received, missed, trace');
        n.Missed.Increment(obj.sub, obj.mediaType, obj.size);
        missed, trace' := missed + 1, trace' + [P.CountMissed(c)];
      }
    }
  }

  /** By any exit, as many are Addressed as Received plus Missed, in count and in bytes, all in
      one cell, Received is what entered the channel, and what was left out has the reason that
      `exit` names. A nil destination counts nothing. The trace leads from any state s of the
      transition system to one in which just that was added, and nothing is held any more. */
  method Push(pushTo: PushTo, inputs: seq<Input>, config: ServeConfig, env: Surroundings, obj: Object, ghost s: P.State)
    returns (exit: Option<Exit>, ghost a: Attempts, ghost trace: seq<P.Event>)
    requires pushTo.node.Some? ==> pushTo.node.value.Valid()
    modifies if pushTo.node.Some?
      then {pushTo.node.value, pushTo.node.value.Addressed, pushTo.node.value.Received, pushTo.node.value.Missed} else {}
    ensures exit.Some? <==> pushTo.node.Some?
    ensures exit.Some? ==> Accounted(pushTo.node.value, obj, |a.inputs|, |a.pushed|)
    ensures exit.Some? ==> pushTo.node.value.inputChan == old(pushTo.node.value.inputChan) + a.pushed
    ensures exit.Some? ==> Ended(pushTo.node.value, exit.value, Passing(inputs, pushTo.condition), a.inputs, a.flags, a.pushed,
                                 MayDrop(config, env, obj))
    ensures exit.None? ==> a == Attempts([], [], [], [])
    // the exits, by the fields of the configuration and of the destination
    ensures exit == Some(ContextEnded) ==> env.contextEnds
    ensures exit == Some(QueueFull) ==>
      && env.queueFills
      && (obj.mediaType == MEDIA_AUDIO ==> config.frameDropAudio)
      && (obj.mediaType == MEDIA_VIDEO ==> config.frameDropVideo)
      && (obj.mediaType != MEDIA_AUDIO && obj.mediaType != MEDIA_VIDEO ==> config.frameDropOther)
    ensures exit == Some(InputRefused) ==>
      var f := pushTo.node.value.inputFilter; a.inputs != [] && f.Some? && !f.value(a.inputs[|a.inputs| - 1])
    ensures forall x :: x in a.inputs ==> x in inputs && (pushTo.condition.Some? ==> pushTo.condition.value(x))
    ensures exit.Some? ==> forall x :: x in a.pushed ==>
      (pushTo.node.value.inputFilter.Some? ==> pushTo.node.value.inputFilter.value(x))
    ensures exit == Some(AllDone) ==> forall x ::
      x in inputs && (pushTo.condition.Some? ==> pushTo.condition.value(x)) ==> x in a.inputs
    ensures exit == Some(AllDone) && !pushTo.node.value.discardsInput ==> a.pushed == a.inputs
    ensures exit.Some? && !env.contextEnds && !pushTo.node.value.discardsInput ==>
      exit != Some(QueueFull) ==>
        a.pushed == a.inputs || (exit == Some(InputRefused) && a.pushed == a.inputs[..|a.inputs| - 1])
    ensures exit == Some(AllDone) && pushTo.condition.None? ==> a.inputs == inputs
    ensures |a.pushed| <= |a.inputs|
    ensures Follows(s, ObjectCell(obj), |a.inputs|, |a.pushed|, |a.pushed|, |a.inputs| - |a.pushed|, trace)
  {
    hide Follows, Grew, Passing, MayDrop, ObjectCell, Ended, Accounts;
    a := Attempts([], [], [], []);
    if pushTo.node.None? {
      FollowsFirst(s, ObjectCell(obj));
      return None, a, [];
    }
    var n := pushTo.node.value;
    var out, deferred;
    out, deferred, a := PushEach(n, inputs, pushTo.condition, config, env, obj, s);
    PlainOutcome(n, out, inputs, pushTo.condition, config, env, obj, a);
    EndedSizes(n, out, Passing(inputs, pushTo.condition), a, MayDrop(config, env, obj));
    AccountsMean(s, obj, old(n.View()), n.View(), a);
    ghost var received, missed;
    received, missed, trace := RunDeferred(n, deferred, obj, s, a.trace);
    exit := Some(out);
  }

  lemma {:induction false} PassingExactly(inputs: seq<Input>, condition: Option<Input -> bool>)
    ensures forall x :: x in Passing(inputs, condition) <==>
      x in inputs && (condition.Some? ==> condition.value(x))
    ensures condition.None? ==> Passing(inputs, condition) == inputs
  {
    if inputs != [] {
      PassingExactly(inputs[1..], condition);
      assert inputs == [inputs[0]] + inputs[1..];
    }
  }

  /** What an exit means, without the predicates of the loop. */
  lemma PlainOutcome(n: Node, exit: Exit, inputs: seq<Input>, condition: Option<Input -> bool>,
                     config: ServeConfig, env: Surroundings, obj: Object, a: Attempts)
    requires Ended(n, exit, Passing(inputs, condition), a.inputs, a.flags, a.pushed, MayDrop(config, env, obj))
    ensures exit == QueueFull ==>
      && env.queueFills
      && (obj.mediaType == MEDIA_AUDIO ==> config.frameDropAudio)
      && (obj.mediaType == MEDIA_VIDEO ==> config.frameDropVideo)
      && (obj.mediaType != MEDIA_AUDIO && obj.mediaType != MEDIA_VIDEO ==> config.frameDropOther)
    ensures exit == InputRefused ==>
      a.inputs != [] && n.inputFilter.Some? && !n.inputFilter.value(a.inputs[|a.inputs| - 1])
    ensures forall x :: x in a.inputs ==> x in inputs && (condition.Some? ==> condition.value(x))
    ensures forall x :: x in a.pushed ==> (n.inputFilter.Some? ==> n.inputFilter.value(x))
    ensures exit == AllDone ==> forall x :: x in inputs && (condition.Some? ==> condition.value(x)) ==> x in a.inputs
    ensures exit == AllDone && !n.discardsInput ==> a.pushed == a.inputs
    ensures exit == InputRefused && !n.discardsInput ==> a.pushed == a.inputs[..|a.inputs| - 1]
    ensures exit == AllDone && condition.None? ==> a.inputs == inputs
  {
    PassingExactly(inputs, condition);
    hide Passing;
  }

  lemma EndedSizes(n: Node, exit: Exit, passing: seq<Input>, a: Attempts, drops: bool)
    requires Ended(n, exit, passing, a.inputs, a.flags, a.pushed, drops)
    ensures |a.flags| == |a.inputs| && |a.pushed| == Trues(a.flags) <= |a.flags|
  {
  }

  lemma AccountsMean(s: P.State, obj: Object, before: Seen, now: Seen, a: Attempts)
    requires Accounts(s, obj, before, now, a)
    ensures |a.pushed| <= |a.flags| && now.chan == before.chan + a.pushed
    ensures Grew(before.counts, before.bytes, now.counts, now.bytes, ObjectCell(obj), |a.flags|, obj.size)
    ensures Follows(s, ObjectCell(obj), |a.flags|, |a.pushed|, 0, 0, a.trace)
  {
  }

  twostate predicate Accounted(n: Node, obj: Object, attempted: nat, pushed: nat)
    reads n, n.Addressed, n.Received, n.Missed
  {
    var c := ObjectCell(obj);
    && pushed <= attempted
    && Grew(old(n.Addressed.counts), old(n.Addressed.bytes), n.Addressed.counts, n.Addressed.bytes, c, attempted, obj.size)
    && Grew(old(n.Received.counts), old(n.Received.bytes), n.Received.counts, n.Received.bytes, c, pushed, obj.size)
    && Grew(old(n.Missed.counts), old(n.Missed.bytes), n.Missed.counts, n.Missed.bytes, c, attempted - pushed, obj.size)
  }
}
