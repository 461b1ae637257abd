/** WaitForPublisher beside any operations on the route, router/route.go: any number of
    waiters; loading the channel, reading the publishers and waking up are separate steps. */
module RouteWaiters {
  import R = RouteModel

  type Tid = nat

  /** Holds a channel, about to read the publishers; read none and blocks on the channel. */
  datatype Waiter = Loaded(ch: R.Chan) | Blocked(ch: R.Chan)

  datatype State = State(route: R.State, waiters: map<Tid, Waiter>)

  const Init := State(R.Init, map[])

  datatype Event =
    | Operate(op: R.Op)
    | LoadChan(t: Tid)
    | ReadPublishers(t: Tid)
    | Wake(t: Tid)
    | Cancel(t: Tid)

  predicate Enabled(s: State, e: Event) {
    match e
    case Operate(_) => true
    case LoadChan(t) => t !in s.waiters
    case ReadPublishers(t) => t in s.waiters && s.waiters[t].Loaded?
    case Wake(t) => t in s.waiters && s.waiters[t].Blocked? && s.waiters[t].ch in s.route.closed
    case Cancel(t) => t in s.waiters && s.waiters[t].Blocked?
  }

  function Apply(s: State, e: Event): State
    requires Enabled(s, e)
  {
    match e
    case Operate(op) => s.(route := R.Apply(s.route, op))
    case LoadChan(t) => s.(waiters := s.waiters[t := Loaded(s.route.chan)])
    case ReadPublishers(t) =>
      s.(waiters := if s.route.publishers != [] then s.waiters - {t} else s.waiters[t := Blocked(s.waiters[t].ch)])
    case Wake(t) => s.(waiters := s.waiters[t := Loaded(s.route.chan)])
    case Cancel(t) => s.(waiters := s.waiters - {t})
  }

  predicate Legal(s: State, es: seq<Event>)
    decreases |es|
  {
    es == [] || (Enabled(s, es[0]) && Legal(Apply(s, es[0]), es[1..]))
  }

  function Run(s: State, es: seq<Event>): State
    requires Legal(s, es)
    decreases |es|
  {
    if es == [] then s else Run(Apply(s, es[0]), es[1..])
  }

  /** A waiter sleeps only on the current channel of an open route without publishers. */
  ghost predicate Sleeps(s: State, ch: R.Chan) {
    ch !in s.route.closed ==> ch == s.route.chan && s.route.open && s.route.publishers == []
  }

  ghost predicate Inv(s: State) {
    && R.Inv(s.route)
    && (forall t :: t in s.waiters ==> s.waiters[t].ch < s.route.next)
    && (forall t :: t in s.waiters && s.waiters[t].Blocked? ==> Sleeps(s, s.waiters[t].ch))
  }

  /** Every operation that touches the publishers of an open route closes the channel. */
  lemma OperationWakes(s: R.State, op: R.Op, ch: R.Chan)
    requires R.Inv(s) && ch < s.next
    ensures var t := R.Apply(s, op);
      && s.next <= t.next && s.closed <= t.closed
      && (ch !in t.closed ==> ch == s.chan == t.chan && s.open && t.open && t.publishers == s.publishers)
  {
    R.ApplyKeepsInv(s, op);
  }

  lemma StepKeepsInv(s: State, e: Event)
    requires Inv(s) && Enabled(s, e)
    ensures Inv(Apply(s, e))
  {
    var t := Apply(s, e);
    if e.Operate? {
      R.ApplyKeepsInv(s.route, e.op);
      forall w | w in t.waiters ensures t.waiters[w].ch < t.route.next
        && (t.waiters[w].Blocked? ==> Sleeps(t, t.waiters[w].ch))
      {
        OperationWakes(s.route, e.op, s.waiters[w].ch);
      }
    }
  }

  lemma {:induction false} RunKeepsInv(s: State, es: seq<Event>)
    requires Inv(s) && Legal(s, es)
    ensures Inv(Run(s, es))
    decreases |es|
  {
    if es != [] {
      StepKeepsInv(s, es[0]);
      RunKeepsInv(Apply(s, es[0]), es[1..]);
    }
  }

  /** In every reachable state, a waiter blocked on an unclosed channel has missed nothing: the
      route is open, the channel is its current one and there is still no publisher. */
  lemma NoMissedPublisher(es: seq<Event>, w: Tid)
    requires Legal(Init, es)
    requires var s := Run(Init, es); w in s.waiters && s.waiters[w].Blocked? && s.waiters[w].ch !in s.route.closed
    ensures var s := Run(Init, es);
      s.waiters[w].ch == s.route.chan && s.route.open && s.route.publishers == []
  {
    assert Inv(Init);
    RunKeepsInv(Init, es);
  }

  /** So once there is a publisher, a blocked waiter can take its two steps and return. */
  lemma WaiterReturns(es: seq<Event>, w: Tid)
    requires Legal(Init, es)
    requires var s := Run(Init, es); s.route.publishers != [] && w in s.waiters && s.waiters[w].Blocked?
    ensures var s := Run(Init, es);
      && Enabled(s, Wake(w)) && Enabled(Apply(s, Wake(w)), ReadPublishers(w))
      && w !in Apply(Apply(s, Wake(w)), ReadPublishers(w)).waiters
  {
    assert Inv(Init);
    RunKeepsInv(Init, es);
  }

  /** A waiter returns without an error exactly when it reads a publisher. */
  lemma ReturnsExactly(s: State, w: Tid)
    requires Enabled(s, ReadPublishers(w))
    ensures w !in Apply(s, ReadPublishers(w)).waiters <==> s.route.publishers != []
  {
  }
}
