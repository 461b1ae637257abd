/** Publishing the drained flag and waking its waiters, node/drain.go: the flag is swapped
    atomically, and on a change the channel is swapped for a new one and the old one closed.
    Any number of updaters (Flush calls updateProcInfoLocked without the lock) and of waiters
    run at once; each step below is one atomic operation of one of them. */
module DrainSignal {
  import opened Prelude

  type Tid = nat
  type Chan = nat

  /** updateProcInfoLocked: made a check, whose number it holds; changed the flag, owes a close;
      swapped the channel, holds the one to close. */
  datatype Updater = Computed(check: nat) | Owes | Holds(old_: Chan)

  /** WaitForDrain: loaded the channel; read false and blocks on the channel. */
  datatype Waiter = Loaded(ch: Chan) | Blocked(ch: Chan)

  /** `verdicts` are the results of the drain checks so far, in the order in which they were made,
      and `source` is the number of the one whose result the flag has, if any. */
  datatype State = State(
    verdicts: seq<bool>,
    source: Option<nat>,
    drained: bool,
    current: Chan,
    closed: set<Chan>,
    next: Chan,
    updaters: map<Tid, Updater>,
    waiters: map<Tid, Waiter>)

  const Init := State([], None, false, 0, {}, 1, map[], map[])

  datatype Event =
    | Calculate(t: Tid, value: bool)
    | SwapFlag(t: Tid)
    | SwapChan(t: Tid)
    | CloseOld(t: Tid)
    | LoadChan(t: Tid)
    | ReadFlag(t: Tid)
    | Wake(t: Tid)
    | Cancel(t: Tid)

  predicate Enabled(s: State, e: Event) {
    match e
    case Calculate(t, _) => t !in s.updaters
    case SwapFlag(t) => t in s.updaters && s.updaters[t].Computed?
    case SwapChan(t) => t in s.updaters && s.updaters[t].Owes?
    case CloseOld(t) => t in s.updaters && s.updaters[t].Holds?
    case LoadChan(t) => t !in s.waiters
    case ReadFlag(t) => t in s.waiters && s.waiters[t].Loaded?
    case Wake(t) => t in s.waiters && s.waiters[t].Blocked? && s.waiters[t].ch in s.closed
    case Cancel(t) => t in s.waiters && s.waiters[t].Blocked?
  }

  /** The result of a check; there is none of a number not given yet. */
  function Verdict(s: State, check: nat): bool {
    check < |s.verdicts| && s.verdicts[check]
  }

  /** Closing a closed channel panics in Go. */
  predicate Panics(s: State, e: Event)
    requires Enabled(s, e)
  {
    e.CloseOld? && s.updaters[e.t].old_ in s.closed
  }

  function Apply(s: State, e: Event): State
    requires Enabled(s, e)
  {
    match e
    case Calculate(t, v) => s.(verdicts := s.verdicts + [v], updaters := s.updaters[t := Computed(|s.verdicts|)])
    case SwapFlag(t) =>
      var v := Verdict(s, s.updaters[t].check);
      s.(drained := v, source := Some(s.updaters[t].check),
         updaters := if v != s.drained then s.updaters[t := Owes] else s.updaters - {t})
    case SwapChan(t) => s.(current := s.next, next := s.next + 1, updaters := s.updaters[t := Holds(s.current)])
    case CloseOld(t) => s.(closed := s.closed + {s.updaters[t].old_}, updaters := s.updaters - {t})
    case LoadChan(t) => s.(waiters := s.waiters[t := Loaded(s.current)])
    case ReadFlag(t) =>
      s.(waiters := if s.drained then s.waiters - {t} else s.waiters[t := Blocked(s.waiters[t].ch)])
    case Wake(t) => s.(waiters := s.waiters[t := Loaded(s.current)])
    case Cancel(t) => s.(waiters := s.waiters - {t})
  }

  predicate Legal(s: State, es: seq<Event>)
    decreases |es|
  {
    es == [] || (Enabled(s, es[0]) && Legal(Apply(s, es[0]), es[1..]))
  }

  function Run(s: State, es: seq<Event>): State
    requires Legal(s, es)
    decreases |es|
  {
    if es == [] then s else Run(Apply(s, es[0]), es[1..])
  }

  // ---- Channels ----

  /** Updater t is the one that will close ch. */
  predicate Closes(s: State, t: Tid, ch: Chan) {
    t in s.updaters && s.updaters[t] == Holds(ch)
  }

  predicate OwesClose(s: State, t: Tid) {
    t in s.updaters && s.updaters[t] == Owes
  }

  /** Exactly one of: current, closed, held by one updater. */
  ghost predicate ChannelsOk(s: State) {
    && s.current < s.next && s.current !in s.closed
    && (forall ch :: ch in s.closed ==> ch < s.next)
    && (forall t, ch: Chan :: Closes(s, t, ch) ==> ch < s.next && ch != s.current && ch !in s.closed)
    && (forall t, u, ch: Chan :: Closes(s, t, ch) && Closes(s, u, ch) ==> t == u)
    && (forall ch: Chan :: ch < s.next && ch != s.current && ch !in s.closed ==> exists t :: Closes(s, t, ch))
  }

  /** The waiter's wake-up is still coming. */
  ghost predicate WakeUpDue(s: State, ch: Chan) {
    if ch == s.current then !s.drained || exists u :: OwesClose(s, u)
    else ch in s.closed || exists u :: Closes(s, u, ch)
  }

  ghost predicate Inv(s: State) {
    && ChannelsOk(s)
    && (forall t :: t in s.waiters ==> s.waiters[t].ch < s.next)
    && (forall t :: t in s.waiters && s.waiters[t].Blocked? ==> WakeUpDue(s, s.waiters[t].ch))
  }

  lemma InitInv()
    ensures Inv(Init)
  {
  }

  lemma UpdaterKeepsChannels(s: State, e: Event)
    requires ChannelsOk(s) && Enabled(s, e) && (e.Calculate? || e.SwapFlag? || e.SwapChan? || e.CloseOld?)
    ensures ChannelsOk(Apply(s, e))
  {
    var t := Apply(s, e);
    forall ch: Chan | ch < t.next && ch != t.current && ch !in t.closed ensures exists u :: Closes(t, u, ch) {
      if e.SwapChan? && ch == s.current {
        assert Closes(t, e.t, ch);
      } else {
        var u :| Closes(s, u, ch);
        assert Closes(t, u, ch);
      }
    }
    forall u, w, ch: Chan | Closes(t, u, ch) && Closes(t, w, ch) ensures u == w {
      assert (e.SwapChan? && u == e.t) || Closes(s, u, ch);
      assert (e.SwapChan? && w == e.t) || Closes(s, w, ch);
    }
    forall u, ch: Chan | Closes(t, u, ch) ensures ch < t.next && ch != t.current && ch !in t.closed {
      assert (e.SwapChan? && u == e.t) || Closes(s, u, ch);
      if e.CloseOld? {
        assert Closes(s, e.t, s.updaters[e.t].old_);
      }
    }
    if e.CloseOld? {
      assert Closes(s, e.t, s.updaters[e.t].old_);
    }
  }

  lemma UpdaterKeepsWakeUps(s: State, e: Event, ch: Chan)
    requires ChannelsOk(s) && Enabled(s, e) && (e.Calculate? || e.SwapFlag? || e.SwapChan? || e.CloseOld?)
    requires ch < s.next && WakeUpDue(s, ch)
    ensures WakeUpDue(Apply(s, e), ch)
  {
    var t := Apply(s, e);
    if e.SwapChan? && ch == s.current {
      assert Closes(t, e.t, ch);
    } else if e.SwapFlag? && ch == s.current && Verdict(s, s.updaters[e.t].check) != s.drained {
      assert OwesClose(t, e.t);
    } else if ch == s.current {
      if s.drained {
        var u :| OwesClose(s, u);
        assert OwesClose(t, u);
      }
    } else if ch !in t.closed {
      var u :| Closes(s, u, ch);
      assert Closes(t, u, ch);
    }
  }

  lemma WaiterKeepsInv(s: State, e: Event)
    requires Inv(s) && Enabled(s, e) && (e.LoadChan? || e.ReadFlag? || e.Wake? || e.Cancel?)
    ensures Inv(Apply(s, e))
  {
    var t := Apply(s, e);
    assert t == s.(waiters := t.waiters);
    assert ChannelsOk(t) by {
      forall u, ch: Chan ensures Closes(t, u, ch) == Closes(s, u, ch) { }
      forall ch: Chan | ch < t.next && ch != t.current && ch !in t.closed ensures exists u :: Closes(t, u, ch) {
        var u :| Closes(s, u, ch);
        assert Closes(t, u, ch);
      }
    }
    forall w | w in t.waiters && t.waiters[w].Blocked? ensures WakeUpDue(t, t.waiters[w].ch) {
      var ch := t.waiters[w].ch;
      assert w in s.waiters && s.waiters[w].ch == ch;
      if s.waiters[w].Blocked? {
        assert WakeUpDue(s, ch);
      }
      SameWakeUps(s, t, ch);
    }
  }

  lemma SameWakeUps(s: State, t: State, ch: Chan)
    requires ChannelsOk(s) && t == s.(waiters := t.waiters) && ch < s.next
    requires !s.drained || WakeUpDue(s, ch)
    ensures WakeUpDue(t, ch)
  {
    if ch == s.current {
      if s.drained {
        var u :| OwesClose(s, u);
        assert OwesClose(t, u);
      }
    } else if ch !in s.closed {
      var u :| Closes(s, u, ch);
      assert Closes(t, u, ch);
    }
  }

  lemma StepKeepsInv(s: State, e: Event)
    requires Inv(s) && Enabled(s, e)
    ensures Inv(Apply(s, e)) && !Panics(s, e)
  {
    if e.LoadChan? || e.ReadFlag? || e.Wake? || e.Cancel? {
      WaiterKeepsInv(s, e);
    } else {
      UpdaterKeepsChannels(s, e);
      var t := Apply(s, e);
      forall w | w in t.waiters && t.waiters[w].Blocked? ensures WakeUpDue(t, t.waiters[w].ch) {
        UpdaterKeepsWakeUps(s, e, s.waiters[w].ch);
      }
      if e.CloseOld? {
        assert Closes(s, e.t, s.updaters[e.t].old_);
      }
    }
  }

  lemma {:induction false} RunKeepsInv(s: State, es: seq<Event>)
    requires Inv(s) && Legal(s, es)
    ensures Inv(Run(s, es))
    decreases |es|
  {
    if es != [] {
      StepKeepsInv(s, es[0]);
      RunKeepsInv(Apply(s, es[0]), es[1..]);
    }
  }

  /** In every reachable state: a waiter that read `false` and blocks on a channel that is not
      closed either still has nothing to learn, or some updater owes the close that wakes it. */
  lemma NoLostWakeUp(es: seq<Event>, w: Tid)
    requires Legal(Init, es)
    requires var s := Run(Init, es); w in s.waiters && s.waiters[w].Blocked? && s.waiters[w].ch !in s.closed
    ensures var s := Run(Init, es); var ch := s.waiters[w].ch;
      || (ch == s.current && !s.drained)
      || (ch == s.current && exists u :: OwesClose(s, u))
      || exists u :: Closes(s, u, ch)
  {
    InitInv();
    RunKeepsInv(Init, es);
  }

  /** No step of any run closes a closed channel. */
  lemma NoDoubleClose(es: seq<Event>, e: Event)
    requires Legal(Init, es) && Enabled(Run(Init, es), e)
    ensures !Panics(Run(Init, es), e)
  {
    InitInv();
    RunKeepsInv(Init, es);
    StepKeepsInv(Run(Init, es), e);
  }

  /** When the flag is true, at most two more steps of one updater wake a blocked waiter: its
      steps are enabled, and the waiter's channel is closed after them. */
  lemma WakeUpIsReached(es: seq<Event>, w: Tid) returns (more: seq<Event>)
    requires Legal(Init, es)
    requires var s := Run(Init, es); s.drained && w in s.waiters && s.waiters[w].Blocked?
    ensures |more| <= 2 && Legal(Run(Init, es), more)
    ensures var s := Run(Init, es); s.waiters[w].ch in Run(s, more).closed
    ensures forall i :: 0 <= i < |more| ==> more[i].SwapChan? || more[i].CloseOld?
  {
    InitInv();
    RunKeepsInv(Init, es);
    var s := Run(Init, es);
    var ch := s.waiters[w].ch;
    if ch in s.closed {
      more := [];
    } else if ch == s.current {
      var u :| OwesClose(s, u);
      more := [SwapChan(u), CloseOld(u)];
      var s1 := Apply(s, SwapChan(u));
      assert Closes(s1, u, ch) && more[1..] == [CloseOld(u)];
      assert Legal(s1, more[1..]);
      var s2 := Apply(s1, CloseOld(u));
      assert [CloseOld(u)][1..] == [];
      assert Run(s1, [CloseOld(u)]) == Run(s2, []);
      assert Run(s, more) == Run(s1, more[1..]);
    } else {
      var u :| Closes(s, u, ch);
      more := [CloseOld(u)];
      assert more[1..] == [];
      assert Run(s, more) == Run(Apply(s, CloseOld(u)), []);
    }
  }

  // ---- Every change of the flag closes one channel ----

  /** How often the flag changed, in either direction, during a run. */
  function Changes(s: State, es: seq<Event>): nat
    requires Legal(s, es)
    decreases |es|
  {
    if es == [] then 0
    else (if s.drained != Apply(s, es[0]).drained then 1 else 0) + Changes(Apply(s, es[0]), es[1..])
  }

  /** The updaters that still have a channel to close. */
  function Closing(updaters: map<Tid, Updater>): set<Tid> {
    set t | t in updaters && !updaters[t].Computed?
  }

  lemma StepBalances(s: State, e: Event)
    requires Enabled(s, e) && !Panics(s, e)
    ensures var t := Apply(s, e);
      |t.closed| + |Closing(t.updaters)| == |s.closed| + |Closing(s.updaters)| + if s.drained != t.drained then 1 else 0
  {
    hide Closing;
    var t := Apply(s, e);
    OthersStay(s, e);
    ClosingWithout(s.updaters, e.t);
    ClosingWithout(t.updaters, e.t);
  }

  lemma OthersStay(s: State, e: Event)
    requires Enabled(s, e)
    ensures Apply(s, e).updaters - {e.t} == s.updaters - {e.t}
  {
  }

  lemma ClosingWithout(updaters: map<Tid, Updater>, u: Tid)
    ensures |Closing(updaters)| == |Closing(updaters - {u})| + if u in updaters && !updaters[u].Computed? then 1 else 0
  {
    if u in updaters && !updaters[u].Computed? {
      assert Closing(updaters) == Closing(updaters - {u}) + {u};
    } else {
      assert Closing(updaters) == Closing(updaters - {u});
    }
  }

  lemma {:induction false} RunBalances(s: State, es: seq<Event>)
    requires Inv(s) && Legal(s, es)
    ensures |Run(s, es).closed| + |Closing(Run(s, es).updaters)| == |s.closed| + |Closing(s.updaters)| + Changes(s, es)
    decreases |es|
  {
    hide Apply, Enabled, Inv, Closing;
    if es != [] {
      StepKeepsInv(s, es[0]);
      StepBalances(s, es[0]);
      RunBalances(Apply(s, es[0]), es[1..]);
    }
  }

  /** Over every run, changes of the flag from false to true and back, and closed channels, are
      equally many, but for the closes that updaters under way still owe. */
  lemma EveryChangeClosesOne(es: seq<Event>)
    requires Legal(Init, es)
    ensures Changes(Init, es) == |Run(Init, es).closed| + |Closing(Run(Init, es).updaters)|
  {
    InitInv();
    RunBalances(Init, es);
    assert Closing(Init.updaters) == {};
  }

  // ---- What the return of a waiter means ----

  /** The flag has the result of a check, and so have updaters that did not set it yet. */
  ghost predicate FlagOk(s: State) {
    && (if s.source.None? then !s.drained else s.source.value < |s.verdicts| && s.drained == s.verdicts[s.source.value])
    && (forall t :: t in s.updaters && s.updaters[t].Computed? ==> s.updaters[t].check < |s.verdicts|)
  }

  lemma StepKeepsFlag(s: State, e: Event)
    requires FlagOk(s) && Enabled(s, e)
    ensures FlagOk(Apply(s, e)) && s.verdicts <= Apply(s, e).verdicts
  {
  }

  lemma {:induction false} RunKeepsFlag(s: State, es: seq<Event>)
    requires FlagOk(s) && Legal(s, es)
    ensures FlagOk(Run(s, es)) && s.verdicts <= Run(s, es).verdicts
    decreases |es|
  {
    hide Apply, Enabled, FlagOk;
    if es != [] {
      StepKeepsFlag(s, es[0]);
      RunKeepsFlag(Apply(s, es[0]), es[1..]);
    }
  }

  /** A waiter that reads the flag returns without an error if it is true and blocks otherwise, and
      it is true only if it has the result of a check that said drained. */
  lemma ReturnMeansDrained(es: seq<Event>, w: Tid)
    requires Legal(Init, es) && Enabled(Run(Init, es), ReadFlag(w))
    ensures var s := Run(Init, es);
      && (w !in Apply(s, ReadFlag(w)).waiters <==> s.drained)
      && (s.drained <==> s.source.Some? && s.source.value < |s.verdicts| && s.verdicts[s.source.value])
  {
    RunKeepsFlag(Init, es);
  }

  /** At most one updater is under way, with the latest check, and otherwise the flag has its result. */
  ghost predicate OneAtATime(s: State) {
    && (forall t, u :: t in s.updaters && u in s.updaters ==> t == u)
    && (forall t :: t in s.updaters && s.updaters[t].Computed? ==> s.updaters[t].check == |s.verdicts| - 1)
    && ((forall t :: t in s.updaters ==> !s.updaters[t].Computed?) ==> LatestOnly(s))
  }

  ghost predicate LatestOnly(s: State) {
    if s.verdicts == [] then s.source == None else s.source == Some(|s.verdicts| - 1)
  }

  /** No check begins while an updater is under way. */
  predicate Serial(s: State, es: seq<Event>)
    requires Legal(s, es)
    decreases |es|
  {
    es == [] || ((es[0].Calculate? ==> s.updaters == map[]) && Serial(Apply(s, es[0]), es[1..]))
  }

  lemma StepKeepsLatest(s: State, e: Event)
    requires OneAtATime(s) && Enabled(s, e) && (e.Calculate? ==> s.updaters == map[])
    ensures OneAtATime(Apply(s, e))
  {
  }

  /** While updaters take turns, as they do under the node's lock, a flag that no updater is about
      to set has the result of the latest check. */
  lemma {:induction false} SerialUpdatersAreCurrent(s: State, es: seq<Event>)
    requires OneAtATime(s) && Legal(s, es) && Serial(s, es)
    ensures OneAtATime(Run(s, es))
    decreases |es|
  {
    hide Apply, Enabled, OneAtATime;
    if es != [] {
      StepKeepsLatest(s, es[0]);
      SerialUpdatersAreCurrent(Apply(s, es[0]), es[1..]);
    }
  }

  /** Two updaters at once, as Flush without the lock allows: the one whose check said drained
      sets the flag after the other, whose later check said not drained; the flag stays true
      with nobody under way, and a waiter returns. */
  lemma OlderCheckMayWin() returns (es: seq<Event>)
    ensures Legal(Init, es)
    ensures var s := Run(Init, es);
      && s.verdicts == [true, false] && s.source == Some(0) && s.drained
      && s.updaters == map[] && Enabled(s, ReadFlag(2)) && 2 !in Apply(s, ReadFlag(2)).waiters
  {
    es := [Calculate(0, true), Calculate(1, false), SwapFlag(1), SwapFlag(0), SwapChan(0), CloseOld(0), LoadChan(2)];
    var s1 := Apply(Init, es[0]);
    var s2 := Apply(s1, es[1]);
    assert s2.updaters == map[0 := Computed(0), 1 := Computed(1)];
    var s3 := Apply(s2, es[2]);
    assert s3 == State([true, false], Some(1), false, 0, {}, 1, map[0 := Computed(0)], map[]);
    var s4 := Apply(s3, es[3]);
    var s5 := Apply(s4, es[4]);
    assert s5 == State([true, false], Some(0), true, 1, {}, 2, map[0 := Holds(0)], map[]);
    var s6 := Apply(s5, es[5]);
    assert s6 == State([true, false], Some(0), true, 1, {0}, 2, map[], map[]);
    var s7 := Apply(s6, es[6]);
    assert s7 == s6.(waiters := map[2 := Loaded(1)]);
    assert Enabled(s7, ReadFlag(2)) && 2 !in Apply(s7, ReadFlag(2)).waiters;
    hide Apply, Enabled;
    StepsFrom(es, [Init, s1, s2, s3, s4, s5, s6, s7], 0);
    assert es[0..] == es;
  }

  lemma {:induction false} StepsFrom(es: seq<Event>, ss: seq<State>, i: nat)
    requires |ss| == |es| + 1 && i <= |es|
    requires forall j :: 0 <= j < |es| ==> Enabled(ss[j], es[j]) && ss[j + 1] == Apply(ss[j], es[j])
    ensures Legal(ss[i], es[i..]) && Run(ss[i], es[i..]) == ss[|es|]
    decreases |es| - i
  {
    hide Apply, Enabled;
    if i < |es| {
      StepsFrom(es, ss, i + 1);
      assert es[i..][0] == es[i] && es[i..][1..] == es[i + 1..];
    }
  }
}
