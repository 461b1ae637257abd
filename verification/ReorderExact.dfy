/** Exactly when the order check of the DTS merge fails: over all runs without discards, with
    overflow sends, catch-up sends, drops and late streams; and for which time bases it may. */
module ReorderExact {
  import opened AvConv
  import opened Heap
  import opened ReorderModel
  import opened ReorderTheorems
  import opened ReorderMerge
  import opened ReorderCalls
  import opened ReorderExamples

  // ---- Late arrivals ----

  /** The items the run takes into the queue. */
  ghost function Taken(es: seq<Event>): set<Item> {
    set i | 0 <= i < |es| && es[i].Enqueue? :: es[i].item
  }

  /** The order of raw DTSs, by which the heap compares, does not contradict the order in time. */
  ghost predicate RawIsTime(items: set<Item>) {
    forall a, b :: a in items && b in items && a.dts <= b.dts ==> Time(a) <= Time(b)
  }

  ghost predicate Sends(es: seq<Event>) {
    exists i :: 0 <= i < |es| && es[i].Send?
  }

  /** Some item, on its arrival in the queue, is before the time of the latest one passed on, and
      some item, this one or another, is sent after that. */
  ghost predicate LateThenSend(c: Config, s: State, es: seq<Event>)
    requires Legal(c, s, es)
    decreases |es|
  {
    es != [] && ((es[0].Enqueue? && Time(es[0].item) < s.prevDTS && Sends(es[1..]))
      || LateThenSend(c, Apply(c, s, es[0]), es[1..]))
  }

  /** An item in the queue is before the latest one passed on. */
  ghost predicate HoldsLate(s: State) {
    exists x :: x in s.queue && Time(x) < s.prevDTS
  }

  lemma SendsSplit(es: seq<Event>)
    requires es != []
    ensures Sends(es) <==> es[0].Send? || Sends(es[1..])
  {
    var rest := es[1..];
    assert forall i :: 1 <= i < |es| ==> es[i] == rest[i - 1];
    if j :| 0 <= j < |rest| && rest[j].Send? {
      assert es[j + 1].Send?;
    }
  }

  lemma TakenSplit(es: seq<Event>)
    requires es != []
    ensures Taken(es) == Taken(es[1..]) + if es[0].Enqueue? then {es[0].item} else {}
  {
    var rest := es[1..];
    assert forall i :: 1 <= i < |es| ==> es[i] == rest[i - 1];
    forall x | x in Taken(rest) ensures x in Taken(es) {
      var j :| 0 <= j < |rest| && rest[j].Enqueue? && rest[j].item == x;
      assert es[j + 1].Enqueue? && es[j + 1].item == x;
    }
    if es[0].Enqueue? {
      assert es[0].item in Taken(es);
    }
  }

  /** A send pops something no later than anything queued: it fails exactly if a late item is there,
      and afterwards, unless it failed, none is. */
  lemma SendFindsLate(c: Config, s: State, x: Item, delivered: bool)
    requires IsMin(x, s.queue, Dts) && Key(x) in s.streams && RawIsTime(set y | y in s.queue)
    ensures var t := Emitted(c, Popped(s, x), x, delivered);
      && (t.backwards <==> s.backwards || HoldsLate(s))
      && (!HoldsLate(s) ==> !HoldsLate(t))
      && t.queue == s.queue - multiset{x}
  {
    hide Time;
    var t := Emitted(c, Popped(s, x), x, delivered);
    var items := set y | y in s.queue;
    assert x in items;
    forall y | y in s.queue ensures Time(x) <= Time(y) {
      assert y in items && Dts(x) <= Dts(y);
    }
    PopFields(s, x);
    hide Popped;
    assert t.queue == s.queue - multiset{x} by { PopStreams(s, x); }
    if s.prevDTS > Time(x) {
      assert HoldsLate(s);
    }
  }

  lemma EnqueueHoldsLate(s: State, x: Item)
    ensures var t := Enqueued(s, x);
      && t.queue == s.queue + multiset{x} && t.backwards == s.backwards
      && (HoldsLate(t) <==> HoldsLate(s) || Time(x) < s.prevDTS)
  {
    hide Time;
    var t := Enqueued(s, x);
    assert t.queue == s.queue + multiset{x} && t.prevDTS == s.prevDTS && t.backwards == s.backwards;
    hide Enqueued;
    if Time(x) < s.prevDTS {
      assert x in t.queue;
    }
    if HoldsLate(s) {
      var y :| y in s.queue && Time(y) < s.prevDTS;
      assert y in t.queue;
    }
  }

  /** One event: what becomes of the check and of late items. */
  lemma StepAndLate(c: Config, s: State, e: Event)
    requires Enabled(c, s, e) && !e.DiscardOldest? && RawIsTime(set y | y in s.queue)
    ensures var t := Apply(c, s, e);
      && (t.backwards <==> s.backwards || (e.Send? && HoldsLate(s)))
      && (!e.Send? ==> (HoldsLate(t) <==> HoldsLate(s) || (e.Enqueue? && Time(e.item) < s.prevDTS)))
      && (e.Send? && !HoldsLate(s) ==> !HoldsLate(t))
      && (forall y :: y in t.queue ==> y in s.queue || e == Enqueue(y))
  {
    hide Time, Emitted, Popped, Enqueued, RawIsTime, HoldsLate;
    var s1 := s.(failed := false);
    SameLate(s, s1);
    if e.Send? {
      SendFindsLate(c, s1, e.item, e.delivered);
    } else if e.Enqueue? {
      EnqueueHoldsLate(s1, e.item);
    } else {
      var t := Apply(c, s, e);
      assert t.queue == s.queue && t.prevDTS == s.prevDTS && t.backwards == s.backwards by { hide IsMin; }
      hide Apply, Enabled;
      SameLate(s, t);
    }
  }

  lemma SameLate(s: State, t: State)
    requires t.queue == s.queue && t.prevDTS == s.prevDTS
    ensures HoldsLate(t) <==> HoldsLate(s)
  {
    hide Time;
  }

  lemma {:induction false} BackwardsFrom(c: Config, s: State, es: seq<Event>, items: set<Item>)
    requires Legal(c, s, es) && !Discards(es)
    requires RawIsTime(items) && Taken(es) <= items && forall y :: y in s.queue ==> y in items
    ensures Run(c, s, es).backwards <==>
      s.backwards || (HoldsLate(s) && Sends(es)) || LateThenSend(c, s, es)
    decreases |es|
  {
    hide Apply, Enabled, HoldsLate, Sends, Discards, Taken, Time;
    if es == [] {
      assert !Sends(es) by { NothingSent(); }
    } else {
      var e, rest := es[0], es[1..];
      SendsSplit(es);
      DiscardsSplit(es);
      TakenSplit(es);
      assert RawIsTime(set y | y in s.queue);
      StepAndLate(c, s, e);
      assert e.Enqueue? ==> e.item in items;
      hide RawIsTime;
      BackwardsFrom(c, Apply(c, s, e), rest, items);
    }
  }

  lemma NothingSent()
    ensures !Sends([])
  {
  }

  /** Over every run that discards nothing and whose queued items have raw DTSs in the order of
      their times, with any sends, drops, failures and late streams: the order check fails if
      and only if an item is queued that is already before the last time passed on, and
      something is sent after it. A caller can compare the two on arrival. */
  lemma BackwardsExactly(c: Config, es: seq<Event>)
    requires Legal(c, Init, es) && !Discards(es) && RawIsTime(Taken(es))
    ensures Run(c, Init, es).backwards <==> LateThenSend(c, Init, es)
  {
    hide Time;
    BackwardsFrom(c, Init, es, Taken(es));
  }

  lemma OneTimeBaseRawIsTime(items: set<Item>, tb: TimeBase)
    requires forall x :: x in items ==> x.timeBase == tb && 0 <= x.dts
    ensures RawIsTime(items)
  {
    hide Duration;
    forall a, b | a in items && b in items && a.dts <= b.dts ensures Time(a) <= Time(b) {
      DurationMonotone(a.dts, b.dts, tb);
    }
  }

  // ---- Time bases ----

  /** Both time bases give each raw DTS the same time. */
  ghost predicate SameTimes(tbA: TimeBase, tbB: TimeBase) {
    forall d: Int64 :: 0 <= d ==> Duration(d, tbA) == Duration(d, tbB)
  }

  /** No clean session of ordered streams that keep to the two time bases fails the order check. */
  ghost predicate NeverBackwards(c: Config, tbA: TimeBase, tbB: TimeBase) {
    forall calls :: CleanSession(c, calls) && OrderedInBases(Served(c, Init, calls).offered, tbA, tbB) ==>
      !Served(c, Init, calls).backwards
  }

  ghost predicate OrderedInBases(xs: seq<Item>, tbA: TimeBase, tbB: TimeBase) {
    PerStreamOrdered(xs) && NonNegative(xs) && InBases(xs, tbA, tbB)
  }

  /** Announced streams, each ordered and in one of two time bases, never fail the order check if and
      only if the two give every raw DTS the same time; for a configuration that lets two items
      of one DTS wait together, without which nothing is merged. */
  lemma TimeBasesExactly(c: Config, tbA: TimeBase, tbB: TimeBase)
    requires c.capacity >= 2 && 0 <= Limit(c)
    ensures NeverBackwards(c, tbA, tbB) <==> SameTimes(tbA, tbB)
  {
    if SameTimes(tbA, tbB) {
      forall calls | CleanSession(c, calls) && OrderedInBases(Served(c, Init, calls).offered, tbA, tbB)
        ensures !Served(c, Init, calls).backwards
      {
        SessionIsRun(c, Init, calls);
        SameTimesAreCompatible(Served(c, Init, calls).offered, tbA, tbB);
        hide Legal, Clean, Run, PerStreamOrdered, NonNegative, TimeCompatible, Session;
        MergeIsCorrect(c, AllEvents(calls));
      }
    } else {
      var d: Int64 :| 0 <= d && Duration(d, tbA) != Duration(d, tbB);
      hide CleanSession, Session, PerStreamOrdered, NonNegative, Duration, InBases;
      var calls;
      if Duration(d, tbB) < Duration(d, tbA) {
        calls := MixedTimeBasesFail(c, d, d, tbA, tbB);
      } else {
        calls := MixedTimeBasesFail(c, d, d, tbB, tbA);
        BasesEitherWay(Served(c, Init, calls).offered, tbA, tbB);
      }
      assert OrderedInBases(Served(c, Init, calls).offered, tbA, tbB);
    }
  }

  lemma BasesEitherWay(xs: seq<Item>, tbA: TimeBase, tbB: TimeBase)
    requires InBases(xs, tbB, tbA)
    ensures InBases(xs, tbA, tbB)
  {
  }

  lemma SameTimesAreCompatible(xs: seq<Item>, tbA: TimeBase, tbB: TimeBase)
    requires SameTimes(tbA, tbB) && NonNegative(xs) && InBases(xs, tbA, tbB)
    ensures TimeCompatible(xs)
  {
    hide Duration;
    forall a | a in xs ensures 0 <= Time(a) && Time(a) == Duration(a.dts, tbA) && 0 <= a.dts {
      DurationMonotone(a.dts, a.dts, tbA);
    }
    forall a, b | a in xs && b in xs && a.dts <= b.dts ensures Time(a) <= Time(b) {
      DurationMonotone(a.dts, b.dts, tbA);
    }
  }

  /** Equal fractions are enough. */
  lemma EqualFractionsGiveSameTimes(tbA: TimeBase, tbB: TimeBase)
    requires tbA.num * tbB.den == tbB.num * tbA.den
    ensures SameTimes(tbA, tbB)
  {
    forall d: Int64 | 0 <= d ensures Duration(d, tbA) == Duration(d, tbB) {
      SameDuration(d, tbA, tbB);
    }
  }

  lemma SameDuration(d: nat, tbA: TimeBase, tbB: TimeBase)
    requires tbA.num * tbB.den == tbB.num * tbA.den
    ensures Duration(d, tbA) == Duration(d, tbB)
  {
    DurationLeast(d, tbA, tbB);
    DurationLeast(d, tbB, tbA);
  }

  lemma DurationLeast(d: nat, tbA: TimeBase, tbB: TimeBase)
    requires tbA.num * tbB.den == tbB.num * tbA.den
    ensures Duration(d, tbA) <= Duration(d, tbB)
  {
    var x, y := d * (tbA.num * NANOS_PER_SECOND), d * (tbB.num * NANOS_PER_SECOND);
    MulMono(0, d, tbA.num * NANOS_PER_SECOND);
    MulMono(0, d, tbB.num * NANOS_PER_SECOND);
    assert x * tbB.den == y * tbA.den by {
      Rearrange(d, tbA.num, tbB.den);
      Rearrange(d, tbB.num, tbA.den);
    }
    DivBounds(x, tbA.den);
    var q := x / tbA.den;
    MulMono(q * tbA.den, x, tbB.den);
    Swap(q, tbA.den, tbB.den);
    assert (y + 1) * tbA.den == y * tbA.den + tbA.den;
    if q * tbB.den > y {
      MulMono(y + 1, q * tbB.den, tbA.den);
    }
    DivAtLeast(y, tbB.den, q);
  }

  lemma Rearrange(d: int, n: int, m: int)
    ensures (d * (n * NANOS_PER_SECOND)) * m == d * NANOS_PER_SECOND * (n * m)
  {
  }

  lemma Swap(a: int, b: int, c: int)
    ensures (a * b) * c == (a * c) * b
  {
  }
}
