/** A route's publishers and its change channel, router/route.go and router/route_reset_node.go,
    as functions of the state the route's lock protects. */
module RouteModel {
  import opened Prelude

  datatype PublishMode = Undefined | ExclusiveTakeover | ExclusiveFail | SharedTakeover | SharedFail | EndOfModes {
    predicate IsExclusive() { ExclusiveTakeover? || ExclusiveFail? }
    predicate FailOnConflict() { ExclusiveFail? || SharedFail? }
  }

  datatype Publisher = Publisher(id: nat, mode: PublishMode)

  type Chan = nat

  /** `closed` are the channels closed so far and `next` the one a make would return. */
  datatype State = State(publishers: seq<Publisher>, open: bool, chan: Chan, closed: set<Chan>, next: Chan)

  datatype Error = RouteClosed | AlreadyAPublisher | AlreadyHasPublisher | UnknownMode | NotFound | AlreadyClosed

  /** newRoute: a first channel, closed at once, then openNodeLocked. */
  const Init := State([], true, 1, {0}, 2)

  function NonExclusive(ps: seq<Publisher>): seq<Publisher> {
    if ps == [] then []
    else (if ps[0].mode.IsExclusive() then [] else [ps[0]]) + NonExclusive(ps[1..])
  }

  function Exclusive(ps: seq<Publisher>): seq<Publisher> {
    if ps == [] then []
    else (if ps[0].mode.IsExclusive() then [ps[0]] else []) + Exclusive(ps[1..])
  }

  /** Who may stay beside a publisher of the given mode. */
  function Compatible(mode: PublishMode, ps: seq<Publisher>): seq<Publisher> {
    if mode.IsExclusive() then [] else NonExclusive(ps)
  }

  function Conflicting(mode: PublishMode, ps: seq<Publisher>): seq<Publisher> {
    if mode.IsExclusive() then ps else Exclusive(ps)
  }

  function AddError(s: State, p: Publisher): Option<Error> {
    if !s.open then Some(RouteClosed)
    else if p in s.publishers then Some(AlreadyAPublisher)
    else if s.publishers == [] then None
    else if p.mode.Undefined? || p.mode.EndOfModes? then Some(UnknownMode)
    else if p.mode.FailOnConflict() && Conflicting(p.mode, s.publishers) != [] then Some(AlreadyHasPublisher)
    else None
  }

  /** The channel is closed and replaced. */
  function Announced(s: State, publishers: seq<Publisher>): State {
    State(publishers, s.open, s.next, s.closed + {s.chan}, s.next + 1)
  }

  function Add(s: State, p: Publisher): State {
    if AddError(s, p).Some? then s
    else Announced(s, Compatible(p.mode, s.publishers) + [p])
  }

  function IndexOf(ps: seq<Publisher>, p: Publisher): (i: nat)
    ensures i <= |ps| && (i < |ps| ==> ps[i] == p) && (i < |ps| <==> p in ps)
  {
    if ps == [] || ps[0] == p then 0 else 1 + IndexOf(ps[1..], p)
  }

  function Without(ps: seq<Publisher>, p: Publisher): seq<Publisher>
    requires p in ps
  {
    ps[..IndexOf(ps, p)] + ps[IndexOf(ps, p) + 1..]
  }

  function Remove(s: State, p: Publisher): State {
    if p !in s.publishers then s
    else if s.open then Announced(s, Without(s.publishers, p))
    else s.(publishers := Without(s.publishers, p))
  }

  function Close(s: State): State {
    if !s.open then s else s.(open := false, closed := s.closed + {s.chan})
  }

  function Open(s: State): State
    requires !s.open
  {
    s.(open := true, chan := s.next, next := s.next + 1)
  }

  function Reset(s: State): State { Open(Close(s)) }

  // ---- What every operation keeps ----

  ghost predicate Distinct(ps: seq<Publisher>) {
    forall i, j :: 0 <= i < j < |ps| ==> ps[i] != ps[j]
  }

  ghost predicate ExclusiveIsAlone(ps: seq<Publisher>) {
    forall p :: p in ps && p.mode.IsExclusive() ==> |ps| == 1
  }

  /** The node is open exactly when the current channel is not closed, and only the current
      channel can be unclosed. */
  ghost predicate ChannelOk(s: State) {
    && s.chan < s.next
    && (s.open <==> s.chan !in s.closed)
    && (forall ch :: ch in s.closed ==> ch < s.next)
    && (forall ch: Chan :: ch < s.next && ch != s.chan ==> ch in s.closed)
  }

  ghost predicate Inv(s: State) {
    Distinct(s.publishers) && ExclusiveIsAlone(s.publishers) && ChannelOk(s)
  }

  datatype Op = DoAdd(p: Publisher) | DoRemove(p: Publisher) | DoClose | DoReset

  function Apply(s: State, op: Op): State {
    match op
    case DoAdd(p) => Add(s, p)
    case DoRemove(p) => Remove(s, p)
    case DoClose => Close(s)
    case DoReset => Reset(s)
  }

  /** The channel the operation closes. */
  function Closing(s: State, op: Op): Option<Chan> {
    match op
    case DoAdd(p) => if AddError(s, p).None? then Some(s.chan) else None
    case DoRemove(p) => if p in s.publishers && s.open then Some(s.chan) else None
    case DoClose => if s.open then Some(s.chan) else None
    case DoReset => if s.open then Some(s.chan) else None
  }

  function Run(s: State, ops: seq<Op>): State
    decreases |ops|
  {
    if ops == [] then s else Run(Apply(s, ops[0]), ops[1..])
  }

  lemma {:induction false} NonExclusiveHas(ps: seq<Publisher>, p: Publisher)
    ensures p in NonExclusive(ps) <==> p in ps && !p.mode.IsExclusive()
  {
    if ps != [] {
      NonExclusiveHas(ps[1..], p);
      assert ps == [ps[0]] + ps[1..];
    }
  }

  lemma {:induction false} NonExclusiveDistinct(ps: seq<Publisher>)
    requires Distinct(ps)
    ensures Distinct(NonExclusive(ps))
  {
    if ps != [] {
      var rest := ps[1..];
      NonExclusiveDistinct(rest);
      NonExclusiveHas(rest, ps[0]);
      assert ps[0] !in rest;
    }
  }

  lemma {:induction false} SharedAndExclusive(ps: seq<Publisher>)
    ensures multiset(ps) == multiset(NonExclusive(ps)) + multiset(Exclusive(ps))
  {
    if ps != [] {
      SharedAndExclusive(ps[1..]);
      assert ps == [ps[0]] + ps[1..];
    }
  }

  /** Whoever may not stay beside the new publisher conflicts with it: every old publisher is among
      the ones or the others, and as often. */
  lemma NobodyIsForgotten(mode: PublishMode, ps: seq<Publisher>)
    ensures multiset(ps) == multiset(Compatible(mode, ps)) + multiset(Conflicting(mode, ps))
  {
    SharedAndExclusive(ps);
    hide NonExclusive, Exclusive;
  }

  // ---- Order ----

  /** p comes before q. */
  ghost predicate Precedes(ps: seq<Publisher>, p: Publisher, q: Publisher) {
    exists i, j :: 0 <= i < j < |ps| && ps[i] == p && ps[j] == q
  }

  lemma PrecedesOneMore(first: Publisher, ps: seq<Publisher>, p: Publisher, q: Publisher)
    ensures Precedes([first] + ps, p, q) <==> (first == p && q in ps) || Precedes(ps, p, q)
  {
    var longer := [first] + ps;
    if first == p && q in ps {
      var j :| 0 <= j < |ps| && ps[j] == q;
      assert longer[0] == p && longer[j + 1] == q;
    }
    if Precedes(ps, p, q) {
      var i, j :| 0 <= i < j < |ps| && ps[i] == p && ps[j] == q;
      assert longer[i + 1] == p && longer[j + 1] == q;
    }
  }

  /** Those who share stay in order. */
  lemma {:induction false} NonExclusiveInOrder(ps: seq<Publisher>, p: Publisher, q: Publisher)
    ensures Precedes(NonExclusive(ps), p, q) <==> Precedes(ps, p, q) && !p.mode.IsExclusive() && !q.mode.IsExclusive()
  {
    if ps != [] {
      var rest := ps[1..];
      NonExclusiveInOrder(rest, p, q);
      NonExclusiveHas(rest, q);
      assert ps == [ps[0]] + rest;
      PrecedesOneMore(ps[0], rest, p, q);
      PrecedesOneMore(ps[0], NonExclusive(rest), p, q);
      hide Precedes;
      if ps[0].mode.IsExclusive() {
        assert NonExclusive(ps) == NonExclusive(rest);
      }
    }
  }

  lemma AddKeepsPublishers(ps: seq<Publisher>, p: Publisher)
    requires Distinct(ps) && ExclusiveIsAlone(ps) && p !in ps
    ensures var r := Compatible(p.mode, ps) + [p]; Distinct(r) && ExclusiveIsAlone(r)
  {
    NonExclusiveDistinct(ps);
    forall q ensures q in NonExclusive(ps) <==> q in ps && !q.mode.IsExclusive() {
      NonExclusiveHas(ps, q);
    }
  }

  lemma RemoveKeepsPublishers(ps: seq<Publisher>, p: Publisher)
    requires Distinct(ps) && ExclusiveIsAlone(ps) && p in ps
    ensures Distinct(Without(ps, p)) && ExclusiveIsAlone(Without(ps, p))
    ensures p !in Without(ps, p) && forall q :: q in Without(ps, p) <==> q in ps && q != p
  {
    var i, r := IndexOf(ps, p), Without(ps, p);
    forall q ensures q in r <==> q in ps && q != p {
      if q in ps && q != p {
        var j :| 0 <= j < |ps| && ps[j] == q;
        assert r[if j < i then j else j - 1] == q;
      }
    }
  }

  lemma ApplyKeepsInv(s: State, op: Op)
    requires Inv(s)
    ensures Inv(Apply(s, op))
    ensures Closing(s, op).Some? ==> Closing(s, op).value !in s.closed
  {
    match op
    case DoAdd(p) => if AddError(s, p).None? { AddKeepsPublishers(s.publishers, p); }
    case DoRemove(p) => if p in s.publishers { RemoveKeepsPublishers(s.publishers, p); }
    case DoClose =>
    case DoReset =>
  }

  lemma {:induction false} RunKeepsInv(s: State, ops: seq<Op>)
    requires Inv(s)
    ensures Inv(Run(s, ops))
    decreases |ops|
  {
    if ops != [] {
      ApplyKeepsInv(s, ops[0]);
      RunKeepsInv(Apply(s, ops[0]), ops[1..]);
    }
  }

  /** In every reachable state: publishers are distinct, an exclusive one is alone, the node is
      open exactly when its channel is unclosed, and no operation closes a closed channel. */
  lemma ReachableStates(ops: seq<Op>, op: Op)
    ensures var s := Run(Init, ops);
      && Distinct(s.publishers)
      && (forall p :: p in s.publishers && (p.mode == ExclusiveTakeover || p.mode == ExclusiveFail) ==> s.publishers == [p])
      && (s.open <==> s.chan !in s.closed)
      && (Closing(s, op).Some? ==> Closing(s, op).value !in s.closed)
  {
    assert Inv(Init);
    RunKeepsInv(Init, ops);
    ApplyKeepsInv(Run(Init, ops), op);
    var ps := Run(Init, ops).publishers;
    forall p | p in ps && (p.mode == ExclusiveTakeover || p.mode == ExclusiveFail) ensures ps == [p] {
      assert |ps| == 1;
    }
  }

  /** Neither of the exclusive modes. */
  predicate Shares(mode: PublishMode) {
    mode != ExclusiveTakeover && mode != ExclusiveFail
  }

  /** Arbitration: an addition to a reachable route either fails and changes nothing, or leaves
      the new publisher last, after exactly the old ones it does not conflict with, in order. */
  lemma Arbitration(ops: seq<Op>, p: Publisher)
    ensures var s := Run(Init, ops); var t := Add(s, p);
      if s.open && p !in s.publishers
        && (s.publishers == [] || p.mode == ExclusiveTakeover || p.mode == SharedTakeover
            || (p.mode == SharedFail && forall q :: q in s.publishers ==> q.mode != ExclusiveTakeover && q.mode != ExclusiveFail))
      then
        && t.publishers == Compatible(p.mode, s.publishers) + [p] && t.chan != s.chan && s.chan in t.closed && t.open
        && (forall q :: q in Compatible(p.mode, s.publishers) <==>
              q in s.publishers && Shares(q.mode) && Shares(p.mode))
        && (forall q, q' :: Precedes(Compatible(p.mode, s.publishers), q, q') <==>
              Precedes(s.publishers, q, q') && Shares(q.mode) && Shares(q'.mode) && Shares(p.mode))
      else t == s
  {
    var s := Run(Init, ops);
    assert Inv(Init);
    RunKeepsInv(Init, ops);
    AddOutcome(s, p);
  }

  lemma AddOutcome(s: State, p: Publisher)
    requires Inv(s)
    ensures var t := Add(s, p);
      if s.open && p !in s.publishers
        && (s.publishers == [] || p.mode == ExclusiveTakeover || p.mode == SharedTakeover
            || (p.mode == SharedFail && forall q :: q in s.publishers ==> q.mode != ExclusiveTakeover && q.mode != ExclusiveFail))
      then
        && t.publishers == Compatible(p.mode, s.publishers) + [p] && t.chan != s.chan && s.chan in t.closed && t.open
        && (forall q :: q in Compatible(p.mode, s.publishers) <==>
              q in s.publishers && Shares(q.mode) && Shares(p.mode))
        && (forall q, q' :: Precedes(Compatible(p.mode, s.publishers), q, q') <==>
              Precedes(s.publishers, q, q') && Shares(q.mode) && Shares(q'.mode) && Shares(p.mode))
      else t == s
  {
    CompatibleMeans(p.mode, s.publishers);
    AddErrorMeans(s, p);
    hide Compatible, Precedes, AddError;
  }

  /** Those compatible with a new publisher are the ones that share, if it does, in order. */
  lemma CompatibleMeans(mode: PublishMode, ps: seq<Publisher>)
    ensures forall q :: q in Compatible(mode, ps) <==> q in ps && Shares(q.mode) && Shares(mode)
    ensures forall q, q' :: Precedes(Compatible(mode, ps), q, q') <==>
      Precedes(ps, q, q') && Shares(q.mode) && Shares(q'.mode) && Shares(mode)
  {
    forall q ensures q in NonExclusive(ps) <==> q in ps && Shares(q.mode) {
      NonExclusiveHas(ps, q);
    }
    forall q, q' ensures Precedes(NonExclusive(ps), q, q') <==>
      Precedes(ps, q, q') && Shares(q.mode) && Shares(q'.mode)
    {
      NonExclusiveInOrder(ps, q, q');
    }
    forall q, q' ensures !Precedes([], q, q') { }
    hide NonExclusive, Precedes, Shares;
    assert mode.IsExclusive() <==> !Shares(mode) by { ExclusiveOrShares(mode); }
  }

  lemma ExclusiveOrShares(mode: PublishMode)
    ensures mode.IsExclusive() <==> !Shares(mode)
  {
  }

  lemma {:induction false} ExclusiveNone(ps: seq<Publisher>)
    ensures Exclusive(ps) == [] <==> forall q :: q in ps ==> !q.mode.IsExclusive()
  {
    if ps != [] {
      ExclusiveNone(ps[1..]);
      assert ps == [ps[0]] + ps[1..];
    }
  }

  /** Errors of an addition, in the order in which they are looked for. */
  lemma AddErrorMeans(s: State, p: Publisher)
    ensures var err := AddError(s, p); var tried := s.open && p !in s.publishers && s.publishers != [];
      && (err == Some(RouteClosed) <==> !s.open)
      && (err == Some(AlreadyAPublisher) <==> s.open && p in s.publishers)
      && (err == Some(UnknownMode) <==> tried && (p.mode == Undefined || p.mode == EndOfModes))
      && (err == Some(AlreadyHasPublisher) <==>
            tried && (p.mode == ExclusiveFail || (p.mode == SharedFail && exists q :: q in s.publishers && !Shares(q.mode))))
      && (err.Some? ==>
            err.value.RouteClosed? || err.value.AlreadyAPublisher? || err.value.AlreadyHasPublisher? || err.value.UnknownMode?)
  {
    ExclusiveNone(s.publishers);
    hide Exclusive;
  }

  /** Who is there and who has to go after an addition. */
  lemma AddKeepsEverybody(s: State, p: Publisher)
    ensures AddError(s, p).Some? ==> Add(s, p) == s
    ensures AddError(s, p).None? ==> var t := Add(s, p).publishers;
      && multiset(s.publishers) + multiset{p} == multiset(t) + multiset(Conflicting(p.mode, s.publishers))
      && t != [] && t[|t| - 1] == p
  {
    NobodyIsForgotten(p.mode, s.publishers);
    hide AddError, Compatible, Conflicting;
  }
}
