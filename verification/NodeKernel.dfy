/** The time shift of router/node_kernel.go: the first packet of a new source is moved behind
    the latest PTS, and the source's later packets are moved by the same amount. Timestamps and
    durations are exact. */
module NodeKernel {
  import opened Prelude
  import opened AvConv

  type SourceId = nat

  datatype Packet = Packet(stream: int, source: SourceId, isVideo: bool, pts: int, dts: int, timeBase: TimeBase)

  /** LatestPTS, the time shift of each known source, the previous source of each stream. */
  datatype State = State(latestPTS: int, shifts: map<SourceId, int>, previous: map<int, SourceId>)

  const Init := State(0, map[], map[])

  /** The DTS is at most the PTS. */
  function Clamped(p: Packet): Packet {
    if p.dts > p.pts then p.(dts := p.pts) else p
  }

  function Moved(p: Packet, ticks: int): Packet {
    p.(pts := p.pts + ticks, dts := p.dts + ticks)
  }

  /** makeTimeMoveOnlyForward; None is errSkip. */
  function MoveForward(fix: bool, s: State, p0: Packet, isNewSource: bool): (State, Option<Packet>) {
    if !p0.isVideo then (s, Some(p0))
    else
      var p := Clamped(p0);
      var shift := if p.source in s.shifts then s.shifts[p.source] else 0;
      var known := s.(shifts := s.shifts[p.source := shift]);
      if !isNewSource then
        var q := Moved(p, FromDuration(shift, p.timeBase));
        (known.(latestPTS := Duration(q.pts, p.timeBase)), Some(q))
      else if s.latestPTS == -1 then (known.(latestPTS := Duration(p.pts, p.timeBase)), Some(p))
      else
        var offset := FromDuration(s.latestPTS, p.timeBase) + 2 - p.pts;
        var newShift := Duration(offset, p.timeBase);
        if newShift < shift then (known.(latestPTS := Duration(p.pts, p.timeBase)), Some(p))
        else if !fix then (known, None)
        else
          var q := Moved(p, offset);
          (known.(latestPTS := Duration(q.pts, p.timeBase), shifts := s.shifts[p.source := newShift]), Some(q))
  }

  predicate IsNewSource(s: State, p: Packet) {
    p.stream !in s.previous || s.previous[p.stream] != p.source
  }

  /** sendInputPacket: the state after it and what it passes on. */
  function Send(fix: bool, s: State, p: Packet): (State, Option<Packet>) {
    MoveForward(fix, s.(previous := s.previous[p.stream := p.source]), p, IsNewSource(s, p))
  }

  class Kernel {
    const shouldFixPTS: bool
    var LatestPTS: int
    var SourceInfo: map<SourceId, int>
    var PreviousSource: map<int, SourceId>

    function View(): State
      reads this
    {
      State(LatestPTS, SourceInfo, PreviousSource)
    }

    constructor (shouldFixPTS: bool)
      ensures View() == Init && this.shouldFixPTS == shouldFixPTS
    {
      this.shouldFixPTS, LatestPTS, SourceInfo, PreviousSource := shouldFixPTS, 0, map[], map[];
    }

    method SendInputPacket(input: Packet) returns (output: Option<Packet>)
      modifies this
      ensures (View(), output) == Send(shouldFixPTS, old(View()), input)
    {
      var isNewSource := IsNewSource(View(), input);
      if isNewSource {
        PreviousSource := PreviousSource[input.stream := input.source];
      }
      assert PreviousSource == old(PreviousSource)[input.stream := input.source];
      output := MakeTimeMoveOnlyForward(input, isNewSource);
    }

    method MakeTimeMoveOnlyForward(input: Packet, setNewTimeShift: bool) returns (output: Option<Packet>)
      modifies this`LatestPTS, this`SourceInfo
      ensures (View(), output) == MoveForward(shouldFixPTS, old(View()), input, setNewTimeShift)
    {
      var p := input;
      if !p.isVideo {
        return Some(p);
      }
      if p.dts > p.pts {
        p := p.(dts := p.pts);
      }
      if p.source !in SourceInfo {
        SourceInfo := SourceInfo[p.source := 0];
      }
      var timeShift := SourceInfo[p.source];
      assert SourceInfo == old(SourceInfo)[p.source := timeShift];
      var timeBase := p.timeBase;
      if !setNewTimeShift {
        var ticks := FromDuration(timeShift, timeBase);
        p := p.(dts := p.dts + ticks);
        p := p.(pts := p.pts + ticks);
        LatestPTS := Duration(p.pts, timeBase);
        return Some(p);
      }
      if LatestPTS == -1 {
        LatestPTS := Duration(p.pts, timeBase);
        return Some(p);
      }
      var newPTS := FromDuration(LatestPTS, timeBase) + 2;
      var ptsOffset := newPTS - p.pts;
      var newTimeShift := Duration(ptsOffset, timeBase);
      if newTimeShift < timeShift {
        LatestPTS := Duration(p.pts, timeBase);
        return Some(p);
      }
      if !shouldFixPTS {
        return None;
      }
      SourceInfo := SourceInfo[p.source := newTimeShift];
      assert SourceInfo == old(SourceInfo)[p.source := newTimeShift];
      p := p.(pts := newPTS);
      p := p.(dts := p.dts + ptsOffset);
      LatestPTS := Duration(p.pts, timeBase);
      return Some(p);
    }
  }

  // ---- What it guarantees ----

  /** Whatever is passed on of a video stream has DTS <= PTS, and whatever is not video is
      passed on as it came, changing nothing but the stream's previous source. */
  lemma OutputDtsAtMostPts(fix: bool, s: State, p: Packet)
    ensures var q := Send(fix, s, p).1;
      if p.isVideo then q.Some? ==> q.value.dts <= q.value.pts
      else q == Some(p) && Send(fix, s, p).0 == s.(previous := s.previous[p.stream := p.source])
  {
  }

  /** LatestPTS is the time of the video packet that was passed on last, with the stamps it leaves
      with; if none is passed on it stays. */
  lemma LatestIsOfThePacketPassedOn(fix: bool, s: State, p: Packet)
    requires p.isVideo
    ensures var (t, q) := Send(fix, s, p);
      t.latestPTS == if q.Some? then Duration(q.value.pts, p.timeBase) else s.latestPTS
  {
    hide Duration, FromDuration;
  }

  /** Both stamps of a video packet move by the same number of ticks, after a DTS beyond the PTS was
      set to it, and nothing else of the packet changes. */
  lemma StampsMoveTogether(fix: bool, s: State, p: Packet)
    requires p.isVideo && Send(fix, s, p).1.Some?
    ensures var q := Send(fix, s, p).1.value;
      && q.pts - p.pts == q.dts - (if p.dts > p.pts then p.pts else p.dts)
      && q == p.(pts := q.pts, dts := q.dts)
  {
    hide Duration, FromDuration;
  }

  /** Where a video packet goes: a continuing source's is moved by the shift it has; a new source's
      is put two ticks after the latest one, unless that would make its shift smaller or there
      is no latest one, when it stays where it is. */
  lemma WhereItGoes(fix: bool, s: State, p: Packet)
    requires p.isVideo && Send(fix, s, p).1.Some?
    ensures var q := Send(fix, s, p).1.value;
      if !IsNewSource(s, p) then q.pts == p.pts + FromDuration(KnownShift(s, p.source), p.timeBase)
      else if s.latestPTS == -1 || NewShift(s, p) < KnownShift(s, p.source) then q.pts == p.pts
      else q.pts == FromDuration(s.latestPTS, p.timeBase) + 2
  {
    hide Duration, FromDuration;
  }

  /** A packet is skipped exactly if it would have to be moved and moving is not configured. */
  lemma SkippedExactly(fix: bool, s: State, p: Packet)
    ensures Send(fix, s, p).1.None? <==>
      p.isVideo && !fix && IsNewSource(s, p) && s.latestPTS != -1 && NewShift(s, p) >= KnownShift(s, p.source)
  {
    hide Duration, FromDuration;
  }

  predicate Sane(p: Packet) {
    p.isVideo && 0 <= p.pts < 0x8000_0000_0000_0000 && CoarseTicks(p.timeBase)
  }

  /** The first video packet of a source never seen before is passed on and moves LatestPTS
      strictly forward, whatever its time base and whatever came before. */
  lemma FirstPacketMovesForward(s: State, p: Packet)
    requires s.latestPTS >= 0 && Sane(p) && p.source !in s.shifts && IsNewSource(s, p)
    ensures var (t, q) := Send(true, s, p);
      && q.Some? && t.latestPTS > s.latestPTS
      && t.latestPTS == Duration(q.value.pts, p.timeBase) && q.value.pts >= 2
      && p.source in t.shifts && t.shifts[p.source] == Duration(q.value.pts - p.pts, p.timeBase)
      && q.value.pts >= p.pts
  {
    var base := FromDuration(s.latestPTS, p.timeBase) + 2;
    var offset := base - p.pts;
    TwoTicksAreLater(s.latestPTS, base, p.timeBase);
    if offset < 0 {
      NegativeDuration(offset, p.timeBase);
      TwoTicksAreLater(s.latestPTS, p.pts, p.timeBase);
      assert Duration(0, p.timeBase) == 0;
    } else {
      RoundTripLosesAtMostOne(offset, p.timeBase);
    }
  }

  /** The next video packet of the same source on the same stream, with a later PTS in the same time base. */
  predicate IsNext(p: Packet, q: Packet) {
    Sane(q) && q.stream == p.stream && q.source == p.source && q.timeBase == p.timeBase && q.pts > p.pts
  }

  /** A packet that is not video, of any source and with any stamps, but not of another source on
      the stream of p. */
  predicate Beside(p: Packet, x: Packet) {
    !x.isVideo && (x.stream == p.stream ==> x.source == p.source)
  }

  /** Later video packets of the same source, with any other packets between them. */
  predicate Continues(p: Packet, ps: seq<Packet>)
    decreases |ps|
  {
    ps != [] ==>
      if ps[0].isVideo then IsNext(p, ps[0]) && Continues(ps[0], ps[1..])
      else Beside(p, ps[0]) && Continues(p, ps[1..])
  }

  /** LatestPTS after each packet of a run. */
  function Latests(s: State, ps: seq<Packet>): seq<int>
    decreases |ps|
  {
    if ps == [] then [] else [Send(true, s, ps[0]).0.latestPTS] + Latests(Send(true, s, ps[0]).0, ps[1..])
  }

  /** The PTSs with which the video packets of a run are passed on. */
  function PassedOn(s: State, ps: seq<Packet>): seq<int>
    decreases |ps|
  {
    if ps == [] then []
    else
      var (t, q) := Send(true, s, ps[0]);
      (if ps[0].isVideo && q.Some? then [q.value.pts] else []) + PassedOn(t, ps[1..])
  }

  function VideoCount(ps: seq<Packet>): nat {
    if ps == [] then 0 else (if ps[0].isVideo then 1 else 0) + VideoCount(ps[1..])
  }

  /** Never back: each value is at least the one before, and the first at least `from`. */
  predicate NeverBack(from: int, latests: seq<int>)
    decreases |latests|
  {
    latests != [] ==> from <= latests[0] && NeverBack(latests[0], latests[1..])
  }

  /** p was just sent, in state s, and moved by at most one tick more than the shift now gives. */
  predicate Following(s: State, p: Packet, sentPts: int) {
    && Sane(p) && p.stream in s.previous && s.previous[p.stream] == p.source && p.source in s.shifts
    && sentPts >= 0 && s.latestPTS == Duration(sentPts, p.timeBase)
    && sentPts <= p.pts + FromDuration(s.shifts[p.source], p.timeBase) + 1
  }

  lemma LaterPacketKeepsForward(s: State, p: Packet, sentPts: int, q: Packet)
    requires Following(s, p, sentPts) && IsNext(p, q)
    ensures var t := Send(true, s, q).0;
      && t.latestPTS >= s.latestPTS
      && Following(t, q, q.pts + FromDuration(s.shifts[p.source], p.timeBase))
    ensures var out := Send(true, s, q).1;
      out.Some? && sentPts <= out.value.pts == q.pts + FromDuration(s.shifts[p.source], p.timeBase)
  {
    var ticks := FromDuration(s.shifts[p.source], p.timeBase);
    assert !IsNewSource(s, q);
    DurationMonotone(sentPts, q.pts + ticks, p.timeBase);
  }

  lemma OtherPacketKeepsForward(s: State, p: Packet, sentPts: int, x: Packet)
    requires Following(s, p, sentPts) && Beside(p, x)
    ensures var t := Send(true, s, x).0; t.latestPTS == s.latestPTS && Following(t, p, sentPts)
  {
    OutputDtsAtMostPts(true, s, x);
    hide Send, Duration, FromDuration;
  }

  lemma {:induction false} RunKeepsForward(s: State, p: Packet, sentPts: int, ps: seq<Packet>)
    requires Following(s, p, sentPts) && Continues(p, ps)
    ensures NeverBack(s.latestPTS, Latests(s, ps))
    ensures NeverBack(sentPts, PassedOn(s, ps)) && |PassedOn(s, ps)| == VideoCount(ps)
    decreases |ps|
  {
    if ps != [] {
      var q := ps[0];
      var t := Send(true, s, q).0;
      if q.isVideo {
        LaterPacketKeepsForward(s, p, sentPts, q);
        var nextPts := q.pts + FromDuration(s.shifts[p.source], p.timeBase);
        hide Send, Following, IsNext;
        RunKeepsForward(t, q, nextPts, ps[1..]);
      } else {
        hide Send, Following, Beside;
        OtherPacketKeepsForward(s, p, sentPts, q);
        RunKeepsForward(t, p, sentPts, ps[1..]);
      }
      assert Latests(s, ps)[0] == t.latestPTS && Latests(s, ps)[1..] == Latests(t, ps[1..]);
      if q.isVideo {
        assert PassedOn(s, ps)[1..] == PassedOn(t, ps[1..]);
      } else {
        assert PassedOn(s, ps) == PassedOn(t, ps[1..]);
      }
    }
  }

  lemma FirstThenLater(s: State, p: Packet, ps: seq<Packet>)
    requires s.latestPTS >= 0 && Sane(p) && p.source !in s.shifts && IsNewSource(s, p) && Continues(p, ps)
    ensures var t := Send(true, s, p).0;
      t.latestPTS > s.latestPTS && NeverBack(t.latestPTS, Latests(t, ps))
    ensures var (t, q) := Send(true, s, p);
      q.Some? && NeverBack(q.value.pts, PassedOn(t, ps)) && |PassedOn(t, ps)| == VideoCount(ps)
  {
    FirstPacketMovesForward(s, p);
    var (t, q) := Send(true, s, p);
    RoundTripLosesAtMostOne(q.value.pts - p.pts, p.timeBase);
    assert t.previous[p.stream] == p.source by { SendRemembers(s, p); }
    RunKeepsForward(t, p, q.value.pts, ps);
  }

  // ---- From the start ----

  /** The state after a run. */
  function After(s: State, ps: seq<Packet>): State
    decreases |ps|
  {
    if ps == [] then s else After(Send(true, s, ps[0]).0, ps[1..])
  }

  /** Any packets on any streams, video ones with sane stamps. */
  predicate AllSane(ps: seq<Packet>) {
    forall i :: 0 <= i < |ps| && ps[i].isVideo ==> Sane(ps[i])
  }

  ghost predicate NotNegative(s: State) {
    s.latestPTS >= 0 && forall source :: source in s.shifts ==> s.shifts[source] >= 0
  }

  lemma SendKeepsNotNegative(s: State, p: Packet)
    requires NotNegative(s) && (p.isVideo ==> Sane(p))
    ensures NotNegative(Send(true, s, p).0)
  {
    if p.isVideo {
      var shift := if p.source in s.shifts then s.shifts[p.source] else 0;
      TwoTicksAreLater(s.latestPTS, FromDuration(s.latestPTS, p.timeBase) + 2, p.timeBase);
      FromDurationNotNegative(shift, p.timeBase);
      DurationMonotone(p.pts, p.pts + FromDuration(shift, p.timeBase), p.timeBase);
      hide Duration, FromDuration;
    }
  }

  lemma FromDurationNotNegative(d: int, tb: TimeBase)
    requires d >= 0
    ensures FromDuration(d, tb) >= 0
  {
    MulMono(0, d, tb.den);
    DivBounds(d * tb.den, tb.num * NANOS_PER_SECOND);
  }

  /** Reachable states have no negative times, know the shifts of sources of video packets only,
      and remember for a stream a source that sent something on it. */
  lemma {:induction false} ReachableState(s: State, ps: seq<Packet>)
    requires NotNegative(s) && AllSane(ps)
    ensures NotNegative(After(s, ps))
    ensures forall source :: source in After(s, ps).shifts ==> source in s.shifts || VideoBy(ps, source)
    ensures forall stream :: stream in After(s, ps).previous ==>
      SentOn(ps, After(s, ps).previous[stream], stream)
      || (stream in s.previous && After(s, ps).previous[stream] == s.previous[stream])
    decreases |ps|
  {
    hide Send;
    if ps != [] {
      var t, rest := Send(true, s, ps[0]).0, ps[1..];
      SendKeepsNotNegative(s, ps[0]);
      SendKnows(s, ps[0]);
      SendRemembers(s, ps[0]);
      assert forall i :: 0 <= i < |rest| ==> rest[i] == ps[i + 1];
      assert SentOn(ps, ps[0].source, ps[0].stream);
      assert ps[0].isVideo ==> VideoBy(ps, ps[0].source);
      ReachableState(t, rest);
      assert forall source :: VideoBy(rest, source) ==> VideoBy(ps, source);
      assert forall source, stream :: SentOn(rest, source, stream) ==> SentOn(ps, source, stream);
    }
  }

  ghost predicate VideoBy(ps: seq<Packet>, source: SourceId) {
    exists i :: 0 <= i < |ps| && ps[i].isVideo && ps[i].source == source
  }

  ghost predicate SentOn(ps: seq<Packet>, source: SourceId, stream: int) {
    exists i :: 0 <= i < |ps| && ps[i].source == source && ps[i].stream == stream
  }

  /** The source has sent no video, and nothing at all on this stream. */
  ghost predicate NeverSeen(ps: seq<Packet>, source: SourceId, stream: int) {
    !VideoBy(ps, source) && !SentOn(ps, source, stream)
  }

  lemma SendKnows(s: State, p: Packet)
    ensures forall source :: source in Send(true, s, p).0.shifts ==>
      source in s.shifts || (p.isVideo && source == p.source)
  {
  }

  /** Every run from the start, with any sources and streams before, audio of the same source
      included: the first video packet of a source moves LatestPTS strictly forward, whatever
      its time base, and its later video packets never bring it back, whatever audio of any
      source comes between them. */
  lemma TimeMovesOnlyForward(before: seq<Packet>, p: Packet, ps: seq<Packet>)
    requires AllSane(before) && NeverSeen(before, p.source, p.stream) && Sane(p) && Continues(p, ps)
    ensures var s := After(Init, before); var t := Send(true, s, p).0;
      0 <= s.latestPTS < t.latestPTS && NeverBack(t.latestPTS, Latests(t, ps))
    // all its video packets are passed on, with stamps that never go back
    ensures var (t, q) := Send(true, After(Init, before), p);
      && q.Some? && Duration(q.value.pts, p.timeBase) > After(Init, before).latestPTS
      && NeverBack(q.value.pts, PassedOn(t, ps)) && |PassedOn(t, ps)| == VideoCount(ps)
  {
    ReachableState(Init, before);
    LatestIsOfThePacketPassedOn(true, After(Init, before), p);
    FirstThenLater(After(Init, before), p, ps);
  }

  lemma SendRemembers(s: State, p: Packet)
    ensures Send(true, s, p).0.previous == s.previous[p.stream := p.source]
  {
  }

  /** The shift a new source's packet would get. */
  function NewShift(s: State, p: Packet): int {
    Duration(FromDuration(s.latestPTS, p.timeBase) + 2 - p.pts, p.timeBase)
  }

  function KnownShift(s: State, source: SourceId): int {
    if source in s.shifts then s.shifts[source] else 0
  }

  /** Any change of source after any run, returning sources included: LatestPTS does not go back
      exactly when the source gets a shift no less than it had, or the packet itself is not
      before LatestPTS. */
  lemma NewSourceMovesForwardExactly(before: seq<Packet>, p: Packet)
    requires AllSane(before) && Sane(p) && IsNewSource(After(Init, before), p)
    ensures var s := After(Init, before); var latest := Send(true, s, p).0.latestPTS;
      && (latest >= s.latestPTS <==>
            NewShift(s, p) >= KnownShift(s, p.source) || Duration(p.pts, p.timeBase) >= s.latestPTS)
      && (NewShift(s, p) >= KnownShift(s, p.source) ==> latest > s.latestPTS)
  {
    ReachableState(Init, before);
    var s := After(Init, before);
    TwoTicksAreLater(s.latestPTS, FromDuration(s.latestPTS, p.timeBase) + 2, p.timeBase);
    hide Duration, FromDuration, After;
  }

  /** The packet after a source's first one, with the same PTS: LatestPTS goes back exactly when
      the conversion of the shift to a duration and back has lost a tick. */
  lemma RepeatedPtsExactly(before: seq<Packet>, p: Packet)
    requires AllSane(before) && NeverSeen(before, p.source, p.stream) && Sane(p)
    ensures var (t, q) := Send(true, After(Init, before), p);
      && q.Some? && p.source in t.shifts
      && (Send(true, t, p).0.latestPTS < t.latestPTS <==>
            FromDuration(t.shifts[p.source], p.timeBase) < q.value.pts - p.pts)
  {
    ReachableState(Init, before);
    RepeatedPts(After(Init, before), p);
  }

  lemma RepeatedPts(s: State, p: Packet)
    requires s.latestPTS >= 0 && Sane(p) && p.source !in s.shifts && IsNewSource(s, p)
    ensures var (t, q) := Send(true, s, p);
      && q.Some? && p.source in t.shifts
      && (Send(true, t, p).0.latestPTS < t.latestPTS <==>
            FromDuration(t.shifts[p.source], p.timeBase) < q.value.pts - p.pts)
  {
    FirstPacketMovesForward(s, p);
    SendRemembers(s, p);
    var (t, q) := Send(true, s, p);
    var offset := q.value.pts - p.pts;
    var ticks := FromDuration(t.shifts[p.source], p.timeBase);
    RoundTripLosesAtMostOne(offset, p.timeBase);
    assert Send(true, t, p).0.latestPTS == Duration(p.pts + ticks, p.timeBase) by {
      assert !IsNewSource(t, p);
      hide Duration, FromDuration;
    }
    if ticks < offset {
      if p.pts + ticks >= 0 {
        DurationStrict(p.pts + ticks, q.value.pts, p.timeBase);
      }
    }
  }

  /** A source that comes back may take the branch that keeps its old shift but does not apply
      it: in this run of two sources on one stream LatestPTS goes from 103 s back to 60 s. */
  lemma ReturningSourceGoesBack() returns (before: seq<Packet>, p: Packet)
    ensures AllSane(before) && Sane(p)
    ensures After(Init, before).latestPTS == 103 * NANOS_PER_SECOND
    ensures Send(true, After(Init, before), p).0.latestPTS == 60 * NANOS_PER_SECOND
  {
    hide Send, Sane, AllSane, After;
    before, p := [Seconds(2, 46), Seconds(1, 0), Seconds(1, 52), Seconds(2, 103)], Seconds(1, 60);
    AfterFour(Seconds(2, 46), Seconds(1, 0), Seconds(1, 52), Seconds(2, 103));
    assert Sane(p) && AllSane(before) by { FourAreSane(46, 0, 52, 103, 60); }
    var s := FirstTwo();
    var t := NextTwo(s);
    SendSeconds(t, 1, 60, 103, 48);
  }

  lemma AfterFour(a: Packet, b: Packet, c: Packet, d: Packet)
    ensures After(Init, [a, b, c, d]) == After(Send(true, Send(true, Init, a).0, b).0, [c, d])
  {
    hide Send;
    assert [a, b, c, d][1..] == [b, c, d] && [b, c, d][1..] == [c, d];
    assert After(Init, [a, b, c, d]) == After(Send(true, Init, a).0, [b, c, d]);
  }

  lemma FourAreSane(a: nat, b: nat, c: nat, d: nat, e: nat)
    requires a < NANOS_PER_SECOND && b < NANOS_PER_SECOND && c < NANOS_PER_SECOND && d < NANOS_PER_SECOND
    requires e < NANOS_PER_SECOND
    ensures AllSane([Seconds(2, a), Seconds(1, b), Seconds(1, c), Seconds(2, d)]) && Sane(Seconds(1, e))
  {
  }

  lemma FirstTwo() returns (s: State)
    ensures s == Send(true, Send(true, Init, Seconds(2, 46)).0, Seconds(1, 0)).0
    ensures s == State(48 * NANOS_PER_SECOND, map[2 := 0, 1 := 48 * NANOS_PER_SECOND], map[0 := 1])
  {
    hide Send;
    SendSeconds(Init, 2, 46, 0, 0);
    s := Send(true, Init, Seconds(2, 46)).0;
    assert s == State(46 * NANOS_PER_SECOND, map[2 := 0], map[0 := 2]);
    SendSeconds(s, 1, 0, 46, 0);
    s := Send(true, s, Seconds(1, 0)).0;
  }

  lemma NextTwo(s: State) returns (t: State)
    requires s == State(48 * NANOS_PER_SECOND, map[2 := 0, 1 := 48 * NANOS_PER_SECOND], map[0 := 1])
    ensures t == After(s, [Seconds(1, 52), Seconds(2, 103)])
    ensures t == State(103 * NANOS_PER_SECOND, map[2 := 0, 1 := 48 * NANOS_PER_SECOND], map[0 := 2])
  {
    hide Send;
    SendSeconds(s, 1, 52, 48, 48);
    var u := Send(true, s, Seconds(1, 52)).0;
    assert u == s.(latestPTS := 100 * NANOS_PER_SECOND);
    SendSeconds(u, 2, 103, 100, 0);
    t := Send(true, u, Seconds(2, 103)).0;
    assert [Seconds(1, 52), Seconds(2, 103)][1..] == [Seconds(2, 103)] && [Seconds(2, 103)][1..] == [];
    assert After(u, [Seconds(2, 103)]) == After(t, []) == t;
  }

  /** One send among packets that tick in seconds. */
  lemma SendSeconds(s: State, source: SourceId, pts: nat, latest: nat, shift: nat)
    requires pts <= NANOS_PER_SECOND && latest <= NANOS_PER_SECOND - 2 && shift <= NANOS_PER_SECOND
    requires s.latestPTS == latest * NANOS_PER_SECOND
    requires shift * NANOS_PER_SECOND == if source in s.shifts then s.shifts[source] else 0
    ensures var t := Send(true, s, Seconds(source, pts)).0; var offset := latest + 2 - pts;
      && t.previous == s.previous[0 := source]
      && (if !IsNewSource(s, Seconds(source, pts)) then
            t.latestPTS == (pts + shift) * NANOS_PER_SECOND && t.shifts == s.shifts[source := shift * NANOS_PER_SECOND]
          else if offset < shift then
            t.latestPTS == pts * NANOS_PER_SECOND && t.shifts == s.shifts[source := shift * NANOS_PER_SECOND]
          else
            t.latestPTS == (latest + 2) * NANOS_PER_SECOND && t.shifts == s.shifts[source := offset * NANOS_PER_SECOND])
  {
    WholeSeconds(pts);
    WholeSeconds(latest);
    WholeSeconds(latest + 2);
    WholeSeconds(shift);
    WholeSeconds(latest + 2 - pts);
    assert Duration(pts + shift, Ratio(1, 1)) == (pts + shift) * NANOS_PER_SECOND;
    hide Duration, FromDuration;
  }

  lemma WholeSeconds(n: int)
    requires -NANOS_PER_SECOND <= n <= NANOS_PER_SECOND
    ensures Duration(n, Ratio(1, 1)) == n * NANOS_PER_SECOND && FromDuration(n * NANOS_PER_SECOND, Ratio(1, 1)) == n
  {
  }

  /** A video packet of stream 0 that ticks in seconds. */
  function Seconds(source: SourceId, pts: int): Packet {
    Packet(0, source, true, pts, pts, Ratio(1, 1))
  }

  /** A later packet whose PTS does not grow may bring LatestPTS back: the conversion of the
      shift to a duration and back has lost a tick. */
  lemma RepeatedPtsGoesBack() returns (p: Packet)
    ensures Sane(p)
    ensures var t := Send(true, Init, p).0; Send(true, t, p).0.latestPTS < t.latestPTS
  {
    p := Packet(0, 1, true, 0, 0, Ratio(1, 30));
    assert Duration(2, Ratio(1, 30)) == 66_666_666;
    assert FromDuration(66_666_666, Ratio(1, 30)) == 1;
  }
}
