/** The order checks of Output.doWritePacket, kernel/output.go: what is written to a stream,
    and how backward packets are counted. Stamps are those after rescaling to the stream. */
module OutputOrder {
  import opened AvConv

  type SourceId = nat

  /** `gated`: H.264 or H.265 video, which only a key frame may start after a change of source. */
  datatype Packet = Packet(stream: nat, gated: bool, isKey: bool, source: SourceId, dts: Int64, pts: Int64)

  /** What the environment decides: the packet filter and the muxer. */
  datatype Environment = Environment(filterPasses: bool, writeSucceeds: bool)

  datatype Outcome = Written | Ignored | TooManyInvalid | WriteError

  datatype Check = Passed | Backward

  datatype Record = Record(stream: nat, dts: Int64, pts: Int64)

  /** Fields of the output and its streams; then what was written and how checks went. */
  datatype State = State(
    lastDTS: map<nat, Int64>,
    lastKeySource: map<nat, SourceId>,
    sequentialInvalid: nat,
    written: seq<Record>,
    checks: seq<Check>)

  const Init := State(map[], map[], 0, [], [])

  function LastDtsOf(s: State, stream: nat): Int64 {
    if stream in s.lastDTS then s.lastDTS[stream] else NO_PTS
  }

  /** The key-frame gate lets the packet through, possibly remembering its source. */
  function GateOpen(s: State, p: Packet): bool {
    !p.gated || p.stream !in s.lastKeySource || s.lastKeySource[p.stream] == p.source || p.isKey
  }

  function Gated(s: State, p: Packet): State {
    if p.gated && p.isKey then s.(lastKeySource := s.lastKeySource[p.stream := p.source]) else s
  }

  function Stamped(p: Packet): Packet {
    if p.dts != NO_PTS && p.pts != NO_PTS && p.dts > p.pts then p.(dts := p.pts) else p
  }

  function Write(limit: nat, s0: State, p0: Packet, env: Environment): (State, Outcome) {
    if !GateOpen(s0, p0) then (s0, Ignored)
    else
      var s, p := Gated(s0, p0), Stamped(p0);
      if p0.dts != NO_PTS && p.dts < LastDtsOf(s, p.stream) then
        var t := s.(sequentialInvalid := s.sequentialInvalid + 1, checks := s.checks + [Backward]);
        (t, if limit > 0 && t.sequentialInvalid > limit then TooManyInvalid else Ignored)
      else
        var t := s.(sequentialInvalid := 0, checks := s.checks + [Passed]);
        if !env.filterPasses then (t, Ignored)
        else if !env.writeSucceeds then (t, WriteError)
        else (t.(lastDTS := t.lastDTS[p.stream := p.dts], written := t.written + [Record(p.stream, p.dts, p.pts)]), Written)
  }

  class Output {
    /** ErrorOnNSequentialInvalidDTS; 0 means never. */
    const limit: nat
    var LastDTS: map<nat, Int64>
    var LastKeyFrameSource: map<nat, SourceId>
    var SequentialInvalidPacketsCount: nat
    /** What the muxer has taken. */
    var written: seq<Record>
    ghost var checks: seq<Check>

    ghost function View(): State
      reads this
    {
      State(LastDTS, LastKeyFrameSource, SequentialInvalidPacketsCount, written, checks)
    }

    constructor (limit: nat)
      ensures View() == Init && this.limit == limit
    {
      this.limit := limit;
      LastDTS, LastKeyFrameSource, SequentialInvalidPacketsCount, written, checks := map[], map[], 0, [], [];
    }

    /** A change of source has to begin with a key frame. */
    method PassGate(pkt: Packet) returns (open: bool)
      modifies this`LastKeyFrameSource
      ensures open <==> GateOpen(old(View()), pkt)
      ensures View() == if open then Gated(old(View()), pkt) else old(View())
    {
      if pkt.gated {
        if pkt.stream !in LastKeyFrameSource || pkt.source != LastKeyFrameSource[pkt.stream] {
          if pkt.isKey {
            LastKeyFrameSource := LastKeyFrameSource[pkt.stream := pkt.source];
          } else if pkt.stream in LastKeyFrameSource {
            return false;
          }
        }
      }
      assert pkt.gated && pkt.isKey ==> LastKeyFrameSource == old(LastKeyFrameSource)[pkt.stream := pkt.source];
      return true;
    }

    method DoWritePacket(input: Packet, env: Environment) returns (res: Outcome)
      modifies this
      ensures (View(), res) == Write(limit, old(View()), input, env)
    {
      var pkt := input;
      var open := PassGate(pkt);
      if !open {
        return Ignored;
      }
      ghost var s := View();
      var isNoDTS := pkt.dts == NO_PTS;
      var isNoPTS := pkt.pts == NO_PTS;
      if !isNoDTS && !isNoPTS && pkt.dts > pkt.pts {
        pkt := pkt.(dts := pkt.pts);
      }
      assert pkt == Stamped(input);
      hide GateOpen, Gated, Stamped;
      var last := if pkt.stream in LastDTS then LastDTS[pkt.stream] else NO_PTS;
      if !isNoDTS && pkt.dts < last {
        SequentialInvalidPacketsCount := SequentialInvalidPacketsCount + 1;
        checks := checks + [Backward];
        if limit > 0 {
          if SequentialInvalidPacketsCount > limit {
            return TooManyInvalid;
          }
        }
        return Ignored;
      }
      assert input.dts == NO_PTS || pkt.dts >= LastDtsOf(s, pkt.stream);
      SequentialInvalidPacketsCount := 0;
      checks := checks + [Passed];
      if !env.filterPasses {
        return Ignored;
      }
      if !env.writeSucceeds {
        return WriteError;
      }
      written := written + [Record(pkt.stream, pkt.dts, pkt.pts)];
      LastDTS := LastDTS[pkt.stream := pkt.dts];
      return Written;
    }
  }

  // ---- Every run ----

  function Run(limit: nat, s: State, ps: seq<(Packet, Environment)>): State
    decreases |ps|
  {
    if ps == [] then s else Run(limit, Write(limit, s, ps[0].0, ps[0].1).0, ps[1..])
  }

  /** The DTS of the last record of a stream, or none. */
  function LastOf(written: seq<Record>, stream: nat): Int64 {
    if written == [] then NO_PTS
    else if written[|written| - 1].stream == stream then written[|written| - 1].dts
    else LastOf(written[..|written| - 1], stream)
  }

  /** The backward packets since the last one that passed. */
  function TrailingBackward(checks: seq<Check>): nat {
    if checks == [] || checks[|checks| - 1] == Passed then 0 else 1 + TrailingBackward(checks[..|checks| - 1])
  }

  /** Each record's DTS is at least that of the stream's record before it, unless it has none. */
  ghost predicate InOrder(written: seq<Record>) {
    forall i :: 0 <= i < |written| ==>
      written[i].dts == NO_PTS || written[i].dts >= LastOf(written[..i], written[i].stream)
  }

  ghost predicate LastIsLast(s: State) {
    forall stream :: LastDtsOf(s, stream) == LastOf(s.written, stream)
  }

  ghost predicate Stamps(written: seq<Record>) {
    forall i :: 0 <= i < |written| && written[i].dts != NO_PTS && written[i].pts != NO_PTS ==>
      written[i].dts <= written[i].pts
  }

  ghost predicate Inv(s: State) {
    LastIsLast(s) && s.sequentialInvalid == TrailingBackward(s.checks) && InOrder(s.written) && Stamps(s.written)
  }

  lemma AppendKeepsOrder(written: seq<Record>, r: Record)
    requires InOrder(written)
    requires r.dts == NO_PTS || r.dts >= LastOf(written, r.stream)
    ensures InOrder(written + [r])
  {
    var longer := written + [r];
    forall i | 0 <= i < |longer|
      ensures longer[i].dts == NO_PTS || longer[i].dts >= LastOf(longer[..i], longer[i].stream)
    {
      assert longer[..i] == written[..i];
    }
  }

  lemma WriteKeepsLast(s: State, t: State, r: Record)
    requires LastIsLast(s)
    requires t.written == s.written + [r] && t.lastDTS == s.lastDTS[r.stream := r.dts]
    ensures LastIsLast(t)
  {
    assert t.written[..|s.written|] == s.written;
    forall stream ensures LastDtsOf(t, stream) == LastOf(t.written, stream) {
      assert LastDtsOf(s, stream) == LastOf(s.written, stream);
    }
  }

  lemma AppendCheck(checks: seq<Check>, c: Check)
    ensures TrailingBackward(checks + [c]) == if c == Passed then 0 else 1 + TrailingBackward(checks)
  {
    assert (checks + [c])[..|checks|] == checks;
  }

  lemma WriteKeepsInv(limit: nat, s: State, p: Packet, env: Environment)
    requires Inv(s)
    ensures Inv(Write(limit, s, p, env).0)
  {
    hide LastOf, TrailingBackward, InOrder;
    var t := Write(limit, s, p, env).0;
    AppendCheck(s.checks, Passed);
    AppendCheck(s.checks, Backward);
    if t.written != s.written {
      var r := t.written[|s.written|];
      assert LastDtsOf(s, r.stream) == LastOf(s.written, r.stream);
      AppendKeepsOrder(s.written, r);
      WriteKeepsLast(s, t, r);
    } else {
      assert forall stream :: LastDtsOf(t, stream) == LastDtsOf(s, stream);
    }
  }

  lemma {:induction false} RunKeepsInv(limit: nat, s: State, ps: seq<(Packet, Environment)>)
    requires Inv(s)
    ensures Inv(Run(limit, s, ps))
    decreases |ps|
  {
    hide Inv, Write;
    if ps != [] {
      WriteKeepsInv(limit, s, ps[0].0, ps[0].1);
      RunKeepsInv(limit, Write(limit, s, ps[0].0, ps[0].1).0, ps[1..]);
    }
  }

  /** Every record of the stream from i to j carries a DTS. */
  ghost predicate AllStamped(written: seq<Record>, stream: nat, i: nat, j: nat)
    requires j < |written|
  {
    forall k :: i <= k <= j && written[k].stream == stream ==> written[k].dts != NO_PTS
  }

  lemma {:induction false} OrderedPairs(written: seq<Record>, stream: nat, i: nat, j: nat)
    requires InOrder(written) && i < j < |written|
    requires AllStamped(written, stream, i, j)
    requires written[i].stream == stream == written[j].stream
    ensures written[i].dts <= written[j].dts
    decreases j
  {
    LatestBefore(written, stream, i, j);
    var k :| i <= k < j && written[k].stream == stream && LastOf(written[..j], stream) == written[k].dts;
    assert written[j].dts >= LastOf(written[..j], stream);
    if i < k {
      OrderedPairs(written, stream, i, k);
    }
  }

  /** Some record between i and j gave the stream its last DTS before j. */
  lemma {:induction false} LatestBefore(written: seq<Record>, stream: nat, i: nat, j: nat)
    requires i < j <= |written| && written[i].stream == stream
    ensures exists k :: i <= k < j && written[k].stream == stream && LastOf(written[..j], stream) == written[k].dts
  {
    var prefix := written[..j];
    assert prefix[j - 1] == written[j - 1] && prefix[..j - 1] == written[..j - 1];
    if written[j - 1].stream != stream {
      LatestBefore(written, stream, i, j - 1);
    }
  }

  /** Over any run on any streams: DTSs written to a stream never go back as long as each of its
      records carries one; DTS is at most PTS where both are there; and the counter is the
      number of backward packets since the last one, on any stream, that passed the check. */
  lemma WriteSideOrder(limit: nat, ps: seq<(Packet, Environment)>)
    ensures var s := Run(limit, Init, ps);
      && s.sequentialInvalid == TrailingBackward(s.checks)
      && Stamps(s.written)
      && forall i, j | 0 <= i < j < |s.written| && s.written[i].stream == s.written[j].stream ::
           AllStamped(s.written, s.written[i].stream, i, j) ==> s.written[i].dts <= s.written[j].dts
  {
    assert Inv(Init);
    RunKeepsInv(limit, Init, ps);
    var s := Run(limit, Init, ps);
    hide Run;
    forall i, j | 0 <= i < j < |s.written| && s.written[i].stream == s.written[j].stream
      && AllStamped(s.written, s.written[i].stream, i, j)
      ensures s.written[i].dts <= s.written[j].dts
    {
      OrderedPairs(s.written, s.written[i].stream, i, j);
    }
  }

  // ---- What becomes of a packet ----

  /** Among the packets so far, the i-th is the last key frame of the stream. */
  ghost predicate LastKeyAt(ps: seq<(Packet, Environment)>, i: int, stream: nat) {
    && 0 <= i < |ps| && IsKeyOf(ps[i].0, stream)
    && forall j :: i < j < |ps| ==> !IsKeyOf(ps[j].0, stream)
  }

  predicate IsKeyOf(p: Packet, stream: nat) {
    p.gated && p.isKey && p.stream == stream
  }

  /** The stream's last key frame, whether it was written or not, came from another source, and
      the packet is none itself. */
  ghost predicate CutsIn(ps: seq<(Packet, Environment)>, p: Packet) {
    && p.gated && !p.isKey
    && exists i :: 0 <= i < |ps| && LastKeyAt(ps, i, p.stream) && ps[i].0.source != p.source
  }

  /** The DTS, but not after the PTS. */
  function LimitedDts(p: Packet): Int64 {
    if p.dts == NO_PTS || p.pts == NO_PTS || p.dts <= p.pts then p.dts else p.pts
  }

  lemma {:induction false} RunSnoc(limit: nat, s: State, ps: seq<(Packet, Environment)>, x: (Packet, Environment))
    ensures Run(limit, s, ps + [x]) == Write(limit, Run(limit, s, ps), x.0, x.1).0
    decreases |ps|
  {
    hide Write;
    if ps == [] {
      assert ps + [x] == [x] && [x][1..] == [];
    } else {
      assert (ps + [x])[1..] == ps[1..] + [x];
      RunSnoc(limit, Write(limit, s, ps[0].0, ps[0].1).0, ps[1..], x);
    }
  }

  /** What the streams remember is the source of their last key frame. */
  ghost predicate Remembers(ps: seq<(Packet, Environment)>, s: State) {
    && (forall i, stream: nat :: 0 <= i < |ps| && LastKeyAt(ps, i, stream) ==>
          stream in s.lastKeySource && s.lastKeySource[stream] == ps[i].0.source)
    && (forall stream: nat :: stream in s.lastKeySource ==> exists i :: 0 <= i < |ps| && LastKeyAt(ps, i, stream))
  }

  lemma LastKeyWithOneMore(ps: seq<(Packet, Environment)>, x: (Packet, Environment), stream: nat)
    ensures IsKeyOf(x.0, stream) ==> LastKeyAt(ps + [x], |ps|, stream)
    ensures forall i :: LastKeyAt(ps + [x], i, stream) <==>
      if IsKeyOf(x.0, stream) then i == |ps| else i < |ps| && LastKeyAt(ps, i, stream)
  {
    var longer := ps + [x];
    assert longer[|ps|] == x && longer[..|ps|] == ps;
    forall i ensures LastKeyAt(longer, i, stream) <==>
      if IsKeyOf(x.0, stream) then i == |ps| else i < |ps| && LastKeyAt(ps, i, stream)
    {
      assert forall j :: 0 <= j < |ps| ==> longer[j] == ps[j];
    }
  }

  lemma {:induction false} KeysAreRemembered(limit: nat, ps: seq<(Packet, Environment)>)
    ensures Remembers(ps, Run(limit, Init, ps))
    decreases |ps|
  {
    if ps != [] {
      var n := |ps| - 1;
      KeysAreRemembered(limit, ps[..n]);
      RunSnoc(limit, Init, ps[..n], ps[n]);
      assert ps[..n] + [ps[n]] == ps;
      hide Run, LastKeyAt, Remembers;
      OneMoreIsRemembered(ps[..n], Run(limit, Init, ps[..n]), ps[n], Run(limit, Init, ps));
    }
  }

  lemma OneMoreIsRemembered(ps: seq<(Packet, Environment)>, s: State, x: (Packet, Environment), t: State)
    requires Remembers(ps, s)
    requires t.lastKeySource == if IsKeyOf(x.0, x.0.stream) then s.lastKeySource[x.0.stream := x.0.source] else s.lastKeySource
    ensures Remembers(ps + [x], t)
  {
    var longer := ps + [x];
    hide LastKeyAt;
    forall i, stream: nat | 0 <= i < |longer| && LastKeyAt(longer, i, stream)
      ensures stream in t.lastKeySource && t.lastKeySource[stream] == longer[i].0.source
    {
      LastKeyWithOneMore(ps, x, stream);
    }
    forall stream: nat | stream in t.lastKeySource
      ensures exists i :: 0 <= i < |longer| && LastKeyAt(longer, i, stream)
    {
      LastKeyWithOneMore(ps, x, stream);
    }
  }

  /** What becomes of a packet after any run. It is ignored unseen if it cuts in; otherwise its
      limited DTS is compared with that of the stream's last record, and it is counted as
      backward, or written with that DTS and its own PTS as filter and muxer allow. */
  lemma OutcomeExactly(limit: nat, ps: seq<(Packet, Environment)>, p: Packet, env: Environment)
    ensures var s := Run(limit, Init, ps);
      var (t, res) := Write(limit, s, p, env);
      var back := p.dts != NO_PTS && LimitedDts(p) < LastOf(s.written, p.stream);
      && (CutsIn(ps, p) ==> t == s && res == Ignored)
      && (!CutsIn(ps, p) ==> t.checks == s.checks + [if back then Backward else Passed])
      && (res == TooManyInvalid <==> !CutsIn(ps, p) && back && 0 < limit < TrailingBackward(t.checks))
      && (res == WriteError <==> !CutsIn(ps, p) && !back && env.filterPasses && !env.writeSucceeds)
      && (res == Written <==> !CutsIn(ps, p) && !back && env.filterPasses && env.writeSucceeds)
      && t.written == s.written + if res == Written then [Record(p.stream, LimitedDts(p), p.pts)] else []
  {
    var s := Run(limit, Init, ps);
    assert Inv(Init);
    RunKeepsInv(limit, Init, ps);
    KeysAreRemembered(limit, ps);
    assert LastDtsOf(s, p.stream) == LastOf(s.written, p.stream);
    GateExactly(ps, s, p);
    AppendCheck(s.checks, Backward);
    assert s.sequentialInvalid == TrailingBackward(s.checks);
    hide *;
    WriteExactly(limit, s, p, env);
  }

  lemma WriteExactly(limit: nat, s: State, p: Packet, env: Environment)
    ensures var (t, res) := Write(limit, s, p, env);
      var back := p.dts != NO_PTS && LimitedDts(p) < LastDtsOf(s, p.stream);
      && (!GateOpen(s, p) ==> t == s && res == Ignored)
      && (GateOpen(s, p) ==> t.checks == s.checks + [if back then Backward else Passed])
      && (res == TooManyInvalid <==> GateOpen(s, p) && back && 0 < limit < s.sequentialInvalid + 1)
      && (res == WriteError <==> GateOpen(s, p) && !back && env.filterPasses && !env.writeSucceeds)
      && (res == Written <==> GateOpen(s, p) && !back && env.filterPasses && env.writeSucceeds)
      && t.written == s.written + if res == Written then [Record(p.stream, LimitedDts(p), p.pts)] else []
  {
    hide GateOpen;
  }

  lemma GateExactly(ps: seq<(Packet, Environment)>, s: State, p: Packet)
    requires Remembers(ps, s)
    ensures GateOpen(s, p) <==> !CutsIn(ps, p)
  {
    hide LastKeyAt;
  }

  // ---- Packets without DTS ----

  /** The DTS of the last record of a stream that has one, or none. */
  function LastStamped(written: seq<Record>, stream: nat): Int64 {
    if written == [] then NO_PTS
    else
      var n := |written| - 1;
      if written[n].stream == stream && written[n].dts != NO_PTS then written[n].dts
      else LastStamped(written[..n], stream)
  }

  /** The DTSs written to a stream, where there are any, never go back. */
  ghost predicate NeverBack(written: seq<Record>) {
    forall i, j | 0 <= i < j < |written| && written[i].stream == written[j].stream ::
      written[i].dts != NO_PTS && written[j].dts != NO_PTS ==> written[i].dts <= written[j].dts
  }

  /** Where a DTS follows records of its stream that have none, it is not before the last DTS
      that the stream had. */
  ghost predicate GapsKeepOrder(written: seq<Record>) {
    forall j | 0 <= j < |written| && written[j].dts != NO_PTS && LastOf(written[..j], written[j].stream) == NO_PTS ::
      LastStamped(written[..j], written[j].stream) <= written[j].dts
  }

  /** Some record of the stream before j gave the last DTS, if there is any. */
  lemma {:induction false} LastStampedIs(written: seq<Record>, stream: nat, j: nat)
    requires j <= |written|
    ensures var d := LastStamped(written[..j], stream);
      && (d != NO_PTS ==> exists k :: 0 <= k < j && written[k].stream == stream && written[k].dts == d)
      && forall i | 0 <= i < j && written[i].stream == stream && written[i].dts != NO_PTS :: d != NO_PTS
  {
    if j > 0 {
      LastStampedIs(written, stream, j - 1);
      assert written[..j][..j - 1] == written[..j - 1] && written[..j][j - 1] == written[j - 1];
    }
  }

  /** Without a gap the last record of the stream is the last one with a DTS. */
  lemma {:induction false} LastIsStamped(written: seq<Record>, stream: nat)
    ensures LastOf(written, stream) != NO_PTS ==> LastStamped(written, stream) == LastOf(written, stream)
  {
    if written != [] {
      LastIsStamped(written[..|written| - 1], stream);
    }
  }

  /** Up to j, no DTS of the stream is after its last one. */
  lemma {:induction false} LastStampedIsGreatest(written: seq<Record>, stream: nat, i: nat, j: nat)
    requires InOrder(written) && GapsKeepOrder(written) && i < j <= |written|
    requires written[i].stream == stream && written[i].dts != NO_PTS
    ensures written[i].dts <= LastStamped(written[..j], stream)
    decreases j
  {
    var n := j - 1;
    assert written[..j][..n] == written[..n] && written[..j][n] == written[n];
    if i < n {
      LastStampedIsGreatest(written, stream, i, n);
      LastIsStamped(written[..n], stream);
    }
  }

  lemma OrderExactly(written: seq<Record>)
    requires InOrder(written)
    ensures NeverBack(written) <==> GapsKeepOrder(written)
  {
    hide InOrder;
    if GapsKeepOrder(written) {
      forall i, j | 0 <= i < j < |written| && written[i].stream == written[j].stream
        && written[i].dts != NO_PTS && written[j].dts != NO_PTS
        ensures written[i].dts <= written[j].dts
      {
        LastStampedIsGreatest(written, written[i].stream, i, j + 1);
        assert written[..j + 1][j] == written[j];
      }
    }
    if NeverBack(written) {
      forall j | 0 <= j < |written| && written[j].dts != NO_PTS
        ensures LastStamped(written[..j], written[j].stream) <= written[j].dts
      {
        LastStampedIs(written, written[j].stream, j);
      }
    }
  }

  /** Before the call: the packet will be written, its stream's last record has no DTS, and the
      packet's DTS is before the last one the stream had. */
  predicate GoesBackAfterGap(limit: nat, s: State, p: Packet, env: Environment) {
    && Write(limit, s, p, env).1 == Written
    && p.dts != NO_PTS && LastDtsOf(s, p.stream) == NO_PTS
    && Stamped(p).dts < LastStamped(s.written, p.stream)
  }

  predicate NoCallGoesBack(limit: nat, s: State, ps: seq<(Packet, Environment)>)
    decreases |ps|
  {
    ps == [] || (!GoesBackAfterGap(limit, s, ps[0].0, ps[0].1)
      && NoCallGoesBack(limit, Write(limit, s, ps[0].0, ps[0].1).0, ps[1..]))
  }

  lemma GapsWithOneMore(written: seq<Record>, r: Record)
    ensures GapsKeepOrder(written + [r]) <==>
      GapsKeepOrder(written)
      && (r.dts != NO_PTS && LastOf(written, r.stream) == NO_PTS ==> LastStamped(written, r.stream) <= r.dts)
  {
    var n, longer := |written|, written + [r];
    hide LastOf, LastStamped;
    assert longer[..n] == written && longer[n] == r;
    assert forall j :: 0 <= j < n ==> longer[..j] == written[..j] && longer[j] == written[j];
  }

  lemma WriteAndGaps(limit: nat, s: State, p: Packet, env: Environment)
    requires LastIsLast(s)
    ensures GapsKeepOrder(Write(limit, s, p, env).0.written) <==>
      GapsKeepOrder(s.written) && !GoesBackAfterGap(limit, s, p, env)
  {
    var t, q := Write(limit, s, p, env).0, Stamped(p);
    assert LastDtsOf(s, p.stream) == LastOf(s.written, p.stream);
    hide GapsKeepOrder, LastStamped, LastOf;
    if Write(limit, s, p, env).1 == Written {
      assert t.written == s.written + [Record(p.stream, q.dts, q.pts)];
      GapsWithOneMore(s.written, Record(p.stream, q.dts, q.pts));
    }
  }

  lemma {:induction false} RunAndGaps(limit: nat, s: State, ps: seq<(Packet, Environment)>)
    requires Inv(s)
    ensures GapsKeepOrder(Run(limit, s, ps).written) <==> GapsKeepOrder(s.written) && NoCallGoesBack(limit, s, ps)
    decreases |ps|
  {
    if ps != [] {
      WriteKeepsInv(limit, s, ps[0].0, ps[0].1);
      WriteAndGaps(limit, s, ps[0].0, ps[0].1);
      hide Write, GapsKeepOrder, GoesBackAfterGap;
      RunAndGaps(limit, Write(limit, s, ps[0].0, ps[0].1).0, ps[1..]);
    }
  }

  /** Over every run: the DTSs written to the streams never go back if and only if no call writes
      a packet whose DTS comes after records without one and is before the last DTS of its
      stream. A caller can compare the two before the call. */
  lemma WriteSideOrderExactly(limit: nat, ps: seq<(Packet, Environment)>)
    ensures NeverBack(Run(limit, Init, ps).written) <==> NoCallGoesBack(limit, Init, ps)
  {
    assert Inv(Init) && GapsKeepOrder(Init.written);
    hide NeverBack, GapsKeepOrder, NoCallGoesBack, Run;
    RunKeepsInv(limit, Init, ps);
    RunAndGaps(limit, Init, ps);
    OrderExactly(Run(limit, Init, ps).written);
  }

  /** A packet without DTS resets the check: whatever DTS comes after it, however far back and
      on whatever stream, is written. */
  lemma MissingDtsResets(limit: nat, stream: nat, first: Int64, second: Int64) returns (ps: seq<(Packet, Environment)>)
    requires NO_PTS < first && NO_PTS < second
    ensures Run(limit, Init, ps).written ==
      [Record(stream, first, first), Record(stream, NO_PTS, first), Record(stream, second, second)]
    ensures second < first ==> !NeverBack(Run(limit, Init, ps).written)
  {
    var env := Environment(true, true);
    var a, b, c := Packet(stream, false, false, 0, first, first), Packet(stream, false, false, 0, NO_PTS, first),
      Packet(stream, false, false, 0, second, second);
    ps := [(a, env), (b, env), (c, env)];
    var s1 := Write(limit, Init, a, env).0;
    var s2 := Write(limit, s1, b, env).0;
    var s3 := Write(limit, s2, c, env).0;
    assert s1.written == [Record(stream, first, first)] && LastDtsOf(s1, stream) == first;
    assert s2.written == [Record(stream, first, first), Record(stream, NO_PTS, first)] && LastDtsOf(s2, stream) == NO_PTS;
    assert s3.written == [Record(stream, first, first), Record(stream, NO_PTS, first), Record(stream, second, second)];
    assert ps[1..] == [(b, env), (c, env)] && ps[1..][1..] == [(c, env)] && ps[1..][1..][1..] == [];
    hide Write;
    assert Run(limit, s2, [(c, env)]) == s3;
    assert Run(limit, s1, ps[1..]) == s3;
    if second < first {
      var w := s3.written;
      assert w[0].stream == w[2].stream && w[0].dts > w[2].dts;
    }
  }
}
