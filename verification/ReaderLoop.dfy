/** The reader loop of processor/reader_loop.go: it hands every received object to the kernel
    and counts it as processed, and on its way out empties the input channels. */
module ReaderLoop {
  import opened Counters
  import opened Pipeline

  /** `WaitsForever`: nothing more comes, and neither the context nor the kernel ever ends. */
  datatype Exit = ContextEnded | KernelClosed | InputClosed | SendFailed | NothingWaiting | WaitsForever

  /** What happens around the loop: whether the context ever ends, the kernel and the channels are
      ever closed, and with which packets and frames the kernel fails. */
  datatype Surroundings = Surroundings(
    contextEnds: bool,
    kernelCloses: bool,
    packetsClose: bool,
    framesClose: bool,
    packetFails: nat -> bool,
    frameFails: nat -> bool)

  /** What a select may find: its cases are chosen among those that are ready. */
  datatype Ready = NextPacket | PacketsClosed | NextFrame | FramesClosed | Neither

  // ---- Its steps in the transition system ----

  /** The reader is free, and what it will take is in its channels. */
  ghost predicate CanRead(s: State, packets: seq<Object>, frames: seq<Object>) {
    s.reader == Free && Cells(packets) + Cells(frames) <= s.inputChan
  }

  ghost function Handled(s: State, taken: multiset<Cell>): State {
    s.(inputChan := s.inputChan - taken, processed := s.processed + taken)
  }

  /** The trace, from s on, is what the reader does with its first p packets and f frames. */
  ghost predicate Follows(s: State, packets: seq<Object>, p: nat, frames: seq<Object>, f: nat, trace: seq<Event>)
    requires p <= |packets| && f <= |frames|
  {
    CanRead(s, packets, frames) ==>
      Leads(false, s, trace, Handled(s, Cells(packets[..p]) + Cells(frames[..f])))
  }

  lemma FollowsFirst(s: State, packets: seq<Object>, frames: seq<Object>)
    ensures Follows(s, packets, 0, frames, 0, [])
  {
    LeadsNowhere(false, s);
    assert packets[..0] == [] && frames[..0] == [] && Cells([]) == multiset{};
    assert Handled(s, multiset{} + multiset{}) == s;
  }

  lemma Handling(s: State, taken: multiset<Cell>, c: Cell, trace: seq<Event>)
    requires s.reader == Free && taken + multiset{c} <= s.inputChan && Leads(false, s, trace, Handled(s, taken))
    ensures Leads(false, s, trace + [Receive(c)] + [FinishInput(c)], Handled(s, taken + multiset{c}))
  {
    hide Leads;
    var t := Handled(s, taken);
    var u := Apply(t, Receive(c));
    LeadsOn(false, s, trace, t, Receive(c));
    LeadsOn(false, s, trace + [Receive(c)], u, FinishInput(c));
    Regroup(s.inputChan, taken, c);
    Regroup(s.processed, taken, c);
  }

  lemma FollowsPacket(s: State, packets: seq<Object>, p: nat, frames: seq<Object>, f: nat, trace: seq<Event>)
    requires p < |packets| && f <= |frames| && Follows(s, packets, p, frames, f, trace)
    ensures var c := ObjectCell(packets[p]);
      Follows(s, packets, p + 1, frames, f, trace + [Receive(c)] + [FinishInput(c)])
  {
    var c := ObjectCell(packets[p]);
    TallyOfMore(packets, p);
    CellsOfPrefix(packets, p + 1);
    CellsOfPrefix(frames, f);
    hide Cells, Leads, Handled;
    var taken := Cells(packets[..p]) + Cells(frames[..f]);
    assert Cells(packets[..p + 1]) + Cells(frames[..f]) == taken + multiset{c};
    if CanRead(s, packets, frames) {
      Handling(s, taken, c, trace);
    }
  }

  lemma FollowsFrame(s: State, packets: seq<Object>, p: nat, frames: seq<Object>, f: nat, trace: seq<Event>)
    requires p <= |packets| && f < |frames| && Follows(s, packets, p, frames, f, trace)
    ensures var c := ObjectCell(frames[f]);
      Follows(s, packets, p, frames, f + 1, trace + [Receive(c)] + [FinishInput(c)])
  {
    var c := ObjectCell(frames[f]);
    TallyOfMore(frames, f);
    CellsOfPrefix(frames, f + 1);
    CellsOfPrefix(packets, p);
    hide Cells, Leads, Handled;
    var taken := Cells(packets[..p]) + Cells(frames[..f]);
    assert Cells(packets[..p]) + Cells(frames[..f + 1]) == taken + multiset{c};
    if CanRead(s, packets, frames) {
      Handling(s, taken, c, trace);
    }
  }

  // ---- What it counts ----

  /** Exactly the first p packets and f frames were counted, each once and in its own cell. */
  ghost predicate BothTallied(counts0: multiset<Cell>, bytes0: multiset<Cell>, counts1: multiset<Cell>, bytes1: multiset<Cell>,
                          packets: seq<Object>, p: nat, frames: seq<Object>, f: nat)
    requires p <= |packets| && f <= |frames|
  {
    && counts1 == counts0 + (Cells(packets[..p]) + Cells(frames[..f]))
    && bytes1 == bytes0 + (Bytes(packets[..p]) + Bytes(frames[..f]))
  }

  lemma TalliedPacket(counts0: multiset<Cell>, bytes0: multiset<Cell>, counts1: multiset<Cell>, bytes1: multiset<Cell>,
                      packets: seq<Object>, p: nat, frames: seq<Object>, f: nat)
    requires p < |packets| && f <= |frames| && BothTallied(counts0, bytes0, counts1, bytes1, packets, p, frames, f)
    ensures var c, size := ObjectCell(packets[p]), packets[p].size;
      BothTallied(counts0, bytes0, Plus(counts1, c, 1), Plus(bytes1, c, size), packets, p + 1, frames, f)
  {
    var c, size := ObjectCell(packets[p]), packets[p].size;
    TallyOfMore(packets, p);
    hide Cells, Bytes, Plus;
    PlusInSum(counts0, Cells(packets[..p]) + Cells(frames[..f]), c, 1);
    PlusInSum(bytes0, Bytes(packets[..p]) + Bytes(frames[..f]), c, size);
    PlusInSum(Cells(packets[..p]), Cells(frames[..f]), c, 1);
    PlusInSum(Bytes(packets[..p]), Bytes(frames[..f]), c, size);
  }

  lemma TalliedFrame(counts0: multiset<Cell>, bytes0: multiset<Cell>, counts1: multiset<Cell>, bytes1: multiset<Cell>,
                     packets: seq<Object>, p: nat, frames: seq<Object>, f: nat)
    requires p <= |packets| && f < |frames| && BothTallied(counts0, bytes0, counts1, bytes1, packets, p, frames, f)
    ensures var c, size := ObjectCell(frames[f]), frames[f].size;
      BothTallied(counts0, bytes0, Plus(counts1, c, 1), Plus(bytes1, c, size), packets, p, frames, f + 1)
  {
    var c, size := ObjectCell(frames[f]), frames[f].size;
    TallyOfMore(frames, f);
    hide Cells, Bytes, Plus;
    PlusInSum(counts0, Cells(packets[..p]) + Cells(frames[..f]), c, 1);
    PlusInSum(bytes0, Bytes(packets[..p]) + Bytes(frames[..f]), c, size);
    PlusInSum(Cells(packets[..p]), Cells(frames[..f]), c, 1);
    PlusInSum(Bytes(packets[..p]), Bytes(frames[..f]), c, size);
  }

  // ---- Failures ----

  /** From p0 and f0 on, the kernel failed with none of the objects taken up to p and f. */
  ghost predicate NoneFailed(env: Surroundings, p0: nat, f0: nat, p: nat, f: nat) {
    (forall i :: p0 <= i < p ==> !env.packetFails(i)) && (forall i :: f0 <= i < f ==> !env.frameFails(i))
  }

  /** It failed with the last one taken, and with no other. */
  ghost predicate LastFailed(env: Surroundings, p0: nat, f0: nat, p: nat, f: nat) {
    || (p0 < p && env.packetFails(p - 1) && NoneFailed(env, p0, f0, p - 1, f))
    || (f0 < f && env.frameFails(f - 1) && NoneFailed(env, p0, f0, p, f - 1))
  }

  // ---- The loops ----

  /** A channel is given by everything that is ever put into it, in order; at any time some of it
      has arrived, some of that was taken. It can be closed once all of it has arrived. */
  class Reader {
    const packets: seq<Object>
    const frames: seq<Object>
    const Processed: CountersSection
    const env: Surroundings
    var packetsTaken: nat
    var framesTaken: nat
    /** The loop's variables are set to nil when a channel turns out to be closed. */
    var packetsNil: bool
    var framesNil: bool
    ghost const counts0: multiset<Cell>
    ghost const bytes0: multiset<Cell>
    /** The steps so far, in the transition system from state s on. */
    ghost const s: State
    ghost var trace: seq<Event>

    /** Exactly the objects taken from either channel are counted. */
    ghost predicate Valid()
      reads this, Processed
    {
      && packetsTaken <= |packets| && framesTaken <= |frames|
      && (packetsNil ==> env.packetsClose && packetsTaken == |packets|)
      && (framesNil ==> env.framesClose && framesTaken == |frames|)
      && BothTallied(counts0, bytes0, Processed.counts, Processed.bytes, packets, packetsTaken, frames, framesTaken)
      && Follows(s, packets, packetsTaken, frames, framesTaken, trace)
    }

    constructor (ghost s: State, packets: seq<Object>, frames: seq<Object>, processed: CountersSection, env: Surroundings)
      ensures this.env == env
      ensures Valid() && this.packets == packets && this.frames == frames && Processed == processed
      ensures packetsTaken == framesTaken == 0 && !packetsNil && !framesNil
      ensures counts0 == processed.counts && bytes0 == processed.bytes && this.s == s
    {
      this.s, trace := s, [];
      this.packets, this.frames, Processed, this.env := packets, frames, processed, env;
      packetsTaken, framesTaken, packetsNil, framesNil := 0, 0, false, false;
      counts0, bytes0 := processed.counts, processed.bytes;
      new;
      assert packets[..0] == [] && frames[..0] == [];
      FollowsFirst(s, packets, frames);
    }

    /** A select on both channels, when so much at least has arrived; the result is Neither only if
        no case is ready. `settled`: nothing more will happen to the channels. */
    method Select(hereP: nat, hereF: nat, settled: bool) returns (r: Ready, arrivedPackets: nat, arrivedFrames: nat)
      requires packetsTaken <= |packets| && framesTaken <= |frames| && hereP <= |packets| && hereF <= |frames|
      ensures packetsTaken <= arrivedPackets <= |packets| && framesTaken <= arrivedFrames <= |frames|
      ensures hereP <= arrivedPackets && hereF <= arrivedFrames
      ensures r.NextPacket? ==> !packetsNil && packetsTaken < |packets|
      ensures r.PacketsClosed? ==> !packetsNil && packetsTaken == |packets| && env.packetsClose
      ensures r.NextFrame? ==> !framesNil && framesTaken < |frames|
      ensures r.FramesClosed? ==> !framesNil && framesTaken == |frames| && env.framesClose
      ensures r.Neither? ==> (packetsNil || packetsTaken == arrivedPackets) && (framesNil || framesTaken == arrivedFrames)
      ensures r.Neither? && settled ==>
        (packetsNil || !env.packetsClose || packetsTaken < |packets|) && (framesNil || !env.framesClose || framesTaken < |frames|)
    {
      arrivedPackets :| packetsTaken <= arrivedPackets <= |packets| && hereP <= arrivedPackets;
      arrivedFrames :| framesTaken <= arrivedFrames <= |frames| && hereF <= arrivedFrames;
      var soonerP, soonerF, framesFirst: bool := *, *, *;
      var packetCase, frameCase := Neither, Neither;
      if !packetsNil {
        packetCase := if packetsTaken < arrivedPackets then NextPacket
          else if env.packetsClose && (settled || soonerP) && packetsTaken == |packets| then PacketsClosed else Neither;
      }
      if !framesNil {
        frameCase := if framesTaken < arrivedFrames then NextFrame
          else if env.framesClose && (settled || soonerF) && framesTaken == |frames| then FramesClosed else Neither;
      }
      r := if packetCase == Neither || (framesFirst && frameCase != Neither) then frameCase else packetCase;
    }

    /** The select of the main loop, which waits for one of its cases. If it is the end of the context
        or of the kernel, or none ever comes, the result is Neither, and the way out. */
    method BlockingSelect() returns (r: Ready, ended: Exit)
      requires packetsTaken <= |packets| && framesTaken <= |frames|
      ensures r.NextPacket? ==> !packetsNil && packetsTaken < |packets|
      ensures r.PacketsClosed? ==> !packetsNil && packetsTaken == |packets| && env.packetsClose
      ensures r.NextFrame? ==> !framesNil && framesTaken < |frames|
      ensures r.FramesClosed? ==> !framesNil && framesTaken == |frames| && env.framesClose
      ensures r.Neither? ==> ended.ContextEnded? || ended.KernelClosed? || ended.WaitsForever?
      ensures r.Neither? && ended == ContextEnded ==> env.contextEnds
      ensures r.Neither? && ended == KernelClosed ==> env.kernelCloses
      ensures r.Neither? && ended == WaitsForever ==>
        && !env.contextEnds && !env.kernelCloses
        && (packetsNil || (packetsTaken == |packets| && !env.packetsClose))
        && (framesNil || (framesTaken == |frames| && !env.framesClose))
    {
      ended := WaitsForever;
      var contextDone, kernelClosed: bool := *, *;
      if env.contextEnds && contextDone {
        return Neither, ContextEnded;
      }
      if env.kernelCloses && kernelClosed {
        return Neither, KernelClosed;
      }
      var arrivedP, arrivedF;
      r, arrivedP, arrivedF := Select(0, 0, false);
      if r.Neither? {
        // all that is still to come
        r, arrivedP, arrivedF := Select(|packets|, |frames|, true);
        if r.Neither? {
          ended := if env.contextEnds then ContextEnded else if env.kernelCloses then KernelClosed else WaitsForever;
        }
      }
    }

    /** SendInputPacket, then the count, whether it failed or not. */
    method HandlePacket() returns (ok: bool)
      requires Valid() && packetsTaken < |packets|
      modifies this`packetsTaken, this`trace, Processed
      ensures Valid() && packetsTaken == old(packetsTaken) + 1
      ensures ok <==> !env.packetFails(old(packetsTaken))
    {
      var o := packets[packetsTaken];
      ghost var c := ObjectCell(o);
      hide BothTallied, Plus, CellOf, Follows;
      FollowsPacket(s, packets, packetsTaken, frames, framesTaken, trace);
      TalliedPacket(counts0, bytes0, Processed.counts, Processed.bytes, packets, packetsTaken, frames, framesTaken);
      packetsTaken := packetsTaken + 1;
      trace := trace + [Receive(c)];
      ok := !env.packetFails(packetsTaken - 1);
      Processed.Increment(o.sub, o.mediaType, o.size);
      trace := trace + [FinishInput(c)];
    }

    method HandleFrame() returns (ok: bool)
      requires Valid() && framesTaken < |frames|
      modifies this`framesTaken, this`trace, Processed
      ensures Valid() && framesTaken == old(framesTaken) + 1
      ensures ok <==> !env.frameFails(old(framesTaken))
    {
      var o := frames[framesTaken];
      ghost var c := ObjectCell(o);
      hide BothTallied, Plus, CellOf, Follows;
      FollowsFrame(s, packets, packetsTaken, frames, framesTaken, trace);
      TalliedFrame(counts0, bytes0, Processed.counts, Processed.bytes, packets, packetsTaken, frames, framesTaken);
      framesTaken := framesTaken + 1;
      trace := trace + [Receive(c)];
      ok := !env.frameFails(framesTaken - 1);
      Processed.Increment(o.sub, o.mediaType, o.size);
      trace := trace + [FinishInput(c)];
    }

    /** Everything ever put into either channel was taken. */
    ghost predicate TookAll()
      reads this
    {
      packetsTaken == |packets| && framesTaken == |frames|
    }

    /** The loop proper: lines 91-136. Each way out has its cause around the loop. */
    method MainLoop() returns (exit: Exit)
      requires Valid() && !(packetsNil && framesNil)
      modifies this`packetsTaken, this`framesTaken, this`packetsNil, this`framesNil, this`trace, Processed
      ensures Valid() && packetsTaken >= old(packetsTaken) && framesTaken >= old(framesTaken)
      ensures exit == ContextEnded ==> env.contextEnds
      ensures exit == KernelClosed ==> env.kernelCloses
      ensures exit == InputClosed ==> TookAll() && env.packetsClose && env.framesClose
      ensures exit == SendFailed ==> LastFailed(env, old(packetsTaken), old(framesTaken), packetsTaken, framesTaken)
      ensures exit != SendFailed ==> NoneFailed(env, old(packetsTaken), old(framesTaken), packetsTaken, framesTaken)
      ensures exit == WaitsForever ==>
        TookAll() && !env.contextEnds && !env.kernelCloses && !(env.packetsClose && env.framesClose)
      ensures exit != NothingWaiting
    {
      hide BothTallied, Follows;
      ghost var p0, f0 := packetsTaken, framesTaken;
      while true
        invariant Valid() && packetsTaken >= p0 && framesTaken >= f0 && !(packetsNil && framesNil)
        invariant NoneFailed(env, p0, f0, packetsTaken, framesTaken)
        decreases |packets| - packetsTaken + |frames| - framesTaken,
          (if packetsNil then 0 else 1) + (if framesNil then 0 else 1)
      {
        var ready, ended := BlockingSelect();
        match ready {
          case NextPacket =>
            var ok := HandlePacket();
            if !ok {
              return SendFailed;
            }
          case PacketsClosed =>
            if framesNil {
              return InputClosed;
            }
            packetsNil := true;
          case NextFrame =>
            var ok := HandleFrame();
            if !ok {
              return SendFailed;
            }
          case FramesClosed =>
            if packetsNil {
              return InputClosed;
            }
            framesNil := true;
          case Neither =>
            return ended;
        }
      }
    }

    /** The deferred loop: lines 34-83, when so much has arrived. It stops at the first failure, when
        both channels are closed, or when nothing is waiting: then all that had arrived was taken. */
    method ClosingLoop(hereP: nat, hereF: nat) returns (exit: Exit, arrivedPackets: nat, arrivedFrames: nat)
      requires Valid() && hereP <= |packets| && hereF <= |frames|
      modifies this`packetsTaken, this`framesTaken, this`packetsNil, this`framesNil, this`trace, Processed
      ensures Valid() && packetsTaken >= old(packetsTaken) && framesTaken >= old(framesTaken)
      ensures exit == InputClosed ==> TookAll() && env.packetsClose && env.framesClose
      ensures exit == NothingWaiting ==> hereP <= packetsTaken == arrivedPackets && hereF <= framesTaken == arrivedFrames
      ensures exit == SendFailed ==> LastFailed(env, old(packetsTaken), old(framesTaken), packetsTaken, framesTaken)
      ensures exit != SendFailed ==> NoneFailed(env, old(packetsTaken), old(framesTaken), packetsTaken, framesTaken)
      ensures exit.InputClosed? || exit.NothingWaiting? || exit.SendFailed?
    {
      hide BothTallied, Follows;
      ghost var p0, f0 := packetsTaken, framesTaken;
      while true
        invariant Valid() && packetsTaken >= p0 && framesTaken >= f0
        invariant NoneFailed(env, p0, f0, packetsTaken, framesTaken)
        decreases |packets| - packetsTaken + |frames| - framesTaken,
          (if packetsNil then 0 else 1) + (if framesNil then 0 else 1)
      {
        var ready;
        ready, arrivedPackets, arrivedFrames := Select(hereP, hereF, false);
        match ready {
          case NextPacket =>
            var ok := HandlePacket();
            if !ok {
              return SendFailed, arrivedPackets, arrivedFrames;
            }
          case PacketsClosed =>
            if framesNil {
              return InputClosed, arrivedPackets, arrivedFrames;
            }
            packetsNil := true;
          case NextFrame =>
            var ok := HandleFrame();
            if !ok {
              return SendFailed, arrivedPackets, arrivedFrames;
            }
          case FramesClosed =>
            if packetsNil {
              return InputClosed, arrivedPackets, arrivedFrames;
            }
            framesNil := true;
          case Neither =>
            return NothingWaiting, arrivedPackets, arrivedFrames;
        }
      }
    }
  }

  /** readerLoop, where so much has arrived by the time the main loop is left: the objects counted as
      processed are exactly those taken out of the channels, each counted in its own cell; each
      loop ends for a reason that lies around it; and unless a send failed on the way out,
      nothing that had arrived is left behind. */
  method RunReaderLoop(ghost s: State, packets: seq<Object>, frames: seq<Object>, processed: CountersSection,
                       env: Surroundings, hereP: nat, hereF: nat)
    returns (exit: Exit, closing: Exit, packetsTaken: nat, framesTaken: nat, ghost trace: seq<Event>)
    requires hereP <= |packets| && hereF <= |frames|
    modifies processed
    ensures packetsTaken <= |packets| && framesTaken <= |frames|
    ensures BothTallied(old(processed.counts), old(processed.bytes), processed.counts, processed.bytes,
                    packets, packetsTaken, frames, framesTaken)
    ensures exit != NothingWaiting
    ensures exit == ContextEnded ==> env.contextEnds
    ensures exit == KernelClosed ==> env.kernelCloses
    ensures exit == InputClosed || closing == InputClosed ==>
      env.packetsClose && env.framesClose && packetsTaken == |packets| && framesTaken == |frames|
    ensures exit == WaitsForever <==> closing == WaitsForever
    ensures exit == WaitsForever ==>
      && !env.contextEnds && !env.kernelCloses && !(env.packetsClose && env.framesClose)
      && packetsTaken == |packets| && framesTaken == |frames|
    ensures closing.InputClosed? || closing.NothingWaiting? || closing.SendFailed? || closing.WaitsForever?
    ensures closing == NothingWaiting ==> hereP <= packetsTaken && hereF <= framesTaken
    ensures closing == SendFailed ==>
      (packetsTaken > 0 && env.packetFails(packetsTaken - 1)) || (framesTaken > 0 && env.frameFails(framesTaken - 1))
    ensures exit == SendFailed ==> !NoneFailed(env, 0, 0, packetsTaken, framesTaken)
    ensures exit != SendFailed && closing != SendFailed ==> NoneFailed(env, 0, 0, packetsTaken, framesTaken)
    ensures Follows(s, packets, packetsTaken, frames, framesTaken, trace)
  {
    hide BothTallied, Follows;
    var r := new Reader(s, packets, frames, processed, env);
    exit := r.MainLoop();
    closing := WaitsForever;
    if exit != WaitsForever {
      var arrivedP, arrivedF;
      closing, arrivedP, arrivedF := r.ClosingLoop(hereP, hereF);
    }
    packetsTaken, framesTaken, trace := r.packetsTaken, r.framesTaken, r.trace;
  }
}
