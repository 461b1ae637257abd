/** One node and its processor as a transition system over atomic steps: node/node_serve.go
    (senders and Serve), processor/reader_loop.go and processor/from_kernel.go. Any number of
    senders run at once; the reader loop, the two output pumps and Serve are one goroutine each.
    An object in flight is represented by its counter cell. */
module Pipeline {
  import opened Counters

  /** An output pump: waiting; holding an object not yet counted; holding it counted; ended. */
  datatype Pump = Waiting | Uncounted(cell: Cell) | Counted(cell: Cell) | Ended

  datatype Serving = Idle | Pushing(cell: Cell)

  /** The reader loop: between objects, or inside the kernel's SendInput call. */
  datatype Reader = Free | InKernel(cell: Cell)

  /** Counters, then the places an object can be in. `held` are the objects of senders between
      Addressed and the attempt to push; `reported` those pushed whose Received is deferred. */
  datatype State = State(
    addressed: multiset<Cell>, received: multiset<Cell>, missed: multiset<Cell>,
    processed: multiset<Cell>, generated: multiset<Cell>, omitted: multiset<Cell>, sent: multiset<Cell>,
    held: multiset<Cell>, reported: multiset<Cell>,
    inputChan: multiset<Cell>, reader: Reader,
    preOutput: multiset<Cell>, packetPump: Pump, framePump: Pump,
    outputChan: multiset<Cell>, serving: Serving)

  const Init := State(
    multiset{}, multiset{}, multiset{}, multiset{}, multiset{}, multiset{}, multiset{},
    multiset{}, multiset{}, multiset{}, Free, multiset{}, Waiting, Waiting, multiset{}, Idle)

  datatype Event =
    | Address(cell: Cell)
    | PushInput(cell: Cell)
    | CountReceived(cell: Cell)
    | CountMissed(cell: Cell)
    | Receive(cell: Cell)
    | Emit(cell: Cell)
    | FinishInput(cell: Cell)
    | Pull(cell: Cell)
    | CountGenerated(cell: Cell)
    | PushOutput(cell: Cell)
    | Omit(cell: Cell)
    | Take(cell: Cell)
    | CountSent(cell: Cell)

  function PumpOf(s: State, sub: SubSection): Pump {
    if sub == Packets then s.packetPump else s.framePump
  }

  function WithPump(s: State, sub: SubSection, p: Pump): State {
    if sub == Packets then s.(packetPump := p) else s.(framePump := p)
  }

  /** `spontaneous`: the kernel also emits on its own (Generate, Flush). */
  predicate Enabled(spontaneous: bool, s: State, e: Event) {
    match e
    case Address(c) => true
    case PushInput(c) => c in s.held
    case CountReceived(c) => c in s.reported
    case CountMissed(c) => c in s.held
    case Receive(c) => s.reader == Free && c in s.inputChan
    case Emit(c) => spontaneous || s.reader.InKernel?
    case FinishInput(c) => s.reader == InKernel(c)
    case Pull(c) => PumpOf(s, c.sub) == Waiting && c in s.preOutput
    case CountGenerated(c) => PumpOf(s, c.sub) == Uncounted(c)
    case PushOutput(c) => PumpOf(s, c.sub) == Counted(c)
    case Omit(c) => PumpOf(s, c.sub) == Counted(c)
    case Take(c) => s.serving == Idle && c in s.outputChan
    case CountSent(c) => s.serving == Pushing(c)
  }

  function Apply(s: State, e: Event): State {
    match e
    case Address(c) => s.(addressed := s.addressed + multiset{c}, held := s.held + multiset{c})
    case PushInput(c) =>
      s.(held := s.held - multiset{c}, reported := s.reported + multiset{c}, inputChan := s.inputChan + multiset{c})
    case CountReceived(c) => s.(reported := s.reported - multiset{c}, received := s.received + multiset{c})
    case CountMissed(c) => s.(held := s.held - multiset{c}, missed := s.missed + multiset{c})
    case Receive(c) => s.(inputChan := s.inputChan - multiset{c}, reader := InKernel(c))
    case Emit(c) => s.(preOutput := s.preOutput + multiset{c})
    case FinishInput(c) => s.(reader := Free, processed := s.processed + multiset{c})
    case Pull(c) => WithPump(s.(preOutput := s.preOutput - multiset{c}), c.sub, Uncounted(c))
    case CountGenerated(c) => WithPump(s.(generated := s.generated + multiset{c}), c.sub, Counted(c))
    case PushOutput(c) => WithPump(s.(outputChan := s.outputChan + multiset{c}), c.sub, Waiting)
    case Omit(c) => WithPump(s.(omitted := s.omitted + multiset{c}), c.sub, Ended)
    case Take(c) => s.(outputChan := s.outputChan - multiset{c}, serving := Pushing(c))
    case CountSent(c) => s.(serving := Idle, sent := s.sent + multiset{c})
  }

  /** One step of any thread, or none. */
  ghost predicate Step(spontaneous: bool, s: State, t: State) {
    s == t || exists e :: Enabled(spontaneous, s, e) && t == Apply(s, e)
  }

  /** A run of the system, state by state. */
  ghost predicate IsRun(spontaneous: bool, run: seq<State>) {
    && run != [] && run[0] == Init
    && forall i :: 0 <= i < |run| - 1 ==> Step(spontaneous, run[i], run[i + 1])
  }

  lemma Extend(spontaneous: bool, run: seq<State>, e: Event)
    requires IsRun(spontaneous, run) && Enabled(spontaneous, run[|run| - 1], e)
    ensures IsRun(spontaneous, run + [Apply(run[|run| - 1], e)])
  {
    hide Apply, Enabled;
    var last := run[|run| - 1];
    var next := run + [Apply(last, e)];
    assert Step(spontaneous, last, Apply(last, e));
    forall i | 0 <= i < |next| - 1 ensures Step(spontaneous, next[i], next[i + 1]) {
      if i < |run| - 1 {
        assert next[i] == run[i] && next[i + 1] == run[i + 1];
      }
    }
  }

  // ---- The steps of one thread ----

  /** Events one after the other, each enabled in its turn. */
  predicate LegalTrace(spontaneous: bool, s: State, es: seq<Event>)
    decreases |es|
  {
    es == [] || (Enabled(spontaneous, s, es[0]) && LegalTrace(spontaneous, Apply(s, es[0]), es[1..]))
  }

  function Play(s: State, es: seq<Event>): State
    decreases |es|
  {
    if es == [] then s else Play(Apply(s, es[0]), es[1..])
  }

  lemma {:induction false} TraceAppend(spontaneous: bool, s: State, es: seq<Event>, e: Event)
    requires LegalTrace(spontaneous, s, es) && Enabled(spontaneous, Play(s, es), e)
    ensures LegalTrace(spontaneous, s, es + [e]) && Play(s, es + [e]) == Apply(Play(s, es), e)
    decreases |es|
  {
    hide Apply, Enabled;
    var next := es + [e];
    if es == [] {
      assert next[1..] == [];
      assert LegalTrace(spontaneous, Apply(s, e), next[1..]) && Play(Apply(s, e), next[1..]) == Apply(s, e);
    } else {
      TraceAppend(spontaneous, Apply(s, es[0]), es[1..], e);
      assert next[0] == es[0] && next[1..] == es[1..] + [e];
    }
  }

  /** The events lead from s to t. */
  predicate Leads(spontaneous: bool, s: State, es: seq<Event>, t: State) {
    LegalTrace(spontaneous, s, es) && Play(s, es) == t
  }

  lemma LeadsNowhere(spontaneous: bool, s: State)
    ensures Leads(spontaneous, s, [], s)
  {
  }

  lemma LeadsOn(spontaneous: bool, s: State, es: seq<Event>, t: State, e: Event)
    requires Leads(spontaneous, s, es, t) && Enabled(spontaneous, t, e)
    ensures Leads(spontaneous, s, es + [e], Apply(t, e))
  {
    hide Apply, Enabled, LegalTrace, Play;
    TraceAppend(spontaneous, s, es, e);
  }

  lemma Regroup(m: multiset<Cell>, x: multiset<Cell>, c: Cell)
    ensures m - x - multiset{c} == m - (x + multiset{c})
    ensures m + x + multiset{c} == m + (x + multiset{c})
  {
  }

  // ---- What is inside ----

  function Holds(held: bool): nat { if held then 1 else 0 }

  /** Addressed and not yet processed or missed. */
  function InputSide(s: State, c: Cell): nat {
    s.held[c] + s.inputChan[c] + Holds(s.reader == InKernel(c))
  }

  /** Generated and not yet sent or omitted. */
  function OutputSide(s: State, c: Cell): nat {
    Holds(PumpOf(s, c.sub) == Counted(c)) + s.outputChan[c] + Holds(s.serving == Pushing(c))
  }

  /** Emitted by the kernel, not counted yet: no counter tells of these. */
  function Unseen(s: State, c: Cell): nat {
    s.preOutput[c] + Holds(PumpOf(s, c.sub) == Uncounted(c))
  }

  /** Every addressed object is accounted for, twice over, and so is every generated one. */
  predicate ConservedAt(s: State, c: Cell) {
    && s.addressed[c] == s.missed[c] + s.processed[c] + InputSide(s, c)
    && s.addressed[c] == s.missed[c] + s.received[c] + s.held[c] + s.reported[c]
    && s.generated[c] == s.sent[c] + s.omitted[c] + OutputSide(s, c)
  }

  /** Counters only grow. */
  predicate LaterAt(s: State, t: State, c: Cell) {
    && s.addressed[c] <= t.addressed[c] && s.received[c] <= t.received[c] && s.missed[c] <= t.missed[c]
    && s.processed[c] <= t.processed[c] && s.generated[c] <= t.generated[c]
    && s.omitted[c] <= t.omitted[c] && s.sent[c] <= t.sent[c]
  }

  lemma SenderConserves(spontaneous: bool, s: State, e: Event, c: Cell)
    requires ConservedAt(s, c) && Enabled(spontaneous, s, e)
    requires e.Address? || e.PushInput? || e.CountReceived? || e.CountMissed?
    ensures ConservedAt(Apply(s, e), c) && LaterAt(s, Apply(s, e), c)
  {
  }

  lemma ReaderConserves(spontaneous: bool, s: State, e: Event, c: Cell)
    requires ConservedAt(s, c) && Enabled(spontaneous, s, e)
    requires e.Receive? || e.Emit? || e.FinishInput?
    ensures ConservedAt(Apply(s, e), c) && LaterAt(s, Apply(s, e), c)
  {
  }

  lemma PumpFields(s: State, sub: SubSection, p: Pump, other: SubSection)
    ensures var t := WithPump(s, sub, p);
      && t == s.(packetPump := t.packetPump, framePump := t.framePump)
      && PumpOf(t, other) == if other == sub then p else PumpOf(s, other)
  {
  }

  lemma PullConserves(spontaneous: bool, s: State, c': Cell, c: Cell)
    requires ConservedAt(s, c) && Enabled(spontaneous, s, Pull(c'))
    ensures ConservedAt(Apply(s, Pull(c')), c) && LaterAt(s, Apply(s, Pull(c')), c)
  {
    PumpFields(s.(preOutput := s.preOutput - multiset{c'}), c'.sub, Uncounted(c'), c.sub);
    assert PumpOf(s.(preOutput := s.preOutput - multiset{c'}), c.sub) == PumpOf(s, c.sub);
    hide WithPump, PumpOf;
  }

  lemma GeneratedConserves(spontaneous: bool, s: State, c': Cell, c: Cell)
    requires ConservedAt(s, c) && Enabled(spontaneous, s, CountGenerated(c'))
    ensures ConservedAt(Apply(s, CountGenerated(c')), c) && LaterAt(s, Apply(s, CountGenerated(c')), c)
  {
    PumpFields(s.(generated := s.generated + multiset{c'}), c'.sub, Counted(c'), c.sub);
    assert PumpOf(s.(generated := s.generated + multiset{c'}), c.sub) == PumpOf(s, c.sub);
    hide WithPump, PumpOf;
  }

  lemma PumpOutputConserves(spontaneous: bool, s: State, e: Event, c: Cell)
    requires ConservedAt(s, c) && Enabled(spontaneous, s, e)
    requires e.PushOutput? || e.Omit?
    ensures ConservedAt(Apply(s, e), c) && LaterAt(s, Apply(s, e), c)
  {
    var c' := e.cell;
    PumpFields(s.(outputChan := s.outputChan + multiset{c'}), c'.sub, Waiting, c.sub);
    PumpFields(s.(omitted := s.omitted + multiset{c'}), c'.sub, Ended, c.sub);
    assert PumpOf(s.(outputChan := s.outputChan + multiset{c'}), c.sub) == PumpOf(s, c.sub);
    assert PumpOf(s.(omitted := s.omitted + multiset{c'}), c.sub) == PumpOf(s, c.sub);
    hide WithPump, PumpOf;
  }

  lemma ServeConserves(spontaneous: bool, s: State, e: Event, c: Cell)
    requires ConservedAt(s, c) && Enabled(spontaneous, s, e)
    requires e.Take? || e.CountSent?
    ensures ConservedAt(Apply(s, e), c) && LaterAt(s, Apply(s, e), c)
  {
  }

  lemma EventConserves(spontaneous: bool, s: State, e: Event, c: Cell)
    requires ConservedAt(s, c) && Enabled(spontaneous, s, e)
    ensures ConservedAt(Apply(s, e), c) && LaterAt(s, Apply(s, e), c)
  {
    hide Apply, Enabled, ConservedAt, LaterAt;
    if e.Address? || e.PushInput? || e.CountReceived? || e.CountMissed? {
      SenderConserves(spontaneous, s, e, c);
    } else if e.Receive? || e.Emit? || e.FinishInput? {
      ReaderConserves(spontaneous, s, e, c);
    } else if e.Pull? {
      PullConserves(spontaneous, s, e.cell, c);
    } else if e.CountGenerated? {
      GeneratedConserves(spontaneous, s, e.cell, c);
    } else if e.PushOutput? || e.Omit? {
      PumpOutputConserves(spontaneous, s, e, c);
    } else {
      ServeConserves(spontaneous, s, e, c);
    }
  }

  /** What the kernel has emitted is either not counted yet or in `generated`. */
  lemma EventEmits(spontaneous: bool, s: State, e: Event, c: Cell)
    requires Enabled(spontaneous, s, e)
    ensures Unseen(Apply(s, e), c) + Apply(s, e).generated[c] ==
      Unseen(s, c) + s.generated[c] + Holds(e == Emit(c))
    ensures s.generated[c] <= Apply(s, e).generated[c]
  {
    if e.Pull? || e.CountGenerated? || e.PushOutput? || e.Omit? {
      hide Apply, Enabled, Unseen;
      PumpEmits(spontaneous, s, e, c);
    } else if !e.Emit? {
      OthersEmitNothing(spontaneous, s, e, c);
      hide Apply, Enabled;
    }
  }

  lemma OthersEmitNothing(spontaneous: bool, s: State, e: Event, c: Cell)
    requires Enabled(spontaneous, s, e)
    requires !e.Emit? && !e.Pull? && !e.CountGenerated? && !e.PushOutput? && !e.Omit?
    ensures var t := Apply(s, e);
      t.preOutput == s.preOutput && t.packetPump == s.packetPump && t.framePump == s.framePump && t.generated == s.generated
  {
  }

  lemma PumpEmits(spontaneous: bool, s: State, e: Event, c: Cell)
    requires Enabled(spontaneous, s, e) && (e.Pull? || e.CountGenerated? || e.PushOutput? || e.Omit?)
    ensures Unseen(Apply(s, e), c) + Apply(s, e).generated[c] == Unseen(s, c) + s.generated[c]
    ensures s.generated[c] <= Apply(s, e).generated[c]
  {
    if e.Pull? || e.CountGenerated? {
      TakingEmits(spontaneous, s, e, c);
    } else {
      assert Apply(s, e).preOutput == s.preOutput && Apply(s, e).generated == s.generated;
    }
  }

  lemma TakingEmits(spontaneous: bool, s: State, e: Event, c: Cell)
    requires Enabled(spontaneous, s, e) && (e.Pull? || e.CountGenerated?)
    ensures Unseen(Apply(s, e), c) + Apply(s, e).generated[c] == Unseen(s, c) + s.generated[c]
    ensures s.generated[c] <= Apply(s, e).generated[c]
  {
    var c' := e.cell;
    PumpFields(s.(preOutput := s.preOutput - multiset{c'}), c'.sub, Uncounted(c'), c.sub);
    PumpFields(s.(generated := s.generated + multiset{c'}), c'.sub, Counted(c'), c.sub);
    assert PumpOf(s.(preOutput := s.preOutput - multiset{c'}), c.sub) == PumpOf(s, c.sub);
    assert PumpOf(s.(generated := s.generated + multiset{c'}), c.sub) == PumpOf(s, c.sub);
    hide WithPump, PumpOf;
  }

  lemma StepConserves(spontaneous: bool, s: State, t: State, c: Cell)
    requires ConservedAt(s, c) && Step(spontaneous, s, t)
    ensures ConservedAt(t, c) && LaterAt(s, t, c)
  {
    if s != t {
      var e :| Enabled(spontaneous, s, e) && t == Apply(s, e);
      EventConserves(spontaneous, s, e, c);
    }
  }

  /** The steps of the code that counts keep the equations. */
  lemma {:induction false} TraceConserves(spontaneous: bool, s: State, es: seq<Event>, t: State, c: Cell)
    requires ConservedAt(s, c) && Leads(spontaneous, s, es, t)
    ensures ConservedAt(t, c)
    decreases |es|
  {
    hide Apply, Enabled, ConservedAt, LaterAt;
    if es != [] {
      EventConserves(spontaneous, s, es[0], c);
      TraceConserves(spontaneous, Apply(s, es[0]), es[1..], t, c);
    }
  }

  lemma NothingYet(c: Cell)
    ensures ConservedAt(Init, c)
  {
  }

  /** In every state of every run, whatever the interleaving, and cell by cell: addressed =
      missed + processed + held by senders, queued or in the kernel; and generated = sent +
      omitted + held by the pump, queued or being pushed. */
  lemma {:induction false} RunConserves(spontaneous: bool, run: seq<State>, i: nat, c: Cell)
    requires IsRun(spontaneous, run) && i < |run|
    ensures ConservedAt(run[i], c)
  {
    hide ConservedAt, Step;
    if i == 0 {
      NothingYet(c);
    } else {
      RunConserves(spontaneous, run, i - 1, c);
      StepConserves(spontaneous, run[i - 1], run[i], c);
    }
  }

  lemma {:induction false} CountersGrow(spontaneous: bool, run: seq<State>, i: nat, j: nat, c: Cell)
    requires IsRun(spontaneous, run) && i <= j < |run|
    ensures LaterAt(run[i], run[j], c)
    decreases j - i
  {
    hide ConservedAt, Step;
    if i < j {
      CountersGrow(spontaneous, run, i, j - 1, c);
      RunConserves(spontaneous, run, j - 1, c);
      StepConserves(spontaneous, run[j - 1], run[j], c);
    }
  }
}
