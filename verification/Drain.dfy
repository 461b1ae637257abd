/** The drain check of node/drain.go: six counters of a cell are loaded one after the other,
    while every other thread goes on. A load happens at some state of a run. */
module Drain {
  import opened Counters
  import opened Pipeline

  /** The states at which the six loads of one cell happen. */
  datatype Loads = Loads(sent: nat, omitted: nat, generated: nat, processed: nat, missed: nat, addressed: nat)

  /** Loaded against the flow of the counters, before state n. */
  predicate InOrder(l: Loads, n: nat) {
    l.sent <= l.omitted <= l.generated <= l.processed <= l.missed <= l.addressed < n
  }

  predicate CheckPasses(run: seq<State>, l: Loads, c: Cell)
    requires InOrder(l, |run|)
  {
    && run[l.sent].sent[c] + run[l.omitted].omitted[c] == run[l.generated].generated[c]
    && run[l.processed].processed[c] + run[l.missed].missed[c] == run[l.addressed].addressed[c]
  }

  /** The two soft assertions of the check hold whatever happens between the loads. */
  lemma SoftAssertionsHold(spontaneous: bool, run: seq<State>, l: Loads, c: Cell)
    requires IsRun(spontaneous, run) && InOrder(l, |run|)
    ensures run[l.sent].sent[c] + run[l.omitted].omitted[c] <= run[l.generated].generated[c]
    ensures run[l.processed].processed[c] + run[l.missed].missed[c] <= run[l.addressed].addressed[c]
  {
    RunConserves(spontaneous, run, l.omitted, c);
    RunConserves(spontaneous, run, l.missed, c);
    CountersGrow(spontaneous, run, l.sent, l.omitted, c);
    CountersGrow(spontaneous, run, l.omitted, l.generated, c);
    CountersGrow(spontaneous, run, l.processed, l.missed, c);
    CountersGrow(spontaneous, run, l.missed, l.addressed, c);
  }

  /** The check passes exactly when the output side was empty at the instant `omitted` was
      loaded, the input side at the instant `missed` was loaded, and the other counters of each
      side did not move between their load and that instant. */
  lemma ExactSnapshot(spontaneous: bool, run: seq<State>, l: Loads, c: Cell)
    requires IsRun(spontaneous, run) && InOrder(l, |run|)
    ensures CheckPasses(run, l, c) <==>
      && OutputSide(run[l.omitted], c) == 0
      && run[l.sent].sent[c] == run[l.omitted].sent[c]
      && run[l.generated].generated[c] == run[l.omitted].generated[c]
      && InputSide(run[l.missed], c) == 0
      && run[l.processed].processed[c] == run[l.missed].processed[c]
      && run[l.addressed].addressed[c] == run[l.missed].addressed[c]
    ensures CheckPasses(run, l, c) ==>
      && run[l.omitted].generated[c] == run[l.omitted].sent[c] + run[l.omitted].omitted[c]
      && run[l.missed].addressed[c] == run[l.missed].processed[c] + run[l.missed].missed[c]
  {
    RunConserves(spontaneous, run, l.omitted, c);
    RunConserves(spontaneous, run, l.missed, c);
    CountersGrow(spontaneous, run, l.sent, l.omitted, c);
    CountersGrow(spontaneous, run, l.omitted, l.generated, c);
    CountersGrow(spontaneous, run, l.processed, l.missed, c);
    CountersGrow(spontaneous, run, l.missed, l.addressed, c);
  }

  // ---- Both sides empty at one instant ----

  predicate NodeEmpty(s: State, c: Cell) {
    InputSide(s, c) == 0 && OutputSide(s, c) == 0 && Unseen(s, c) == 0
  }

  /** From state i to state j the kernel handles no input. */
  ghost predicate KernelIdle(run: seq<State>, i: nat, j: nat)
    requires i <= j < |run|
  {
    forall k :: i <= k <= j ==> run[k].reader == Free
  }

  lemma {:induction false} NothingEmitted(run: seq<State>, i: nat, j: nat, c: Cell)
    requires IsRun(false, run) && i <= j < |run| && KernelIdle(run, i, j) && Unseen(run[i], c) == 0
    ensures Unseen(run[j], c) == 0 && run[j].generated[c] == run[i].generated[c]
    decreases j - i
  {
    hide Apply, Enabled, Unseen, Step;
    if i < j {
      NothingEmitted(run, i, j - 1, c);
      IdleStep(run[j - 1], run[j], c);
    }
  }

  lemma FreeReaderEmitsNothing(s: State, e: Event)
    requires Enabled(false, s, e) && s.reader == Free
    ensures !e.Emit?
  {
  }

  lemma IdleStep(s: State, t: State, c: Cell)
    requires Step(false, s, t) && s.reader == Free && Unseen(s, c) == 0
    ensures Unseen(t, c) == 0 && t.generated[c] == s.generated[c]
  {
    hide Apply, Enabled, Unseen;
    if s != t {
      var e :| Enabled(false, s, e) && t == Apply(s, e);
      FreeReaderEmitsNothing(s, e);
      EventEmits(false, s, e, c);
    }
  }

  /** For every cell at once: the checks pass at their own times within the window from `first`
      to `last`; the kernel emits only while it handles an input and handles none in the window;
      nothing uncounted waits at `first`; and no cell is addressed anew after its own check.
      Then the whole node is empty at `last`. */
  lemma WholeNodeEmpty(run: seq<State>, loads: map<Cell, Loads>, first: nat, last: nat, c: Cell)
    requires IsRun(false, run) && first <= last < |run| && c in loads
    requires InOrder(loads[c], |run|) && CheckPasses(run, loads[c], c)
    requires first <= loads[c].generated && loads[c].missed <= last
    requires KernelIdle(run, first, last) && Unseen(run[first], c) == 0
    requires run[last].addressed[c] == run[loads[c].missed].addressed[c]
    ensures NodeEmpty(run[last], c)
  {
    var l := loads[c];
    ExactSnapshot(false, run, l, c);
    NothingEmitted(run, first, last, c);
    NothingEmitted(run, first, l.generated, c);
    CountersGrow(false, run, l.omitted, last, c);
    CountersGrow(false, run, l.missed, last, c);
    RunConserves(false, run, last, c);
  }

  /** The same for a single cell, at the instant its `missed` is loaded. */
  lemma CellEmptyAtMissed(run: seq<State>, l: Loads, c: Cell)
    requires IsRun(false, run) && InOrder(l, |run|) && CheckPasses(run, l, c)
    requires KernelIdle(run, l.generated, l.missed) && Unseen(run[l.generated], c) == 0
    ensures NodeEmpty(run[l.missed], c)
  {
    WholeNodeEmpty(run, map[c := l], l.generated, l.missed, c);
  }

  // ---- The check over all cells ----

  /** An atomic load happens at some later state of the run. */
  method NextLoad(now: nat, n: nat) returns (t: nat)
    requires now < n
    ensures now <= t < n
  {
    t :| now <= t < n;
  }

  ghost predicate Passed(run: seq<State>, loads: map<Cell, Loads>, from: nat, to: nat, c: Cell) {
    && c in loads && InOrder(loads[c], |run|) && CheckPasses(run, loads[c], c)
    && from <= loads[c].sent && loads[c].addressed <= to
  }

  /** While the check goes on: the kernel handles no input, nothing uncounted waited at the start,
      and no countable cell is addressed anew after its own check. */
  ghost predicate Quiet(run: seq<State>, loads: map<Cell, Loads>, start: nat, end: nat)
    requires start <= end < |run|
  {
    && KernelIdle(run, start, end)
    && forall sub: SubSection, mediaType: int :: var c := CellOf(sub, mediaType);
         && Unseen(run[start], c) == 0
         && (c in loads && loads[c].missed < |run| ==> run[end].addressed[c] == run[loads[c].missed].addressed[c])
  }

  /** The six loads of one cell and their comparison. */
  method CheckCell(run: seq<State>, now: nat, c: Cell) returns (ok: bool, end: nat, ghost l: Loads)
    requires now < |run|
    ensures InOrder(l, |run|) && now <= l.sent && l.addressed == end
    ensures ok <==> CheckPasses(run, l, c)
  {
    var tSent := NextLoad(now, |run|);
    var sent := run[tSent].sent[c];
    var tOmitted := NextLoad(tSent, |run|);
    var omitted := run[tOmitted].omitted[c];
    var tGenerated := NextLoad(tOmitted, |run|);
    var generated := run[tGenerated].generated[c];
    var tProcessed := NextLoad(tGenerated, |run|);
    var processed := run[tProcessed].processed[c];
    var tMissed := NextLoad(tProcessed, |run|);
    var missed := run[tMissed].missed[c];
    var tAddressed := NextLoad(tMissed, |run|);
    var addressed := run[tAddressed].addressed[c];
    l := Loads(tSent, tOmitted, tGenerated, tProcessed, tMissed, tAddressed);
    if sent + omitted != generated || processed + missed != addressed {
      return false, tAddressed, l;
    }
    return true, tAddressed, l;
  }

  /** allWentInAndOut, run beside any other threads from state `start` on. If it says drained,
      each cell that any object can be counted in was empty on its output side and on its input
      side at instants within the call; and if the node was quiet meanwhile, all those cells are
      empty throughout the node when the call ends. If not, some cell's six loads do not add up. */
  method AllWentInAndOut(ghost spontaneous: bool, run: seq<State>, start: nat)
    returns (drained: bool, end: nat, ghost loads: map<Cell, Loads>)
    requires IsRun(spontaneous, run) && start < |run|
    ensures start <= end < |run|
    ensures drained ==> forall sub: SubSection, mediaType: int :: var c := CellOf(sub, mediaType);
      && Passed(run, loads, start, end, c)
      && OutputSide(run[loads[c].omitted], c) == 0 && InputSide(run[loads[c].missed], c) == 0
    ensures !drained ==> exists c :: c in loads && InOrder(loads[c], |run|) && !CheckPasses(run, loads[c], c)
    ensures drained && !spontaneous && Quiet(run, loads, start, end) ==>
      forall sub: SubSection, mediaType: int :: NodeEmpty(run[end], CellOf(sub, mediaType))
  {
    var now := start;
    loads := map[];
    hide IsRun, CheckPasses;
    for i := 0 to |SUBSECTIONS|
      invariant start <= now < |run|
      invariant forall i', j' :: 0 <= i' < i && 0 <= j' < |MEDIA_TYPES| ==>
        Passed(run, loads, start, now, CellOf(SUBSECTIONS[i'], MEDIA_TYPES[j']))
    {
      for j := 0 to |MEDIA_TYPES|
        invariant start <= now < |run|
        invariant forall i', j' :: 0 <= i' < i && 0 <= j' < |MEDIA_TYPES| ==>
          Passed(run, loads, start, now, CellOf(SUBSECTIONS[i'], MEDIA_TYPES[j']))
        invariant forall j' :: 0 <= j' < j ==> Passed(run, loads, start, now, CellOf(SUBSECTIONS[i], MEDIA_TYPES[j']))
      {
        var c := CellOf(SUBSECTIONS[i], MEDIA_TYPES[j]);
        var ok;
        ghost var l;
        ok, now, l := CheckCell(run, now, c);
        loads := loads[c := l];
        if !ok {
          assert c in loads && loads[c] == l && !CheckPasses(run, loads[c], c);
          return false, now, loads;
        }
      }
    }
    forall sub: SubSection, mediaType: int
      ensures var c := CellOf(sub, mediaType);
        && Passed(run, loads, start, now, c)
        && OutputSide(run[loads[c].omitted], c) == 0 && InputSide(run[loads[c].missed], c) == 0
        && (!spontaneous && Quiet(run, loads, start, now) ==> NodeEmpty(run[now], c))
    {
      var i, j := EveryCountedCellIsChecked(sub, mediaType);
      var c := CellOf(sub, mediaType);
      ExactSnapshot(spontaneous, run, loads[c], c);
      if !spontaneous && Quiet(run, loads, start, now) {
        hide CheckPasses, KernelIdle, Unseen, NodeEmpty;
        WholeNodeEmpty(run, loads, start, now, c);
      }
    }
    return true, now, loads;
  }

  // ---- Why the conditions, and the order of the loads ----

  /** With all loads at one instant: a cell of the node is empty exactly when its check passes and
      nothing emitted waits to be counted, of which no counter tells. */
  lemma EmptyExactly(spontaneous: bool, run: seq<State>, t: nat, c: Cell)
    requires IsRun(spontaneous, run) && t < |run|
    ensures NodeEmpty(run[t], c) <==> CheckPasses(run, Loads(t, t, t, t, t, t), c) && Unseen(run[t], c) == 0
  {
    hide IsRun, CheckPasses;
    ExactSnapshot(spontaneous, run, Loads(t, t, t, t, t, t), c);
  }

  const VIDEO := Cell(Packets, Video)

  /** One more event at the end of a run. */
  lemma Then(spontaneous: bool, run: seq<State>, e: Event) returns (run': seq<State>)
    requires IsRun(spontaneous, run) && Enabled(spontaneous, run[|run| - 1], e)
    ensures IsRun(spontaneous, run') && run' == run + [Apply(run[|run| - 1], e)]
  {
    Extend(spontaneous, run, e);
    run' := run + [Apply(run[|run| - 1], e)];
  }

  /** A kernel that emits only while it handles an input: after that input is processed, what it
      emitted and no pump has counted is in the node, yet every check passes, even with all
      loads at one instant. */
  lemma UncountedObjectsAreInvisible() returns (run: seq<State>, t: nat)
    ensures IsRun(false, run) && t < |run|
    ensures forall c :: CheckPasses(run, Loads(t, t, t, t, t, t), c)
    ensures run[t].reader == Free && !NodeEmpty(run[t], VIDEO)
  {
    assert IsRun(false, [Init]) by { LoneInit(false); }
    hide Step, IsRun;
    t := 5;
    run := AddressAndPush([Init]);
    var m := multiset{VIDEO};
    run := Then(false, run, Receive(VIDEO));
    assert run[3] == Init.(addressed := m, reported := m, reader := InKernel(VIDEO));
    run := Then(false, run, Emit(VIDEO));
    assert run[4] == run[3].(preOutput := m);
    run := Then(false, run, FinishInput(VIDEO));
    assert run[5] == Init.(addressed := m, reported := m, processed := m, preOutput := m);
    hide Apply, Enabled;
  }

  lemma AddressAndPush(run: seq<State>) returns (run': seq<State>)
    requires run == [Init] && IsRun(false, run)
    ensures IsRun(false, run') && |run'| == 3
    ensures var m := multiset{VIDEO}; run'[2] == Init.(addressed := m, reported := m, inputChan := m)
  {
    hide Step, IsRun;
    var m := multiset{VIDEO};
    run' := Then(false, run, Address(VIDEO));
    assert run'[1] == Init.(addressed := m, held := m);
    run' := Then(false, run', PushInput(VIDEO));
  }

  /** The kernel emits an object and the pump counts it. */
  lemma GenerateOne(run: seq<State>) returns (run': seq<State>)
    requires IsRun(true, run) && run[|run| - 1].packetPump == Waiting
    ensures IsRun(true, run') && |run'| == |run| + 3 && run <= run'
    ensures var s, t := run[|run| - 1], run'[|run| + 2];
      && t.generated == s.generated + multiset{VIDEO} && t.packetPump == Counted(VIDEO)
      && t.sent == s.sent && t.omitted == s.omitted && t.outputChan == s.outputChan && t.serving == s.serving
    ensures forall i :: |run| <= i < |run'| ==> run'[i].outputChan == run[|run| - 1].outputChan
  {
    hide Step;
    run' := Then(true, run, Emit(VIDEO));
    run' := Then(true, run', Pull(VIDEO));
    run' := Then(true, run', CountGenerated(VIDEO));
  }

  /** Loading the six counters in the direction of the flow instead would be wrong: here
      generated = sent + omitted by the loads, yet an object is on the output side all along. */
  lemma ForwardOrderIsWrong() returns (run: seq<State>, generated: nat, sent: nat)
    ensures IsRun(true, run) && generated <= sent < |run|
    ensures run[sent].sent[VIDEO] + run[generated].omitted[VIDEO] == run[generated].generated[VIDEO] > 0
    ensures forall i :: generated <= i <= sent ==> OutputSide(run[i], VIDEO) > 0
  {
    hide Step, IsRun;
    assert IsRun(true, [Init]) by { LoneInit(true); }
    run := GenerateOne([Init]);
    generated := 3;
    run := Then(true, run, PushOutput(VIDEO));
    run := GenerateOne(run);
    assert run[7].outputChan == multiset{VIDEO};
    run := Then(true, run, Take(VIDEO));
    run := Then(true, run, CountSent(VIDEO));
    sent := 9;
  }

  lemma LoneInit(spontaneous: bool)
    ensures IsRun(spontaneous, [Init])
  {
  }
}
