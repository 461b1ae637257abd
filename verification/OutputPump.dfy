/** The pumps of processor/from_kernel.go between the kernel's output channels and the
    processor's: one for packets and one for frames, alike. */
module OutputPump {
  import opened Counters
  import opened Pipeline

  /** `WaitsForever`: all is taken, and neither the context ever ends nor the channel is closed. */
  datatype Exit = Stopped | ChannelClosed | Interrupted | WaitsForever

  /** The pump of this subsection waits, and what it will take is in its channel. */
  ghost predicate CanPump(s: State, sub: SubSection, emitted: seq<Object>) {
    PumpOf(s, sub) == Waiting && Cells(emitted) <= s.preOutput
  }

  /** The pump took `taken`, all of which is in the output channel. */
  ghost function Pumped(s: State, taken: multiset<Cell>): State {
    s.(preOutput := s.preOutput - taken, generated := s.generated + taken, outputChan := s.outputChan + taken)
  }

  /** It took and counted one more object, and the context ended. */
  ghost function Interruption(t: State, sub: SubSection, c: Cell): State {
    WithPump(t.(preOutput := t.preOutput - multiset{c}, generated := t.generated + multiset{c},
                omitted := t.omitted + multiset{c}), sub, Ended)
  }

  ghost function AfterPump(s: State, sub: SubSection, taken: seq<Object>, exit: Exit): State {
    if exit == Interrupted && taken != [] then
      Interruption(Pumped(s, Cells(taken[..|taken| - 1])), sub, ObjectCell(taken[|taken| - 1]))
    else Pumped(s, Cells(taken))
  }

  /** The trace, from s on, is what the pump does in the transition system with its first k objects. */
  ghost predicate Follows(s: State, sub: SubSection, emitted: seq<Object>, k: nat, exit: Exit, trace: seq<Event>)
    requires k <= |emitted|
  {
    CanPump(s, sub, emitted) ==> Leads(false, s, trace, AfterPump(s, sub, emitted[..k], exit))
  }

  /** `emitted` is everything the kernel ever puts into the pump's channel, in order. What the
      pump has taken is counted as generated; all of it is in the output channel, in order,
      except the last object if the context ended while it was being pushed: that one, and no
      other, is counted as omitted. `trace` are its steps in the transition system, from any
      state s in which it can take them. */
  method Pump(ghost s: State, sub: SubSection, emitted: seq<Object>, output: seq<Object>,
              Generated: CountersSection, Omitted: CountersSection, contextEnds: bool, closes: bool)
    returns (exit: Exit, taken: nat, output': seq<Object>, ghost trace: seq<Event>)
    requires Generated != Omitted && forall i :: 0 <= i < |emitted| ==> emitted[i].sub == sub
    modifies Generated, Omitted
    ensures taken <= |emitted|
    ensures Tallied(old(Generated.counts), old(Generated.bytes), Generated.counts, Generated.bytes, emitted[..taken])
    ensures exit == Interrupted ==> taken > 0 && output' == output + emitted[..taken - 1]
    ensures exit == Interrupted ==> var o := emitted[taken - 1];
      Omitted.counts == Plus(old(Omitted.counts), ObjectCell(o), 1)
        && Omitted.bytes == Plus(old(Omitted.bytes), ObjectCell(o), o.size)
    ensures exit != Interrupted ==> output' == output + emitted[..taken]
    ensures exit != Interrupted ==> Omitted.counts == old(Omitted.counts) && Omitted.bytes == old(Omitted.bytes)
    ensures exit == Stopped || exit == Interrupted ==> contextEnds
    ensures exit == ChannelClosed ==> closes && taken == |emitted|
    ensures exit == WaitsForever ==> !contextEnds && !closes && taken == |emitted|
    ensures Follows(s, sub, emitted, taken, exit, trace)
  {
    taken, output', trace := 0, output, [];
    ghost var counts, bytes := Generated.counts, Generated.bytes;
    assert emitted[..0] == [] && Tallied(counts, bytes, counts, bytes, []);
    hide Tallied, Plus, ObjectCell, Follows;
    FollowsFirst(s, sub, emitted);
    while true
      invariant taken <= |emitted| && output' == output + emitted[..taken]
      invariant Tallied(counts, bytes, Generated.counts, Generated.bytes, emitted[..taken])
      invariant Omitted.counts == old(Omitted.counts) && Omitted.bytes == old(Omitted.bytes)
      invariant Follows(s, sub, emitted, taken, Stopped, trace)
      decreases |emitted| - taken
    {
      EndsAlike(s, sub, emitted, taken, trace);
      var contextDone: bool := *;
      if contextEnds && contextDone {
        return Stopped, taken, output', trace;
      }
      if taken == |emitted| {
        // blocks until the channel is closed or the context ends
        contextDone := *;
        exit := if closes && (!contextEnds || contextDone) then ChannelClosed else if contextEnds then Stopped else WaitsForever;
        return exit, taken, output', trace;
      }
      TalliedOne(counts, bytes, Generated.counts, Generated.bytes, emitted, taken);
      PrefixGrows(output, emitted, taken);
      var interrupted;
      interrupted, output', trace := PumpOne(s, sub, emitted, taken, output', Generated, Omitted, contextEnds, trace);
      taken := taken + 1;
      if interrupted {
        return Interrupted, taken, output', trace;
      }
    }
  }

  /** One object: taken, counted as generated, then pushed or omitted. */
  method PumpOne(ghost s: State, sub: SubSection, emitted: seq<Object>, k: nat, output: seq<Object>,
                 Generated: CountersSection, Omitted: CountersSection, contextEnds: bool, ghost trace: seq<Event>)
    returns (interrupted: bool, output': seq<Object>, ghost trace': seq<Event>)
    requires Generated != Omitted && k < |emitted| && emitted[k].sub == sub
    modifies Generated, Omitted
    ensures Generated.counts == Plus(old(Generated.counts), ObjectCell(emitted[k]), 1)
    ensures Generated.bytes == Plus(old(Generated.bytes), ObjectCell(emitted[k]), emitted[k].size)
    ensures interrupted ==> contextEnds
    ensures output' == if interrupted then output else output + [emitted[k]]
    ensures Omitted.counts == if interrupted then Plus(old(Omitted.counts), ObjectCell(emitted[k]), 1) else old(Omitted.counts)
    ensures Omitted.bytes ==
      if interrupted then Plus(old(Omitted.bytes), ObjectCell(emitted[k]), emitted[k].size) else old(Omitted.bytes)
    ensures Follows(s, sub, emitted, k, Stopped, trace) ==>
      Follows(s, sub, emitted, k + 1, if interrupted then Interrupted else Stopped, trace')
  {
    hide Cells, Bytes, Plus, CellOf, AfterPump, CanPump, Leads;
    var o := emitted[k];
    ghost var c := ObjectCell(o);
    if CanPump(s, sub, emitted) && Leads(false, s, trace, AfterPump(s, sub, emitted[..k], Stopped)) {
      PumpSteps(s, sub, emitted, k, trace);
    }
    trace' := trace + [Pull(c)];
    Generated.Increment(o.sub, o.mediaType, o.size);
    trace' := trace' + [CountGenerated(c)];
    interrupted, output' := *, output;
    interrupted := contextEnds && interrupted;
    if interrupted {
      Omitted.Increment(o.sub, o.mediaType, o.size);
      trace' := trace' + [Omit(c)];
      return;
    }
    output' := output' + [o];
    trace' := trace' + [PushOutput(c)];
  }

  lemma FollowsFirst(s: State, sub: SubSection, emitted: seq<Object>)
    ensures Follows(s, sub, emitted, 0, Stopped, [])
  {
    LeadsNowhere(false, s);
    assert emitted[..0] == [] && AfterPump(s, sub, [], Stopped) == s;
  }

  lemma EndsAlike(s: State, sub: SubSection, emitted: seq<Object>, k: nat, trace: seq<Event>)
    requires k <= |emitted| && Follows(s, sub, emitted, k, Stopped, trace)
    ensures forall exit :: exit != Interrupted ==> Follows(s, sub, emitted, k, exit, trace)
  {
    hide Leads;
  }

  /** The steps for object k, with either end. */
  lemma PumpSteps(s: State, sub: SubSection, emitted: seq<Object>, k: nat, trace: seq<Event>)
    requires CanPump(s, sub, emitted) && k < |emitted| && emitted[k].sub == sub
    requires Leads(false, s, trace, AfterPump(s, sub, emitted[..k], Stopped))
    ensures var c := ObjectCell(emitted[k]);
      var counted := trace + [Pull(c)] + [CountGenerated(c)];
      && Leads(false, s, counted + [PushOutput(c)], AfterPump(s, sub, emitted[..k + 1], Stopped))
      && Leads(false, s, counted + [Omit(c)], AfterPump(s, sub, emitted[..k + 1], Interrupted))
  {
    hide Cells, Leads, AfterPump, Pumped, Interruption, ObjectCell;
    TallyOfMore(emitted, k);
    CellsOfPrefix(emitted, k + 1);
    PumpEnds(s, sub, emitted, k);
    var c, done := ObjectCell(emitted[k]), Cells(emitted[..k]);
    assert Cells(emitted[..k + 1]) == done + multiset{c};
    assert c.sub == sub by { CellOfObject(emitted[k]); }
    RoundLeads(s, sub, done, c, trace);
  }

  lemma CellOfObject(o: Object)
    ensures ObjectCell(o).sub == o.sub
  {
  }

  lemma RoundLeads(s: State, sub: SubSection, done: multiset<Cell>, c: Cell, trace: seq<Event>)
    requires PumpOf(s, sub) == Waiting && c.sub == sub && done + multiset{c} <= s.preOutput
    requires Leads(false, s, trace, Pumped(s, done))
    ensures var counted := trace + [Pull(c)] + [CountGenerated(c)];
      && Leads(false, s, counted + [PushOutput(c)], Pumped(s, done + multiset{c}))
      && Leads(false, s, counted + [Omit(c)], Interruption(Pumped(s, done), sub, c))
  {
    hide Leads, Pumped, Apply, Enabled, Interruption;
    var t := Pumped(s, done);
    Taking(s, sub, done, c);
    Ending(s, sub, done, c);
    var t1 := Apply(t, Pull(c));
    var t2 := Apply(t1, CountGenerated(c));
    LeadsOn(false, s, trace, t, Pull(c));
    LeadsOn(false, s, trace + [Pull(c)], t1, CountGenerated(c));
    LeadsOn(false, s, trace + [Pull(c)] + [CountGenerated(c)], t2, PushOutput(c));
    LeadsOn(false, s, trace + [Pull(c)] + [CountGenerated(c)], t2, Omit(c));
  }

  lemma PumpEnds(s: State, sub: SubSection, emitted: seq<Object>, k: nat)
    requires k < |emitted|
    ensures AfterPump(s, sub, emitted[..k], Stopped) == Pumped(s, Cells(emitted[..k]))
    ensures AfterPump(s, sub, emitted[..k + 1], Stopped) == Pumped(s, Cells(emitted[..k + 1]))
    ensures AfterPump(s, sub, emitted[..k + 1], Interrupted) ==
      Interruption(Pumped(s, Cells(emitted[..k])), sub, ObjectCell(emitted[k]))
  {
    assert emitted[..k + 1][..k] == emitted[..k];
    hide Cells, Interruption, Pumped;
  }

  lemma Taking(s: State, sub: SubSection, done: multiset<Cell>, c: Cell)
    requires PumpOf(s, sub) == Waiting && c.sub == sub && done + multiset{c} <= s.preOutput
    ensures var t := Pumped(s, done); var t1 := Apply(t, Pull(c)); var t2 := Apply(t1, CountGenerated(c));
      && Enabled(false, t, Pull(c)) && Enabled(false, t1, CountGenerated(c))
      && t2 == WithPump(t.(preOutput := t.preOutput - multiset{c}, generated := t.generated + multiset{c}), sub, Counted(c))
  {
  }

  lemma Ending(s: State, sub: SubSection, done: multiset<Cell>, c: Cell)
    requires PumpOf(s, sub) == Waiting && c.sub == sub && done + multiset{c} <= s.preOutput
    ensures var t := Pumped(s, done); var t2 := Apply(Apply(t, Pull(c)), CountGenerated(c));
      && Enabled(false, t2, PushOutput(c)) && Enabled(false, t2, Omit(c))
      && Apply(t2, PushOutput(c)) == Pumped(s, done + multiset{c})
      && Apply(t2, Omit(c)) == Interruption(t, sub, c)
  {
    Taking(s, sub, done, c);
    Regroup(s.preOutput, done, c);
    Regroup(s.generated, done, c);
    Regroup(s.outputChan, done, c);
  }

  lemma PrefixGrows<T>(before: seq<T>, xs: seq<T>, i: nat)
    requires i < |xs|
    ensures before + xs[..i] + [xs[i]] == before + xs[..i + 1]
  {
  }
}
