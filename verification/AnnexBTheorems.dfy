/** The splitter undoes the byte stream format, and what it does on arbitrary bytes. */
module AnnexBTheorems {
  import opened AnnexB

  lemma {:induction false} CleanHasNoCode(p: seq<Byte>)
    requires Clean(p)
    ensures First(p) == |p|
  {
    if p != [] {
      assert !ShortAt(p, 0) && !LongAt(p, 0) by {
        if LongAt(p, 0) { assert ShortAt(p, 1); }
      }
      CleanTail(p);
      CleanHasNoCode(p[1..]);
    }
  }

  lemma CleanTail(p: seq<Byte>)
    requires p != [] && Clean(p)
    ensures Clean(p[1..])
  {
    forall i | 0 <= i <= |p[1..]| - 3 ensures !ShortAt(p[1..], i) {
      assert !ShortAt(p, i + 1);
    }
  }

  /** The first start code after bytes that contain none and do not run into it. */
  lemma {:induction false} FirstAfter(p: seq<Byte>, long: bool, rest: seq<Byte>)
    requires Clean(p) && (long || !EndsInZero(p))
    ensures First(p + (StartCode(long) + rest)) == |p|
  {
    var b := p + (StartCode(long) + rest);
    if p == [] {
      assert b == StartCode(long) + rest;
      assert CodeAt(b, 0);
    } else {
      assert !CodeAt(b, 0) by { NoCodeYet(p, long, rest); }
      CleanTail(p);
      FirstAfter(p[1..], long, rest);
      assert b[1..] == p[1..] + (StartCode(long) + rest);
    }
  }

  lemma NoCodeYet(p: seq<Byte>, long: bool, rest: seq<Byte>)
    requires p != [] && Clean(p) && (long || !EndsInZero(p))
    ensures !CodeAt(p + (StartCode(long) + rest), 0)
  {
    var b := p + (StartCode(long) + rest);
    assert forall i :: 0 <= i < |p| ==> b[i] == p[i];
    assert b[|p|] == 0 && b[|p| + 1] == 0;
    if |p| >= 3 {
      assert !ShortAt(p, 0);
      if |p| >= 4 { assert !ShortAt(p, 1); }
    }
  }

  /** After a prefix, the stream of the units is found, and read as these units. */
  ghost predicate ReadsAs(p: seq<Byte>, units: seq<Unit>) {
    var b, j := p + Join(units), Join(units);
    First(b) == |p| && b[|p|..] == j && (j == [] || CodeAt(j, 0)) && Units(j) == units
  }

  /** Parsing the stream of a canonical list gives back the list. */
  lemma {:induction false} UnitsOfJoin(p: seq<Byte>, units: seq<Unit>)
    requires Canonical(p, units)
    ensures ReadsAs(p, units)
    decreases |units|
  {
    hide ReadsAs, Clean, EndsInZero;
    if units == [] {
      NothingAfter(p);
    } else {
      CanonicalParts(p, units);
      UnitsOfJoin(units[0].nal, units[1..]);
      hide Canonical;
      UnitBefore(p, units[0], units[1..]);
      assert units == [units[0]] + units[1..];
    }
  }

  lemma NothingAfter(p: seq<Byte>)
    requires Clean(p)
    ensures ReadsAs(p, [])
  {
    CleanHasNoCode(p);
    assert p + Join([]) == p;
    hide First;
  }

  lemma UnitBefore(p: seq<Byte>, u: Unit, more: seq<Unit>)
    requires Clean(p) && (u.long || !EndsInZero(p)) && ReadsAs(u.nal, more)
    ensures ReadsAs(p, [u] + more)
  {
    hide Clean, EndsInZero, First, CodeAt, Units, Join;
    var rest := u.nal + Join(more);
    FirstAfter(p, u.long, rest);
    JoinCons(u, more);
    FirstUnit(u, rest, Join(more));
    DropPrefix(p, StartCode(u.long) + rest);
  }

  lemma DropPrefix(p: seq<Byte>, j: seq<Byte>)
    ensures (p + j)[|p|..] == j
  {
  }

  lemma CanonicalParts(p: seq<Byte>, units: seq<Unit>)
    requires Canonical(p, units) && units != []
    ensures Clean(p) && (units[0].long || !EndsInZero(p)) && Canonical(units[0].nal, units[1..])
  {
  }

  lemma FirstUnit(u: Unit, rest: seq<Byte>, after: seq<Byte>)
    requires rest == u.nal + after && First(rest) == |u.nal| && (after == [] || CodeAt(after, 0))
    ensures CodeAt(StartCode(u.long) + rest, 0)
    ensures Units(StartCode(u.long) + rest) == [u] + Units(after)
  {
    CodeThenRest(u.long, rest);
    assert rest[..|u.nal|] == u.nal && rest[|u.nal|..] == after;
    hide Units, First, FromFirst, CodeAt, LongAt, CodeLength;
    FromFirstIs(rest);
    UnitsStep(StartCode(u.long) + rest);
  }

  lemma CodeThenRest(long: bool, rest: seq<Byte>)
    ensures var j := StartCode(long) + rest;
      CodeAt(j, 0) && LongAt(j, 0) == long && CodeLength(j, 0) <= |j| && j[CodeLength(j, 0)..] == rest
  {
  }

  /** Round trip: for any units without an embedded start code, joined by any mix of three- and
      four-byte codes such that no unit before a three-byte code ends in 00. */
  lemma SplitUndoesJoin(units: seq<Unit>)
    requires Canonical([], units)
    ensures Split(Join(units)) == NonEmptyNals(units)
    ensures (forall i :: 0 <= i < |units| ==> units[i].nal != []) ==> Split(Join(units)) == Nals(units)
  {
    hide First, Units, Join, Canonical, CodeAt, Split, FromFirst;
    UnitsOfJoin([], units);
    var j := Join(units);
    assert [] + j == j && j[0..] == j;
    FromFirstIs(j);
    SplitIs(j);
    if forall i :: 0 <= i < |units| ==> units[i].nal != [] {
      NoEmptyNals(units);
    }
  }

  lemma {:induction false} NoEmptyNals(units: seq<Unit>)
    requires forall i :: 0 <= i < |units| ==> units[i].nal != []
    ensures NonEmptyNals(units) == Nals(units)
  {
    if units != [] {
      assert forall i :: 0 <= i < |units[1..]| ==> units[1..][i] == units[i + 1];
      NoEmptyNals(units[1..]);
    }
  }

  // ---- Arbitrary bytes ----

  lemma PrefixIsClean(b: seq<Byte>)
    ensures Clean(b[..First(b)])
  {
    var p := b[..First(b)];
    forall i | 0 <= i <= |p| - 3 ensures !ShortAt(p, i) {
      FirstIsLeast(b, i);
    }
  }

  lemma PrefixIsSeparated(b: seq<Byte>)
    requires First(b) < |b|
    ensures CodeAt(b, First(b)) && (LongAt(b, First(b)) || !EndsInZero(b[..First(b)]))
  {
    var k := First(b);
    FirstIsCode(b);
    assert CodeAt(b[k..], 0);
    CodeInSuffix(b, k);
    if k > 0 {
      FirstIsLeast(b, k - 1);
    }
  }

  /** Any bytes are a prefix without a start code, then start codes and segments in turn, and
      the segments are cut as a standard encoder would have meant them. */
  lemma {:induction false} Decomposition(b: seq<Byte>)
    ensures var k := First(b); var rest := b[k..];
      && (rest == [] || CodeAt(rest, 0))
      && b == b[..k] + Join(Units(rest)) && Canonical(b[..k], Units(rest))
    decreases |b|
  {
    var k := First(b);
    var rest := b[k..];
    FirstIsCode(b);
    PrefixIsClean(b);
    assert b == b[..k] + rest;
    if rest != [] {
      PrefixIsSeparated(b);
      CodeInSuffix(b, k);
      hide First, Clean, CodeAt, EndsInZero, Units;
      DecomposeUnits(b, rest, k);
    }
  }

  lemma {:induction false} DecomposeUnits(b: seq<Byte>, rest: seq<Byte>, k: nat)
    requires k < |b| && rest == b[k..] && CodeAt(rest, 0)
    requires Clean(b[..k]) && (LongAt(rest, 0) || !EndsInZero(b[..k]))
    ensures Join(Units(rest)) == rest && Canonical(b[..k], Units(rest))
    decreases |b| - k, 0
  {
    var n := CodeLength(rest, 0);
    var long := LongAt(rest, 0);
    var tail := rest[n..];
    Decomposition(tail);
    assert rest == StartCode(long) + tail by { StartCodeIs(rest); }
    FirstIsCode(tail);
    var f := First(tail);
    var more := Units(tail[f..]);
    var u := Unit(long, tail[..f]);
    assert Units(rest) == [u] + more;
    hide First, Clean, CodeAt, EndsInZero, Units, Canonical, Join, LongAt, CodeLength;
    ConsCanonical(b[..k], u, more);
  }

  lemma ConsCanonical(before: seq<Byte>, u: Unit, more: seq<Unit>)
    requires Clean(before) && (u.long || !EndsInZero(before)) && Canonical(u.nal, more)
    ensures Canonical(before, [u] + more)
    ensures Join([u] + more) == StartCode(u.long) + (u.nal + Join(more))
  {
    assert ([u] + more)[1..] == more;
    assert StartCode(u.long) + u.nal + Join(more) == StartCode(u.long) + (u.nal + Join(more));
  }

  lemma StartCodeIs(rest: seq<Byte>)
    requires CodeAt(rest, 0)
    ensures CodeLength(rest, 0) <= |rest| && rest == StartCode(LongAt(rest, 0)) + rest[CodeLength(rest, 0)..]
  {
  }

  lemma {:induction false} CanonicalIsClean(before: seq<Byte>, units: seq<Unit>, i: nat)
    requires Canonical(before, units) && i < |units|
    ensures Clean(units[i].nal)
    decreases |units|
  {
    if i > 0 {
      CanonicalIsClean(units[0].nal, units[1..], i - 1);
    }
  }

  lemma {:induction false} NonEmptyNalsAre(units: seq<Unit>, k: nat)
    requires k < |NonEmptyNals(units)|
    ensures NonEmptyNals(units)[k] != [] && exists i :: 0 <= i < |units| && units[i].nal == NonEmptyNals(units)[k]
  {
    var rest := units[1..];
    var head := if units[0].nal == [] then 0 else 1;
    if k >= head {
      NonEmptyNalsAre(rest, k - head);
      var i :| 0 <= i < |rest| && rest[i].nal == NonEmptyNals(rest)[k - head];
      assert units[i + 1].nal == NonEmptyNals(units)[k];
    } else {
      assert units[0].nal == NonEmptyNals(units)[k];
    }
  }

  /** Whatever the bytes: no segment that comes out is empty or holds a start code. */
  lemma SegmentsAreNals(b: seq<Byte>, k: nat)
    requires k < |Split(b)|
    ensures Split(b)[k] != [] && Clean(Split(b)[k])
  {
    Decomposition(b);
    var f := First(b);
    var units := Units(b[f..]);
    hide First, Clean, CodeAt, Units, Canonical;
    NonEmptyNalsAre(units, k);
    var i :| 0 <= i < |units| && units[i].nal == NonEmptyNals(units)[k];
    CanonicalIsClean(b[..f], units, i);
  }

  /** The cut is the only canonical one: two canonical readings of the same bytes are equal. */
  lemma CanonicalReadingIsUnique(p: seq<Byte>, units: seq<Unit>, q: seq<Byte>, others: seq<Unit>)
    requires Canonical(p, units) && Canonical(q, others) && p + Join(units) == q + Join(others)
    ensures p == q && units == others
  {
    hide First, Units, Join, CodeAt, Canonical;
    UnitsOfJoin(p, units);
    UnitsOfJoin(q, others);
    var b := p + Join(units);
    assert p == b[..|p|] && q == b[..|q|];
  }

  // ---- Exactly when the round trip holds ----

  predicate AllClean(units: seq<Unit>) {
    forall i :: 0 <= i < |units| ==> Clean(units[i].nal)
  }

  /** A zero at the end of a unit before a three-byte code is read as part of that code. */
  function Canon(units: seq<Unit>): (r: seq<Unit>)
    ensures |r| == |units|
    decreases |units|
  {
    if |units| <= 1 then units
    else if !units[1].long && EndsInZero(units[0].nal) then
      [Unit(units[0].long, units[0].nal[..|units[0].nal| - 1])] + Canon([Unit(true, units[1].nal)] + units[2..])
    else [units[0]] + Canon(units[1..])
  }

  function Total(segments: seq<seq<Byte>>): nat {
    if segments == [] then 0 else |segments[0]| + Total(segments[1..])
  }

  lemma CleanPrefix(s: seq<Byte>, n: nat)
    requires Clean(s) && n <= |s|
    ensures Clean(s[..n])
  {
    forall i | 0 <= i <= n - 3 ensures !ShortAt(s[..n], i) {
      assert !ShortAt(s, i);
    }
  }

  lemma MoveZero(u: Unit, v: Unit, rest: seq<Unit>)
    requires !v.long && EndsInZero(u.nal)
    ensures Join([u] + ([v] + rest)) ==
      Join([Unit(u.long, u.nal[..|u.nal| - 1])] + ([Unit(true, v.nal)] + rest))
  {
    hide Join;
    var n := |u.nal| - 1;
    var u', v' := Unit(u.long, u.nal[..n]), Unit(true, v.nal);
    JoinCons(u, [v] + rest);
    JoinCons(v, rest);
    JoinCons(u', [v'] + rest);
    JoinCons(v', rest);
    assert u.nal == u.nal[..n] + [0];
    ZeroMoves(u.nal[..n], v.nal + Join(rest));
  }

  lemma ZeroMoves(p: seq<Byte>, tail: seq<Byte>)
    ensures (p + [0]) + (StartCode(false) + tail) == p + (StartCode(true) + tail)
  {
  }

  lemma JoinCons(u: Unit, rest: seq<Unit>)
    ensures Join([u] + rest) == StartCode(u.long) + (u.nal + Join(rest))
  {
    assert ([u] + rest)[1..] == rest;
    assert StartCode(u.long) + u.nal + Join(rest) == StartCode(u.long) + (u.nal + Join(rest));
  }

  lemma {:induction false} CanonKeepsBytes(units: seq<Unit>)
    ensures Join(Canon(units)) == Join(units)
    decreases |units|
  {
    if |units| >= 2 {
      var u, v, rest := units[0], units[1], units[2..];
      assert units == [u] + ([v] + rest) && units[1..] == [v] + rest;
      if !v.long && EndsInZero(u.nal) {
        var moved := [Unit(true, v.nal)] + rest;
        CanonKeepsBytes(moved);
        MoveZero(u, v, rest);
        JoinCons(Unit(u.long, u.nal[..|u.nal| - 1]), Canon(moved));
        JoinCons(Unit(u.long, u.nal[..|u.nal| - 1]), moved);
      } else {
        CanonKeepsBytes(units[1..]);
        JoinCons(u, Canon(units[1..]));
        JoinCons(u, units[1..]);
      }
    }
  }

  lemma {:induction false} CanonIsCanonical(before: seq<Byte>, units: seq<Unit>)
    requires Clean(before) && Separated(before, units) && AllClean(units)
    ensures Canonical(before, Canon(units))
    decreases |units|
  {
    if |units| >= 2 {
      var u, v := units[0], units[1];
      assert Clean(u.nal) && Clean(v.nal);
      if !v.long && EndsInZero(u.nal) {
        var moved := [Unit(true, v.nal)] + units[2..];
        assert AllClean(moved);
        CleanPrefix(u.nal, |u.nal| - 1);
        CanonIsCanonical(u.nal[..|u.nal| - 1], moved);
        assert Canon(units)[1..] == Canon(moved);
      } else {
        assert AllClean(units[1..]);
        CanonIsCanonical(u.nal, units[1..]);
        assert Canon(units)[1..] == Canon(units[1..]);
      }
    } else if |units| == 1 {
      assert Clean(units[0].nal);
    }
  }

  /** What the splitter makes of any units without an embedded start code. */
  lemma SplitOfJoin(units: seq<Unit>)
    requires AllClean(units)
    ensures Split(Join(units)) == NonEmptyNals(Canon(units))
  {
    CanonIsCanonical([], units);
    CanonKeepsBytes(units);
    SplitUndoesJoin(Canon(units));
  }

  /** No unit before a three-byte code ends in 00. */
  predicate AllSeparated(units: seq<Unit>) {
    forall i :: 0 <= i < |units| - 1 && !units[i + 1].long ==> !EndsInZero(units[i].nal)
  }

  lemma TotalCons(u: Unit, rest: seq<Unit>)
    ensures Total(Nals([u] + rest)) == |u.nal| + Total(Nals(rest))
    ensures Total(NonEmptyNals([u] + rest)) == |u.nal| + Total(NonEmptyNals(rest))
  {
    assert ([u] + rest)[1..] == rest;
    assert ([u.nal] + Nals(rest))[1..] == Nals(rest);
    assert ([u.nal] + NonEmptyNals(rest))[1..] == NonEmptyNals(rest);
    assert [] + NonEmptyNals(rest) == NonEmptyNals(rest);
  }

  lemma SeparatedTail(units: seq<Unit>)
    requires |units| >= 2 && (units[1].long || !EndsInZero(units[0].nal)) && AllSeparated(units[1..])
    ensures AllSeparated(units)
  {
    forall i | 0 <= i < |units| - 1 && !units[i + 1].long ensures !EndsInZero(units[i].nal) {
      if i > 0 {
        assert units[1..][i - 1] == units[i] && units[1..][i] == units[i + 1];
        assert !units[1..][i - 1 + 1].long;
      }
    }
  }

  lemma {:induction false} CanonShrinks(units: seq<Unit>)
    ensures Total(NonEmptyNals(Canon(units))) <= Total(Nals(units))
    ensures !AllSeparated(units) ==> Total(NonEmptyNals(Canon(units))) < Total(Nals(units))
    decreases |units|
  {
    if |units| == 0 {
    } else if |units| == 1 {
      TotalCons(units[0], []);
      assert units == [units[0]] + [];
    } else {
      var u, v, rest := units[0], units[1], units[2..];
      assert units == [u] + units[1..] && units[1..] == [v] + rest;
      TotalCons(u, units[1..]);
      if !v.long && EndsInZero(u.nal) {
        var v' := Unit(true, v.nal);
        CanonShrinks([v'] + rest);
        hide AllSeparated, Canon, Total, Nals, NonEmptyNals;
        MovedZero(units, u, v, rest);
        TotalCons(v, rest);
        TotalCons(v', rest);
        TotalCons(Unit(u.long, u.nal[..|u.nal| - 1]), Canon([v'] + rest));
      } else {
        CanonShrinks(units[1..]);
        TotalCons(u, Canon(units[1..]));
        if AllSeparated(units[1..]) {
          SeparatedTail(units);
        }
        hide AllSeparated, Total, Nals, NonEmptyNals;
      }
    }
  }

  lemma MovedZero(units: seq<Unit>, u: Unit, v: Unit, rest: seq<Unit>)
    requires units == [u] + ([v] + rest) && !v.long && EndsInZero(u.nal)
    ensures Canon(units) == [Unit(u.long, u.nal[..|u.nal| - 1])] + Canon([Unit(true, v.nal)] + rest)
  {
    assert units[2..] == rest;
  }

  lemma {:induction false} NalsAt(units: seq<Unit>, i: nat)
    requires i < |units|
    ensures |Nals(units)| == |units| && Nals(units)[i] == units[i].nal
  {
    if i > 0 {
      NalsAt(units[1..], i - 1);
    } else if |units| > 1 {
      NalsAt(units[1..], 0);
    }
  }

  /** For nonempty units the round trip holds if and only if no unit holds a start code and none
      before a three-byte code ends in 00. */
  lemma RoundTripExactly(units: seq<Unit>)
    requires forall i :: 0 <= i < |units| ==> units[i].nal != []
    ensures Split(Join(units)) == Nals(units) <==> AllClean(units) && AllSeparated(units)
  {
    hide Split, Canonical, Clean;
    if AllClean(units) {
      SplitOfJoin(units);
      CanonShrinks(units);
      if AllSeparated(units) {
        CanonUnchanged(units);
        NoEmptyNals(units);
      }
    } else {
      var i :| 0 <= i < |units| && !Clean(units[i].nal);
      NalsAt(units, i);
      if Split(Join(units)) == Nals(units) {
        SegmentsAreNals(Join(units), i);
      }
    }
  }

  lemma {:induction false} CanonUnchanged(units: seq<Unit>)
    requires AllSeparated(units)
    ensures Canon(units) == units
    decreases |units|
  {
    if |units| >= 2 {
      var rest := units[1..];
      assert !(!units[0 + 1].long && EndsInZero(units[0].nal));
      assert AllSeparated(rest) by {
        assert forall i :: 0 <= i < |rest| ==> rest[i] == units[i + 1];
      }
      CanonUnchanged(rest);
      assert units == [units[0]] + rest;
    }
  }

  // ---- Nothing to be found ----

  lemma {:induction false} OnlyCodesExactly(b: seq<Byte>, i: nat)
    requires i <= |b|
    ensures Split(b[i..]) == [] <==> OnlyCodes(b, i)
    decreases |b| - i
  {
    hide Split, First, NextFrom, CodeAt, NalFrom, OnlyCodes;
    var start := NextFrom(b, i);
    if start == |b| {
      NoCodes(b, i);
    } else {
      SplitStep(b, i, start);
      var from := NalFrom(b, start);
      var end := NextFrom(b, from);
      OnlyCodesExactly(b, end);
      CodesFrom(b, i, start);
    }
  }

  lemma NoCodes(b: seq<Byte>, i: nat)
    requires i <= |b| && NextFrom(b, i) == |b|
    ensures Split(b[i..]) == [] && OnlyCodes(b, i)
  {
    SplitNothing(b[i..]);
    forall j | i <= j < |b| ensures !CodeAt(b, j) {
      NotBeforeNext(b, i, j);
    }
    hide First;
  }

  lemma NotBeforeNext(b: seq<Byte>, i: nat, j: nat)
    requires i <= |b| && i <= j < NextFrom(b, i)
    ensures !CodeAt(b, j)
  {
    FirstIsLeast(b[i..], j - i);
    hide First;
    assert b[i..][j - i..] == b[j..];
    CodeInSuffix(b[i..], j - i);
    CodeInSuffix(b, j);
  }

  lemma CodesFrom(b: seq<Byte>, i: nat, start: nat)
    requires i <= |b| && start == NextFrom(b, i) < |b| && CodeAt(b, start)
    ensures var from := NalFrom(b, start); var end := NextFrom(b, from);
      OnlyCodes(b, i) <==> from == end && OnlyCodes(b, end)
  {
    var from := NalFrom(b, start);
    var end := NextFrom(b, from);
    forall j | i <= j < start ensures !CodeAt(b, j) {
      NotBeforeNext(b, i, j);
    }
    forall j | from <= j < end ensures !CodeAt(b, j) {
      NotBeforeNext(b, from, j);
    }
    NextIsCode(b, from);
    hide NextFrom, First;
    forall j | start <= j < from && CodeAt(b, j) ensures NalFrom(b, j) == from {
    }
  }

  lemma NextIsCode(b: seq<Byte>, from: nat)
    requires from <= |b|
    ensures NextFrom(b, from) == |b| || CodeAt(b, NextFrom(b, from))
    ensures from < |b| && CodeAt(b, from) ==> NextFrom(b, from) == from
  {
    FirstIsCode(b[from..]);
    SliceSlice(b, from, First(b[from..]));
    CodeInSuffix(b, NextFrom(b, from));
    CodeInSuffix(b, from);
    if from < |b| && CodeAt(b, from) {
      FirstOfCode(b[from..]);
    }
  }

  /** Nothing is found in bytes if and only if each start code in them is at their end or right
      before the next one. */
  lemma SplitsToNothingExactly(b: seq<Byte>)
    ensures Split(b) == [] <==> OnlyCodes(b, 0)
  {
    OnlyCodesExactly(b, 0);
    hide Split, OnlyCodes;
    assert b[0..] == b;
  }
}
