/** The Annex B byte stream splitter, extradata/h264_annexb.go, against the byte stream format
    of section B.1.1 of ITU-T H.264. */
module AnnexB {

  type Byte = x: int | 0 <= x < 256

  // ---- The format ----

  /** A NAL unit with the start code before it: four bytes long or three. */
  datatype Unit = Unit(long: bool, nal: seq<Byte>)

  function StartCode(long: bool): seq<Byte> {
    if long then [0, 0, 0, 1] else [0, 0, 1]
  }

  /** The byte stream of a list of units. */
  function Join(units: seq<Unit>): seq<Byte> {
    if units == [] then [] else StartCode(units[0].long) + units[0].nal + Join(units[1..])
  }

  function Nals(units: seq<Unit>): seq<seq<Byte>> {
    if units == [] then [] else [units[0].nal] + Nals(units[1..])
  }

  function NonEmptyNals(units: seq<Unit>): seq<seq<Byte>> {
    if units == [] then []
    else (if units[0].nal == [] then [] else [units[0].nal]) + NonEmptyNals(units[1..])
  }

  /** No three-byte start code inside. */
  predicate Clean(s: seq<Byte>) {
    forall i :: 0 <= i <= |s| - 3 ==> !ShortAt(s, i)
  }

  predicate EndsInZero(s: seq<Byte>) {
    s != [] && s[|s| - 1] == 0
  }

  /** The bytes before a unit cannot be confused with its start code. */
  predicate Separated(before: seq<Byte>, units: seq<Unit>) {
    units != [] && !units[0].long ==> !EndsInZero(before)
  }

  /** What an encoder that follows the standard writes. */
  predicate Canonical(before: seq<Byte>, units: seq<Unit>)
    decreases |units|
  {
    && Clean(before) && Separated(before, units)
    && (units != [] ==> Canonical(units[0].nal, units[1..]))
  }

  // ---- The scanner ----

  predicate ShortAt(b: seq<Byte>, i: int) {
    0 <= i <= |b| - 3 && b[i] == 0 && b[i + 1] == 0 && b[i + 2] == 1
  }

  predicate LongAt(b: seq<Byte>, i: int) {
    0 <= i <= |b| - 4 && b[i] == 0 && b[i + 1] == 0 && b[i + 2] == 0 && b[i + 3] == 1
  }

  predicate CodeAt(b: seq<Byte>, i: int) { ShortAt(b, i) || LongAt(b, i) }

  function CodeLength(b: seq<Byte>, i: int): nat { if LongAt(b, i) then 4 else 3 }

  /** Where the first start code begins, or the end. */
  function First(b: seq<Byte>): (k: nat)
    ensures k <= |b|
  {
    if b == [] || CodeAt(b, 0) then 0 else 1 + First(b[1..])
  }

  /** Where the next start code begins from a position on, or the end. */
  function NextFrom(b: seq<Byte>, from: nat): (r: nat)
    requires from <= |b|
    ensures from <= r <= |b|
  {
    from + First(b[from..])
  }

  /** Where the NAL unit of the code at a position begins. */
  function NalFrom(b: seq<Byte>, start: nat): (r: nat)
    requires CodeAt(b, start)
    ensures start + 3 <= r <= |b|
  {
    start + CodeLength(b, start)
  }

  /** The bytes from the first start code on. */
  function FromFirst(b: seq<Byte>): (r: seq<Byte>)
    ensures |r| <= |b| && (r == [] || CodeAt(r, 0))
  {
    FirstIsCode(b);
    b[First(b)..]
  }

  /** The units of a stream that begins with a start code. */
  function Units(b: seq<Byte>): seq<Unit>
    requires b == [] || CodeAt(b, 0)
    decreases |b|
  {
    if b == [] then []
    else
      var rest := b[CodeLength(b, 0)..];
      [Unit(LongAt(b, 0), rest[..First(rest)])] + Units(FromFirst(rest))
  }

  function Split(b: seq<Byte>): seq<seq<Byte>> {
    NonEmptyNals(Units(FromFirst(b)))
  }

  /** From a position on, nothing but the end or another code follows any start code. */
  ghost predicate OnlyCodes(b: seq<Byte>, i: nat) {
    forall j :: i <= j < |b| && CodeAt(b, j) ==> NalFrom(b, j) == |b| || CodeAt(b, NalFrom(b, j))
  }

  lemma {:induction false} FirstIsCode(b: seq<Byte>)
    ensures var rest := b[First(b)..]; rest == [] || CodeAt(rest, 0)
  {
    if b != [] && !CodeAt(b, 0) {
      FirstIsCode(b[1..]);
      assert b[1..][First(b[1..])..] == b[First(b)..];
    }
  }

  lemma {:induction false} FirstIsLeast(b: seq<Byte>, i: int)
    requires 0 <= i < First(b)
    ensures !CodeAt(b, i)
  {
    if i > 0 {
      FirstIsLeast(b[1..], i - 1);
    }
  }

  method FindStartCode(b: seq<Byte>, start: nat) returns (r: int)
    requires start <= |b|
    ensures r == if NextFrom(b, start) == |b| then -1 else NextFrom(b, start)
  {
    var n := |b|;
    var i := start;
    while i + 3 <= n
      invariant start <= i <= n
      invariant i - start + First(b[i..]) == First(b[start..])
    {
      if b[i] == 0 && b[i + 1] == 0 {
        if b[i + 2] == 1 {
          return i;
        }
        if i + 4 <= n && b[i + 2] == 0 && b[i + 3] == 1 {
          return i;
        }
      }
      assert b[i..][1..] == b[i + 1..];
      i := i + 1;
    }
    TooShort(b[i..]);
    return -1;
  }

  lemma TooShort(b: seq<Byte>)
    requires |b| < 3
    ensures First(b) == |b|
  {
  }

  /** What the loop has collected, with what is still to come from position i. */
  ghost predicate Collected(b: seq<Byte>, nalus: seq<seq<Byte>>, i: nat)
    requires i <= |b|
  {
    nalus + Split(b[i..]) == Split(b)
  }

  lemma CollectedAtStart(b: seq<Byte>)
    ensures Collected(b, [], 0)
  {
    assert b[0..] == b && [] + Split(b) == Split(b);
  }

  lemma CollectedAtEnd(b: seq<Byte>, nalus: seq<seq<Byte>>, i: nat)
    requires i <= |b| && Collected(b, nalus, i) && NextFrom(b, i) == |b|
    ensures nalus == Split(b)
  {
    SplitNothing(b[i..]);
    assert nalus + [] == nalus;
  }

  function Segment(b: seq<Byte>, from: nat, end: nat): seq<seq<Byte>>
    requires from <= end <= |b|
  {
    if from == end then [] else [b[from..end]]
  }

  lemma CollectedNext(b: seq<Byte>, nalus: seq<seq<Byte>>, i: nat, start: nat)
    requires i <= |b| && Collected(b, nalus, i) && start == NextFrom(b, i) < |b|
    ensures CodeAt(b, start)
    ensures var from := NalFrom(b, start); var end := NextFrom(b, from);
      Collected(b, nalus + Segment(b, from, end), end) && NextFrom(b, |b|) == |b|
  {
    SplitStep(b, i, start);
    hide Split, First, CodeAt, NalFrom, NextFrom;
    var from := NalFrom(b, start);
    var end := NextFrom(b, from);
    Reassociate(nalus, Segment(b, from, end), Split(b[end..]));
  }

  lemma Reassociate<T>(x: seq<T>, y: seq<T>, z: seq<T>)
    ensures x + (y + z) == (x + y) + z
  {
  }

  method SplitAnnexB(b: seq<Byte>) returns (nalus: seq<seq<Byte>>)
    ensures nalus == Split(b)
  {
    nalus := [];
    var n := |b|;
    var i := 0;
    CollectedAtStart(b);
    hide Split, First, CodeAt, Collected, NextFrom;
    while true
      invariant 0 <= i <= n && Collected(b, nalus, i)
      decreases n - i
    {
      var start := FindStartCode(b, i);
      if start < 0 {
        CollectedAtEnd(b, nalus, i);
        return;
      }
      CollectedNext(b, nalus, i, start);
      var scLen := 3;
      if start + 3 < n && b[start] == 0 && b[start + 1] == 0 && b[start + 2] == 0 && b[start + 3] == 1 {
        scLen := 4;
      }
      assert start + scLen == NalFrom(b, start);
      var next := FindStartCode(b, start + scLen);
      var end := n;
      if next >= 0 {
        end := next;
      }
      if start + scLen >= end {
        if next < 0 {
          assert nalus + [] == nalus;
          CollectedAtEnd(b, nalus, n);
          return;
        }
        assert nalus + [] == nalus;
        i := next;
        continue;
      }
      var nalu := b[start + scLen..end];
      if |nalu| > 0 {
        nalus := nalus + [nalu];
      }
      if next < 0 {
        CollectedAtEnd(b, nalus, n);
        return;
      }
      i := next;
    }
  }

  lemma CodeInSuffix(b: seq<Byte>, i: nat)
    requires i <= |b|
    ensures CodeAt(b[i..], 0) == CodeAt(b, i) && LongAt(b[i..], 0) == LongAt(b, i)
  {
  }

  /** A stream that begins with a start code begins at its first start code. */
  lemma FirstOfCode(b: seq<Byte>)
    requires b == [] || CodeAt(b, 0)
    ensures First(b) == 0
  {
  }

  lemma FromFirstIs(b: seq<Byte>)
    ensures FromFirst(b) == b[First(b)..]
  {
  }

  lemma SplitIs(b: seq<Byte>)
    ensures Split(b) == NonEmptyNals(Units(FromFirst(b)))
  {
  }

  lemma SplitOfCode(b: seq<Byte>)
    requires b == [] || CodeAt(b, 0)
    ensures Split(b) == NonEmptyNals(Units(b))
  {
    FirstOfCode(b);
    hide First, Units, CodeAt, NonEmptyNals;
    assert b[0..] == b;
  }

  lemma UnitsStep(b: seq<Byte>)
    requires b != [] && CodeAt(b, 0)
    ensures CodeLength(b, 0) <= |b|
    ensures var rest := b[CodeLength(b, 0)..];
      Units(b) == [Unit(LongAt(b, 0), rest[..First(rest)])] + Units(FromFirst(rest))
  {
    hide First, FromFirst;
  }

  lemma NalInSuffix(b: seq<Byte>, start: nat)
    requires start <= |b| && CodeAt(b, start)
    ensures CodeAt(b[start..], 0) && LongAt(b[start..], 0) == LongAt(b, start)
    ensures NalFrom(b, start) == start + CodeLength(b[start..], 0)
  {
    CodeInSuffix(b, start);
  }

  lemma ConsNonEmpty(u: Unit, more: seq<Unit>)
    ensures NonEmptyNals([u] + more) == (if u.nal == [] then [] else [u.nal]) + NonEmptyNals(more)
  {
    assert ([u] + more)[1..] == more;
  }

  /** One turn of the loop: from the code at `start`, the bytes up to the next code. */
  lemma SplitStep(b: seq<Byte>, i: nat, start: nat)
    requires i <= |b| && start == NextFrom(b, i) < |b|
    ensures CodeAt(b, start)
    ensures var from := NalFrom(b, start); var end := NextFrom(b, from);
      Split(b[i..]) == Segment(b, from, end) + Split(b[end..])
  {
    hide First, CodeAt, LongAt, Units, CodeLength, NonEmptyNals, FromFirst, Split, NalFrom;
    FirstIsCode(b[i..]);
    SliceSlice(b, i, First(b[i..]));
    CodeInSuffix(b, start);
    FromFirstIs(b[i..]);
    SplitIs(b[i..]);
    UnitsFrom(b, start);
  }

  lemma UnitsFrom(b: seq<Byte>, start: nat)
    requires start < |b| && CodeAt(b, start)
    ensures CodeAt(b[start..], 0)
    ensures var from := NalFrom(b, start); var end := NextFrom(b, from);
      NonEmptyNals(Units(b[start..])) == Segment(b, from, end) + Split(b[end..])
  {
    hide First, CodeAt, LongAt, Units, CodeLength, NonEmptyNals, FromFirst, Split, NalFrom;
    NalInSuffix(b, start);
    var t, from := b[start..], NalFrom(b, start);
    UnitsStep(t);
    SliceSlice(b, start, CodeLength(t, 0));
    var rest := b[from..];
    var k := First(rest);
    FirstIsCode(rest);
    FromFirstIs(rest);
    SliceSlice(b, from, k);
    SplitOfCode(b[from + k..]);
    ConsNonEmpty(Unit(LongAt(t, 0), b[from..from + k]), Units(b[from + k..]));
  }

  lemma SliceSlice(b: seq<Byte>, i: nat, k: nat)
    requires i + k <= |b|
    ensures b[i..][k..] == b[i + k..] && b[i..][..k] == b[i..i + k]
  {
  }

  /** Nothing more is found. */
  lemma SplitNothing(b: seq<Byte>)
    requires First(b) == |b|
    ensures Split(b) == []
  {
    assert b[First(b)..] == [];
  }
}
