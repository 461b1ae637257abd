/** The AVCDecoderConfigurationRecord parser, extradata/h264_avcc.go, against the record of
    section 5.3.3.1 of ISO/IEC 14496-15. */
module Avcc {
  import opened Prelude
  import opened AnnexB

  datatype Record = Record(profile: Byte, compatibility: Byte, level: Byte, nalLengthSize: int,
                           sps: seq<seq<Byte>>, pps: seq<seq<Byte>>, trailing: seq<Byte>)

  // ---- The format ----

  predicate ValidNals(xs: seq<seq<Byte>>) {
    forall i :: 0 <= i < |xs| ==> 1 <= |xs[i]| <= 65535
  }

  predicate ValidRecord(r: Record) {
    && 1 <= r.nalLengthSize <= 4
    && |r.sps| <= 31 && |r.pps| <= 255 && ValidNals(r.sps) && ValidNals(r.pps)
  }

  /** Each NAL unit after its length in two bytes, big end first. */
  function NalList(xs: seq<seq<Byte>>): seq<Byte>
    requires ValidNals(xs)
  {
    if xs == [] then []
    else [|xs[0]| / 256, |xs[0]| % 256] + xs[0] + NalList(xs[1..])
  }

  function Serialize(r: Record): seq<Byte>
    requires ValidRecord(r)
  {
    [1, r.profile, r.compatibility, r.level, 0xFC + (r.nalLengthSize - 1), 0xE0 + |r.sps|]
      + (NalList(r.sps) + ([|r.pps|] + (NalList(r.pps) + r.trailing)))
  }

  // ---- The parser ----

  function Declared(b: seq<Byte>, offset: nat): nat
    requires offset + 2 <= |b|
  {
    b[offset] as int * 256 + b[offset + 1]
  }

  /** How many bytes the unit whose length field is at `offset` gets: the field's value, cut
      at the end of the input. */
  function Taken(b: seq<Byte>, offset: nat): nat
    requires offset + 2 <= |b|
  {
    if offset + 2 + Declared(b, offset) > |b| then |b| - (offset + 2) else Declared(b, offset)
  }

  /** Up to n units from an offset on, and the offset after them. */
  function ReadList(b: seq<Byte>, offset: nat, n: nat): (r: (seq<seq<Byte>>, nat))
    requires offset <= |b|
    ensures offset <= r.1 <= |b|
    decreases n
  {
    if n == 0 || offset + 2 > |b| then ([], offset)
    else if Taken(b, offset) == 0 then ([], offset + 2)
    else
      var next := offset + 2 + Taken(b, offset);
      var rest := ReadList(b, next, n - 1);
      ([b[offset + 2..next]] + rest.0, rest.1)
  }

  predicate Accepted(b: seq<Byte>) {
    |b| >= 7 && b[0] == 1 && b[4] / 4 == 0x3F
  }

  function Parse(b: seq<Byte>): Option<Record> {
    if !Accepted(b) then None
    else
      var (sps, o) := ReadList(b, 6, b[5] % 32);
      var (pps, p) := if o == |b| then ([], o) else ReadList(b, o + 1, b[o]);
      Some(Record(b[1], b[2], b[3], b[4] % 4 + 1, sps, pps, b[p..]))
  }

  /** What the loop has read, with what is still to be read, is the whole. */
  ghost predicate Reading(b: seq<Byte>, whole: (seq<seq<Byte>>, nat), nals: seq<seq<Byte>>, offset: nat, n: nat) {
    offset <= |b| && whole.0 == nals + ReadList(b, offset, n).0 && whole.1 == ReadList(b, offset, n).1
  }

  lemma ReadingAtStart(b: seq<Byte>, offset: nat, n: nat)
    requires offset <= |b|
    ensures Reading(b, ReadList(b, offset, n), [], offset, n)
  {
    hide ReadList;
    assert [] + ReadList(b, offset, n).0 == ReadList(b, offset, n).0;
  }

  /** One turn of the loop, or its end. */
  lemma ReadingOn(b: seq<Byte>, whole: (seq<seq<Byte>>, nat), nals: seq<seq<Byte>>, offset: nat, n: nat)
    requires offset <= |b| && Reading(b, whole, nals, offset, n)
    ensures n == 0 || offset + 2 > |b| ==> whole == (nals, offset)
    ensures n > 0 && offset + 2 <= |b| && Taken(b, offset) == 0 ==> whole == (nals, offset + 2)
    ensures n > 0 && offset + 2 <= |b| && Taken(b, offset) > 0 ==>
      var next := offset + 2 + Taken(b, offset); Reading(b, whole, nals + [b[offset + 2..next]], next, n - 1)
  {
    hide ReadList;
    ReadListStep(b, offset, n);
    NothingMore(nals);
    if n > 0 && offset + 2 <= |b| && Taken(b, offset) > 0 {
      var next := offset + 2 + Taken(b, offset);
      AppendFirst(nals, b[offset + 2..next], ReadList(b, next, n - 1).0);
    }
  }

  method ReadNals(b: seq<Byte>, start: nat, n: nat) returns (nals: seq<seq<Byte>>, offset: nat)
    requires start <= |b|
    ensures (nals, offset) == ReadList(b, start, n)
  {
    nals, offset := [], start;
    var i := 0;
    hide ReadList, Reading, Taken, Declared;
    ghost var whole := ReadList(b, start, n);
    ReadingAtStart(b, start, n);
    while i < n && offset + 2 <= |b|
      invariant 0 <= i <= n && start <= offset <= |b|
      invariant Reading(b, whole, nals, offset, n - i)
      decreases n - i
    {
      ReadingOn(b, whole, nals, offset, n - i);
      TakenIs(b, offset);
      var nalLen := b[offset] as int * 256 + b[offset + 1];
      offset := offset + 2;
      if offset >= |b| {
        return;
      }
      if offset + nalLen > |b| {
        nalLen := |b| - offset;
      }
      if nalLen <= 0 {
        return;
      }
      nals := nals + [b[offset..offset + nalLen]];
      offset := offset + nalLen;
      i := i + 1;
    }
    ReadingOn(b, whole, nals, offset, n - i);
  }

  lemma TakenIs(b: seq<Byte>, offset: nat)
    requires offset + 2 <= |b|
    ensures var declared := b[offset] as int * 256 + b[offset + 1];
      Taken(b, offset) == if offset + 2 + declared > |b| then |b| - (offset + 2) else declared
  {
  }

  lemma NothingMore<T>(xs: seq<T>)
    ensures xs + [] == xs
  {
  }

  lemma AppendFirst<T>(xs: seq<T>, x: T, rest: seq<T>)
    ensures xs + ([x] + rest) == xs + [x] + rest
  {
  }

  lemma ReadListStep(b: seq<Byte>, offset: nat, n: nat)
    requires offset <= |b|
    ensures n == 0 || offset + 2 > |b| ==> ReadList(b, offset, n) == ([], offset)
    ensures n > 0 && offset + 2 <= |b| && Taken(b, offset) == 0 ==> ReadList(b, offset, n) == ([], offset + 2)
    ensures n > 0 && offset + 2 <= |b| && Taken(b, offset) > 0 ==>
      ReadList(b, offset, n).0 == [b[offset + 2..offset + 2 + Taken(b, offset)]] + ReadList(b, offset + 2 + Taken(b, offset), n - 1).0
    ensures n > 0 && offset + 2 <= |b| && Taken(b, offset) > 0 ==>
      ReadList(b, offset, n).1 == ReadList(b, offset + 2 + Taken(b, offset), n - 1).1
  {
  }

  method ParseH264AVCC(b: seq<Byte>) returns (cfg: Option<Record>)
    ensures cfg == Parse(b)
  {
    if |b| < 7 {
      return None;
    }
    if b[0] != 1 {
      return None;
    }
    if b[4] - b[4] % 4 != 0xFC {
      return None;
    }
    var sps, offset := ReadNals(b, 6, b[5] % 32);
    if offset >= |b| {
      assert b[offset..] == [];
      return Some(Record(b[1], b[2], b[3], b[4] % 4 + 1, sps, [], []));
    }
    var numPPS := b[offset];
    offset := offset + 1;
    var pps;
    pps, offset := ReadNals(b, offset, numPPS);
    return Some(Record(b[1], b[2], b[3], b[4] % 4 + 1, sps, pps, b[offset..]));
  }

  // ---- Round trip ----

  lemma {:induction false} ReadListOfNalList(b: seq<Byte>, offset: nat, xs: seq<seq<Byte>>)
    requires offset <= |b| && ValidNals(xs) && NalList(xs) <= b[offset..]
    ensures ReadList(b, offset, |xs|) == (xs, offset + |NalList(xs)|)
    decreases |xs|
  {
    hide ReadList, NalList, Taken, Declared;
    ReadListStep(b, offset, |xs|);
    if xs == [] {
      NoNals();
    } else {
      FirstOfList(b, offset, xs);
      ReadListOfNalList(b, offset + 2 + |xs[0]|, xs[1..]);
      hide ValidNals;
      assert xs == [xs[0]] + xs[1..];
    }
  }

  lemma NoNals()
    ensures NalList([]) == []
  {
  }

  /** What a nonempty list begins with, read out of the bytes it is in. */
  lemma FirstOfList(b: seq<Byte>, offset: nat, xs: seq<seq<Byte>>)
    requires offset <= |b| && ValidNals(xs) && xs != [] && NalList(xs) <= b[offset..]
    ensures var next := offset + 2 + |xs[0]|;
      && ValidNals(xs[1..]) && |NalList(xs)| == 2 + |xs[0]| + |NalList(xs[1..])|
      && next <= |b| && Declared(b, offset) == |xs[0]| == Taken(b, offset)
      && b[offset + 2..next] == xs[0] && NalList(xs[1..]) <= b[next..]
  {
    var x, tail := xs[0], NalList(xs[1..]);
    var head: seq<Byte> := [|x| / 256, |x| % 256];
    assert NalList(xs) == head + x + tail;
    hide NalList;
    SlicesOf(b, offset, head, x, tail);
  }

  lemma SlicesOf(b: seq<Byte>, offset: nat, head: seq<Byte>, x: seq<Byte>, tail: seq<Byte>)
    requires offset <= |b| && |head| == 2 && head + x + tail <= b[offset..]
    ensures offset + 2 + |x| <= |b| && b[offset] == head[0] && b[offset + 1] == head[1]
    ensures b[offset + 2..offset + 2 + |x|] == x && tail <= b[offset + 2 + |x|..]
  {
    var all := head + x + tail;
    assert forall i :: 0 <= i < |all| ==> b[offset + i] == all[i];
    assert b[offset + 2 + |x|..][..|tail|] == tail;
  }

  /** Parsing a serialized record gives the record, any trailing bytes included. */
  lemma RoundTrip(r: Record)
    requires ValidRecord(r)
    ensures Parse(Serialize(r)) == Some(r)
  {
    hide NalList, Serialize, Parse, Accepted;
    Serialized(r);
    ParseLists(Serialize(r), r);
  }

  /** Where the parser looks in a serialized record. */
  lemma Serialized(r: Record)
    requires ValidRecord(r)
    ensures var b := Serialize(r);
      && Accepted(b) && b[1] == r.profile && b[2] == r.compatibility && b[3] == r.level
      && b[4] % 4 == r.nalLengthSize - 1 && b[5] == 0xE0 + |r.sps|
      && b[6..] == NalList(r.sps) + ([|r.pps|] + (NalList(r.pps) + r.trailing))
  {
    var b := Serialize(r);
    var header: seq<Byte> := [1, r.profile, r.compatibility, r.level, 0xFC + (r.nalLengthSize - 1), 0xE0 + |r.sps|];
    var lists: seq<Byte> := NalList(r.sps) + ([|r.pps|] + (NalList(r.pps) + r.trailing));
    assert b == header + lists;
    hide NalList, Serialize;
    Drop(header, lists, 6);
    HeaderOf(b, header, lists, r.nalLengthSize - 1, |r.sps|);
  }

  lemma HeaderOf(b: seq<Byte>, header: seq<Byte>, lists: seq<Byte>, size: nat, count: nat)
    requires |header| == 6 && header[0] == 1 && size < 4 && count < 32 && lists != []
    requires header[4] == 0xFC + size && header[5] == 0xE0 + count
    requires b == header + lists
    ensures Accepted(b) && b[1] == header[1] && b[2] == header[2] && b[3] == header[3]
    ensures b[4] % 4 == size && b[5] == header[5]
  {
  }

  lemma ParseLists(b: seq<Byte>, r: Record)
    requires ValidRecord(r) && Accepted(b)
    requires b[1] == r.profile && b[2] == r.compatibility && b[3] == r.level
    requires b[4] % 4 == r.nalLengthSize - 1 && b[5] == 0xE0 + |r.sps|
    requires b[6..] == NalList(r.sps) + ([|r.pps|] + (NalList(r.pps) + r.trailing))
    ensures Parse(b) == Some(r)
  {
    hide NalList, ReadList, Serialize, Parse, ValidNals;
    assert b[5] % 32 == |r.sps|;
    var s, p := NalList(r.sps), NalList(r.pps);
    var o := 6 + |s|;
    Layout(b, s, |r.pps|, p, r.trailing);
    ReadListOfNalList(b, 6, r.sps);
    ReadListOfNalList(b, o + 1, r.pps);
    ParseIs(b, r, o, o + 1 + |p|);
  }

  lemma Layout(b: seq<Byte>, s: seq<Byte>, count: Byte, p: seq<Byte>, trailing: seq<Byte>)
    requires |b| >= 6 && b[6..] == s + ([count] + (p + trailing))
    ensures var o := 6 + |s|;
      && o < |b| && s <= b[6..] && b[o] == count
      && o + 1 + |p| <= |b| && p <= b[o + 1..] && b[o + 1 + |p|..] == trailing
  {
    var one: seq<Byte> := [count];
    CutAt(b, 6, s, one + (p + trailing));
    CutAt(b, 6 + |s|, one, p + trailing);
    CutAt(b, 7 + |s|, p, trailing);
  }

  lemma ParseIs(b: seq<Byte>, r: Record, o: nat, end: nat)
    requires ValidRecord(r) && Accepted(b) && o < |b| && end <= |b|
    requires b[1] == r.profile && b[2] == r.compatibility && b[3] == r.level
    requires b[4] % 4 == r.nalLengthSize - 1 && b[5] % 32 == |r.sps| && b[o] == |r.pps|
    requires ReadList(b, 6, |r.sps|) == (r.sps, o) && ReadList(b, o + 1, |r.pps|) == (r.pps, end)
    requires b[end..] == r.trailing
    ensures Parse(b) == Some(r)
  {
    hide ReadList;
  }

  lemma CutAt(b: seq<Byte>, at: nat, x: seq<Byte>, y: seq<Byte>)
    requires at <= |b| && b[at..] == x + y
    ensures at + |x| <= |b| && x <= b[at..] && b[at + |x|..] == y
    ensures x != [] ==> b[at] == x[0]
  {
    assert forall i :: 0 <= i < |x + y| ==> b[at + i] == (x + y)[i];
  }

  lemma Drop(x: seq<Byte>, y: seq<Byte>, n: nat)
    requires n == |x|
    ensures (x + y)[n..] == y
  {
  }

  // ---- Which bytes are serializations ----

  /** From the offset on there are n units with positive lengths, none cut at the end. */
  predicate WholeList(b: seq<Byte>, offset: nat, n: nat)
    requires offset <= |b|
    decreases n
  {
    n == 0 || (
      && offset + 2 <= |b| && Declared(b, offset) > 0 && offset + 2 + Declared(b, offset) <= |b|
      && WholeList(b, offset + 2 + Declared(b, offset), n - 1))
  }

  /** Reserved bits set, both lists as long as their counts say, and the second count there. */
  predicate WholeRecord(b: seq<Byte>) {
    && Accepted(b) && b[5] / 32 == 7
    && WholeList(b, 6, b[5] % 32)
    && var o := ReadList(b, 6, b[5] % 32).1;
       o < |b| && WholeList(b, o + 1, b[o])
  }

  lemma {:induction false} WholeListIsNalList(b: seq<Byte>, offset: nat, n: nat)
    requires offset <= |b| && WholeList(b, offset, n)
    ensures var (xs, end) := ReadList(b, offset, n);
      |xs| == n && ValidNals(xs) && b[offset..end] == NalList(xs)
    decreases n
  {
    hide ReadList, NalList;
    ReadListStep(b, offset, n);
    if n == 0 {
      NoNals();
    } else {
      var next := offset + 2 + Declared(b, offset);
      WholeListIsNalList(b, next, n - 1);
      var (rest, end) := ReadList(b, next, n - 1);
      LengthBytes(b, offset);
      hide WholeList;
      ConsNalList(b[offset + 2..next], rest);
      hide Declared, Taken, ValidNals;
      Rejoin(b, offset, next, end);
    }
  }

  lemma Rejoin(b: seq<Byte>, offset: nat, next: nat, end: nat)
    requires offset + 2 <= next <= end <= |b|
    ensures b[offset..end] == [b[offset], b[offset + 1]] + b[offset + 2..next] + b[next..end]
  {
  }

  lemma ConsNalList(x: seq<Byte>, rest: seq<seq<Byte>>)
    requires ValidNals(rest) && 1 <= |x| <= 65535
    ensures ValidNals([x] + rest)
    ensures NalList([x] + rest) == [|x| / 256, |x| % 256] + x + NalList(rest)
  {
    assert ([x] + rest)[1..] == rest;
  }

  lemma LengthBytes(b: seq<Byte>, offset: nat)
    requires offset + 2 <= |b|
    ensures Declared(b, offset) <= 65535
    ensures Declared(b, offset) / 256 == b[offset] && Declared(b, offset) % 256 == b[offset + 1]
  {
  }

  lemma {:induction false} NalListIsWhole(b: seq<Byte>, offset: nat, xs: seq<seq<Byte>>)
    requires offset <= |b| && ValidNals(xs) && NalList(xs) <= b[offset..]
    ensures WholeList(b, offset, |xs|)
    decreases |xs|
  {
    if xs != [] {
      FirstOfList(b, offset, xs);
      assert ValidNals(xs[1..]);
      hide NalList;
      NalListIsWhole(b, offset + 2 + |xs[0]|, xs[1..]);
    }
  }

  /** Bytes are the serialization of a valid record if and only if the reserved bits are set, both
      counts are met, and every declared length is positive and not cut at the end. */
  lemma SerializedExactly(b: seq<Byte>)
    ensures (exists r :: ValidRecord(r) && Serialize(r) == b) <==> WholeRecord(b)
  {
    hide Serialize, ValidRecord, WholeRecord;
    if r :| ValidRecord(r) && Serialize(r) == b {
      SerializedIsWhole(r);
    }
    if WholeRecord(b) {
      WholeIsSerialized(b);
    }
  }

  lemma SerializedIsWhole(r: Record)
    requires ValidRecord(r)
    ensures WholeRecord(Serialize(r))
  {
    hide Serialize, NalList, WholeList, ValidNals, ReadList;
    var b := Serialize(r);
    Serialized(r);
    assert b[5] % 32 == |r.sps| && b[5] / 32 == 7;
    var s, p := NalList(r.sps), NalList(r.pps);
    Layout(b, s, |r.pps|, p, r.trailing);
    ReadListOfNalList(b, 6, r.sps);
    NalListIsWhole(b, 6, r.sps);
    NalListIsWhole(b, 7 + |s|, r.pps);
  }

  lemma WholeIsSerialized(b: seq<Byte>)
    requires WholeRecord(b)
    ensures Parse(b).Some? && ValidRecord(Parse(b).value) && Serialize(Parse(b).value) == b
  {
    hide WholeList, ReadList, NalList, ValidNals;
    WholeListIsNalList(b, 6, b[5] % 32);
    var (sps, o) := ReadList(b, 6, b[5] % 32);
    WholeListIsNalList(b, o + 1, b[o]);
    var (pps, p) := ReadList(b, o + 1, b[o]);
    var r := Record(b[1], b[2], b[3], b[4] % 4 + 1, sps, pps, b[p..]);
    assert Parse(b) == Some(r) && ValidRecord(r);
    hide WholeRecord, Parse;
    HeaderBytes(b);
    Pieces(b, o, p);
  }

  lemma HeaderBytes(b: seq<Byte>)
    requires Accepted(b) && b[5] / 32 == 7
    ensures b[0] == 1 && b[4] == 0xFC + b[4] % 4 && b[5] == 0xE0 + b[5] % 32
  {
  }

  lemma Pieces(b: seq<Byte>, o: nat, p: nat)
    requires 6 <= o < o + 1 <= p <= |b|
    ensures b == [b[0], b[1], b[2], b[3], b[4], b[5]] + (b[6..o] + ([b[o]] + (b[o + 1..p] + b[p..])))
  {
    assert b[o..] == [b[o]] + b[o + 1..];
    assert b[o + 1..] == b[o + 1..p] + b[p..];
  }

  // ---- Arbitrary bytes ----

  /** Where unit i of the list begins. */
  function BeginOf(b: seq<Byte>, offset: nat, n: nat, i: nat): nat
    requires offset <= |b| && i < |ReadList(b, offset, n).0|
    decreases n
  {
    if i == 0 then offset + 2
    else BeginOf(b, offset + 2 + Taken(b, offset), n - 1, i - 1)
  }

  /** Whatever the bytes, a unit is a nonempty slice of the input, within it, as long as its
      length field says unless cut at the end. */
  lemma {:induction false} UnitIsSlice(b: seq<Byte>, offset: nat, n: nat, i: nat)
    requires offset <= |b| && i < |ReadList(b, offset, n).0|
    ensures var (xs, end) := ReadList(b, offset, n); var at := BeginOf(b, offset, n, i);
      && offset + 2 <= at && at + |xs[i]| <= end <= |b|
      && xs[i] != [] && xs[i] == b[at..at + |xs[i]|]
      && |xs[i]| == Taken(b, at - 2)
    decreases n
  {
    if i > 0 {
      UnitIsSlice(b, offset + 2 + Taken(b, offset), n - 1, i - 1);
    }
  }

  /** The units follow each other in order, exactly two bytes apart: no overlap, nothing skipped.
      All but the last have the length their field declares. */
  lemma {:induction false} UnitsAreConsecutive(b: seq<Byte>, offset: nat, n: nat, i: nat)
    requires offset <= |b| && i + 1 < |ReadList(b, offset, n).0|
    ensures var (xs, _) := ReadList(b, offset, n); var at := BeginOf(b, offset, n, i);
      && BeginOf(b, offset, n, i + 1) == at + |xs[i]| + 2
      && at >= 2 && at <= |b| && |xs[i]| == Declared(b, at - 2)
    decreases n
  {
    var next := offset + 2 + Taken(b, offset);
    if i > 0 {
      UnitsAreConsecutive(b, next, n - 1, i - 1);
    } else {
      UnitIsSlice(b, next, n - 1, 0);
    }
  }

  /** The units begin at these places: nonempty slices of the bytes from an offset to an end, each
      at least two bytes after the one before. */
  ghost predicate SlicesAt(b: seq<Byte>, xs: seq<seq<Byte>>, at: seq<nat>, offset: nat, end: nat) {
    && |at| == |xs| && end <= |b|
    && (forall i :: 0 <= i < |xs| ==> offset + 2 <= at[i] && at[i] + |xs[i]| <= end)
    && (forall i :: 0 <= i < |xs| ==> xs[i] != [] && xs[i] == b[at[i]..at[i] + |xs[i]|])
    && (forall i, j :: 0 <= i < j < |xs| ==> at[i] + |xs[i]| + 2 <= at[j])
  }

  lemma {:induction false} ListSlices(b: seq<Byte>, offset: nat, n: nat) returns (at: seq<nat>)
    requires offset <= |b|
    ensures SlicesAt(b, ReadList(b, offset, n).0, at, offset, ReadList(b, offset, n).1)
    decreases n
  {
    hide ReadList;
    at := [];
    ReadListStep(b, offset, n);
    if n > 0 && offset + 2 <= |b| && Taken(b, offset) > 0 {
      var next := offset + 2 + Taken(b, offset);
      at := ListSlices(b, next, n - 1);
      var (rest, end) := ReadList(b, next, n - 1);
      hide SlicesAt, Taken;
      FirstSlice(b, b[offset + 2..next], rest, at, offset, next, end);
      at := [offset + 2] + at;
    }
  }

  lemma FirstSlice(b: seq<Byte>, x: seq<Byte>, rest: seq<seq<Byte>>, at: seq<nat>, offset: nat, next: nat, end: nat)
    requires offset + 2 < next <= end && SlicesAt(b, rest, at, next, end) && x == b[offset + 2..next]
    ensures SlicesAt(b, [x] + rest, [offset + 2] + at, offset, end)
  {
  }

  lemma SlicesThen(b: seq<Byte>, xs: seq<seq<Byte>>, at: seq<nat>, offset: nat, mid: nat,
                   ys: seq<seq<Byte>>, at': seq<nat>, mid': nat, end: nat)
    requires SlicesAt(b, xs, at, offset, mid) && SlicesAt(b, ys, at', mid', end) && offset <= mid <= mid' <= end
    ensures SlicesAt(b, xs + ys, at + at', offset, end)
  {
    var zs, ats, n := xs + ys, at + at', |xs|;
    forall i | 0 <= i < |zs|
      ensures offset + 2 <= ats[i] && ats[i] + |zs[i]| <= end && zs[i] != [] && zs[i] == b[ats[i]..ats[i] + |zs[i]|]
    {
      if i < n {
        assert zs[i] == xs[i] && ats[i] == at[i];
      } else {
        assert zs[i] == ys[i - n] && ats[i] == at'[i - n];
      }
    }
    forall i, j | 0 <= i < j < |zs| ensures ats[i] + |zs[i]| + 2 <= ats[j] {
      if j < n {
        assert zs[i] == xs[i] && ats[i] == at[i] && ats[j] == at[j];
      } else if i < n {
        assert zs[i] == xs[i] && ats[i] == at[i] && ats[j] == at'[j - n];
      } else {
        assert zs[i] == ys[i - n] && ats[i] == at'[i - n] && ats[j] == at'[j - n];
      }
    }
  }

  /** Whatever bytes are accepted: all SPS, then all PPS, are nonempty slices of them in order and
      without overlap, and the trailing bytes are what follows. */
  lemma ParsedUnits(b: seq<Byte>) returns (at: seq<nat>, end: nat)
    requires Parse(b).Some?
    ensures var r := Parse(b).value;
      end <= |b| && SlicesAt(b, r.sps + r.pps, at, 6, end) && r.trailing == b[end..]
  {
    hide ReadList;
    var (sps, o) := ReadList(b, 6, b[5] % 32);
    at := ListSlices(b, 6, b[5] % 32);
    end := o;
    if o == |b| {
      assert sps + [] == sps;
    } else {
      var (pps, p) := ReadList(b, o + 1, b[o]);
      var more := ListSlices(b, o + 1, b[o]);
      assert Parse(b).value.sps == sps && Parse(b).value.pps == pps && Parse(b).value.trailing == b[p..];
      hide Parse;
      SlicesThen(b, sps, at, 6, o, pps, more, o + 1, p);
      at, end := at + more, p;
    }
  }
}
