/** The detector of extradata formats, extradata/extra_data.go, with its two bit-field parsers
    aac_asc.go and av1c.go. Shifts and masks of bytes are quotients and remainders. */
module Extradata {
  import opened Prelude
  import opened AnnexB
  import AnnexBTheorems
  import Avcc

  // ---- H.264 Annex B ----

  datatype Nalu = Nalu(raw: seq<Byte>, typ: int, nri: int)

  function NaluOf(raw: seq<Byte>): Nalu
    requires raw != []
  {
    Nalu(raw, raw[0] % 32, (raw[0] / 32) % 4)
  }

  method ParseH264AnnexB(b: seq<Byte>) returns (nalus: Option<seq<Nalu>>)
    ensures nalus.None? <==> Split(b) == []
    ensures nalus.Some? ==> |nalus.value| == |Split(b)|
    ensures nalus.Some? ==>
      forall k :: 0 <= k < |Split(b)| ==> Split(b)[k] != [] && nalus.value[k] == NaluOf(Split(b)[k])
  {
    var naluBytes := SplitAnnexB(b);
    if |naluBytes| == 0 {
      return None;
    }
    var parsed := [];
    hide Split;
    for i := 0 to |naluBytes|
      invariant |parsed| == i
      invariant forall k :: 0 <= k < i ==> Split(b)[k] != [] && parsed[k] == NaluOf(Split(b)[k])
    {
      AnnexBTheorems.SegmentsAreNals(b, i);
      if |naluBytes[i]| == 0 {
        continue;
      }
      parsed := parsed + [NaluOf(naluBytes[i])];
    }
    if |parsed| == 0 {
      return None;
    }
    return Some(parsed);
  }

  /** Section 7.3.1 of H.264: a forbidden bit, two bits of importance and five of type make up
      the first byte of a unit. They are read back, whatever the bit and the payload. */
  lemma NaluReadsBack(forbidden: nat, nri: nat, typ: nat, payload: seq<Byte>)
    requires forbidden < 2 && nri < 4 && typ < 32
    ensures var raw := [forbidden * 128 + nri * 32 + typ] + payload;
      NaluOf(raw).raw == raw && NaluOf(raw).typ == typ && NaluOf(raw).nri == nri
  {
    var h := forbidden * 128 + nri * 32 + typ;
    var top := forbidden * 4 + nri;
    assert h == top * 32 + typ;
    assert h / 32 == top;
  }

  // ---- MPEG-4 AudioSpecificConfig ----

  datatype Asc = Asc(objectType: int, rateIndex: int, sampleRate: int, channels: int)

  const RATES: seq<int> := [96000, 88200, 64000, 48000, 44100, 32000, 24000, 22050, 16000, 12000, 11025, 8000, 7350]

  predicate ObjectTypeAccepted(aot: int) { 1 <= aot <= 4 || aot == 5 || aot == 17 }

  predicate RateAccepted(index: int) { index <= 12 || index == 15 }

  function ParseAsc(b: seq<Byte>): Option<Asc> {
    if |b| < 2 then None else AscOf(b[0] as int * 256 + b[1])
  }

  function AscOf(v: nat): Option<Asc> {
    var aot, sfi, ch := (v / 2048) % 32, (v / 128) % 16, (v / 8) % 16;
    if !ObjectTypeAccepted(aot) || !RateAccepted(sfi) then None
    else Some(Asc(aot, sfi, if sfi == 15 then 0 else RATES[sfi], ch))
  }

  /** Five bits, four bits, four bits, from the top, and what follows. */
  function AscBytes(aot: nat, sfi: nat, ch: nat, low: nat): seq<Byte>
    requires aot < 32 && sfi < 16 && ch < 16 && low < 8
  {
    [aot * 8 + sfi / 2, (sfi % 2) * 128 + ch * 8 + low]
  }

  lemma AscRoundTrip(aot: nat, sfi: nat, ch: nat, low: nat, more: seq<Byte>)
    requires aot < 32 && sfi < 16 && ch < 16 && low < 8
    requires ObjectTypeAccepted(aot) && RateAccepted(sfi)
    ensures var r := ParseAsc(AscBytes(aot, sfi, ch, low) + more);
      && r.Some? && r.value.objectType == aot && r.value.rateIndex == sfi && r.value.channels == ch
      && (sfi < 13 ==> r.value.sampleRate == RATES[sfi])
  {
    hide AscOf, ParseAsc, ObjectTypeAccepted, RateAccepted, RATES;
    var b := AscBytes(aot, sfi, ch, low) + more;
    assert b[0] == aot * 8 + sfi / 2 && b[1] == (sfi % 2) * 128 + ch * 8 + low;
    ParseAscIs(b);
    AscOfFields(aot, sfi, ch, low);
  }

  /** Accepted are exactly the object types Main, LC, SSR, LTP, SBR and ER AAC LC, with any rate
      index but the two that ISO/IEC 14496-3 reserves; an index of 15 leaves the
      rate open. */
  lemma AscAcceptedExactly(aot: nat, sfi: nat, ch: nat, low: nat, more: seq<Byte>)
    requires aot < 32 && sfi < 16 && ch < 16 && low < 8
    ensures ParseAsc(AscBytes(aot, sfi, ch, low) + more).Some? <==> aot in {1, 2, 3, 4, 5, 17} && sfi !in {13, 14}
    ensures var r := ParseAsc(AscBytes(aot, sfi, ch, low) + more); r.Some? && sfi == 15 ==> r.value.sampleRate == 0
  {
    hide AscOf, ParseAsc, RATES;
    var b := AscBytes(aot, sfi, ch, low) + more;
    assert b[0] == aot * 8 + sfi / 2 && b[1] == (sfi % 2) * 128 + ch * 8 + low;
    ParseAscIs(b);
    AscOfFields(aot, sfi, ch, low);
  }

  /** The sample rate read back. In the table of ISO/IEC 14496-3 each rate is twice the one three
      places on, from the three highest down to 8000; the last is a third of 22050. */
  lemma RatesHalve(aot: nat, sfi: nat, ch: nat, low: nat, more: seq<Byte>)
    requires aot in {1, 2, 3, 4, 5, 17} && sfi <= 12 && ch < 16 && low < 8
    ensures var r := ParseAsc(AscBytes(aot, sfi, ch, low) + more);
      && r.Some?
      && (sfi < 3 ==> r.value.sampleRate == [96000, 88200, 64000][sfi])
      && (sfi == 12 ==> 3 * r.value.sampleRate == 22050)
    ensures sfi <= 8 ==>
      var r, third := ParseAsc(AscBytes(aot, sfi, ch, low) + more), ParseAsc(AscBytes(aot, sfi + 3, ch, low) + more);
      third.Some? && r.value.sampleRate == 2 * third.value.sampleRate
  {
    hide ParseAsc, AscBytes;
    AscRoundTrip(aot, sfi, ch, low, more);
    if sfi <= 8 {
      AscRoundTrip(aot, sfi + 3, ch, low, more);
    }
  }

  lemma AscOfFields(aot: nat, sfi: nat, ch: nat, low: nat)
    requires aot < 32 && sfi < 16 && ch < 16 && low < 8
    ensures AscOf((aot * 8 + sfi / 2) * 256 + ((sfi % 2) * 128 + ch * 8 + low)) ==
      if ObjectTypeAccepted(aot) && RateAccepted(sfi) then Some(Asc(aot, sfi, if sfi == 15 then 0 else RATES[sfi], ch))
      else None
  {
    assert sfi == 2 * (sfi / 2) + sfi % 2;
    var v := aot * 2048 + sfi * 128 + ch * 8 + low;
    assert v == (aot * 8 + sfi / 2) * 256 + ((sfi % 2) * 128 + ch * 8 + low);
    AscFields(v, aot, sfi, ch, low);
  }

  lemma AscFields(v: nat, aot: nat, sfi: nat, ch: nat, low: nat)
    requires aot < 32 && sfi < 16 && ch < 16 && low < 8
    requires v == aot * 2048 + sfi * 128 + ch * 8 + low
    ensures (v / 2048) % 32 == aot && (v / 128) % 16 == sfi && (v / 8) % 16 == ch
  {
    assert v / 2048 == aot;
    assert v / 128 == aot * 16 + sfi;
    assert v / 8 == (aot * 16 + sfi) * 16 + ch;
  }

  // ---- AV1CodecConfigurationRecord ----

  datatype Av1c = Av1c(version: int, profile: int, level: int, tier: int,
                       highBitDepth: bool, twelveBit: bool, monochrome: bool,
                       subsamplingX: int, subsamplingY: int, samplePosition: int,
                       delayPresent: bool, delayMinusOne: int, configOBUs: seq<Byte>)

  function ParseAv1c(b: seq<Byte>): Option<Av1c> {
    if |b| < 4 then None
    else if b[0] / 128 != 1 then None
    else
      var present := (b[3] / 16) % 2 != 0;
      Some(Av1c(b[0] % 128, b[1] / 32, b[1] % 32, b[2] / 128,
                (b[2] / 64) % 2 != 0, (b[2] / 32) % 2 != 0, (b[2] / 16) % 2 != 0,
                (b[2] / 8) % 2, (b[2] / 4) % 2, b[2] % 4,
                present, if present then b[3] % 16 else 0, b[4..]))
  }

  function Bit(x: bool): nat { if x then 1 else 0 }

  predicate ValidAv1c(r: Av1c) {
    && 0 <= r.version < 128 && 0 <= r.profile < 8 && 0 <= r.level < 32 && 0 <= r.tier < 2
    && 0 <= r.subsamplingX < 2 && 0 <= r.subsamplingY < 2 && 0 <= r.samplePosition < 4
    && 0 <= r.delayMinusOne < 16 && (!r.delayPresent ==> r.delayMinusOne == 0)
  }

  function Av1cFlags(r: Av1c): Byte
    requires ValidAv1c(r)
  {
    r.tier * 128 + Bit(r.highBitDepth) * 64 + Bit(r.twelveBit) * 32 + Bit(r.monochrome) * 16
      + r.subsamplingX * 8 + r.subsamplingY * 4 + r.samplePosition
  }

  function Av1cBytes(r: Av1c): seq<Byte>
    requires ValidAv1c(r)
  {
    [128 + r.version, r.profile * 32 + r.level, Av1cFlags(r), Bit(r.delayPresent) * 16 + r.delayMinusOne] + r.configOBUs
  }

  lemma Av1cRoundTrip(r: Av1c)
    requires ValidAv1c(r)
    ensures ParseAv1c(Av1cBytes(r)) == Some(r)
  {
    var b := Av1cBytes(r);
    assert b[4..] == r.configOBUs;
    FlagBits(r);
  }

  lemma FlagBits(r: Av1c)
    requires ValidAv1c(r)
    ensures var f := Av1cFlags(r);
      && f / 128 == r.tier && (f / 64) % 2 == Bit(r.highBitDepth) && (f / 32) % 2 == Bit(r.twelveBit)
      && (f / 16) % 2 == Bit(r.monochrome) && (f / 8) % 2 == r.subsamplingX && (f / 4) % 2 == r.subsamplingY
      && f % 4 == r.samplePosition
  {
    BitsOf(r.tier, Bit(r.highBitDepth), Bit(r.twelveBit), Bit(r.monochrome), r.subsamplingX, r.subsamplingY, r.samplePosition);
  }

  lemma BitsOf(t: nat, h: nat, w: nat, m: nat, x: nat, y: nat, p: nat)
    requires t < 2 && h < 2 && w < 2 && m < 2 && x < 2 && y < 2 && p < 4
    ensures var f := t * 128 + h * 64 + w * 32 + m * 16 + x * 8 + y * 4 + p;
      && f / 128 == t && (f / 64) % 2 == h && (f / 32) % 2 == w && (f / 16) % 2 == m
      && (f / 8) % 2 == x && (f / 4) % 2 == y && f % 4 == p
  {
    var f := t * 128 + h * 64 + w * 32 + m * 16 + x * 8 + y * 4 + p;
    var f64, f32, f16 := t * 2 + h, t * 4 + h * 2 + w, t * 8 + h * 4 + w * 2 + m;
    assert f / 64 == f64 && f / 32 == f32 && f / 16 == f16;
    var f8 := 2 * f16 + x;
    var f4 := 2 * f8 + y;
    assert f / 8 == f8 && f / 4 == f4;
  }

  // ---- The detector ----

  datatype Parsed =
    | Nothing
    | IsAvcc(avcc: Avcc.Record)
    | IsAsc(asc: Asc)
    | IsAnnexB(segments: seq<seq<Byte>>)
    | IsAv1c(av1c: Av1c)
    | Unknown

  function Detect(b: seq<Byte>): Parsed {
    if b == [] then Nothing
    else if Avcc.Parse(b).Some? then IsAvcc(Avcc.Parse(b).value)
    else if ParseAsc(b).Some? then IsAsc(ParseAsc(b).value)
    else if Split(b) != [] then IsAnnexB(Split(b))
    else if ParseAv1c(b).Some? then IsAv1c(ParseAv1c(b).value)
    else Unknown
  }

  /** The first byte alone keeps the AVCC, ASC and start-code formats apart. */
  lemma FirstByteDecides(b: seq<Byte>)
    requires b != []
    ensures Avcc.Parse(b).Some? ==> b[0] == 1
    ensures ParseAsc(b).Some? ==> 8 <= b[0] < 48 || 136 <= b[0] < 144
    ensures CodeAt(b, 0) ==> b[0] == 0
    ensures ParseAv1c(b).Some? ==> b[0] >= 128
  {
    hide Avcc.Parse, ParseAsc, AscOf, ParseAv1c;
    AvccFirstByte(b);
    AscFirstByte(b);
    Av1cFirstByte(b);
  }

  lemma AvccFirstByte(b: seq<Byte>)
    requires b != []
    ensures Avcc.Parse(b).Some? ==> b[0] == 1
  {
    hide Avcc.ReadList;
  }

  lemma AscFirstByte(b: seq<Byte>)
    requires b != []
    ensures ParseAsc(b).Some? ==> 8 <= b[0] < 48 || 136 <= b[0] < 144
  {
    if |b| >= 2 {
      assert (b[0] as int * 256 + b[1]) / 2048 == b[0] as int / 8;
    }
  }

  lemma Av1cFirstByte(b: seq<Byte>)
    requires b != []
    ensures ParseAv1c(b).Some? ==> b[0] >= 128
  {
  }

  /** Every record that section 5.3.3.1 allows is recognized, with its own fields. */
  lemma AvccIsDetected(r: Avcc.Record)
    requires Avcc.ValidRecord(r)
    ensures Detect(Avcc.Serialize(r)) == IsAvcc(r)
  {
    Avcc.RoundTrip(r);
  }

  lemma AscIsDetected(b: seq<Byte>)
    requires ParseAsc(b).Some?
    ensures Detect(b) == IsAsc(ParseAsc(b).value)
  {
    FirstByteDecides(b);
  }

  /** Any stream that begins with a start code and has a nonempty segment. */
  lemma StreamIsDetected(b: seq<Byte>)
    requires CodeAt(b, 0) && Split(b) != []
    ensures Detect(b) == IsAnnexB(Split(b))
  {
    hide Split;
    FirstByteDecides(b);
  }

  /** Canonical NAL units behind their start codes are recognized and returned. */
  lemma AnnexBIsDetected(units: seq<Unit>)
    requires units != [] && Canonical([], units) && forall i :: 0 <= i < |units| ==> units[i].nal != []
    ensures Detect(Join(units)) == IsAnnexB(Nals(units))
  {
    hide Split, Canonical, Detect, Join, CodeAt, Nals;
    AnnexBTheorems.SplitUndoesJoin(units);
    JoinBegins(units);
    StreamIsDetected(Join(units));
  }

  lemma JoinBegins(units: seq<Unit>)
    requires units != []
    ensures CodeAt(Join(units), 0) && Nals(units) != []
  {
    AnnexBTheorems.JoinCons(units[0], units[1..]);
    assert [units[0]] + units[1..] == units;
    var u := units[0];
    assert Join(units) == StartCode(u.long) + (u.nal + Join(units[1..]));
  }

  /** Exactly when bytes are taken for an AV1C record: the marker bit is set, the first two
      bytes are not an accepted ASC (versions 8 to 15 may be), and nothing follows any start
      code inside. */
  lemma Av1cDetectedExactly(b: seq<Byte>)
    ensures Detect(b).IsAv1c? <==> |b| >= 4 && b[0] >= 128 && ParseAsc(b).None? && Split(b) == []
    ensures Detect(b).IsAv1c? ==> Detect(b).av1c == ParseAv1c(b).value
  {
    hide Split;
    if b != [] {
      FirstByteDecides(b);
    }
  }

  /** A valid record is taken for an AudioSpecificConfig exactly if its version is 8 to 15, which
      reads as object type 17, and the rest of the first nine bits is an accepted rate index. */
  lemma Av1cMistakenForAsc(r: Av1c)
    requires ValidAv1c(r)
    ensures Detect(Av1cBytes(r)).IsAsc? <==> 8 <= r.version < 16 && RateAccepted((r.version % 8) * 2 + r.profile / 4)
  {
    hide Av1cBytes, ParseAsc, AscOf, Detect, RateAccepted;
    FirstTwoBytes(r);
    AscDetectedExactly(Av1cBytes(r));
    ParseAscIs(Av1cBytes(r));
    AscOfAv1c(r.version, r.profile, r.level);
  }

  lemma AscDetectedExactly(b: seq<Byte>)
    ensures Detect(b).IsAsc? <==> ParseAsc(b).Some?
  {
    hide Split, Avcc.Parse, ParseAv1c;
    if b != [] {
      FirstByteDecides(b);
    }
  }

  lemma ParseAscIs(b: seq<Byte>)
    requires |b| >= 2
    ensures ParseAsc(b) == AscOf(b[0] as int * 256 + b[1])
  {
  }

  lemma FirstTwoBytes(r: Av1c)
    requires ValidAv1c(r)
    ensures var b := Av1cBytes(r); |b| >= 4 && b[0] == 128 + r.version && b[1] == r.profile * 32 + r.level
  {
    hide Av1cFlags;
  }

  lemma AscOfAv1c(version: nat, profile: nat, level: nat)
    requires version < 128 && profile < 8 && level < 32
    ensures AscOf((128 + version) * 256 + (profile * 32 + level)).Some? <==>
      8 <= version < 16 && RateAccepted((version % 8) * 2 + profile / 4)
  {
    var v := (128 + version) * 256 + (profile * 32 + level);
    var q, r, low := version / 8, version % 8, (profile % 4) * 32 + level;
    assert version == q * 8 + r && profile == 4 * (profile / 4) + profile % 4;
    TopBits(v, 16 + q, r * 2 + profile / 4, low);
    hide RateAccepted;
  }

  lemma TopBits(v: nat, top: nat, next: nat, low: nat)
    requires v == top * 2048 + next * 128 + low && top < 32 && next < 16 && low < 128
    ensures (v / 2048) % 32 == top && (v / 128) % 16 == next
  {
    assert v / 2048 == top;
    assert v / 128 == top * 16 + next;
  }

  /** So a valid record is recognized if and only if neither that holds nor anything follows a
      start code inside it. */
  lemma Av1cRecognizedExactly(r: Av1c)
    requires ValidAv1c(r)
    ensures Detect(Av1cBytes(r)) == IsAv1c(r) <==>
      !(8 <= r.version < 16 && RateAccepted((r.version % 8) * 2 + r.profile / 4)) && OnlyCodes(Av1cBytes(r), 0)
  {
    var b := Av1cBytes(r);
    Av1cRoundTrip(r);
    Av1cMistakenForAsc(r);
    FirstTwoBytes(r);
    hide Av1cBytes, Split, ParseAsc, ParseAv1c, RateAccepted;
    FirstByteDecides(b);
    Av1cDetectedExactly(b);
    AnnexBTheorems.SplitsToNothingExactly(b);
  }

  /** So records of version 1 without a start code inside are recognized. */
  lemma Av1cIsDetected(r: Av1c)
    requires ValidAv1c(r) && r.version == 1 && First(Av1cBytes(r)) == |Av1cBytes(r)|
    ensures Detect(Av1cBytes(r)) == IsAv1c(r)
  {
    var b := Av1cBytes(r);
    Av1cRoundTrip(r);
    SplitNothing(b);
    assert b[0] == 129 && |b| >= 4;
    hide Split, Av1cBytes, First;
    FirstByteDecides(b);
    Av1cDetectedExactly(b);
  }

  /** A valid version 1 record with a start code inside is taken for a byte stream. */
  lemma Av1cMistakenForAnnexB() returns (r: Av1c)
    ensures ValidAv1c(r) && r.version == 1 && Detect(Av1cBytes(r)) == IsAnnexB([[7]])
  {
    r := Av1c(1, 0, 8, 0, false, false, false, 1, 1, 0, false, 0, [0, 0, 1, 7]);
    var b := Av1cBytes(r);
    assert b == [129, 8, 12, 0, 0, 0, 1, 7];
    hide Av1cBytes, Split, First, Units;
    StartCodeInside(b);
    FirstByteDecides(b);
    hide Avcc.Parse, ParseAsc;
  }

  lemma LoneIsCanonical(q: seq<Byte>, nal: seq<Byte>)
    requires q == [129, 8, 12] && nal == [7]
    ensures Canonical(q, [Unit(true, nal)])
  {
    assert [Unit(true, nal)][1..] == [] && Canonical(nal, []);
  }

  lemma StartCodeInside(b: seq<Byte>)
    requires b == [129, 8, 12, 0, 0, 0, 1, 7]
    ensures Split(b) == [[7]]
  {
    var q: seq<Byte>, nal: seq<Byte> := [129, 8, 12], [7];
    hide Split, Join, Units, First;
    assert b == q + (StartCode(true) + nal);
    assert Canonical(q, [Unit(true, nal)]) by { LoneIsCanonical(q, nal); }
    hide Canonical, StartCode;
    SplitOfLone(q, Unit(true, nal));
  }

  lemma SplitOfLone(q: seq<Byte>, u: Unit)
    requires Canonical(q, [u]) && u.nal != []
    ensures Split(q + (StartCode(u.long) + u.nal)) == [u.nal]
  {
    var units := [u];
    assert units[1..] == [];
    assert Join(units) == StartCode(u.long) + u.nal;
    AnnexBTheorems.UnitsOfJoin(q, units);
    assert NonEmptyNals(units) == [u.nal];
  }
}
