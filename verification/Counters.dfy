/** The counters of types/statistics.go: seven sections, each with one item per kind of
    object (packet or frame) and media slot. */
module Counters {

  const MEDIA_UNKNOWN: int := -1
  const MEDIA_VIDEO: int := 0
  const MEDIA_AUDIO: int := 1
  const MEDIA_SUBTITLE: int := 3

  datatype SubSection = Packets | Frames

  datatype Slot = Video | Audio | Other | Unknown

  datatype Cell = Cell(sub: SubSection, slot: Slot)

  /** CountersSubSection.Get: the Unknown slot is never selected. */
  function SlotOf(mediaType: int): (r: Slot)
    ensures r != Unknown
    ensures r == Video <==> mediaType == MEDIA_VIDEO
    ensures r == Audio <==> mediaType == MEDIA_AUDIO
  {
    if mediaType == MEDIA_VIDEO then Video else if mediaType == MEDIA_AUDIO then Audio else Other
  }

  function CellOf(sub: SubSection, mediaType: int): (r: Cell)
    ensures r.sub == sub && r.slot == SlotOf(mediaType)
  {
    Cell(sub, SlotOf(mediaType))
  }

  /** MediaTypes(): the media types the drain check goes through. */
  const MEDIA_TYPES: seq<int> := [MEDIA_UNKNOWN, MEDIA_VIDEO, MEDIA_AUDIO, MEDIA_SUBTITLE]
  const SUBSECTIONS: seq<SubSection> := [Packets, Frames]

  /** Whatever media type is counted, the check visits the cell it is counted in. */
  lemma EveryCountedCellIsChecked(sub: SubSection, mediaType: int) returns (i: nat, j: nat)
    ensures i < |SUBSECTIONS| && j < |MEDIA_TYPES|
    ensures CellOf(SUBSECTIONS[i], MEDIA_TYPES[j]) == CellOf(sub, mediaType)
  {
    i := if sub == Packets then 0 else 1;
    j := if mediaType == MEDIA_VIDEO then 1 else if mediaType == MEDIA_AUDIO then 2 else 0;
  }

  function Plus(counter: multiset<Cell>, c: Cell, n: nat): multiset<Cell> {
    counter[c := counter[c] + n]
  }

  /** n objects of the given size were counted in cell c, and nothing else. */
  ghost predicate Grew(counts0: multiset<Cell>, bytes0: multiset<Cell>, counts1: multiset<Cell>, bytes1: multiset<Cell>,
                       c: Cell, n: nat, size: nat) {
    counts1 == Plus(counts0, c, n) && bytes1 == Plus(bytes0, c, n * size)
  }

  lemma GrewNot(counts: multiset<Cell>, bytes: multiset<Cell>, c: Cell, size: nat)
    ensures Grew(counts, bytes, counts, bytes, c, 0, size)
  {
  }

  lemma GrewOne(counts0: multiset<Cell>, bytes0: multiset<Cell>, counts1: multiset<Cell>, bytes1: multiset<Cell>,
                c: Cell, n: nat, size: nat)
    requires Grew(counts0, bytes0, counts1, bytes1, c, n, size)
    ensures Grew(counts0, bytes0, Plus(counts1, c, 1), Plus(bytes1, c, size), c, n + 1, size)
  {
    assert (n + 1) * size == n * size + size;
  }

  /** What the counters tell of an object. */
  datatype Object = Object(sub: SubSection, mediaType: int, size: nat)

  function ObjectCell(o: Object): Cell { CellOf(o.sub, o.mediaType) }

  /** The counts of a list of objects. */
  function Cells(objs: seq<Object>): multiset<Cell> {
    if objs == [] then multiset{}
    else Plus(Cells(objs[..|objs| - 1]), ObjectCell(objs[|objs| - 1]), 1)
  }

  /** The byte counts of a list of objects. */
  function Bytes(objs: seq<Object>): multiset<Cell> {
    if objs == [] then multiset{}
    else Plus(Bytes(objs[..|objs| - 1]), ObjectCell(objs[|objs| - 1]), objs[|objs| - 1].size)
  }

  lemma TallyOfMore(objs: seq<Object>, i: nat)
    requires i < |objs|
    ensures var c := ObjectCell(objs[i]);
      && Cells(objs[..i + 1]) == Plus(Cells(objs[..i]), c, 1)
      && Bytes(objs[..i + 1]) == Plus(Bytes(objs[..i]), c, objs[i].size)
  {
    assert objs[..i + 1][..i] == objs[..i];
  }

  lemma {:induction false} CellsOfPrefix(objs: seq<Object>, n: nat)
    requires n <= |objs|
    ensures Cells(objs[..n]) <= Cells(objs)
    decreases |objs| - n
  {
    if n == |objs| {
      assert objs[..n] == objs;
    } else {
      TallyOfMore(objs, n);
      CellsOfPrefix(objs, n + 1);
    }
  }

  /** Exactly these objects were counted, each once and in its own cell. */
  ghost predicate Tallied(counts0: multiset<Cell>, bytes0: multiset<Cell>, counts1: multiset<Cell>, bytes1: multiset<Cell>,
                          objs: seq<Object>) {
    counts1 == counts0 + Cells(objs) && bytes1 == bytes0 + Bytes(objs)
  }

  lemma TalliedOne(counts0: multiset<Cell>, bytes0: multiset<Cell>, counts1: multiset<Cell>, bytes1: multiset<Cell>,
                   objs: seq<Object>, i: nat)
    requires i < |objs| && Tallied(counts0, bytes0, counts1, bytes1, objs[..i])
    ensures var c := ObjectCell(objs[i]);
      Tallied(counts0, bytes0, Plus(counts1, c, 1), Plus(bytes1, c, objs[i].size), objs[..i + 1])
  {
    TallyOfMore(objs, i);
    hide Cells, Bytes;
    PlusInSum(counts0, Cells(objs[..i]), ObjectCell(objs[i]), 1);
    PlusInSum(bytes0, Bytes(objs[..i]), ObjectCell(objs[i]), objs[i].size);
  }

  lemma PlusInSum(a: multiset<Cell>, b: multiset<Cell>, c: Cell, n: nat)
    ensures Plus(a + b, c, n) == a + Plus(b, c, n) == Plus(a, c, n) + b
  {
  }

  /** A section's cells; the multiplicity of a cell is the value of its counter. */
  class CountersSection {
    var counts: multiset<Cell>
    var bytes: multiset<Cell>

    constructor ()
      ensures counts == multiset{} && bytes == multiset{}
    {
      counts, bytes := multiset{}, multiset{};
    }

    method Increment(sub: SubSection, mediaType: int, msgSize: nat)
      modifies this
      ensures var c := CellOf(sub, mediaType);
        counts == Plus(old(counts), c, 1) && bytes == Plus(old(bytes), c, msgSize)
    {
      var c := CellOf(sub, mediaType);
      counts := counts[c := counts[c] + 1];
      bytes := bytes[c := bytes[c] + msgSize];
    }
  }
}
