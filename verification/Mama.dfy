/** The sliding window of indicator/mama.go: a ring of the last n values and its copy in
    order. The filter that is then applied to the copy is not part of this model. */
module Mama {

  function Zeros(n: nat): seq<real> { seq(n, _ => 0.0) }

  /** The last n values, oldest first, after n zeros. */
  function LastN(history: seq<real>, n: nat): (r: seq<real>)
    ensures |r| == n
  {
    (Zeros(n) + history)[|history|..]
  }

  /** Once n values came, these are the values themselves. */
  lemma LastNOfLong(history: seq<real>, n: nat)
    requires |history| >= n
    ensures LastN(history, n) == history[|history| - n..]
  {
  }

  lemma LastNAppend(history: seq<real>, n: nat, v: real)
    requires n > 0
    ensures LastN(history + [v], n) == LastN(history, n)[1..] + [v]
  {
    assert Zeros(n) + (history + [v]) == (Zeros(n) + history) + [v];
  }

  class MAMA {
    const values: array<real>
    const orderedValuesBuffer: array<real>
    var curIdx: nat
    var measurementsCount: nat
    ghost var history: seq<real>

    ghost predicate Invariant()
      reads this, values, orderedValuesBuffer
    {
      && values != orderedValuesBuffer && values.Length == orderedValuesBuffer.Length > 0
      && curIdx < values.Length && measurementsCount == |history|
      && values[curIdx..] + values[..curIdx] == LastN(history, values.Length)
      && orderedValuesBuffer[..] == LastN(history, values.Length)
    }

    constructor (n: nat)
      requires n > 0
      ensures Invariant() && history == [] && values.Length == n && fresh(values) && fresh(orderedValuesBuffer)
    {
      values := new real[n](_ => 0.0);
      orderedValuesBuffer := new real[n](_ => 0.0);
      curIdx, measurementsCount, history := 0, 0, [];
      new;
      assert values[..] == Zeros(n) && orderedValuesBuffer[..] == Zeros(n);
      assert LastN([], n) == Zeros(n);
    }

    /** copy(dst[at:], src[from:]). */
    static method Copy(dst: array<real>, at: nat, src: array<real>, from: nat)
      requires dst != src && at <= dst.Length && from <= src.Length
      modifies dst
      ensures var n := if dst.Length - at < src.Length - from then dst.Length - at else src.Length - from;
        dst[..] == old(dst[..at]) + src[from..from + n] + old(dst[at + n..])
    {
      var n := if dst.Length - at < src.Length - from then dst.Length - at else src.Length - from;
      for i := 0 to n
        invariant forall k :: at <= k < at + i ==> dst[k] == src[from + k - at]
        invariant forall k :: 0 <= k < at || at + i <= k < dst.Length ==> dst[k] == old(dst[k])
      {
        dst[at + i] := src[from + i];
      }
    }

    /** The oldest value makes room for the new one. */
    method Put(v: real)
      requires curIdx < values.Length
      modifies this`curIdx, values
      ensures curIdx < values.Length
      ensures values[curIdx..] + values[..curIdx] == old(values[curIdx..] + values[..curIdx])[1..] + [v]
    {
      ghost var s, i := values[..], curIdx;
      Rotate(s, i, v);
      assert s[i..] == values[i..] && s[..i] == values[..i];
      values[curIdx] := v;
      curIdx := (curIdx + 1) % values.Length;
      NextIndex(i, values.Length);
      ghost var t := values[..];
      assert t == s[i := v];
      assert t[curIdx..] == values[curIdx..] && t[..curIdx] == values[..curIdx];
    }

    /** The ring, oldest value first. */
    method CopyInOrder()
      requires values != orderedValuesBuffer && values.Length == orderedValuesBuffer.Length && curIdx < values.Length
      modifies orderedValuesBuffer
      ensures orderedValuesBuffer[..] == values[curIdx..] + values[..curIdx]
    {
      var n := values.Length;
      Copy(orderedValuesBuffer, 0, values, curIdx);
      assert values[curIdx..curIdx + (n - curIdx)] == values[curIdx..];
      ghost var first := orderedValuesBuffer[..];
      assert first[..n - curIdx] == values[curIdx..];
      assert orderedValuesBuffer[..n - curIdx] == first[..n - curIdx];
      Copy(orderedValuesBuffer, n - curIdx, values, 0);
    }

    /** `filtered` stands for what the filter makes of the ordered copy. */
    method Update(v: real, filtered: real) returns (r: real)
      requires Invariant()
      modifies this`curIdx, this`measurementsCount, this`history, values, orderedValuesBuffer
      ensures Invariant() && history == old(history) + [v]
      ensures orderedValuesBuffer[..] == LastN(history, values.Length)
      ensures r == if |history| < values.Length then v else filtered
    {
      LastNAppend(history, values.Length, v);
      Put(v);
      history := history + [v];
      CopyInOrder();
      measurementsCount := measurementsCount + 1;
      if measurementsCount < values.Length {
        return v;
      }
      return filtered;
    }

    lemma NextIndex(i: nat, n: nat)
      requires i < n
      ensures (i + 1) % n == if i + 1 == n then 0 else i + 1
    {
    }

    /** Overwriting the oldest and moving on shifts the window by one. */
    lemma Rotate(s: seq<real>, i: nat, v: real)
      requires i < |s|
      ensures var t := s[i := v]; var j := if i + 1 == |s| then 0 else i + 1;
        t[j..] + t[..j] == (s[i..] + s[..i])[1..] + [v]
    {
    }

    predicate IsValid()
      requires Invariant()
      reads this, values, orderedValuesBuffer
      ensures IsValid() <==> |history| >= values.Length
    {
      measurementsCount >= values.Length
    }
  }
}
