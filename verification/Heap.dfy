/** The binary heap behind the queues of kernel/reorder_monotonic_dts.go: a slice ordered
    by a key, with the sift-up and sift-down loops of a container/heap library. */
module Heap {

  function Parent(i: nat): nat
    requires i > 0
  {
    (i - 1) / 2
  }

  /** Element i is not smaller than the element at p. */
  ghost predicate Below<T>(h: seq<T>, key: T -> int, p: nat, i: nat)
    requires p < |h| && i < |h|
  {
    key(h[p]) <= key(h[i])
  }

  ghost predicate IsHeap<T>(h: seq<T>, key: T -> int) {
    forall i: nat :: 0 < i < |h| ==> Below(h, key, Parent(i), i)
  }

  /** A heap except that j may be smaller than its parent; j's children respect j's parent. */
  ghost predicate HeapButUp<T>(h: seq<T>, key: T -> int, j: nat)
    requires j < |h|
  {
    && (forall i: nat :: 0 < i < |h| && i != j ==> Below(h, key, Parent(i), i))
    && (j > 0 ==> forall i: nat :: 0 < i < |h| && Parent(i) == j ==> Below(h, key, Parent(j), i))
  }

  /** A heap except that j may be larger than its children; they respect j's parent. */
  ghost predicate HeapButDown<T>(h: seq<T>, key: T -> int, j: nat)
  {
    && (forall i: nat :: 0 < i < |h| && Parent(i) != j ==> Below(h, key, Parent(i), i))
    && (0 < j < |h| ==> forall i: nat :: 0 < i < |h| && Parent(i) == j ==> Below(h, key, Parent(j), i))
  }

  /** m is an element of least key; several elements may tie. */
  ghost predicate IsMin<T>(m: T, s: multiset<T>, key: T -> int) {
    m in s && forall x :: x in s ==> key(m) <= key(x)
  }

  function Swapped<T>(s: seq<T>, i: nat, j: nat): seq<T>
    requires i < |s| && j < |s|
  {
    s[i := s[j]][j := s[i]]
  }

  lemma SwapKeepsElements<T>(s: seq<T>, i: nat, j: nat)
    requires i < |s| && j < |s|
    ensures multiset(Swapped(s, i, j)) == multiset(s)
  {
  }

  lemma {:induction false} RootLeast<T>(h: seq<T>, key: T -> int, i: nat)
    requires IsHeap(h, key) && i < |h|
    ensures key(h[0]) <= key(h[i])
  {
    if i > 0 {
      assert Below(h, key, Parent(i), i);
      RootLeast(h, key, Parent(i));
    }
  }

  lemma RootIsMin<T>(h: seq<T>, key: T -> int)
    requires IsHeap(h, key) && h != []
    ensures IsMin(h[0], multiset(h), key)
  {
    forall x | x in multiset(h) ensures key(h[0]) <= key(x) {
      var i :| 0 <= i < |h| && h[i] == x;
      RootLeast(h, key, i);
    }
  }

  lemma SiftUpStep<T>(h: seq<T>, key: T -> int, j: nat)
    requires 0 < j < |h| && HeapButUp(h, key, j) && key(h[j]) < key(h[Parent(j)])
    ensures HeapButUp(Swapped(h, j, Parent(j)), key, Parent(j))
  {
    var p := Parent(j);
    var s := Swapped(h, j, p);
    forall i: nat | 0 < i < |s| && i != p ensures Below(s, key, Parent(i), i) {
      if i != j {
        assert Below(h, key, Parent(i), i);
      }
    }
    if p > 0 {
      assert Below(h, key, Parent(p), p);
      forall i: nat | 0 < i < |s| && Parent(i) == p ensures Below(s, key, Parent(p), i) {
        if i != j {
          assert Below(h, key, Parent(i), i);
        }
      }
    }
  }

  method Push<T>(h: seq<T>, key: T -> int, x: T) returns (r: seq<T>)
    requires IsHeap(h, key)
    ensures IsHeap(r, key) && |r| == |h| + 1
    ensures multiset(r) == multiset(h) + multiset{x}
  {
    r := h + [x];
    var j := |h|;
    forall i: nat | 0 < i < |r| && i != j ensures Below(r, key, Parent(i), i) {
      assert Below(h, key, Parent(i), i);
    }
    while j > 0 && key(r[j]) < key(r[Parent(j)])
      invariant 0 <= j < |r| == |h| + 1
      invariant multiset(r) == multiset(h) + multiset{x}
      invariant HeapButUp(r, key, j)
      decreases j
    {
      SiftUpStep(r, key, j);
      SwapKeepsElements(r, j, Parent(j));
      r := Swapped(r, j, Parent(j));
      j := Parent(j);
    }
  }

  lemma SiftDownStep<T>(h: seq<T>, key: T -> int, j: nat, c: nat)
    requires 0 < c < |h| && Parent(c) == j && HeapButDown(h, key, j)
    requires forall i: nat :: 0 < i < |h| && Parent(i) == j ==> Below(h, key, c, i)
    requires key(h[c]) < key(h[j])
    ensures HeapButDown(Swapped(h, j, c), key, c)
  {
    var s := Swapped(h, j, c);
    forall i: nat | 0 < i < |s| && Parent(i) != c ensures Below(s, key, Parent(i), i) {
      if Parent(i) == j {
        assert Below(h, key, c, i);
      } else if i == j {
        assert Below(h, key, Parent(j), c);
      } else {
        assert Below(h, key, Parent(i), i);
      }
    }
    forall i: nat | 0 < i < |s| && Parent(i) == c ensures Below(s, key, Parent(c), i) {
      assert Below(h, key, Parent(i), i);
    }
  }

  /** Sift down from the root; only the root may be out of order at first. */
  method Down<T>(h: seq<T>, key: T -> int) returns (r: seq<T>)
    requires HeapButDown(h, key, 0)
    ensures IsHeap(r, key) && multiset(r) == multiset(h)
  {
    r := h;
    var i := 0;
    while 2 * i + 1 < |r|
      invariant 0 <= i && |r| == |h| && multiset(r) == multiset(h)
      invariant HeapButDown(r, key, i)
      decreases |r| - i
    {
      var child := 2 * i + 1;
      if child + 1 < |r| && key(r[child + 1]) < key(r[child]) {
        child := child + 1;
      }
      forall k: nat | 0 < k < |r| && Parent(k) == i ensures Below(r, key, child, k) {
        assert k == 2 * i + 1 || k == 2 * i + 2;
      }
      if key(r[child]) >= key(r[i]) {
        forall k: nat | 0 < k < |r| ensures Below(r, key, Parent(k), k) {
          if Parent(k) == i {
            assert Below(r, key, child, k);
          }
        }
        return;
      }
      SiftDownStep(r, key, i, child);
      SwapKeepsElements(r, i, child);
      r := Swapped(r, i, child);
      i := child;
    }
  }

  method Pop<T>(h: seq<T>, key: T -> int) returns (m: T, r: seq<T>)
    requires IsHeap(h, key) && h != []
    ensures m == h[0] && IsMin(m, multiset(h), key)
    ensures IsHeap(r, key) && |r| == |h| - 1
    ensures multiset(r) == multiset(h) - multiset{m}
  {
    RootIsMin(h, key);
    var n := |h| - 1;
    SwapKeepsElements(h, 0, n);
    var s := Swapped(h, 0, n);
    assert s == s[..n] + [s[n]];
    m := s[n];
    forall i: nat | 0 < i < n && Parent(i) != 0 ensures Below(s[..n], key, Parent(i), i) {
      assert Below(h, key, Parent(i), i);
    }
    r := Down(s[..n], key);
    assert |multiset(r)| == |r|;
  }
}
