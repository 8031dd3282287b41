/** The array-backed min-heap of internal/engine/merge.go and internal/compaction/merge.go. */
module Heap {
  import opened Bytes
  import opened Records

  /** Timestamp and source of the record at the head of iterator index. */
  datatype HeapItem = HeapItem(ts: Int64, src: Data, index: nat)

  function KeyOf(x: HeapItem): Record {
    Record(x.ts, x.src, [])
  }

  /** minHeap.Less, on items. */
  predicate Less(a: HeapItem, b: HeapItem) {
    KeyLess(KeyOf(a), KeyOf(b))
  }

  predicate Le(a: HeapItem, b: HeapItem) {
    !Less(b, a)
  }

  lemma LeTransitive(a: HeapItem, b: HeapItem, c: HeapItem)
    requires Le(a, b) && Le(b, c)
    ensures Le(a, c)
  {
    KeyTransitive(KeyOf(a), KeyOf(b), KeyOf(c));
  }

  lemma LessIsLe(a: HeapItem, b: HeapItem)
    requires Less(a, b)
    ensures Le(a, b)
  {
    KeyTotal(KeyOf(a), KeyOf(b));
  }

  function Parent(k: nat): nat
    requires k > 0
  {
    (k - 1) / 2
  }

  /** The heap order at every child, below n, of a parent at lo or after. */
  ghost predicate OrderedFrom(h: seq<HeapItem>, lo: nat, n: nat)
    requires n <= |h|
  {
    forall k :: 0 < k < n && Parent(k) >= lo ==> Le(h[Parent(k)], h[k])
  }

  ghost predicate IsHeap(h: seq<HeapItem>) {
    OrderedFrom(h, 0, |h|)
  }

  lemma {:induction false} RootIsLeast(h: seq<HeapItem>, k: nat)
    requires IsHeap(h) && k < |h|
    ensures Le(h[0], h[k])
    decreases k
  {
    if k == 0 {
      KeyTotal(KeyOf(h[0]), KeyOf(h[0]));
    } else {
      RootIsLeast(h, Parent(k));
      LeTransitive(h[0], h[Parent(k)], h[k]);
    }
  }

  function Swap(h: seq<HeapItem>, i: nat, j: nat): (s: seq<HeapItem>)
    requires i < |h| && j < |h|
    ensures |s| == |h| && multiset(s) == multiset(h)
  {
    h[i := h[j]][j := h[i]]
  }

  /** The heap order holds except above j; j's children already fit under j's parent. */
  ghost predicate HoleAbove(h: seq<HeapItem>, j: nat) {
    j < |h|
    && (forall k :: 0 < k < |h| && k != j ==> Le(h[Parent(k)], h[k]))
    && (j > 0 ==> forall k :: 0 < k < |h| && Parent(k) == j ==> Le(h[Parent(j)], h[k]))
  }

  lemma SwapUp(h: seq<HeapItem>, j: nat)
    requires HoleAbove(h, j) && j > 0 && Less(h[j], h[Parent(j)])
    ensures HoleAbove(Swap(h, Parent(j), j), Parent(j))
  {
    var i := Parent(j);
    var s := Swap(h, i, j);
    LessIsLe(h[j], h[i]);
    forall k | 0 < k < |h| && k != i
      ensures Le(s[Parent(k)], s[k])
    {
      if k != j && Parent(k) == i { LeTransitive(h[j], h[i], h[k]); }
    }
    if i > 0 {
      forall k | 0 < k < |h| && Parent(k) == i
        ensures Le(s[Parent(i)], s[k])
      {
        if k != j { LeTransitive(h[Parent(i)], h[i], h[k]); }
      }
    }
  }

  /** The heap order, below n and from lo on, holds except under i; i's children already fit under i's parent. */
  ghost predicate HoleUnder(h: seq<HeapItem>, i: nat, lo: nat, n: nat) {
    lo <= i && n <= |h|
    && (forall k :: 0 < k < n && Parent(k) >= lo && Parent(k) != i ==> Le(h[Parent(k)], h[k]))
    && (i > lo ==> Parent(i) >= lo && forall k :: 0 < k < n && Parent(k) == i ==> Le(h[Parent(i)], h[k]))
  }

  lemma SwapDown(h: seq<HeapItem>, i: nat, lo: nat, n: nat, j: nat)
    requires HoleUnder(h, i, lo, n) && 0 < j < n && Parent(j) == i && Less(h[j], h[i])
    requires AboveChildren(h, h[j], i, n)
    ensures HoleUnder(Swap(h, i, j), j, lo, n)
  {
    var s := Swap(h, i, j);
    LessIsLe(h[j], h[i]);
    forall k | 0 < k < n && Parent(k) >= lo && Parent(k) != j
      ensures Le(s[Parent(k)], s[k])
    {
    }
    forall k | 0 < k < n && Parent(k) == j
      ensures Le(s[Parent(j)], s[k])
    {
    }
  }

  class MinHeap {
    var h: seq<HeapItem>

    constructor ()
      ensures h == []
    {
      h := [];
    }

    method Push(item: HeapItem)
      requires IsHeap(h)
      modifies this
      ensures IsHeap(h) && multiset(h) == old(multiset(h)) + multiset{item} && h != []
    {
      h := h + [item];
      Up(|h| - 1);
      assert item in multiset(h);
    }

    /** Takes out a least item. */
    method Pop() returns (item: HeapItem)
      requires IsHeap(h) && h != []
      modifies this
      ensures IsHeap(h) && multiset(h) + multiset{item} == old(multiset(h))
      ensures forall x :: x in old(h) ==> Le(item, x)
    {
      ghost var before := h;
      forall x | x in h
        ensures Le(h[0], x)
      {
        var k :| 0 <= k < |h| && h[k] == x;
        RootIsLeast(h, k);
      }
      var n := |h| - 1;
      h := Swap(h, 0, n);
      assert OrderedFrom(h, 1, n);
      Down(0, n);
      item := h[n];
      assert h == h[..n] + [item];
      h := h[..n];
    }

    method Init()
      modifies this
      ensures IsHeap(h) && multiset(h) == old(multiset(h))
    {
      var n := |h|;
      var i := n / 2 - 1;
      while i >= 0
        invariant -1 <= i && |h| == n && OrderedFrom(h, i + 1, n) && multiset(h) == old(multiset(h))
      {
        Down(i, n);
        i := i - 1;
      }
    }

    method Up(j0: nat)
      requires HoleAbove(h, j0)
      modifies this
      ensures IsHeap(h) && multiset(h) == old(multiset(h))
    {
      var j: nat := j0;
      while true
        invariant HoleAbove(h, j) && multiset(h) == old(multiset(h))
        decreases j
      {
        assert GoDiv(j - 1, 2) == if j == 0 then 0 else Parent(j);
        var i: nat := GoDiv(j - 1, 2);
        if i == j || !Less(h[j], h[i]) { break; }
        SwapUp(h, j);
        h := Swap(h, i, j);
        j := i;
      }
    }

    method LesserChild(i: nat, n: nat) returns (j: nat)
      requires 2 * i + 1 < n <= |h|
      ensures i < j < n && Parent(j) == i && AboveChildren(h, h[j], i, n)
    {
      var j1 := 2 * i + 1;
      j := j1;
      var j2 := j1 + 1;
      if j2 < n && Less(h[j2], h[j1]) { j := j2; }
      LeastChild(h, i, j, n);
    }

    method Down(i0: nat, n: nat)
      requires n <= |h| && OrderedFrom(h, i0 + 1, n)
      modifies this
      ensures |h| == old(|h|) && OrderedFrom(h, i0, n) && multiset(h) == old(multiset(h))
      ensures forall k :: n <= k < |h| ==> h[k] == old(h)[k]
    {
      var i: nat := i0;
      while true
        invariant HoleUnder(h, i, i0, n) && Rearranged(h, old(h), n)
        decreases n - i
      {
        var j1 := 2 * i + 1;
        if j1 >= n {
          Settled(h, i, i0, n);
          break;
        }
        var j := LesserChild(i, n);
        if !Less(h[j], h[i]) {
          Under(h, i, j, n);
          Settled(h, i, i0, n);
          break;
        }
        SwapDown(h, i, i0, n, j);
        SwapRearranges(h, old(h), i, j, n);
        h := Swap(h, i, j);
        i := j;
      }
    }
  }

  /** x fits above every child of i. */
  ghost predicate AboveChildren(h: seq<HeapItem>, x: HeapItem, i: nat, n: nat)
    requires n <= |h|
  {
    forall k :: 0 < k < n && Parent(k) == i ==> Le(x, h[k])
  }

  /** The same items, those from n on in place. */
  ghost predicate Rearranged(h: seq<HeapItem>, before: seq<HeapItem>, n: nat) {
    |h| == |before| && multiset(h) == multiset(before) && forall k :: n <= k < |h| ==> h[k] == before[k]
  }

  lemma SwapRearranges(h: seq<HeapItem>, before: seq<HeapItem>, i: nat, j: nat, n: nat)
    requires Rearranged(h, before, n) && i < n <= |h| && j < n
    ensures Rearranged(Swap(h, i, j), before, n)
  {}

  lemma Settled(h: seq<HeapItem>, i: nat, lo: nat, n: nat)
    requires HoleUnder(h, i, lo, n) && (i >= n || AboveChildren(h, h[i], i, n))
    ensures OrderedFrom(h, lo, n)
  {}

  lemma LeastChild(h: seq<HeapItem>, i: nat, j: nat, n: nat)
    requires 2 * i + 1 < n <= |h|
    requires j == if 2 * i + 2 < n && Less(h[2 * i + 2], h[2 * i + 1]) then 2 * i + 2 else 2 * i + 1
    ensures Parent(j) == i && AboveChildren(h, h[j], i, n)
  {
    forall k | 0 < k < n && Parent(k) == i
      ensures Le(h[j], h[k])
    {
      assert k == 2 * i + 1 || k == 2 * i + 2;
      if k == j {
        KeyTotal(KeyOf(h[j]), KeyOf(h[j]));
      } else if k == 2 * i + 1 {
        LessIsLe(h[j], h[k]);
      }
    }
  }

  lemma Under(h: seq<HeapItem>, i: nat, j: nat, n: nat)
    requires i < n <= |h| && j < n && Le(h[i], h[j])
    requires AboveChildren(h, h[j], i, n)
    ensures AboveChildren(h, h[i], i, n)
  {
    forall k | 0 < k < n && Parent(k) == i
      ensures Le(h[i], h[k])
    {
      LeTransitive(h[i], h[j], h[k]);
    }
  }
}
