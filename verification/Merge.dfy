/** The k-way merge of sorted iterators (internal/engine/merge.go). */
module Merge {
  import opened Bytes
  import opened Records
  import opened Heap

  // ---------------------------------------------------------------- interleavings

  /** The records of out that came from input i. */
  function Project(out: seq<Record>, tags: seq<nat>, i: nat): seq<Record>
    requires |out| == |tags|
  {
    if out == [] then []
    else
      var n := |out| - 1;
      Project(out[..n], tags[..n], i) + if tags[n] == i then [out[n]] else []
  }

  /** out takes every input's records once, each input in its own order. */
  ghost predicate Interleaves(out: seq<Record>, tags: seq<nat>, inputs: seq<seq<Record>>) {
    |out| == |tags|
    && (forall k :: 0 <= k < |tags| ==> tags[k] < |inputs|)
    && forall i :: 0 <= i < |inputs| ==> Project(out, tags, i) == inputs[i]
  }

  lemma ProjectAppend(out: seq<Record>, tags: seq<nat>, r: Record, t: nat, i: nat)
    requires |out| == |tags|
    ensures Project(out + [r], tags + [t], i) == Project(out, tags, i) + if t == i then [r] else []
  {
    assert (out + [r])[..|out|] == out && (tags + [t])[..|out|] == tags;
  }

  function Flatten(inputs: seq<seq<Record>>): seq<Record> {
    if inputs == [] then [] else Flatten(inputs[..|inputs| - 1]) + inputs[|inputs| - 1]
  }

  function Projections(out: seq<Record>, tags: seq<nat>, n: nat): seq<seq<Record>>
    requires |out| == |tags|
  {
    seq(n, i requires 0 <= i < n => Project(out, tags, i))
  }

  lemma {:induction false} FlattenEmpty(out: seq<Record>, tags: seq<nat>, n: nat)
    requires out == [] && tags == []
    ensures Flatten(Projections(out, tags, n)) == []
  {
    if n > 0 {
      FlattenEmpty(out, tags, n - 1);
      assert Projections(out, tags, n)[..n - 1] == Projections(out, tags, n - 1);
    }
  }

  /** Appending one tagged record adds that record to the flattened projections. */
  lemma {:induction false} FlattenAppend(out: seq<Record>, tags: seq<nat>, r: Record, t: nat, n: nat)
    requires |out| == |tags|
    ensures multiset(Flatten(Projections(out + [r], tags + [t], n)))
            == multiset(Flatten(Projections(out, tags, n))) + if t < n then multiset{r} else multiset{}
  {
    if n > 0 {
      var a, b := Projections(out, tags, n), Projections(out + [r], tags + [t], n);
      assert a[..n - 1] == Projections(out, tags, n - 1) && b[..n - 1] == Projections(out + [r], tags + [t], n - 1);
      FlattenAppend(out, tags, r, t, n - 1);
      ProjectAppend(out, tags, r, t, n - 1);
    }
  }

  /** An interleaving loses nothing and repeats nothing. */
  lemma {:induction false} InterleavingKeepsAll(out: seq<Record>, tags: seq<nat>, n: nat)
    requires |out| == |tags| && forall k :: 0 <= k < |tags| ==> tags[k] < n
    ensures multiset(Flatten(Projections(out, tags, n))) == multiset(out)
  {
    if out == [] {
      FlattenEmpty(out, tags, n);
    } else {
      var k := |out| - 1;
      var o, t, r, tag := out[..k], tags[..k], out[k], tags[k];
      assert out == o + [r] && tags == t + [tag];
      InterleavingKeepsAll(o, t, n);
      FlattenAppend(o, t, r, tag, n);
      assert multiset(o + [r]) == multiset(o) + multiset{r};
    }
  }

  lemma InterleavedContent(out: seq<Record>, tags: seq<nat>, inputs: seq<seq<Record>>)
    requires Interleaves(out, tags, inputs)
    ensures multiset(out) == multiset(Flatten(inputs))
  {
    assert Projections(out, tags, |inputs|) == inputs;
    InterleavingKeepsAll(out, tags, |inputs|);
  }

  // ---------------------------------------------------------------- iterators

  /** A record.Iterator: what it will still deliver, its current record, and whether it ends in a read error. */
  datatype Stream = Stream(rest: seq<Record>, cur: Option<Record>, failing: bool)

  function Advance(s: Stream): Stream {
    if s.rest == [] then s else Stream(s.rest[1..], Some(s.rest[0]), s.failing)
  }

  function ItemOf(r: Record, i: nat): HeapItem {
    HeapItem(r.ts, r.src, i)
  }

  lemma ItemOrder(r: Record, i: nat, x: Record, j: nat)
    ensures Le(ItemOf(r, i), ItemOf(x, j)) <==> KeyLe(r, x)
  {}

  ghost predicate AllSorted(inputs: seq<seq<Record>>) {
    forall i {:trigger Sorted(inputs[i])} :: 0 <= i < |inputs| ==> Sorted(inputs[i])
  }

  lemma AllSortedConcat(a: seq<seq<Record>>, b: seq<seq<Record>>)
    requires AllSorted(a) && AllSorted(b)
    ensures AllSorted(a + b)
  {
    forall i | 0 <= i < |a + b|
      ensures Sorted((a + b)[i])
    {
      if i < |a| { assert Sorted(a[i]); } else { assert Sorted(b[i - |a|]); }
    }
  }

  /** Exactly the waiting iterators have an item in the heap, and it shows their current record. */
  ghost predicate Matches(h: multiset<HeapItem>, streams: seq<Stream>, waiting: set<nat>) {
    (forall i :: i in waiting ==> i < |streams| && streams[i].cur.Some? && h[ItemOf(streams[i].cur.value, i)] == 1)
    && forall x :: x in h ==> x.index in waiting && x == ItemOf(streams[x.index].cur.value, x.index)
  }

  /** The record an iterator has in the heap. */
  function Head(s: Stream, waiting: bool): seq<Record> {
    if waiting && s.cur.Some? then [s.cur.value] else []
  }

  /** What each input has given out, plus its record in the heap, plus what it still holds, is that input. */
  ghost predicate Balanced(out: seq<Record>, tags: seq<nat>, streams: seq<Stream>, waiting: set<nat>,
                           inputs: seq<seq<Record>>) {
    |streams| == |inputs| && |out| == |tags|
    && (forall k :: 0 <= k < |tags| ==> tags[k] < |inputs|)
    && forall i {:trigger Project(out, tags, i)} :: 0 <= i < |streams| ==>
         Project(out, tags, i) + Head(streams[i], i in waiting) + streams[i].rest == inputs[i]
  }

  /** Nothing in out belongs after the current record of stream i. */
  ghost predicate Follows(out: seq<Record>, streams: seq<Stream>, i: nat) {
    i < |streams| && streams[i].cur.Some? && forall k :: 0 <= k < |out| ==> KeyLe(out[k], streams[i].cur.value)
  }

  /** The output is sorted and no record in the heap belongs before it. */
  ghost predicate InOrder(out: seq<Record>, streams: seq<Stream>, waiting: set<nat>) {
    Sorted(out)
    && forall i {:trigger Follows(out, streams, i)} :: i in waiting ==> Follows(out, streams, i)
  }

  /** The current iterator shows the last record given out. */
  ghost predicate ShowsLast(out: seq<Record>, tags: seq<nat>, streams: seq<Stream>, c: nat) {
    c < |streams| && out != [] && |tags| == |out| && tags[|out| - 1] == c && streams[c].cur == Some(out[|out| - 1])
  }

  // ---------------------------------------------------------------- the two halves of Next

  lemma PushMatches(h: multiset<HeapItem>, streams: seq<Stream>, waiting: set<nat>, c: nat, t: Stream)
    requires Matches(h, streams, waiting) && c < |streams| && c !in waiting && t.cur.Some?
    ensures Matches(h + multiset{ItemOf(t.cur.value, c)}, streams[c := t], waiting + {c})
  {
    var x := ItemOf(t.cur.value, c);
    assert x !in h;
  }

  lemma PopMatches(h: multiset<HeapItem>, h': multiset<HeapItem>, x: HeapItem, streams: seq<Stream>, waiting: set<nat>)
    requires Matches(h, streams, waiting) && h' + multiset{x} == h
    ensures x.index in waiting && x.index < |streams| && streams[x.index].cur.Some?
    ensures x == ItemOf(streams[x.index].cur.value, x.index)
    ensures Matches(h', streams, waiting - {x.index})
  {
    assert x in h;
    forall y | y in h'
      ensures y.index in waiting - {x.index}
    {
      assert y in h;
      assert h[x] == h'[x] + 1;
    }
    forall i | i in waiting - {x.index}
      ensures h'[ItemOf(streams[i].cur.value, i)] == 1
    {
      var y := ItemOf(streams[i].cur.value, i);
      assert h[y] == h'[y] + multiset{x}[y];
    }
  }

  lemma AdvanceBalanced(out: seq<Record>, tags: seq<nat>, streams: seq<Stream>, waiting: set<nat>,
                        inputs: seq<seq<Record>>, c: nat)
    requires Balanced(out, tags, streams, waiting, inputs) && c < |streams| && c !in waiting && streams[c].rest != []
    ensures Balanced(out, tags, streams[c := Advance(streams[c])], waiting + {c}, inputs)
  {
    var t := Advance(streams[c]);
    var streams', waiting' := streams[c := t], waiting + {c};
    assert streams[c].rest == [t.cur.value] + t.rest;
    forall i | 0 <= i < |streams'|
      ensures Project(out, tags, i) + Head(streams'[i], i in waiting') + streams'[i].rest == inputs[i]
    {
      if i == c {
        var p := Project(out, tags, c);
        assert p + [] + streams[c].rest == p + [t.cur.value] + t.rest;
      } else {
        assert streams'[i] == streams[i] && (i in waiting' <==> i in waiting);
      }
    }
  }

  /** The next record of the current iterator is not before anything given out. */
  lemma AdvanceInOrder(out: seq<Record>, tags: seq<nat>, streams: seq<Stream>, waiting: set<nat>,
                       inputs: seq<seq<Record>>, c: nat)
    requires AllSorted(inputs) && Balanced(out, tags, streams, waiting, inputs) && InOrder(out, streams, waiting)
    requires ShowsLast(out, tags, streams, c) && c !in waiting && streams[c].rest != []
    ensures InOrder(out, streams[c := Advance(streams[c])], waiting + {c})
  {
    var n := |out| - 1;
    var r := streams[c].rest[0];
    var p := Project(out[..n], tags[..n], c);
    assert Sorted(inputs[c]);
    assert Project(out, tags, c) == p + [out[n]];
    assert inputs[c] == p + [out[n]] + [] + streams[c].rest;
    assert inputs[c][|p|] == out[n] && inputs[c][|p| + 1] == r;
    forall k | 0 <= k < |out|
      ensures KeyLe(out[k], r)
    {
      if k < n { KeyTransitive(out[k], out[n], r); }
    }
    var streams' := streams[c := Advance(streams[c])];
    forall i | i in waiting + {c}
      ensures Follows(out, streams', i)
    {
      if i != c { assert Follows(out, streams, i); }
    }
  }

  lemma EmitBalanced(out: seq<Record>, tags: seq<nat>, streams: seq<Stream>, waiting: set<nat>,
                     inputs: seq<seq<Record>>, c: nat)
    requires Balanced(out, tags, streams, waiting, inputs) && c in waiting && c < |streams| && streams[c].cur.Some?
    ensures Balanced(out + [streams[c].cur.value], tags + [c], streams, waiting - {c}, inputs)
  {
    var r := streams[c].cur.value;
    forall i | 0 <= i < |streams|
      ensures Project(out + [r], tags + [c], i) + Head(streams[i], i in waiting - {c}) + streams[i].rest == inputs[i]
    {
      ProjectAppend(out, tags, r, c, i);
      var p := Project(out, tags, i);
      if i == c {
        assert (p + [r]) + [] + streams[i].rest == p + [r] + streams[i].rest;
      } else {
        assert p + [] == p;
      }
    }
  }

  lemma EmitInOrder(out: seq<Record>, streams: seq<Stream>, waiting: set<nat>, c: nat)
    requires InOrder(out, streams, waiting) && c in waiting && c < |streams| && streams[c].cur.Some?
    requires forall i :: i in waiting ==>
               i < |streams| && streams[i].cur.Some? && KeyLe(streams[c].cur.value, streams[i].cur.value)
    ensures InOrder(out + [streams[c].cur.value], streams, waiting - {c})
  {
    assert Follows(out, streams, c);
    SortedAppend(out, streams[c].cur.value);
    forall i | i in waiting - {c}
      ensures Follows(out + [streams[c].cur.value], streams, i)
    {
      assert Follows(out, streams, i);
    }
  }

  /** Nothing waiting, nothing left: the output interleaves the inputs. */
  lemma ExhaustedInterleaves(out: seq<Record>, tags: seq<nat>, streams: seq<Stream>, inputs: seq<seq<Record>>)
    requires Balanced(out, tags, streams, {}, inputs) && forall i :: 0 <= i < |streams| ==> streams[i].rest == []
    ensures Interleaves(out, tags, inputs)
  {
    forall i | 0 <= i < |inputs|
      ensures Project(out, tags, i) == inputs[i]
    {
      assert Project(out, tags, i) + [] + [] == Project(out, tags, i);
    }
  }

  function Unread(streams: seq<Stream>): nat {
    if streams == [] then 0 else Unread(streams[..|streams| - 1]) + |streams[|streams| - 1].rest|
  }

  lemma {:induction false} UnreadAdvance(streams: seq<Stream>, c: nat)
    requires c < |streams| && streams[c].rest != []
    ensures Unread(streams[c := Advance(streams[c])]) == Unread(streams) - 1
  {
    var n := |streams| - 1;
    var streams' := streams[c := Advance(streams[c])];
    if c == n {
      assert streams'[..n] == streams[..n];
    } else {
      assert streams'[..n] == streams[..n][c := Advance(streams[c])];
      UnreadAdvance(streams[..n], c);
    }
  }

  // ---------------------------------------------------------------- the iterator's state, as a value

  datatype Picture = Picture(h: seq<HeapItem>, streams: seq<Stream>, curIdx: int, out: seq<Record>, tags: seq<nat>,
                             waiting: set<nat>)

  /** Every iterator that is neither waiting nor current has nothing more to give. */
  ghost predicate Spent(streams: seq<Stream>, waiting: set<nat>, curIdx: int) {
    forall i :: 0 <= i < |streams| && i !in waiting && i != curIdx ==> streams[i].rest == []
  }

  /** Holds also between the two halves of Next. */
  ghost predicate Core(inputs: seq<seq<Record>>, v: Picture) {
    AllSorted(inputs) && IsHeap(v.h) && Matches(multiset(v.h), v.streams, v.waiting)
    && Balanced(v.out, v.tags, v.streams, v.waiting, inputs) && InOrder(v.out, v.streams, v.waiting)
    && -1 <= v.curIdx < |v.streams|
    && Spent(v.streams, v.waiting, v.curIdx)
  }

  /** Between calls the current iterator is not in the heap. */
  ghost predicate Steady(inputs: seq<seq<Record>>, v: Picture) {
    Core(inputs, v) && (v.curIdx >= 0 ==> v.curIdx !in v.waiting && ShowsLast(v.out, v.tags, v.streams, v.curIdx))
  }

  /** How many records are still to come. */
  ghost function ToCome(v: Picture): nat {
    Unread(v.streams) + |v.waiting|
  }

  // ---------------------------------------------------------------- errors

  ghost predicate NoFailure(failing: seq<bool>) {
    forall i {:trigger failing[i]} :: 0 <= i < |failing| ==> !failing[i]
  }

  ghost predicate Flags(streams: seq<Stream>, failing: seq<bool>) {
    |streams| == |failing|
    && forall i {:trigger streams[i].failing} {:trigger failing[i]} :: 0 <= i < |streams| ==>
         streams[i].failing == failing[i]
  }

  /** Of the first n iterators, a failing one that has nothing in the heap and is not the excepted one has been asked
      once too often, and its error was recorded; no error was made up. */
  ghost predicate Reported(failing: seq<bool>, n: nat, waiting: set<nat>, except: int, err: bool) {
    n <= |failing|
    && (forall i {:trigger failing[i]} :: 0 <= i < n && failing[i] && i !in waiting && i != except ==> err)
    && (err ==> !NoFailure(failing))
  }

  lemma FlagsAfter(streams: seq<Stream>, failing: seq<bool>, c: nat)
    requires Flags(streams, failing) && c < |streams|
    ensures Flags(streams[c := Advance(streams[c])], failing)
  {}

  /** An iterator that fails before its first record is never in the heap. */
  lemma EmptyNeverWaits(inputs: seq<seq<Record>>, v: Picture, i: nat)
    requires Core(inputs, v) && v.out == [] && i < |inputs| && inputs[i] == []
    ensures i !in v.waiting
  {
    assert Project(v.out, v.tags, i) + Head(v.streams[i], i in v.waiting) + v.streams[i].rest == inputs[i];
  }

  /** The current iterator's next record goes into the heap. */
  ghost function Advanced(v: Picture, h: seq<HeapItem>): Picture
    requires 0 <= v.curIdx < |v.streams|
  {
    v.(h := h, streams := v.streams[v.curIdx := Advance(v.streams[v.curIdx])], waiting := v.waiting + {v.curIdx})
  }

  lemma AdvanceKeeps(inputs: seq<seq<Record>>, v: Picture, h: seq<HeapItem>)
    requires Steady(inputs, v) && v.curIdx >= 0 && v.streams[v.curIdx].rest != [] && IsHeap(h)
    requires multiset(h) == multiset(v.h) + multiset{ItemOf(v.streams[v.curIdx].rest[0], v.curIdx)}
    ensures Core(inputs, Advanced(v, h)) && ToCome(Advanced(v, h)) == ToCome(v)
  {
    var c := v.curIdx;
    PushMatches(multiset(v.h), v.streams, v.waiting, c, Advance(v.streams[c]));
    AdvanceBalanced(v.out, v.tags, v.streams, v.waiting, inputs, c);
    AdvanceInOrder(v.out, v.tags, v.streams, v.waiting, inputs, c);
    UnreadAdvance(v.streams, c);
  }

  /** The least item's iterator becomes current and its record is given out. */
  ghost function Emitted(v: Picture, h: seq<HeapItem>, x: HeapItem): Picture
    requires x.index < |v.streams| && v.streams[x.index].cur.Some?
  {
    var c := x.index;
    Picture(h, v.streams, c, v.out + [v.streams[c].cur.value], v.tags + [c], v.waiting - {c})
  }

  lemma EmitKeeps(inputs: seq<seq<Record>>, v: Picture, h: seq<HeapItem>, x: HeapItem)
    requires Core(inputs, v) && IsHeap(h) && multiset(h) + multiset{x} == multiset(v.h)
    requires forall y :: y in v.h ==> Le(x, y)
    requires v.curIdx < 0 || v.curIdx in v.waiting || v.streams[v.curIdx].rest == []
    ensures x.index < |v.streams| && v.streams[x.index].cur.Some?
    ensures Steady(inputs, Emitted(v, h, x)) && ToCome(Emitted(v, h, x)) < ToCome(v)
  {
    PopMatches(multiset(v.h), multiset(h), x, v.streams, v.waiting);
    var c := x.index;
    var r := v.streams[c].cur.value;
    forall i | i in v.waiting
      ensures KeyLe(r, v.streams[i].cur.value)
    {
      ItemOrder(r, c, v.streams[i].cur.value, i);
      assert ItemOf(v.streams[i].cur.value, i) in multiset(v.h);
    }
    EmitBalanced(v.out, v.tags, v.streams, v.waiting, inputs, c);
    EmitInOrder(v.out, v.streams, v.waiting, c);
  }

  lemma EndInterleaves(inputs: seq<seq<Record>>, v: Picture)
    requires Core(inputs, v) && v.h == [] && (v.curIdx < 0 || v.curIdx in v.waiting || v.streams[v.curIdx].rest == [])
    ensures Interleaves(v.out, v.tags, inputs) && v.waiting == {}
  {
    assert forall i :: i in v.waiting ==> multiset(v.h)[ItemOf(v.streams[i].cur.value, i)] == 1;
    ExhaustedInterleaves(v.out, v.tags, v.streams, inputs);
  }

  // ---------------------------------------------------------------- priming

  /** The first n iterators have been asked for their first record. */
  ghost predicate Primed(inputs: seq<seq<Record>>, v: Picture, n: nat) {
    AllSorted(inputs) && IsHeap(v.h) && Matches(multiset(v.h), v.streams, v.waiting)
    && Balanced([], [], v.streams, v.waiting, inputs) && v.out == [] && v.tags == [] && v.curIdx == -1
    && n <= |v.streams|
    && (forall j :: n <= j < |v.streams| ==> j !in v.waiting)
    && forall j :: 0 <= j < n && j !in v.waiting ==> v.streams[j].rest == []
  }

  ghost function PrimedBy(v: Picture, n: nat, h: seq<HeapItem>): Picture
    requires n < |v.streams|
  {
    v.(h := h, streams := v.streams[n := Advance(v.streams[n])], waiting := v.waiting + {n})
  }

  lemma PrimeSkips(inputs: seq<seq<Record>>, v: Picture, n: nat)
    requires Primed(inputs, v, n) && n < |v.streams| && v.streams[n].rest == []
    ensures Primed(inputs, v, n + 1)
  {}

  lemma PrimeKeeps(inputs: seq<seq<Record>>, v: Picture, n: nat, h: seq<HeapItem>)
    requires Primed(inputs, v, n) && n < |v.streams| && v.streams[n].rest != [] && IsHeap(h)
    requires multiset(h) == multiset(v.h) + multiset{ItemOf(v.streams[n].rest[0], n)}
    ensures Primed(inputs, PrimedBy(v, n, h), n + 1)
  {
    PushMatches(multiset(v.h), v.streams, v.waiting, n, Advance(v.streams[n]));
    AdvanceBalanced([], [], v.streams, v.waiting, inputs, n);
  }

  lemma StartBalanced(streams: seq<Stream>, inputs: seq<seq<Record>>)
    requires |streams| == |inputs| && forall i :: 0 <= i < |streams| ==> streams[i].rest == inputs[i]
    ensures Balanced([], [], streams, {}, inputs)
  {
    forall i | 0 <= i < |streams|
      ensures Project([], [], i) + Head(streams[i], false) + streams[i].rest == inputs[i]
    {
      assert [] + [] + inputs[i] == inputs[i];
    }
  }

  // ---------------------------------------------------------------- the iterator

  class MergeIterator {
    const heap: MinHeap
    var streams: seq<Stream>
    var curIdx: int
    var err: bool
    ghost const inputs: seq<seq<Record>>
    /** Which inputs end in a read error. */
    ghost const failing: seq<bool>
    ghost var now: Picture

    /** The fields are those of the picture, which adds what has been given out and from where. */
    ghost predicate Pictured()
      reads this, heap
    {
      heap.h == now.h && streams == now.streams && curIdx == now.curIdx
    }

    ghost predicate Valid()
      reads this, heap
    {
      Pictured() && Steady(inputs, now) && Told(curIdx)
    }

    /** Every failure met so far, but for that of the excepted iterator, is in err. */
    ghost predicate Told(except: int)
      reads this
    {
      Flags(streams, failing) && Reported(failing, |failing|, now.waiting, except, err)
    }

    predicate Showing()
      reads this
    {
      0 <= curIdx < |streams| && streams[curIdx].cur.Some?
    }

    /** View: the current record of the current iterator. */
    function View(): Record
      requires Showing()
      reads this
    {
      streams[curIdx].cur.value
    }

    /** newMergeIterator: prime every iterator and push its first record. */
    constructor (inputs: seq<seq<Record>>, failing: seq<bool>)
      requires AllSorted(inputs) && |failing| == |inputs|
      ensures Valid() && this.inputs == inputs && this.failing == failing && now.out == [] && fresh(heap)
      ensures forall i :: 0 <= i < |inputs| && failing[i] && inputs[i] == [] ==> err
    {
      heap := new MinHeap();
      streams := seq(|inputs|, i requires 0 <= i < |inputs| && |failing| == |inputs| =>
                       Stream(inputs[i], None, failing[i]));
      curIdx, err := -1, false;
      this.inputs, this.failing := inputs, failing;
      new;
      heap.Init();
      now := Picture(heap.h, streams, curIdx, [], [], {});
      StartBalanced(streams, inputs);
      for i := 0 to |inputs|
        invariant |streams| == |inputs| && Pictured() && Primed(inputs, now, i)
        invariant Flags(streams, failing) && Reported(failing, i, now.waiting, -1, err)
      {
        Prime(i);
      }
      forall i | 0 <= i < |inputs| && failing[i] && inputs[i] == []
        ensures err
      {
        EmptyNeverWaits(inputs, now, i);
      }
    }

    method Prime(i: nat)
      requires i < |streams| && Pictured() && Primed(inputs, now, i)
      requires Flags(streams, failing) && Reported(failing, i, now.waiting, -1, err)
      modifies this, heap
      ensures |streams| == old(|streams|) && Pictured() && Primed(inputs, now, i + 1)
      ensures Flags(streams, failing) && Reported(failing, i + 1, now.waiting, -1, err)
    {
      ghost var v := now;
      if streams[i].rest != [] {
        heap.Push(ItemOf(streams[i].rest[0], i));
        PrimeKeeps(inputs, v, i, heap.h);
        FlagsAfter(streams, failing, i);
        ghost var w := PrimedBy(v, i, heap.h);
        streams := streams[i := Advance(streams[i])];
        now := w;
      } else {
        PrimeSkips(inputs, v, i);
        assert streams[i].failing == failing[i];
        if streams[i].failing { err := true; }
      }
    }

    /** False when exhausted or failed; with no error, false means that every input was drained and none failed. */
    method Next() returns (ok: bool)
      requires Valid()
      modifies this, heap
      ensures Valid()
      ensures ok ==> Showing() && now.out == old(now.out) + [View()] && ToCome(now) < old(ToCome(now))
      ensures !ok ==> now.out == old(now.out)
      ensures old(err) ==> !ok && err
      ensures !ok && !err ==> Interleaves(now.out, now.tags, inputs) && NoFailure(failing)
    {
      if err { return false; }
      if curIdx >= 0 { AdvanceCurrent(); }
      if |heap.h| == 0 {
        EndInterleaves(inputs, now);
        return false;
      }
      Emit();
      return true;
    }

    /** Advance the previously current iterator and enqueue its next record. */
    method AdvanceCurrent()
      requires Valid() && curIdx >= 0
      modifies this, heap
      ensures Pictured() && Core(inputs, now) && now.out == old(now.out) && ToCome(now) == old(ToCome(now))
      ensures curIdx == old(curIdx) && (curIdx in now.waiting || (streams[curIdx].rest == [] && Valid()))
      ensures curIdx in now.waiting ==> heap.h != []
      ensures Told(-1)
    {
      if streams[curIdx].rest != [] {
        ghost var v := now;
        FlagsAfter(streams, failing, curIdx);
        Requeue();
        AdvanceKeeps(inputs, v, heap.h);
      } else {
        assert streams[curIdx].failing == failing[curIdx];
        if streams[curIdx].failing { err := true; }
      }
    }

    method Requeue()
      requires Pictured() && IsHeap(heap.h) && 0 <= curIdx < |streams| && streams[curIdx].rest != []
      modifies this, heap
      ensures Pictured() && now == Advanced(old(now), heap.h) && err == old(err)
      ensures IsHeap(heap.h) && heap.h != []
      ensures multiset(heap.h) == old(multiset(heap.h) + multiset{ItemOf(streams[curIdx].rest[0], curIdx)})
    {
      heap.Push(ItemOf(streams[curIdx].rest[0], curIdx));
      now := Advanced(now, heap.h);
      streams := streams[curIdx := Advance(streams[curIdx])];
    }

    /** Pop the least item and make its iterator current. */
    method Emit()
      requires Pictured() && Core(inputs, now) && heap.h != []
      requires (curIdx < 0 || curIdx in now.waiting || streams[curIdx].rest == []) && Told(-1)
      modifies this, heap
      ensures Valid() && streams == old(streams) && err == old(err)
      ensures Showing() && now.out == old(now.out) + [View()] && ToCome(now) < old(ToCome(now))
    {
      ghost var v := now;
      var x := heap.Pop();
      EmitKeeps(inputs, v, heap.h, x);
      ghost var w := Emitted(v, heap.h, x);
      curIdx := x.index;
      now := w;
    }
  }

  /** What Drain knows after each call of Next. */
  ghost predicate Drained(m: MergeIterator, records: seq<Record>, more: bool)
    reads m, m.heap
  {
    m.Valid() && if more then m.Showing() && m.now.out == records + [m.View()] else m.now.out == records
  }

  /** Draining any sorted iterators: sorted, and without an error exactly when none fails; then it is an interleaving of
      the inputs. */
  method Drain(inputs: seq<seq<Record>>, failing: seq<bool>)
    returns (records: seq<Record>, ok: bool, ghost tags: seq<nat>)
    requires AllSorted(inputs) && |failing| == |inputs|
    ensures Sorted(records) && InByteOrder(records)
    ensures ok <==> forall i :: 0 <= i < |failing| ==> !failing[i]
    ensures ok ==> Interleaves(records, tags, inputs)
  {
    var m := new MergeIterator(inputs, failing);
    records := [];
    var more := m.Next();
    while more
      invariant Drained(m, records, more) && fresh(m) && fresh(m.heap) && m.inputs == inputs && m.failing == failing
      invariant !more && !m.err ==> Interleaves(m.now.out, m.now.tags, inputs) && NoFailure(failing)
      decreases if more then ToCome(m.now) + 1 else 0
    {
      records := records + [m.View()];
      more := m.Next();
    }
    tags := m.now.tags;
    ok := !m.err;
    SortedIsByteOrder(records);
  }
}
