/** The k-way merge over live row iterators that share one block cache (internal/engine/merge.go): heap items keep the
    sources of blocks that the iterators have not left. */
module LiveMerge {
  import opened Bytes
  import opened Records
  import opened TableFormat
  import opened TableFile
  import opened Scans
  import opened Caching
  import opened RowScan
  import opened ScanPool
  import opened Heap
  import M = Merge

  /** Stream i of the picture is what iterator i has yet to deliver, and a waiting iterator still shows the record of
      its heap item. */
  ghost predicate Live(its: seq<ScanIterator>, v: M.Picture)
    reads *
  {
    |v.streams| == |its|
    && forall i {:trigger its[i]} :: 0 <= i < |its| ==>
         v.streams[i].rest == ToDeliver(its[i])
         && (i in v.waiting ==> v.streams[i].cur == Some(its[i].current) && its[i].Shows())
  }

  /** Iterator i has moved to its next record and waits. */
  twostate lemma MovedOn(its: seq<ScanIterator>, new i: nat, new v: M.Picture, new v': M.Picture)
    requires i < |its| && old(Live(its, v)) && OthersSame(its, i)
    requires old(ToDeliver(its[i])) == [its[i].current] + ToDeliver(its[i]) && its[i].Shows()
    requires v'.streams == v.streams[i := M.Advance(v.streams[i])] && v'.waiting == v.waiting + {i}
    ensures Live(its, v')
  {}

  /** Iterator i was found at its end. */
  twostate lemma Ended(its: seq<ScanIterator>, new i: nat, new v: M.Picture)
    requires i < |its| && old(Live(its, v)) && OthersSame(its, i) && i !in v.waiting
    requires old(ToDeliver(its[i])) == [] && ToDeliver(its[i]) == []
    ensures Live(its, v)
  {}

  /** Where an iterator's buffer is after some of them have moved. */
  twostate predicate OwnBuffers(its: seq<ScanIterator>)
    reads *
  {
    forall j {:trigger its[j]} :: 0 <= j < |its| ==>
      its[j].decompBuf == old(its[j].decompBuf) || fresh(its[j].decompBuf)
  }

  /** Asks iterator i for its next record, and puts it into the heap. */
  method Queue(its: seq<ScanIterator>, heap: MinHeap, i: nat, codec: Codec, cache: BlockCache?,
               ghost readers: set<Reader>)
    returns (ok: bool)
    requires Pool(its, codec, cache, readers) && i < |its| && IsHeap(heap.h)
    modifies its[i], its[i].decompBuf, cache, heap
    ensures Pool(its, codec, cache, readers) && OthersSame(its, i) && OwnBuffers(its) && IsHeap(heap.h)
    ensures ok ==> old(ToDeliver(its[i])) == [its[i].current] + ToDeliver(its[i]) && its[i].Shows() && heap.h != []
                   && multiset(heap.h) == old(multiset(heap.h)) + multiset{M.ItemOf(its[i].current, i)}
    ensures !ok ==> old(ToDeliver(its[i])) == [] && ToDeliver(its[i]) == [] && heap.h == old(heap.h)
  {
    ok := Advance(its, i, codec, cache, readers);
    if ok { Push(its, heap, M.ItemOf(its[i].current, i), codec, cache, readers); }
  }

  method Push(its: seq<ScanIterator>, heap: MinHeap, x: HeapItem, codec: Codec, cache: BlockCache?,
              ghost readers: set<Reader>)
    requires Pool(its, codec, cache, readers) && IsHeap(heap.h)
    modifies heap
    ensures Pool(its, codec, cache, readers) && IsHeap(heap.h) && heap.h != []
    ensures multiset(heap.h) == old(multiset(heap.h)) + multiset{x}
  {
    heap.Push(x);
    StillApart(its);
    assert forall i {:trigger its[i]} :: 0 <= i < |its| ==> old(Member(its[i], codec, cache, readers));
  }

  method Pop(its: seq<ScanIterator>, heap: MinHeap, codec: Codec, cache: BlockCache?, ghost readers: set<Reader>)
    returns (x: HeapItem)
    requires Pool(its, codec, cache, readers) && IsHeap(heap.h) && heap.h != []
    modifies heap
    ensures Pool(its, codec, cache, readers) && IsHeap(heap.h)
    ensures multiset(heap.h) + multiset{x} == old(multiset(heap.h)) && forall y :: y in old(heap.h) ==> Le(x, y)
  {
    x := heap.Pop();
    StillApart(its);
    assert forall i {:trigger its[i]} :: 0 <= i < |its| ==> old(Member(its[i], codec, cache, readers));
  }

  twostate lemma StillApart(its: seq<ScanIterator>)
    requires old(AllApart(its)) && forall i {:trigger its[i]} :: 0 <= i < |its| ==> unchanged(its[i])
    ensures AllApart(its)
  {
    forall i, j | 0 <= i < |its| && 0 <= j < |its| && i != j
      ensures Apart(its[i], its[j])
    {
      assert old(Apart(its[i], its[j]));
    }
  }

  /** Everything the merge relies on between the two halves of Next. */
  ghost predicate Between(its: seq<ScanIterator>, heap: MinHeap, inputs: seq<seq<Record>>, v: M.Picture)
    reads *
  {
    heap.h == v.h && M.Core(inputs, v) && Live(its, v)
    && (v.curIdx < 0 || v.curIdx in v.waiting || v.streams[v.curIdx].rest == [])
  }

  /** Between two calls of Next. */
  ghost predicate Steady(its: seq<ScanIterator>, heap: MinHeap, cur: int, inputs: seq<seq<Record>>, v: M.Picture)
    reads *
  {
    heap.h == v.h && M.Steady(inputs, v) && Live(its, v) && v.curIdx == cur
  }

  method Prime(its: seq<ScanIterator>, heap: MinHeap, i: nat, codec: Codec, cache: BlockCache?,
               ghost readers: set<Reader>, ghost inputs: seq<seq<Record>>, ghost v: M.Picture)
    returns (ghost v': M.Picture)
    requires Pool(its, codec, cache, readers) && i < |its|
    requires heap.h == v.h && M.Primed(inputs, v, i) && Live(its, v)
    modifies its[i], its[i].decompBuf, cache, heap
    ensures Pool(its, codec, cache, readers) && OwnBuffers(its)
    ensures heap.h == v'.h && M.Primed(inputs, v', i + 1) && Live(its, v')
  {
    assert v.streams[i].rest == ToDeliver(its[i]);
    var ok := Queue(its, heap, i, codec, cache, readers);
    if ok {
      M.PrimeKeeps(inputs, v, i, heap.h);
      v' := M.PrimedBy(v, i, heap.h);
      MovedOn(its, i, v, v');
    } else {
      M.PrimeSkips(inputs, v, i);
      v' := v;
      Ended(its, i, v);
    }
  }

  /** The first half of Next: the current iterator moves on and is queued again. */
  method Requeue(its: seq<ScanIterator>, heap: MinHeap, cur: nat, codec: Codec, cache: BlockCache?,
                 ghost readers: set<Reader>, ghost inputs: seq<seq<Record>>, ghost v: M.Picture)
    returns (ghost v': M.Picture)
    requires Pool(its, codec, cache, readers) && cur < |its| && Steady(its, heap, cur, inputs, v)
    modifies its[cur], its[cur].decompBuf, cache, heap
    ensures Pool(its, codec, cache, readers) && OwnBuffers(its)
    ensures Between(its, heap, inputs, v') && v'.out == v.out && M.ToCome(v') == M.ToCome(v)
  {
    assert v.streams[cur].rest == ToDeliver(its[cur]);
    var ok := Queue(its, heap, cur, codec, cache, readers);
    if ok {
      M.AdvanceKeeps(inputs, v, heap.h);
      v' := M.Advanced(v, heap.h);
      MovedOn(its, cur, v, v');
    } else {
      v' := v;
      Ended(its, cur, v);
    }
  }

  /** The second half of Next: the iterator of the least item becomes current, and shows the record given out. */
  method Emit(its: seq<ScanIterator>, heap: MinHeap, codec: Codec, cache: BlockCache?, ghost readers: set<Reader>,
              ghost inputs: seq<seq<Record>>, ghost v: M.Picture) returns (cur: nat, ghost v': M.Picture)
    requires Pool(its, codec, cache, readers) && Between(its, heap, inputs, v) && heap.h != []
    modifies heap
    ensures Pool(its, codec, cache, readers) && cur < |its| && its[cur].Shows()
    ensures forall j {:trigger its[j]} :: 0 <= j < |its| ==> its[j].decompBuf == old(its[j].decompBuf)
    ensures Steady(its, heap, cur, inputs, v')
    ensures v'.out == v.out + [its[cur].current] && M.ToCome(v') < M.ToCome(v)
  {
    var x := Pop(its, heap, codec, cache, readers);
    Shown(its, inputs, v, heap.h, x);
    cur, v' := x.index, M.Emitted(v, heap.h, x);
  }

  /** The record given out is the one its iterator shows. */
  lemma Shown(its: seq<ScanIterator>, inputs: seq<seq<Record>>, v: M.Picture, h: seq<HeapItem>, x: HeapItem)
    requires Live(its, v) && M.Core(inputs, v) && IsHeap(h) && multiset(h) + multiset{x} == multiset(v.h)
    requires forall y :: y in v.h ==> Le(x, y)
    requires v.curIdx < 0 || v.curIdx in v.waiting || v.streams[v.curIdx].rest == []
    ensures x.index < |its| && its[x.index].Shows() && v.streams[x.index].cur == Some(its[x.index].current)
    ensures var v' := M.Emitted(v, h, x); M.Steady(inputs, v') && Live(its, v') && M.ToCome(v') < M.ToCome(v)
  {
    M.PopMatches(multiset(v.h), multiset(h), x, v.streams, v.waiting);
    M.EmitKeeps(inputs, v, h, x);
    assert its[x.index].Shows();
  }

  /** Next over live iterators. */
  method Next(its: seq<ScanIterator>, heap: MinHeap, cur: int, codec: Codec, cache: BlockCache?,
              ghost readers: set<Reader>, ghost inputs: seq<seq<Record>>, ghost v: M.Picture)
    returns (more: bool, cur': int, r: Record, ghost v': M.Picture)
    requires Pool(its, codec, cache, readers) && Steady(its, heap, cur, inputs, v)
    modifies set it | it in its, set it | it in its :: it.decompBuf, cache, heap
    ensures Pool(its, codec, cache, readers) && OwnBuffers(its)
    ensures more ==> Steady(its, heap, cur', inputs, v')
    ensures more ==> 0 <= cur' < |its| && its[cur'].Shows() && r == its[cur'].current
    ensures more ==> v'.out == v.out + [r] && M.ToCome(v') < M.ToCome(v)
    ensures !more ==> v'.out == v.out && Sorted(v.out) && M.Interleaves(v'.out, v'.tags, inputs)
  {
    ghost var w := Settle(its, heap, cur, codec, cache, readers, inputs, v);
    if |heap.h| == 0 {
      Exhausted(its, heap, inputs, w);
      return false, cur, Record(0, [], []), w;
    }
    more := true;
    cur', v' := Emit(its, heap, codec, cache, readers, inputs, w);
    r := its[cur'].current;
  }

  lemma Exhausted(its: seq<ScanIterator>, heap: MinHeap, inputs: seq<seq<Record>>, v: M.Picture)
    requires Between(its, heap, inputs, v) && heap.h == []
    ensures Sorted(v.out) && M.Interleaves(v.out, v.tags, inputs)
  {
    M.EndInterleaves(inputs, v);
  }

  method Settle(its: seq<ScanIterator>, heap: MinHeap, cur: int, codec: Codec, cache: BlockCache?,
                ghost readers: set<Reader>, ghost inputs: seq<seq<Record>>, ghost v: M.Picture)
    returns (ghost v': M.Picture)
    requires Pool(its, codec, cache, readers) && Steady(its, heap, cur, inputs, v)
    modifies set it | it in its, set it | it in its :: it.decompBuf, cache, heap
    ensures Pool(its, codec, cache, readers) && OwnBuffers(its)
    ensures Between(its, heap, inputs, v') && v'.out == v.out && M.ToCome(v') == M.ToCome(v)
  {
    if cur < 0 { return v; }
    v' := Requeue(its, heap, cur, codec, cache, readers, inputs, v);
  }

  /** The picture before the first record. */
  ghost function Start(lists: seq<seq<Record>>): M.Picture {
    M.Picture([], seq(|lists|, i requires 0 <= i < |lists| => M.Stream(lists[i], None, false)), -1, [], [], {})
  }

  lemma ListsSorted(its: seq<ScanIterator>, codec: Codec, cache: BlockCache?, readers: set<Reader>)
    requires Pool(its, codec, cache, readers)
    ensures M.AllSorted(Lists(its))
  {
    forall i | 0 <= i < |its|
      ensures Sorted(Lists(its)[i])
    {
      assert Member(its[i], codec, cache, readers);
      SelectSorted(its[i].Q(), its[i].unread);
    }
  }

  /** newMergeIterator: every iterator is asked for its first record. */
  method PrimeAll(its: seq<ScanIterator>, heap: MinHeap, codec: Codec, cache: BlockCache?, ghost readers: set<Reader>)
    returns (ghost v: M.Picture)
    requires Pool(its, codec, cache, readers) && heap.h == []
    modifies set it | it in its, set it | it in its :: it.decompBuf, cache, heap
    ensures Pool(its, codec, cache, readers) && OwnBuffers(its)
    ensures Steady(its, heap, -1, old(Lists(its)), v) && v.out == []
  {
    ghost var inputs := Lists(its);
    ListsSorted(its, codec, cache, readers);
    v := Start(inputs);
    StartPrimed(inputs);
    for i := 0 to |its|
      invariant Pool(its, codec, cache, readers) && OwnBuffers(its)
      invariant heap.h == v.h && M.Primed(inputs, v, i) && Live(its, v)
    {
      v := Prime(its, heap, i, codec, cache, readers, inputs, v);
    }
    AllPrimed(inputs, v);
  }

  lemma AllPrimed(inputs: seq<seq<Record>>, v: M.Picture)
    requires M.Primed(inputs, v, |v.streams|)
    ensures M.Steady(inputs, v)
  {}

  lemma StartPrimed(lists: seq<seq<Record>>)
    requires M.AllSorted(lists)
    ensures M.Primed(lists, Start(lists), 0)
  {
    M.StartBalanced(Start(lists).streams, lists);
  }

  method Drain(its: seq<ScanIterator>, heap: MinHeap, codec: Codec, cache: BlockCache?, ghost readers: set<Reader>,
               ghost inputs: seq<seq<Record>>, ghost start: M.Picture)
    returns (records: seq<Record>, ghost tags: seq<nat>)
    requires Pool(its, codec, cache, readers) && Steady(its, heap, -1, inputs, start) && start.out == []
    modifies set it | it in its, set it | it in its :: it.decompBuf, cache, heap
    ensures Pool(its, codec, cache, readers)
    ensures Sorted(records) && M.Interleaves(records, tags, inputs)
  {
    records, tags := [], [];
    var cur := -1;
    ghost var v := start;
    while true
      invariant Pool(its, codec, cache, readers) && OwnBuffers(its)
      invariant Steady(its, heap, cur, inputs, v) && v.out == records
      decreases M.ToCome(v)
    {
      var more, r;
      more, cur, r, v := Next(its, heap, cur, codec, cache, readers, inputs, v);
      if !more { return records, v.tags; }
      records := records + [r];
    }
  }

  /** Draining the merge of any pool of iterators, over any cache contents: sorted, and an interleaving of what the
      iterators would deliver each on its own. */
  method Merge(its: seq<ScanIterator>, codec: Codec, cache: BlockCache?, ghost readers: set<Reader>)
    returns (records: seq<Record>, ghost tags: seq<nat>)
    requires Pool(its, codec, cache, readers)
    modifies set it | it in its, set it | it in its :: it.decompBuf, cache
    ensures Pool(its, codec, cache, readers)
    ensures InByteOrder(records) && M.Interleaves(records, tags, old(Lists(its)))
  {
    var heap := new MinHeap();
    ghost var inputs := Lists(its);
    ghost var v := PrimeAll(its, heap, codec, cache, readers);
    records, tags := Drain(its, heap, codec, cache, readers, inputs, v);
    SortedIsByteOrder(records);
  }

  // ---------------------------------------------------------------- from files to the merged stream

  ghost predicate NoneEmpty(tables: seq<seq<seq<Record>>>) {
    forall i :: 0 <= i < |tables| ==> NoEmptyBlock(tables[i])
  }

  /** What the scan of each table delivers. */
  ghost function AllScans(tables: seq<seq<seq<Record>>>, q: Query): seq<seq<Record>>
    requires NoneEmpty(tables)
  {
    seq(|tables|, i requires 0 <= i < |tables| => Scanned(tables[i], q))
  }

  /** lists leaves out only empty ones of scans, and takes the others in their order. */
  ghost predicate Picks(lists: seq<seq<Record>>, of: seq<nat>, scans: seq<seq<Record>>) {
    |lists| == |of| && (forall k, l :: 0 <= k < l < |of| ==> of[k] < of[l])
    && (forall k :: 0 <= k < |of| ==> of[k] < |scans| && lists[k] == scans[of[k]])
    && forall i :: 0 <= i < |scans| && i !in of ==> scans[i] == []
  }

  lemma {:induction false} PicksFlatten(lists: seq<seq<Record>>, of: seq<nat>, scans: seq<seq<Record>>)
    requires Picks(lists, of, scans)
    ensures M.Flatten(lists) == M.Flatten(scans)
    decreases |scans|
  {
    if scans != [] {
      var n, m := |scans| - 1, |of| - 1;
      if of != [] && of[m] == n {
        PickLast(lists, of, scans);
        PicksFlatten(lists[..m], of[..m], scans[..n]);
      } else {
        assert n !in of && scans[n] == [];
        assert forall k :: 0 <= k < |of| ==> of[k] < n && scans[..n][of[k]] == scans[of[k]];
        PicksFlatten(lists, of, scans[..n]);
      }
    }
  }

  lemma PickLast(lists: seq<seq<Record>>, of: seq<nat>, scans: seq<seq<Record>>)
    requires Picks(lists, of, scans) && scans != [] && of != [] && of[|of| - 1] == |scans| - 1
    ensures Picks(lists[..|of| - 1], of[..|of| - 1], scans[..|scans| - 1])
    ensures lists[|of| - 1] == scans[|scans| - 1]
  {
    var n, m := |scans| - 1, |of| - 1;
    assert of == of[..m] + [n];
    assert forall k :: 0 <= k < m ==> of[k] < of[m];
  }

  /** Opening a scan on every file and merging them live: sorted, and exactly what the scans of the files deliver. */
  method ScanAll(codec: Codec, readers: seq<Reader>, start: Int64, end: Int64, sourceID: Data, cache: BlockCache?,
                 ghost tables: seq<seq<seq<Record>>>) returns (records: seq<Record>)
    requires |tables| == |readers| && Serves(codec, cache, AllOf(readers))
    requires forall i :: 0 <= i < |readers| ==> Represents(codec, readers[i], tables[i]) && !readers[i].version.columnar
    modifies cache
    ensures NoneEmpty(tables) && Serves(codec, cache, AllOf(readers))
    ensures InByteOrder(records)
    ensures multiset(records) == multiset(M.Flatten(AllScans(tables, Asked(start, end, sourceID))))
  {
    ghost var q := Asked(start, end, sourceID);
    var its;
    ghost var of, tags;
    its, of := OpenAll(codec, readers, start, end, sourceID, cache, tables);
    ghost var lists := Lists(its);
    records, tags := Merge(its, codec, cache, AllOf(readers));
    M.InterleavedContent(records, tags, lists);
    PicksFlatten(lists, of, AllScans(tables, q));
  }
}
