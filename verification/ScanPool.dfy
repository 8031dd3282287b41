/** Any number of row iterators over one block cache, advanced in any order (internal/sstable/reader.go,
    internal/engine/merge.go). */
module ScanPool {
  import opened Bytes
  import opened Records
  import opened TableFormat
  import opened TableFile
  import opened Scans
  import opened Caching
  import opened RowScan

  /** Two iterators that share nothing but the cache and the mapped files. */
  ghost predicate Apart(a: ScanIterator, b: ScanIterator)
    reads a, b
  {
    a != b && a.decompBuf != b.decompBuf && a.decompBuf != b.blockData && b.decompBuf != a.blockData
  }

  /** One iterator of the pool: a table reader that the shared cache serves. */
  ghost predicate Member(it: ScanIterator, codec: Codec, cache: BlockCache?, readers: set<Reader>)
    reads it, it.blockData, Shared(it.cache)
  {
    it.Valid() && it.codec == codec && it.cache == cache && it.rd in readers
  }

  /** What an iterator has yet to deliver. */
  ghost function ToDeliver(it: ScanIterator): seq<Record>
    reads it
  {
    Select(it.Q(), it.unread)
  }

  ghost predicate Members(its: seq<ScanIterator>, codec: Codec, cache: BlockCache?, readers: set<Reader>)
    reads *
  {
    forall i {:trigger Member(its[i], codec, cache, readers)} :: 0 <= i < |its| ==>
      Member(its[i], codec, cache, readers)
  }

  ghost predicate AllApart(its: seq<ScanIterator>)
    reads *
  {
    forall i, j {:trigger Apart(its[i], its[j])} :: 0 <= i < |its| && 0 <= j < |its| && i != j ==> Apart(its[i], its[j])
  }

  /** The pool: every iterator valid, any two of them apart, and the cache true to all files. */
  ghost predicate Pool(its: seq<ScanIterator>, codec: Codec, cache: BlockCache?, readers: set<Reader>)
    reads *
  {
    Serves(codec, cache, readers) && Members(its, codec, cache, readers) && AllApart(its)
  }

  twostate predicate Untouched(b: ScanIterator)
    reads b, b.blockData
  {
    b.blockIdx == old(b.blockIdx) && b.blockData == old(b.blockData) && b.blockLen == old(b.blockLen)
    && b.decompBuf == old(b.decompBuf) && b.blockOff == old(b.blockOff) && b.blockRem == old(b.blockRem)
    && b.current == old(b.current) && b.err == old(b.err) && b.unread == old(b.unread) && b.viewOff == old(b.viewOff)
    && b.blockData[..] == old(b.blockData[..])
  }

  /** An iterator that nobody touched is still valid when another one has moved on, and still apart from it. */
  twostate lemma OtherStays(its: seq<ScanIterator>, new i: nat, new j: nat, new codec: Codec, new readers: set<Reader>)
    requires i < |its| && j < |its|
    requires old(Member(its[i], codec, its[i].cache, readers)) && old(Member(its[j], codec, its[i].cache, readers))
    requires old(Apart(its[i], its[j])) && Untouched(its[j]) && its[i].Confined()
             && Serves(codec, its[i].cache, readers)
    ensures Stayed(its, i, j, codec, its[i].cache, readers)
  {
    var b := its[j];
    if b.cache != null { assert Faithful(codec, b.rd, b.cache); }
    var n := b.blockLen;
    assert n <= b.blockData.Length ==>
             b.blockData[..n] == b.blockData[..][..n] && old(b.blockData[..n]) == old(b.blockData[..])[..n];
  }

  /** What becomes of iterator j when i moves. */
  twostate predicate Stayed(its: seq<ScanIterator>, i: nat, j: nat, codec: Codec, cache: BlockCache?,
                            readers: set<Reader>)
    requires i < |its| && j < |its|
    reads *
  {
    Member(its[j], codec, cache, readers) && Apart(its[i], its[j]) && ToDeliver(its[j]) == old(ToDeliver(its[j]))
    && its[j].current == old(its[j].current) && (old(its[j].Shows()) ==> its[j].Shows())
  }

  /** Nobody but iterator i was touched. */
  twostate predicate OnlyMoved(its: seq<ScanIterator>, i: nat)
    reads *
  {
    forall j {:trigger its[j]} :: 0 <= j < |its| && j != i ==> Untouched(its[j])
  }

  /** The others deliver and show what they did. */
  twostate predicate OthersSame(its: seq<ScanIterator>, i: nat)
    reads *
  {
    forall j {:trigger its[j]} :: 0 <= j < |its| && j != i ==>
      ToDeliver(its[j]) == old(ToDeliver(its[j])) && its[j].current == old(its[j].current)
      && (old(its[j].Shows()) ==> its[j].Shows())
  }

  twostate lemma {:induction false} AllStay(its: seq<ScanIterator>, new i: nat, new n: nat, new codec: Codec,
                                            new readers: set<Reader>)
    requires i < |its| && n <= |its| && OnlyMoved(its, i)
    requires old(Members(its, codec, its[i].cache, readers)) && old(AllApart(its))
    requires its[i].Confined() && Serves(codec, its[i].cache, readers)
    ensures forall j {:trigger Stayed(its, i, j, codec, its[i].cache, readers)} ::
              0 <= j < n && j != i ==> Stayed(its, i, j, codec, its[i].cache, readers)
  {
    if n > 0 {
      AllStay(its, i, n - 1, codec, readers);
      if n - 1 != i {
        assert old(Member(its[i], codec, its[i].cache, readers))
               && old(Member(its[n - 1], codec, its[i].cache, readers));
        assert old(Apart(its[i], its[n - 1]));
        OtherStays(its, i, n - 1, codec, readers);
      }
    }
  }

  twostate lemma ApartStays(its: seq<ScanIterator>, new i: nat)
    requires old(AllApart(its)) && i < |its| && OnlyMoved(its, i)
    requires forall j {:trigger its[j]} :: 0 <= j < |its| && j != i ==> Apart(its[i], its[j])
    ensures AllApart(its)
  {
    forall j, k | 0 <= j < |its| && 0 <= k < |its| && j != k
      ensures Apart(its[j], its[k])
    {
      if j != i && k != i { assert old(Apart(its[j], its[k])); }
    }
  }

  /** Advancing one iterator leaves every other one valid, with the same records to come and the same zero-copy view:
      the source bytes kept in a merge heap are still those of the iterator's current record when the item is popped. */
  method Advance(its: seq<ScanIterator>, i: nat, codec: Codec, cache: BlockCache?, ghost readers: set<Reader>)
    returns (ok: bool)
    requires Pool(its, codec, cache, readers) && i < |its|
    modifies its[i], its[i].decompBuf, cache
    ensures Pool(its, codec, cache, readers) && OthersSame(its, i)
    ensures ok ==> old(ToDeliver(its[i])) == [its[i].current] + ToDeliver(its[i]) && its[i].Shows()
    ensures !ok ==> old(ToDeliver(its[i])) == [] && ToDeliver(its[i]) == []
    ensures forall j {:trigger its[j]} :: 0 <= j < |its| ==>
              its[j].decompBuf == old(its[j].decompBuf) || (j == i && fresh(its[j].decompBuf))
  {
    assert Member(its[i], codec, cache, readers);
    assert forall j {:trigger its[j]} :: 0 <= j < |its| && j != i ==> Apart(its[i], its[j]);
    ok := its[i].Next();
    StillServes(codec, cache, its[i].rd, readers);
    AllStay(its, i, |its|, codec, readers);
    assert forall j {:trigger its[j]} :: 0 <= j < |its| && j != i ==> Stayed(its, i, j, codec, cache, readers);
    ApartStays(its, i);
  }

  // ---------------------------------------------------------------- opening

  function AllOf(readers: seq<Reader>): set<Reader> {
    set rd | rd in readers
  }

  /** An iterator that nobody touched is still valid when the cache has been read through another one. */
  twostate lemma MemberStays(its: seq<ScanIterator>, new j: nat, new codec: Codec, new readers: set<Reader>,
                             new path: string)
    requires j < |its| && old(Member(its[j], codec, its[j].cache, readers)) && Untouched(its[j])
    requires Kept(its[j].cache, path) && Serves(codec, its[j].cache, readers)
    ensures Member(its[j], codec, its[j].cache, readers) && ToDeliver(its[j]) == old(ToDeliver(its[j]))
  {
    var b := its[j];
    if b.cache != null { assert Faithful(codec, b.rd, b.cache); }
    var n := b.blockLen;
    assert n <= b.blockData.Length ==>
             b.blockData[..n] == b.blockData[..][..n] && old(b.blockData[..n]) == old(b.blockData[..])[..n];
  }

  /** Nobody was touched. */
  twostate predicate NoneMoved(its: seq<ScanIterator>)
    reads *
  {
    forall j {:trigger its[j]} :: 0 <= j < |its| ==> Untouched(its[j])
  }

  /** Iterator j is valid and delivers what it did. */
  twostate predicate Still(its: seq<ScanIterator>, j: nat, codec: Codec, cache: BlockCache?, readers: set<Reader>)
    requires j < |its|
    reads *
  {
    Member(its[j], codec, cache, readers) && ToDeliver(its[j]) == old(ToDeliver(its[j]))
  }

  twostate lemma {:induction false} AllStill(its: seq<ScanIterator>, new n: nat, new codec: Codec,
                                             new readers: set<Reader>, new path: string)
    requires n <= |its| && NoneMoved(its) && (its != [] ==> old(Members(its, codec, its[0].cache, readers)))
    requires its != [] ==> Kept(its[0].cache, path) && Serves(codec, its[0].cache, readers)
    ensures forall j {:trigger Still(its, j, codec, its[0].cache, readers)} :: 0 <= j < n ==>
              Still(its, j, codec, its[0].cache, readers)
  {
    if n > 0 {
      AllStill(its, n - 1, codec, readers, path);
      assert old(Member(its[n - 1], codec, its[0].cache, readers));
      MemberStays(its, n - 1, codec, readers, path);
    }
  }

  /** Opening one more iterator keeps the pool. */
  method OpenBeside(its: seq<ScanIterator>, codec: Codec, rd: Reader, start: Int64, end: Int64, sourceID: Data,
                    cache: BlockCache?, ghost blocks: seq<seq<Record>>, ghost readers: set<Reader>)
    returns (it: ScanIterator?)
    requires Pool(its, codec, cache, readers) && rd in readers && Represents(codec, rd, blocks) && !rd.version.columnar
    modifies cache
    ensures NoEmptyBlock(blocks)
    ensures it == null ==> Pool(its, codec, cache, readers) && Scanned(blocks, Asked(start, end, sourceID)) == []
    ensures it != null ==> fresh(it) && fresh(it.decompBuf) && Pool(its + [it], codec, cache, readers)
                           && ToDeliver(it) == Scanned(blocks, Asked(start, end, sourceID))
    ensures forall j :: 0 <= j < |its| ==> ToDeliver(its[j]) == old(ToDeliver(its[j]))
  {
    if its != [] { assert Member(its[0], codec, cache, readers); }
    it := OpenServed(codec, rd, start, end, sourceID, cache, blocks, readers);
    PoolUnmoved(its, codec, readers, rd.path);
    if it != null {
      NewcomerApart(its, it, codec, readers);
      JoinApart(its, it);
      JoinMembers(its, it, codec, cache, readers);
    }
  }

  /** A new iterator has buffers of its own, or shows a block that was cached before. */
  twostate predicate Newcomer(cache: BlockCache?, new it: ScanIterator)
    reads *
  {
    fresh(it) && fresh(it.decompBuf)
    && (fresh(it.blockData) || (cache != null && it.blockData in old(cache.items.Values)))
  }

  twostate lemma NewcomerApart(its: seq<ScanIterator>, new it: ScanIterator, new codec: Codec, new readers: set<Reader>)
    requires NoneMoved(its)
    requires its != [] ==> Newcomer(its[0].cache, it) && old(Members(its, codec, its[0].cache, readers))
    ensures forall j {:trigger its[j]} :: 0 <= j < |its| ==> Apart(its[j], it)
  {
    forall j | 0 <= j < |its|
      ensures Apart(its[j], it)
    {
      assert old(Member(its[j], codec, its[0].cache, readers));
    }
  }

  /** Opening an iterator keeps the cache true to every file. */
  method OpenServed(codec: Codec, rd: Reader, start: Int64, end: Int64, sourceID: Data, cache: BlockCache?,
                    ghost blocks: seq<seq<Record>>, ghost readers: set<Reader>) returns (it: ScanIterator?)
    requires Serves(codec, cache, readers) && rd in readers && Represents(codec, rd, blocks) && !rd.version.columnar
    modifies cache
    ensures NoEmptyBlock(blocks) && Serves(codec, cache, readers) && Kept(cache, rd.path)
    ensures it == null ==> Scanned(blocks, Asked(start, end, sourceID)) == []
    ensures it != null ==> fresh(it) && Member(it, codec, cache, readers)
                           && ToDeliver(it) == Scanned(blocks, Asked(start, end, sourceID))
    ensures it != null ==> Newcomer(cache, it)
  {
    it := OpenScan(codec, rd, start, end, sourceID, cache, blocks);
    StillServes(codec, cache, rd, readers);
  }

  /** A pool of which nobody was touched. */
  twostate lemma PoolUnmoved(its: seq<ScanIterator>, new codec: Codec, new readers: set<Reader>, new path: string)
    requires NoneMoved(its) && old(AllApart(its)) && (its != [] ==> old(Members(its, codec, its[0].cache, readers)))
    requires its != [] ==> Kept(its[0].cache, path) && Serves(codec, its[0].cache, readers)
    ensures AllApart(its) && (its != [] ==> Members(its, codec, its[0].cache, readers))
    ensures forall j {:trigger its[j]} :: 0 <= j < |its| ==> ToDeliver(its[j]) == old(ToDeliver(its[j]))
  {
    AllStill(its, |its|, codec, readers, path);
    if its != [] {
      assert forall j {:trigger its[j]} :: 0 <= j < |its| ==> Still(its, j, codec, its[0].cache, readers);
    }
    forall j, k | 0 <= j < |its| && 0 <= k < |its| && j != k
      ensures Apart(its[j], its[k])
    {
      assert old(Apart(its[j], its[k]));
    }
  }

  lemma JoinMembers(its: seq<ScanIterator>, it: ScanIterator, codec: Codec, cache: BlockCache?, readers: set<Reader>)
    requires Members(its, codec, cache, readers) && Member(it, codec, cache, readers)
    ensures Members(its + [it], codec, cache, readers)
  {
    var all := its + [it];
    forall j | 0 <= j < |all|
      ensures Member(all[j], codec, cache, readers)
    {
      if j < |its| { assert Member(its[j], codec, cache, readers); }
    }
  }

  lemma JoinApart(its: seq<ScanIterator>, it: ScanIterator)
    requires AllApart(its) && forall j {:trigger its[j]} :: 0 <= j < |its| ==> Apart(its[j], it)
    ensures AllApart(its + [it])
  {
    var all := its + [it];
    forall j, k | 0 <= j < |all| && 0 <= k < |all| && j != k
      ensures Apart(all[j], all[k])
    {
      if j < |its| && k < |its| { assert Apart(its[j], its[k]); }
    }
  }

  /** Iterator k belongs to table of[k] and will deliver its scan. */
  ghost predicate Assigned(its: seq<ScanIterator>, of: seq<nat>, tables: seq<seq<seq<Record>>>, q: Query)
    reads *
  {
    |of| == |its| && forall k {:trigger of[k]} :: 0 <= k < |its| ==>
      of[k] < |tables| && NoEmptyBlock(tables[of[k]]) && ToDeliver(its[k]) == Scanned(tables[of[k]], q)
  }

  /** Of the first n tables none has two iterators, and one without an iterator has nothing to deliver. */
  ghost predicate Covered(of: seq<nat>, tables: seq<seq<seq<Record>>>, n: nat, q: Query) {
    n <= |tables| && (forall k :: 0 <= k < |of| ==> of[k] < n)
    && (forall k, l :: 0 <= k < l < |of| ==> of[k] < of[l])
    && forall i {:trigger tables[i]} :: 0 <= i < n && i !in of ==>
         NoEmptyBlock(tables[i]) && Scanned(tables[i], q) == []
  }

  lemma AssignMore(its: seq<ScanIterator>, of: seq<nat>, tables: seq<seq<seq<Record>>>, q: Query, it: ScanIterator,
                   i: nat)
    requires Assigned(its, of, tables, q) && i < |tables| && NoEmptyBlock(tables[i])
             && ToDeliver(it) == Scanned(tables[i], q)
    ensures Assigned(its + [it], of + [i], tables, q)
  {}

  /** Any number of iterators opened in turn over one cache are a pool: pairwise apart, each about to deliver the scan
      of its table; a table without an iterator has nothing to deliver. */
  method OpenAll(codec: Codec, readers: seq<Reader>, start: Int64, end: Int64, sourceID: Data, cache: BlockCache?,
                 ghost tables: seq<seq<seq<Record>>>) returns (its: seq<ScanIterator>, ghost of: seq<nat>)
    requires |tables| == |readers| && Serves(codec, cache, AllOf(readers))
    requires forall i :: 0 <= i < |readers| ==> Represents(codec, readers[i], tables[i]) && !readers[i].version.columnar
    modifies cache
    ensures Pool(its, codec, cache, AllOf(readers))
    ensures forall k {:trigger its[k]} :: 0 <= k < |its| ==> fresh(its[k]) && fresh(its[k].decompBuf)
    ensures Assigned(its, of, tables, Asked(start, end, sourceID))
    ensures Covered(of, tables, |tables|, Asked(start, end, sourceID))
  {
    its, of := [], [];
    for i := 0 to |readers|
      invariant Pool(its, codec, cache, AllOf(readers))
      invariant forall k {:trigger its[k]} :: 0 <= k < |its| ==> fresh(its[k]) && fresh(its[k].decompBuf)
      invariant Assigned(its, of, tables, Asked(start, end, sourceID))
                && Covered(of, tables, i, Asked(start, end, sourceID))
    {
      its, of := OpenNext(its, of, codec, readers[i], start, end, sourceID, cache, tables, i, AllOf(readers));
    }
  }

  method OpenNext(its: seq<ScanIterator>, ghost of: seq<nat>, codec: Codec, rd: Reader, start: Int64, end: Int64,
                  sourceID: Data, cache: BlockCache?, ghost tables: seq<seq<seq<Record>>>, ghost i: nat,
                  ghost readers: set<Reader>) returns (more: seq<ScanIterator>, ghost of': seq<nat>)
    requires Pool(its, codec, cache, readers) && rd in readers && i < |tables|
    requires Represents(codec, rd, tables[i]) && !rd.version.columnar
    requires Assigned(its, of, tables, Asked(start, end, sourceID))
             && Covered(of, tables, i, Asked(start, end, sourceID))
    modifies cache
    ensures Pool(more, codec, cache, readers)
    ensures |its| <= |more| && forall k {:trigger more[k]} :: 0 <= k < |more| ==>
              if k < |its| then more[k] == its[k] && more[k].decompBuf == old(its[k].decompBuf)
              else fresh(more[k]) && fresh(more[k].decompBuf)
    ensures Assigned(more, of', tables, Asked(start, end, sourceID))
    ensures Covered(of', tables, i + 1, Asked(start, end, sourceID))
  {
    var it := OpenBeside(its, codec, rd, start, end, sourceID, cache, tables[i], readers);
    assert Assigned(its, of, tables, Asked(start, end, sourceID));
    CoverMore(of, tables, i, Asked(start, end, sourceID));
    if it == null { return its, of; }
    AssignMore(its, of, tables, Asked(start, end, sourceID), it, i);
    return its + [it], of + [i];
  }

  lemma CoverMore(of: seq<nat>, tables: seq<seq<seq<Record>>>, i: nat, q: Query)
    requires Covered(of, tables, i, q) && i < |tables|
    ensures Covered(of + [i], tables, i + 1, q)
    ensures NoEmptyBlock(tables[i]) && Scanned(tables[i], q) == [] ==> Covered(of, tables, i + 1, q)
  {
    assert forall j :: j in of ==> j in of + [i];
    assert i in of + [i];
  }

  /** Pulls one record from the iterators that the schedule names, in its order: whatever the order, each delivers the
      front of its own list. */
  method Interleave(its: seq<ScanIterator>, schedule: seq<nat>, codec: Codec, cache: BlockCache?,
                    ghost readers: set<Reader>)
    returns (outs: seq<seq<Record>>)
    requires Pool(its, codec, cache, readers) && forall k :: 0 <= k < |schedule| ==> schedule[k] < |its|
    modifies set it | it in its, set it | it in its :: it.decompBuf, cache
    ensures Pool(its, codec, cache, readers) && |outs| == |its|
    ensures forall i {:trigger its[i]} :: 0 <= i < |its| ==> old(ToDeliver(its[i])) == outs[i] + ToDeliver(its[i])
  {
    outs := seq(|its|, _ => []);
    ghost var all := Lists(its);
    for n := 0 to |schedule|
      invariant Pool(its, codec, cache, readers) && Pulled(its, outs, all)
      invariant forall i {:trigger its[i]} :: 0 <= i < |its| ==>
                  its[i].decompBuf == old(its[i].decompBuf) || fresh(its[i].decompBuf)
    {
      outs := Pull(its, schedule[n], outs, all, codec, cache, readers);
    }
  }

  /** What each iterator has yet to deliver. */
  ghost function Lists(its: seq<ScanIterator>): (all: seq<seq<Record>>)
    reads *
    ensures |all| == |its|
            && forall i {:trigger all[i]} {:trigger its[i]} :: 0 <= i < |its| ==> all[i] == ToDeliver(its[i])
  {
    if its == [] then [] else Lists(its[..|its| - 1]) + [ToDeliver(its[|its| - 1])]
  }

  /** Iterator i has delivered outs[i] of the list all[i]. */
  ghost predicate Pulled(its: seq<ScanIterator>, outs: seq<seq<Record>>, all: seq<seq<Record>>)
    reads *
  {
    |outs| == |its| == |all| && forall i {:trigger all[i]} :: 0 <= i < |its| ==> all[i] == outs[i] + ToDeliver(its[i])
  }

  method Pull(its: seq<ScanIterator>, i: nat, outs: seq<seq<Record>>, ghost all: seq<seq<Record>>, codec: Codec,
              cache: BlockCache?, ghost readers: set<Reader>) returns (outs': seq<seq<Record>>)
    requires Pool(its, codec, cache, readers) && i < |its| && Pulled(its, outs, all)
    modifies its[i], its[i].decompBuf, cache
    ensures Pool(its, codec, cache, readers) && Pulled(its, outs', all)
    ensures forall j {:trigger its[j]} :: 0 <= j < |its| ==>
              its[j].decompBuf == old(its[j].decompBuf) || (j == i && fresh(its[j].decompBuf))
  {
    ghost var left := ToDeliver(its[i]);
    assert all[i] == outs[i] + left;
    var ok := Advance(its, i, codec, cache, readers);
    if !ok { return outs; }
    HeadMoves(outs[i], left, its[i].current);
    outs' := outs[i := outs[i] + [its[i].current]];
  }
}
