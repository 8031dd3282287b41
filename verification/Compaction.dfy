/** The k-way merge of SSTables into one (internal/compaction/merge.go). */
module Compaction {
  import opened Bytes
  import opened Records
  import opened TableFormat
  import opened TableFile
  import opened Scans
  import opened Merge
  import opened Writer
  import opened Tables
  import opened Caching
  import RowScan
  import ScanPool

  /** r.Scan(math.MinInt64, math.MaxInt64, nil). */
  const FULL: Query := Query(MIN_INT64, MAX_INT64, None)

  /** readers[i] reads the table with blocks tables[i]. */
  ghost predicate Readers(codec: Codec, readers: seq<Reader>, tables: seq<seq<seq<Record>>>) {
    |readers| == |tables|
    && forall i :: 0 <= i < |readers| ==> Represents(codec, readers[i], tables[i]) && NoEmptyBlock(tables[i])
  }

  /** What the input iterators will deliver. */
  ghost function FullScans(tables: seq<seq<seq<Record>>>): (inputs: seq<seq<Record>>)
    requires forall i :: 0 <= i < |tables| ==> NoEmptyBlock(tables[i])
    ensures |inputs| == |tables|
  {
    seq(|tables|, i requires 0 <= i < |tables| => Scanned(tables[i], FULL))
  }

  method OpenInputs(codec: Codec, readers: seq<Reader>, cache: BlockCache?, ghost tables: seq<seq<seq<Record>>>)
    returns (inputs: seq<seq<Record>>)
    requires Readers(codec, readers, tables) && RowScan.Serves(codec, cache, ScanPool.AllOf(readers))
    modifies cache
    ensures inputs == FullScans(tables) && AllSorted(inputs) && RowScan.Serves(codec, cache, ScanPool.AllOf(readers))
  {
    inputs := [];
    for i := 0 to |readers|
      invariant |inputs| == i && forall j :: 0 <= j < i ==> inputs[j] == Scanned(tables[j], FULL) && Sorted(inputs[j])
      invariant RowScan.Serves(codec, cache, ScanPool.AllOf(readers))
    {
      var rs := ScanTable(codec, readers[i], MIN_INT64, MAX_INT64, [], cache, tables[i], ScanPool.AllOf(readers));
      inputs := inputs + [rs];
    }
  }

  /** The loop state: what has been merged is what the writer holds. */
  ghost predicate Merging(m: MergeIterator, w: Writer, inputs: seq<seq<Record>>)
    reads m, m.heap, w
  {
    m.Pictured() && Core(inputs, m.now) && m.inputs == inputs && m.Told(-1) && !m.err
    && w.Valid() && Contents(w.now) == m.now.out
    && (m.curIdx < 0 || m.curIdx in m.now.waiting || m.streams[m.curIdx].rest == [])
  }

  datatype MergeResult = Merged(file: Data, meta: Meta) | InputFailed | CompressionFailed

  /** The seed and the merge loop over any sorted iterators: Add never reports ErrOutOfOrder, and an iterator that ends
      in a read error is never merged silently. */
  method MergeStreams(codec: Codec, opts: Options, inputs: seq<seq<Record>>, failing: seq<bool>)
    returns (res: MergeResult, ghost im: Image, ghost tags: seq<nat>)
    requires AllSorted(inputs) && |failing| == |inputs|
    ensures res.Merged? ==> Finished(codec, im) && res.file == FileBytes(im) && res.meta == im.meta
    ensures res.Merged? ==> Interleaves(Flat(im.blocks), tags, inputs) && NoFailure(failing)
    ensures res == InputFailed ==> !NoFailure(failing)
    ensures res == CompressionFailed ==> Uncompressible(codec)
  {
    im := Image(opts, [], [], [], [], map[], Meta(0, 0, 0, 0, 0, 0, 0, 0, 0));
    tags := [];
    var m := new MergeIterator(inputs, failing);
    if m.err { return InputFailed, im, tags; }
    var w := new Writer(codec, opts);
    var done := MergeLoop(m, w, inputs);
    if done != AllMerged { return if done == Unread then InputFailed else CompressionFailed, im, tags; }
    tags := m.now.tags;
    var ok, file, meta;
    ok, file, meta, im := w.Finish();
    return if ok then Merged(file, meta) else CompressionFailed, im, tags;
  }

  datatype LoopEnd = AllMerged | Unread | Uncompressed

  method MergeLoop(m: MergeIterator, w: Writer, ghost inputs: seq<seq<Record>>) returns (end: LoopEnd)
    requires Merging(m, w, inputs)
    modifies m, m.heap, w
    ensures end == AllMerged ==> w.Valid() && Contents(w.now) == m.now.out
                                 && Interleaves(m.now.out, m.now.tags, inputs) && NoFailure(m.failing)
    ensures end == Unread ==> !NoFailure(m.failing)
    ensures end == Uncompressed ==> Uncompressible(w.codec)
  {
    while |m.heap.h| > 0
      invariant Merging(m, w, inputs)
      decreases ToCome(m.now)
    {
      var ok := MergeOne(m, w, inputs);
      if !ok { return Uncompressed; }
      if m.err { return Unread; }
    }
    EndInterleaves(inputs, m.now);
    return AllMerged;
  }

  /** Merges the readers, through their shared cache, into a new table; it can only fail to compress. */
  method MergeTables(codec: Codec, opts: Options, readers: seq<Reader>, cache: BlockCache?,
                     ghost tables: seq<seq<seq<Record>>>)
    returns (res: MergeResult, ghost im: Image, ghost tags: seq<nat>)
    requires Readers(codec, readers, tables) && RowScan.Serves(codec, cache, ScanPool.AllOf(readers))
    modifies cache
    ensures RowScan.Serves(codec, cache, ScanPool.AllOf(readers)) && res != InputFailed
    ensures res.Merged? ==> Finished(codec, im) && res.file == FileBytes(im) && res.meta == im.meta
    ensures res.Merged? ==> Interleaves(Flat(im.blocks), tags, FullScans(tables))
    ensures res.Merged? ==> Preserved(tables, Metas(readers), Flat(im.blocks), res.meta)
    ensures res == CompressionFailed ==> Uncompressible(codec)
  {
    var inputs := OpenInputs(codec, readers, cache, tables);
    res, im, tags := MergeStreams(codec, opts, inputs, seq(|inputs|, _ => false));
    if res.Merged? { MergePreserves(codec, readers, tables, im, tags); }
  }

  method MergeOne(m: MergeIterator, w: Writer, ghost inputs: seq<seq<Record>>) returns (ok: bool)
    requires Merging(m, w, inputs) && m.heap.h != []
    modifies m, m.heap, w
    ensures ok ==> (m.err ==> !NoFailure(m.failing)) && ToCome(m.now) < old(ToCome(m.now))
    ensures ok && !m.err ==> Merging(m, w, inputs)
    ensures !ok ==> Uncompressible(w.codec)
  {
    ghost var before := m.now.out;
    m.Emit();
    LastInOrder(before, m.View());
    ok := AddInOrder(w, before, m.View());
    if ok { m.AdvanceCurrent(); }
  }

  // ---------------------------------------------------------------- content

  /** Records stamped math.MaxInt64, which the exclusive end leaves out. */
  const TOP: Query := Query(MAX_INT64, MAX_INT64 + 1, None)

  /** What a full-range scan of a table does not return. */
  ghost function Lost(blocks: seq<seq<Record>>): seq<Record>
    requires NoEmptyBlock(blocks)
  {
    Missed(blocks, FULL) + Select(TOP, Flat(blocks))
  }

  lemma FullScanLoses(blocks: seq<seq<Record>>)
    requires NoEmptyBlock(blocks) && Sorted(Flat(blocks))
    ensures multiset(Scanned(blocks, FULL)) + multiset(Lost(blocks)) == multiset(Flat(blocks))
  {
    ScannedIsSelected(blocks, FULL);
    var rs := Flat(blocks);
    forall r
      ensures multiset(Select(FULL, rs))[r] + multiset(Select(TOP, rs))[r] == multiset(rs)[r]
    {
      SelectCount(FULL, rs, r);
      SelectCount(TOP, rs, r);
    }
    assert multiset(Select(FULL, rs)) + multiset(Select(TOP, rs)) == multiset(rs);
  }

  /** Timestamps strictly between the two extremes lose nothing. */
  lemma NothingLost(blocks: seq<seq<Record>>)
    requires NoEmptyBlock(blocks) && Sorted(Flat(blocks))
    requires forall r :: r in Flat(blocks) ==> MIN_INT64 < r.ts < MAX_INT64
    ensures Lost(blocks) == []
  {
    ScannedIsSelected(blocks, FULL);
    SelectNone(TOP, Flat(blocks));
    var missed := Missed(blocks, FULL);
    if missed != [] {
      var r := missed[0];
      assert r in missed && r.ts == MIN_INT64;
      assert r in Select(FULL, Flat(blocks));
      SelectMember(FULL, Flat(blocks), r);
    }
  }

  ghost function Contained(tables: seq<seq<seq<Record>>>): (all: seq<seq<Record>>)
    ensures |all| == |tables|
  {
    seq(|tables|, i requires 0 <= i < |tables| => Flat(tables[i]))
  }

  ghost function AllLost(tables: seq<seq<seq<Record>>>): (all: seq<seq<Record>>)
    requires forall i :: 0 <= i < |tables| ==> NoEmptyBlock(tables[i])
    ensures |all| == |tables|
  {
    seq(|tables|, i requires 0 <= i < |tables| => Lost(tables[i]))
  }

  ghost predicate WellFormed(tables: seq<seq<seq<Record>>>) {
    forall i :: 0 <= i < |tables| ==> NoEmptyBlock(tables[i]) && Sorted(Flat(tables[i]))
  }

  lemma {:induction false} ScansPlusLost(tables: seq<seq<seq<Record>>>)
    requires WellFormed(tables)
    ensures multiset(Flatten(FullScans(tables))) + multiset(Flatten(AllLost(tables)))
              == multiset(Flatten(Contained(tables)))
  {
    if tables != [] {
      var n := |tables| - 1;
      var front := tables[..n];
      LastTable(tables);
      ScansPlusLost(front);
      FullScanLoses(tables[n]);
      SumOfParts(Flatten(FullScans(front)), Flatten(AllLost(front)), Flatten(Contained(front)),
                 Scanned(tables[n], FULL), Lost(tables[n]), Flat(tables[n]));
    }
  }

  lemma LastTable(tables: seq<seq<seq<Record>>>)
    requires WellFormed(tables) && tables != []
    ensures var n := |tables| - 1;
            Flatten(FullScans(tables)) == Flatten(FullScans(tables[..n])) + Scanned(tables[n], FULL)
            && Flatten(AllLost(tables)) == Flatten(AllLost(tables[..n])) + Lost(tables[n])
            && Flatten(Contained(tables)) == Flatten(Contained(tables[..n])) + Flat(tables[n])
  {
    var n := |tables| - 1;
    var front := tables[..n];
    assert FullScans(tables)[..n] == FullScans(front);
    assert AllLost(tables)[..n] == AllLost(front);
    assert Contained(tables)[..n] == Contained(front);
  }

  lemma SumOfParts(a: seq<Record>, b: seq<Record>, c: seq<Record>, x: seq<Record>, y: seq<Record>, z: seq<Record>)
    requires multiset(a) + multiset(b) == multiset(c) && multiset(x) + multiset(y) == multiset(z)
    ensures multiset(a + x) + multiset(b + y) == multiset(c + z)
  {}

  lemma {:induction false} FlattenNone(all: seq<seq<Record>>)
    ensures Flatten(all) == [] <==> forall i :: 0 <= i < |all| ==> all[i] == []
  {
    if all != [] {
      var n := |all| - 1;
      FlattenNone(all[..n]);
      assert forall i :: 0 <= i < n ==> all[..n][i] == all[i];
    }
  }

  /** The merged table and the lost records together are the inputs, as multisets; it holds exactly the inputs if and
      only if no input loses a record to its full-range scan. */
  lemma MergedContent(tables: seq<seq<seq<Record>>>, out: seq<Record>, tags: seq<nat>)
    requires WellFormed(tables) && Interleaves(out, tags, FullScans(tables))
    ensures multiset(out) + multiset(Flatten(AllLost(tables))) == multiset(Flatten(Contained(tables)))
    ensures multiset(out) == multiset(Flatten(Contained(tables))) <==>
              forall i :: 0 <= i < |tables| ==> Lost(tables[i]) == []
  {
    InterleavedContent(out, tags, FullScans(tables));
    ScansPlusLost(tables);
    var lost := Flatten(AllLost(tables));
    FlattenNone(AllLost(tables));
    assert |multiset(out)| + |multiset(lost)| == |multiset(Flatten(Contained(tables)))|;
    assert |multiset(lost)| == |lost|;
    assert forall i :: 0 <= i < |tables| ==> AllLost(tables)[i] == Lost(tables[i]);
  }

  // ---------------------------------------------------------------- metadata

  ghost function CountSum(metas: seq<Meta>): nat {
    if metas == [] then 0 else CountSum(metas[..|metas| - 1]) + metas[|metas| - 1].count
  }

  ghost predicate Summaries(metas: seq<Meta>, tables: seq<seq<seq<Record>>>) {
    |metas| == |tables| && forall i :: 0 <= i < |metas| ==> Summary(metas[i], Flat(tables[i]))
  }

  lemma {:induction false} CountsAdd(metas: seq<Meta>, tables: seq<seq<seq<Record>>>)
    requires Summaries(metas, tables)
    ensures CountSum(metas) == |Flatten(Contained(tables))|
  {
    if metas != [] {
      var n := |metas| - 1;
      CountsAdd(metas[..n], tables[..n]);
      assert Contained(tables)[..n] == Contained(tables[..n]);
    }
  }

  lemma {:induction false} FlattenMember(all: seq<seq<Record>>, r: Record)
    ensures r in Flatten(all) <==> exists i :: 0 <= i < |all| && r in all[i]
  {
    if all != [] {
      var n := |all| - 1;
      FlattenMember(all[..n], r);
      if r in Flatten(all[..n]) {
        var i :| 0 <= i < n && r in all[..n][i];
        assert r in all[i];
      }
      if i :| 0 <= i < |all| && r in all[i] {
        assert i < n ==> r in all[..n][i];
      }
    }
  }

  /** minTs and maxTs bound a non-empty sorted table and are reached in it. */
  lemma Bounds(m: Meta, rs: seq<Record>, r: Record)
    requires Sorted(rs) && Summary(m, rs) && r in rs
    ensures m.minTs <= r.ts <= m.maxTs && rs[0] in rs && rs[|rs| - 1] in rs
  {
    var i :| 0 <= i < |rs| && rs[i] == r;
    if i > 0 { assert KeyLe(rs[0], rs[i]); }
    if i < |rs| - 1 { assert KeyLe(rs[i], rs[|rs| - 1]); }
  }

  /** minTs and maxTs of the merged table are the least and greatest of its non-empty inputs, and the counts add up. */
  lemma MergedSummary(metas: seq<Meta>, tables: seq<seq<seq<Record>>>, m: Meta, out: seq<Record>)
    requires WellFormed(tables) && Summaries(metas, tables) && Sorted(out) && Summary(m, out)
    requires multiset(out) == multiset(Flatten(Contained(tables)))
    ensures m.count == CountSum(metas)
    ensures forall i :: 0 <= i < |metas| && metas[i].count > 0 ==>
              m.minTs <= metas[i].minTs && metas[i].maxTs <= m.maxTs
    ensures m.count > 0 ==> exists i :: 0 <= i < |metas| && metas[i].count > 0 && metas[i].minTs == m.minTs
    ensures m.count > 0 ==> exists i :: 0 <= i < |metas| && metas[i].count > 0 && metas[i].maxTs == m.maxTs
  {
    var all := Contained(tables);
    CountsAdd(metas, tables);
    assert |out| == |multiset(out)| == |Flatten(all)|;
    forall i | 0 <= i < |metas| && metas[i].count > 0
      ensures m.minTs <= metas[i].minTs && metas[i].maxTs <= m.maxTs
    {
      InputBounded(metas, tables, m, out, i);
    }
    if m.count > 0 {
      var a := Owner(metas, tables, out, out[0]);
      var b := Owner(metas, tables, out, out[|out| - 1]);
      InputBounded(metas, tables, m, out, a);
      InputBounded(metas, tables, m, out, b);
    }
  }

  lemma InputBounded(metas: seq<Meta>, tables: seq<seq<seq<Record>>>, m: Meta, out: seq<Record>, i: nat)
    requires WellFormed(tables) && Summaries(metas, tables) && Sorted(out) && Summary(m, out)
    requires multiset(out) == multiset(Flatten(Contained(tables)))
    requires i < |metas| && metas[i].count > 0
    ensures m.minTs <= metas[i].minTs && metas[i].maxTs <= m.maxTs
  {
    var rs := Flat(tables[i]);
    assert Contained(tables)[i] == rs;
    MemberOf(out, Contained(tables), i, rs[0]);
    MemberOf(out, Contained(tables), i, rs[|rs| - 1]);
    Bounds(m, out, rs[0]);
    Bounds(m, out, rs[|rs| - 1]);
  }

  lemma MemberOf(out: seq<Record>, all: seq<seq<Record>>, i: nat, r: Record)
    requires multiset(out) == multiset(Flatten(all)) && i < |all| && r in all[i]
    ensures r in out
  {
    FlattenMember(all, r);
    assert r in multiset(Flatten(all));
  }

  /** The input that holds r, whose own bounds then enclose r. */
  lemma Owner(metas: seq<Meta>, tables: seq<seq<seq<Record>>>, out: seq<Record>, r: Record) returns (i: nat)
    requires WellFormed(tables) && Summaries(metas, tables) && multiset(out) == multiset(Flatten(Contained(tables)))
             && r in out
    ensures i < |metas| && metas[i].count > 0 && metas[i].minTs <= r.ts <= metas[i].maxTs
  {
    assert r in multiset(out);
    FlattenMember(Contained(tables), r);
    i :| 0 <= i < |tables| && r in Contained(tables)[i];
    Bounds(metas[i], Flat(tables[i]), r);
  }

  // ---------------------------------------------------------------- the whole merge

  function Metas(readers: seq<Reader>): (ms: seq<Meta>)
    ensures |ms| == |readers|
  {
    seq(|readers|, i requires 0 <= i < |readers| => readers[i].meta)
  }

  /** Every timestamp lies strictly between the int64 extremes. */
  ghost predicate Inner(tables: seq<seq<seq<Record>>>) {
    forall i, r {:trigger r in Flat(tables[i])} :: 0 <= i < |tables| && r in Flat(tables[i]) ==>
      MIN_INT64 < r.ts < MAX_INT64
  }

  /** m summarises the non-empty ones of metas: the sum of the counts, the least minimum, the greatest maximum. */
  ghost predicate SumsUp(metas: seq<Meta>, m: Meta) {
    m.count == CountSum(metas)
    && (forall i :: 0 <= i < |metas| && metas[i].count > 0 ==> m.minTs <= metas[i].minTs && metas[i].maxTs <= m.maxTs)
    && (m.count > 0 ==> exists i :: 0 <= i < |metas| && metas[i].count > 0 && metas[i].minTs == m.minTs)
    && (m.count > 0 ==> exists i :: 0 <= i < |metas| && metas[i].count > 0 && metas[i].maxTs == m.maxTs)
  }

  /** For inner timestamps the output holds exactly the multiset union of the inputs, with their count, minimum and
      maximum. */
  ghost predicate Preserved(tables: seq<seq<seq<Record>>>, metas: seq<Meta>, out: seq<Record>, m: Meta) {
    Inner(tables) ==> multiset(out) == multiset(Flatten(Contained(tables))) && SumsUp(metas, m)
  }

  lemma NoneLost(tables: seq<seq<seq<Record>>>)
    requires WellFormed(tables) && Inner(tables)
    ensures forall i :: 0 <= i < |tables| ==> Lost(tables[i]) == []
  {
    forall i | 0 <= i < |tables|
      ensures Lost(tables[i]) == []
    {
      assert forall r :: r in Flat(tables[i]) ==> MIN_INT64 < r.ts < MAX_INT64;
      NothingLost(tables[i]);
    }
  }

  lemma ReadersSummarise(codec: Codec, readers: seq<Reader>, tables: seq<seq<seq<Record>>>)
    requires Readers(codec, readers, tables)
    ensures WellFormed(tables) && Summaries(Metas(readers), tables)
  {}

  lemma MergePreserves(codec: Codec, readers: seq<Reader>, tables: seq<seq<seq<Record>>>, im: Image, tags: seq<nat>)
    requires Readers(codec, readers, tables) && Finished(codec, im)
             && Interleaves(Flat(im.blocks), tags, FullScans(tables))
    ensures Preserved(tables, Metas(readers), Flat(im.blocks), im.meta)
  {
    if Inner(tables) {
      ReadersSummarise(codec, readers, tables);
      NoneLost(tables);
      MergedContent(tables, Flat(im.blocks), tags);
      MergedSummary(Metas(readers), tables, im.meta, Flat(im.blocks));
    }
  }
}
