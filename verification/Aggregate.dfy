/** Per-bucket counts (internal/engine/engine.go, internal/sstable/reader.go). */
module Aggregate {
  import opened Bytes
  import opened Records
  import opened Windows
  import opened Blocks
  import opened TableFormat
  import opened TableFile
  import opened Scans
  import opened Tables
  import opened EngineScan
  import opened Caching
  import Compaction
  import Memtable
  import RowScan

  // ---------------------------------------------------------------- the histogram

  /** How many of rs are stamped in [lo, hi). */
  function CountIn(rs: seq<Record>, lo: int, hi: int): nat {
    if rs == [] then 0 else CountIn(rs[..|rs| - 1], lo, hi) + if lo <= rs[|rs| - 1].ts < hi then 1 else 0
  }

  /** A range of buckets of positive width. */
  datatype Span = Span(start: int, end: int, width: int)

  ghost predicate Sound(s: Span) {
    s.width > 0 && s.start < s.end
  }

  function Buckets(s: Span): int
    requires s.width > 0
  {
    (s.end - s.start + s.width - 1) / s.width
  }

  function BucketOf(s: Span, ts: int): int
    requires s.width > 0
  {
    (ts - s.start) / s.width
  }

  /** Bucket i is [start + i * width, start + (i + 1) * width), clipped to end. */
  function Lo(s: Span, i: int): int {
    s.start + i * s.width
  }

  function Hi(s: Span, i: int): int {
    Min(s.start + i * s.width + s.width, s.end)
  }

  lemma Quotient(x: int, w: int, i: int)
    requires w > 0
    ensures x / w == i <==> i * w <= x < i * w + w
  {
    var q := x / w;
    assert x == q * w + x % w;
    if i < q { MultiplesApart(i, q, w); } else if i > q { MultiplesApart(q, i, w); }
  }

  /** The bucket index of a timestamp in range is in range, and is the one bucket that holds it. */
  lemma BucketInRange(s: Span, ts: int)
    requires Sound(s) && s.start <= ts < s.end
    ensures 0 <= BucketOf(s, ts) < Buckets(s)
    ensures forall i {:trigger Lo(s, i)} :: 0 <= i < Buckets(s) ==>
              (Lo(s, i) <= ts < Hi(s, i) <==> i == BucketOf(s, ts))
  {
    var x, w := ts - s.start, s.width;
    var q, n := x / w, Buckets(s);
    Quotient(x, w, q);
    Quotient(s.end - s.start + w - 1, w, n);
    if q > n { MultiplesApart(n, q, w); }
    if q < 0 { MultiplesApart(q, 0, w); }
    forall i {:trigger Lo(s, i)} | 0 <= i < n
      ensures Lo(s, i) <= ts < Hi(s, i) <==> i == q
    {
      Quotient(x, w, i);
    }
  }

  /** addCount. */
  function Bump(s: Span, counts: seq<nat>, ts: int): (r: seq<nat>)
    requires Sound(s) && |counts| == Buckets(s)
    ensures |r| == |counts|
  {
    if ts < s.start || ts >= s.end then counts
    else
      BucketInRange(s, ts);
      var i := BucketOf(s, ts);
      counts[i := counts[i] + 1]
  }

  /** counts is the histogram of rs. */
  ghost predicate Histogram(s: Span, counts: seq<nat>, rs: seq<Record>) {
    Sound(s) && |counts| == Buckets(s)
    && forall i {:trigger Lo(s, i)} :: 0 <= i < |counts| ==> counts[i] == CountIn(rs, Lo(s, i), Hi(s, i))
  }

  lemma BumpHistogram(s: Span, counts: seq<nat>, rs: seq<Record>, r: Record)
    requires Histogram(s, counts, rs)
    ensures Histogram(s, Bump(s, counts, r.ts), rs + [r])
  {
    var next := Bump(s, counts, r.ts);
    assert (rs + [r])[..|rs|] == rs;
    if s.start <= r.ts < s.end { BucketInRange(s, r.ts); }
    forall i {:trigger Lo(s, i)} | 0 <= i < |next|
      ensures next[i] == CountIn(rs + [r], Lo(s, i), Hi(s, i))
    {
      assert Lo(s, i) >= s.start by { assert i * s.width >= 0; }
    }
  }

  function Sum(counts: seq<nat>): nat {
    if counts == [] then 0 else Sum(counts[..|counts| - 1]) + counts[|counts| - 1]
  }

  lemma {:induction false} SumBump(counts: seq<nat>, i: nat)
    requires i < |counts|
    ensures Sum(counts[i := counts[i] + 1]) == Sum(counts) + 1
  {
    var n := |counts| - 1;
    var next := counts[i := counts[i] + 1];
    if i == n {
      assert next[..n] == counts[..n];
    } else {
      assert next[..n] == counts[..n][i := counts[i] + 1];
      SumBump(counts[..n], i);
    }
  }

  /** The histogram of a list whose records are all in range counts each of them once. */
  lemma {:induction false} HistogramSum(s: Span, counts: seq<nat>, rs: seq<Record>)
    requires Histogram(s, counts, rs) && forall r :: r in rs ==> s.start <= r.ts < s.end
    ensures Sum(counts) == |rs|
    decreases |rs|
  {
    if rs == [] {
      assert forall i :: 0 <= i < |counts| ==> counts[i] == CountIn(rs, Lo(s, i), Hi(s, i));
      SumZero(counts);
    } else {
      var n := |rs| - 1;
      var front := rs[..n];
      var before := seq(|counts|, i requires 0 <= i < |counts| => CountIn(front, Lo(s, i), Hi(s, i)));
      assert Histogram(s, before, front);
      HistogramSum(s, before, front);
      assert rs == front + [rs[n]] && rs[n] in rs;
      BumpHistogram(s, before, front, rs[n]);
      SameHistogram(s, counts, Bump(s, before, rs[n].ts), rs);
      BucketInRange(s, rs[n].ts);
      SumBump(before, BucketOf(s, rs[n].ts));
    }
  }

  lemma SameHistogram(s: Span, a: seq<nat>, b: seq<nat>, rs: seq<Record>)
    requires Histogram(s, a, rs) && Histogram(s, b, rs)
    ensures a == b
  {
    forall i | 0 <= i < |a|
      ensures a[i] == b[i]
    {
      assert a[i] == CountIn(rs, Lo(s, i), Hi(s, i));
    }
  }

  lemma {:induction false} SumZero(counts: seq<nat>)
    requires forall i :: 0 <= i < |counts| ==> counts[i] == 0
    ensures Sum(counts) == 0
  {
    if counts != [] { SumZero(counts[..|counts| - 1]); }
  }

  // ---------------------------------------------------------------- one file

  /** Adds a list of timestamps, those of added, to the histogram. */
  method Tally(s: Span, counts: seq<nat>, stamps: seq<Int64>, ghost rs: seq<Record>, ghost added: seq<Record>)
    returns (r: seq<nat>)
    requires Histogram(s, counts, rs) && Stamps(added) == stamps
    ensures Histogram(s, r, rs + added)
  {
    r := counts;
    ghost var seen := rs;
    for i := 0 to |stamps|
      invariant seen == rs + added[..i] && Histogram(s, r, seen)
    {
      BumpHistogram(s, r, seen, added[i]);
      r := Bump(s, r, stamps[i]);
      seen := seen + [added[i]];
    }
    assert added[..|stamps|] == added;
  }

  /** Reader.ScanTimestamps: decodes only the timestamps column of a block. */
  method ScanTimestamps(codec: Codec, rd: Reader, idx: nat, start: int, end: int, ghost blocks: seq<seq<Record>>)
    returns (stamps: seq<Int64>)
    requires Represents(codec, rd, blocks) && rd.version.columnar && idx < |blocks|
    ensures stamps == Stamps(Select(Query(start, end, None), blocks[idx]))
  {
    ghost var q, block := Query(start, end, None), blocks[idx];
    assert BlockAt(codec, rd, idx) == Some(block);
    var data := Expand(codec, rd.version.compression, StoredAt(rd, idx).value).value;
    TimesAreProjection(codec.crc, data);
    var all := DecodeTimestamps(codec.crc, data);
    stamps := FilterStamps(all.value, start, end, block);
  }

  method FilterStamps(all: seq<Int64>, start: int, end: int, ghost block: seq<Record>) returns (stamps: seq<Int64>)
    requires all == Stamps(block)
    ensures stamps == Stamps(Select(Query(start, end, None), block))
  {
    ghost var q := Query(start, end, None);
    stamps := [];
    for i := 0 to |all|
      invariant stamps == Stamps(Select(q, block[..i]))
    {
      SelectConcat(q, block[..i], [block[i]]);
      assert block[..i + 1] == block[..i] + [block[i]];
      assert Select(q, [block[i]]) == if Wants(q, block[i]) then [block[i]] else [];
      if start <= all[i] < end { stamps := stamps + [all[i]]; }
    }
    assert block[..|all|] == block;
  }

  /** The columnar path: every block up to the first that starts past the end. */
  method TallyColumns(s: Span, counts: seq<nat>, codec: Codec, rd: Reader, ghost blocks: seq<seq<Record>>,
                      ghost rs: seq<Record>)
    returns (r: seq<nat>)
    requires Histogram(s, counts, rs) && Represents(codec, rd, blocks) && rd.version.columnar
    ensures Histogram(s, r, rs + Select(Query(s.start, s.end, None), Flat(blocks)))
  {
    ghost var q := Query(s.start, s.end, None);
    r := counts;
    ghost var seen := rs;
    assert blocks[..0] == [] && rs + [] == rs;
    var i := 0;
    while i < |rd.timeIndex|
      invariant i <= |blocks| && seen == rs + Select(q, Flat(blocks[..i])) && Histogram(s, r, seen)
    {
      if rd.timeIndex[i].minTs >= s.end { break; }
      var stamps := ScanTimestamps(codec, rd, i, s.start, s.end, blocks);
      r := Tally(s, r, stamps, seen, Select(q, blocks[i]));
      NextPrefix(q, blocks, i);
      seen := seen + Select(q, blocks[i]);
      i := i + 1;
    }
    RestPastEnd(codec, rd, q, blocks, i);
  }

  lemma NextPrefix(q: Query, blocks: seq<seq<Record>>, i: nat)
    requires i < |blocks|
    ensures Select(q, Flat(blocks[..i + 1])) == Select(q, Flat(blocks[..i])) + Select(q, blocks[i])
  {
    assert blocks[..i + 1] == blocks[..i] + [blocks[i]];
    FlatAppend(blocks[..i], blocks[i]);
    SelectConcat(q, Flat(blocks[..i]), blocks[i]);
  }

  lemma RestPastEnd(codec: Codec, rd: Reader, q: Query, blocks: seq<seq<Record>>, i: nat)
    requires Represents(codec, rd, blocks) && i <= |blocks| && (i < |blocks| ==> rd.timeIndex[i].minTs >= q.end)
    ensures Select(q, Flat(blocks)) == Select(q, Flat(blocks[..i]))
  {
    FlatSplit(blocks, i);
    SelectConcat(q, Flat(blocks[..i]), From(blocks, i));
    if i < |blocks| { NextPastEnd(codec, rd, q, blocks, i); }
  }

  /** What is counted of a file: the columnar path reads every block, the row path starts at the start block. */
  ghost function FileCounted(blocks: seq<seq<Record>>, columnar: bool, q: Query): seq<Record>
    requires NoEmptyBlock(blocks)
  {
    if columnar && q.source.None? then Select(q, Flat(blocks)) else Scanned(blocks, q)
  }

  lemma AllInRange(s: Span, rs: seq<Record>, source: Option<Data>)
    ensures forall r :: r in Select(Query(s.start, s.end, source), rs) ==> s.start <= r.ts < s.end
  {
    forall r | r in Select(Query(s.start, s.end, source), rs)
      ensures s.start <= r.ts < s.end
    {
      SelectMember(Query(s.start, s.end, source), rs, r);
    }
  }

  /** The columnar and the row path give a file the same counts exactly when the row path misses nothing. */
  lemma PathsAgreeIff(s: Span, blocks: seq<seq<Record>>, cols: seq<nat>, rows: seq<nat>)
    requires NoEmptyBlock(blocks) && Sorted(Flat(blocks))
    requires Histogram(s, cols, FileCounted(blocks, true, Query(s.start, s.end, None)))
    requires Histogram(s, rows, FileCounted(blocks, false, Query(s.start, s.end, None)))
    ensures cols == rows <==> Missed(blocks, Query(s.start, s.end, None)) == []
  {
    var q := Query(s.start, s.end, None);
    ScannedIsSelected(blocks, q);
    if cols == rows {
      AllInRange(s, Flat(blocks), None);
      assert forall r :: r in Scanned(blocks, q) ==> r in Select(q, Flat(blocks));
      HistogramSum(s, cols, Select(q, Flat(blocks)));
      HistogramSum(s, rows, Scanned(blocks, q));
    } else if Missed(blocks, q) == [] {
      SameHistogram(s, cols, rows, Scanned(blocks, q));
    }
  }

  method TallyFile(s: Span, counts: seq<nat>, codec: Codec, rd: Reader, sourceID: Data, cache: BlockCache?,
                   ghost blocks: seq<seq<Record>>, ghost rs: seq<Record>, ghost all: set<Reader>)
    returns (r: seq<nat>)
    requires Histogram(s, counts, rs) && Represents(codec, rd, blocks) && NoEmptyBlock(blocks)
    requires rd in all && RowScan.Serves(codec, cache, all)
    requires MIN_INT64 <= s.start && s.end <= MAX_INT64
    modifies cache
    ensures RowScan.Serves(codec, cache, all)
    ensures Histogram(s, r, rs + FileCounted(blocks, rd.version.columnar, Asked(s.start, s.end, sourceID)))
  {
    ghost var q := Asked(s.start, s.end, sourceID);
    if rd.meta.maxTs < s.start || rd.meta.minTs >= s.end {
      RangeSkipSound(rd.meta, Flat(blocks), q);
      ScannedIsSelected(blocks, q);
      assert rs + [] == rs;
      return counts;
    }
    if rd.version.columnar && |sourceID| == 0 {
      r := TallyColumns(s, counts, codec, rd, blocks, rs);
    } else {
      var records := ScanTable(codec, rd, s.start, s.end, sourceID, cache, blocks, all);
      r := Tally(s, counts, Stamps(records), rs, records);
    }
  }

  // ---------------------------------------------------------------- the whole store

  /** Which files are columnar. */
  function Kinds(readers: seq<Reader>): (ks: seq<bool>)
    ensures |ks| == |readers|
  {
    seq(|readers|, i requires 0 <= i < |readers| => readers[i].version.columnar)
  }

  ghost predicate NoEmptyBlocks(tables: seq<seq<seq<Record>>>) {
    forall i {:trigger NoEmptyBlock(tables[i])} :: 0 <= i < |tables| ==> NoEmptyBlock(tables[i])
  }

  ghost function FilesCounted(tables: seq<seq<seq<Record>>>, kinds: seq<bool>, q: Query): seq<Record>
    requires |kinds| == |tables| && NoEmptyBlocks(tables)
  {
    if tables == [] then []
    else
      var n := |tables| - 1;
      assert NoEmptyBlock(tables[n]) && forall i :: 0 <= i < n ==> NoEmptyBlock(tables[i]);
      FilesCounted(tables[..n], kinds[..n], q) + FileCounted(tables[n], kinds[n], q)
  }

  lemma FilesCountedMore(tables: seq<seq<seq<Record>>>, kinds: seq<bool>, q: Query, i: nat)
    requires |kinds| == |tables| && NoEmptyBlocks(tables) && i < |tables|
    ensures NoEmptyBlocks(tables[..i]) && NoEmptyBlocks(tables[..i + 1]) && NoEmptyBlock(tables[i])
    ensures FilesCounted(tables[..i + 1], kinds[..i + 1], q)
              == FilesCounted(tables[..i], kinds[..i], q) + FileCounted(tables[i], kinds[i], q)
  {
    assert forall j :: 0 <= j <= i ==> NoEmptyBlock(tables[j]);
    assert tables[..i + 1][..i] == tables[..i] && kinds[..i + 1][..i] == kinds[..i];
  }

  method TallyFiles(s: Span, counts: seq<nat>, codec: Codec, readers: seq<Reader>, sourceID: Data, cache: BlockCache?,
                    ghost tables: seq<seq<seq<Record>>>, ghost rs: seq<Record>, ghost all: set<Reader>)
    returns (r: seq<nat>)
    requires Histogram(s, counts, rs) && Compaction.Readers(codec, readers, tables) && MIN_INT64 <= s.start
             && s.end <= MAX_INT64
    requires RowScan.Serves(codec, cache, all) && forall rd :: rd in readers ==> rd in all
    modifies cache
    ensures RowScan.Serves(codec, cache, all)
    ensures NoEmptyBlocks(tables)
            && Histogram(s, r, rs + FilesCounted(tables, Kinds(readers), Asked(s.start, s.end, sourceID)))
  {
    ghost var q, kinds := Asked(s.start, s.end, sourceID), Kinds(readers);
    r := counts;
    ghost var counted: seq<Record> := [];
    assert tables[..0] == [] && kinds[..0] == [] && rs + [] == rs;
    for i := 0 to |readers|
      invariant RowScan.Serves(codec, cache, all)
      invariant NoEmptyBlocks(tables[..i]) && counted == FilesCounted(tables[..i], kinds[..i], q)
                && Histogram(s, r, rs + counted)
    {
      FilesCountedMore(tables, kinds, q, i);
      ghost var more := FileCounted(tables[i], kinds[i], q);
      r := TallyFile(s, r, codec, readers[i], sourceID, cache, tables[i], rs + counted, all);
      Regrouped(rs, counted, more);
      counted := counted + more;
    }
    assert tables[..|readers|] == tables && kinds[..|readers|] == kinds;
  }

  /** What is counted of one window. */
  ghost function WindowCounted(h: Held, kinds: seq<bool>, a: Asking): seq<Record>
    requires |kinds| == |h.tables| && NoEmptyBlocks(h.tables)
  {
    Select(a.mem, h.mem) + FilesCounted(h.tables, kinds, a.sst)
  }

  method TallyWindow(s: Span, counts: seq<nat>, e: Engine, w: Window, source: Option<Data>, ghost rs: seq<Record>)
    returns (r: seq<nat>)
    requires Histogram(s, counts, rs) && e.Valid() && e.Cached() && w in e.partitions
    requires MIN_INT64 <= s.start && s.end <= MAX_INT64
    modifies e.cache
    ensures e.Valid() && e.Cached()
    ensures Countable(e.store[w], Kinds(e.FilesOf(w)))
    ensures Histogram(s, r, rs + WindowCounted(e.store[w], Kinds(e.FilesOf(w)), Ask(s.start, s.end, source)))
  {
    assert e.PartitionOk(w);
    ghost var h, a := e.store[w], Ask(s.start, s.end, source);
    ghost var mem := Select(a.mem, h.mem);
    var readers := e.FilesOf(w);
    r := TallyMemtable(s, counts, e.partitions[w], source, rs);
    var sourceID := if source.None? then [] else source.value;
    r := TallyFiles(s, r, e.codec, readers, sourceID, e.cache, h.tables, rs + mem, e.all);
    Regrouped(rs, mem, FilesCounted(h.tables, Kinds(readers), a.sst));
  }

  lemma Regrouped(a: seq<Record>, b: seq<Record>, c: seq<Record>)
    ensures a + b + c == a + (b + c)
  {}

  method TallyMemtable(s: Span, counts: seq<nat>, m: Memtable.Memtable, source: Option<Data>, ghost rs: seq<Record>)
    returns (r: seq<nat>)
    requires Histogram(s, counts, rs) && m.Valid() && MIN_INT64 <= s.start && s.end <= MAX_INT64
    ensures Histogram(s, r, rs + Select(Query(s.start, s.end, source), m.records))
  {
    var it := m.Scan(s.start, s.end, source);
    var mem := Memtable.Drain(it.value);
    r := Tally(s, counts, Stamps(mem), rs, mem);
  }

  ghost predicate Countable(h: Held, kinds: seq<bool>) {
    |kinds| == |h.tables| && NoEmptyBlocks(h.tables)
  }

  type KindMap = map<Window, seq<bool>>

  ghost predicate AllCountable(ws: seq<Window>, st: Store, kinds: KindMap) {
    forall i {:trigger ws[i]} :: 0 <= i < |ws| ==> ws[i] in st && ws[i] in kinds && Countable(st[ws[i]], kinds[ws[i]])
  }

  ghost function CountedBy(ws: seq<Window>, st: Store, kinds: KindMap, a: Asking): seq<Record>
    requires AllCountable(ws, st, kinds)
  {
    if ws == [] then []
    else
      var n := |ws| - 1;
      CountedBy(ws[..n], st, kinds, a) + WindowCounted(st[ws[n]], kinds[ws[n]], a)
  }

  /** The bucket count in Go's int64 arithmetic. */
  function GoBuckets(s: Span): int
    requires s.width > 0
  {
    GoDiv(Wrap64(s.end - s.start + s.width - 1), s.width)
  }

  predicate Overflows(s: Span) {
    s.end - s.start + s.width - 1 > MAX_INT64
  }

  /** The code makes the right number of buckets exactly when the sum does not overflow; otherwise it makes none, or
      asks for a negative number, which happens exactly when the sum lies at least width below 2^64. */
  lemma BucketCountIff(s: Span)
    requires Sound(s) && MIN_INT64 <= s.start && s.end <= MAX_INT64 && s.width <= MAX_INT64
    ensures GoBuckets(s) == Buckets(s) <==> !Overflows(s)
    ensures Overflows(s) ==> GoBuckets(s) <= 0 < Buckets(s)
    ensures GoBuckets(s) < 0 <==> Overflows(s) && s.end - s.start + 2 * s.width - 1 <= TWO_64
  {
    var n := s.end - s.start + s.width - 1;
    WholeQuotient(n, s.width);
    if n > MAX_INT64 {
      assert Wrap64(n) == n - TWO_64;
      WrappedQuotient(n - TWO_64, s.width);
    }
  }

  /** There are as many buckets as it takes to cover the range, and no more. */
  lemma BucketsCover(s: Span)
    requires Sound(s)
    ensures (Buckets(s) - 1) * s.width < s.end - s.start <= Buckets(s) * s.width
  {
    var x := s.end - s.start + s.width - 1;
    Quotient(x, s.width, x / s.width);
    assert (Buckets(s) - 1) * s.width == Buckets(s) * s.width - s.width;
  }

  lemma WholeQuotient(x: int, w: int)
    requires 0 < w <= x
    ensures x / w > 0
  {
    Quotient(x, w, x / w);
  }

  lemma WrappedQuotient(x: int, w: int)
    requires w > 0 && x < w
    ensures GoDiv(x, w) <= 0 && (GoDiv(x, w) < 0 <==> x <= -w)
  {
    Quotient(x, w, 0);
    if x <= -w { WholeQuotient(-x, w); } else { Quotient(-x, w, 0); }
  }

  datatype Result = InvalidWidth | EmptyRange | NegativeLength | NoBuckets | Counts(counts: seq<nat>)

  /** Engine.Aggregate. NegativeLength stands for the panic of make, NoBuckets for a bucket count that wraps to 0. */
  method Aggregate(e: Engine, start: Int64, end: Int64, width: Int64, source: Option<Data>)
    returns (res: Result, ghost ws: seq<Window>, ghost kinds: KindMap)
    requires e.Valid() && e.Cached()
    modifies e.cache
    ensures e.Valid() && e.Cached()
    ensures res == InvalidWidth <==> width <= 0
    ensures res == EmptyRange <==> width > 0 && end <= start
    ensures res == NegativeLength || res == NoBuckets <==>
              width > 0 && end > start && Overflows(Span(start, end, width))
    ensures res == NegativeLength <==> width > 0 && end > start && Overflows(Span(start, end, width))
                                       && end - start + 2 * width - 1 <= TWO_64
    ensures res.Counts? ==> exists order :: Lists(order, e.partitions.Keys) && ws == Overlapped(order, start, end)
    ensures res.Counts? ==> AllCountable(ws, e.store, kinds) && forall w :: w in ws ==> kinds[w] == Kinds(e.FilesOf(w))
    ensures res.Counts? ==>
              Histogram(Span(start, end, width), res.counts, CountedBy(ws, e.store, kinds, Ask(start, end, source)))
  {
    ws, kinds := [], map[];
    if width <= 0 { return InvalidWidth, ws, kinds; }
    if end <= start { return EmptyRange, ws, kinds; }
    var s := Span(start, end, width);
    BucketCountIff(s);
    var n := GoBuckets(s);
    if n <= 0 { return if n < 0 then NegativeLength else NoBuckets, ws, kinds; }
    var counts := Zeroes(s);
    var windows;
    ghost var order;
    windows, order := e.Overlapping(start, end);
    ws := windows;
    kinds := map w | w in e.partitions :: Kinds(e.FilesOf(w));
    counts := TallyWindows(s, counts, e, windows, source, kinds);
    return Counts(counts), ws, kinds;
  }

  method TallyWindows(s: Span, zeroes: seq<nat>, e: Engine, ws: seq<Window>, source: Option<Data>, ghost kinds: KindMap)
    returns (counts: seq<nat>)
    requires e.Valid() && e.Cached() && Histogram(s, zeroes, []) && MIN_INT64 <= s.start && s.end <= MAX_INT64
    requires forall w :: w in ws ==> w in e.partitions && w in kinds && kinds[w] == Kinds(e.FilesOf(w))
    modifies e.cache
    ensures e.Valid() && e.Cached()
    ensures AllCountable(ws, e.store, kinds)
            && Histogram(s, counts, CountedBy(ws, e.store, kinds, Ask(s.start, s.end, source)))
  {
    ghost var st, a := e.store, Ask(s.start, s.end, source);
    counts := zeroes;
    ghost var done: seq<Window> := [];
    ghost var seen: seq<Record> := [];
    for i := 0 to |ws|
      invariant e.Valid() && e.Cached()
      invariant done == ws[..i] && AllCountable(done, st, kinds) && seen == CountedBy(done, st, kinds, a)
                && Histogram(s, counts, seen)
    {
      var w := ws[i];
      assert w in ws;
      counts := TallyWindow(s, counts, e, w, source, seen);
      CountedMore(done, st, kinds, a, w);
      seen := seen + WindowCounted(st[w], kinds[w], a);
      done := done + [w];
    }
    assert done == ws;
  }

  lemma CountedMore(ws: seq<Window>, st: Store, kinds: KindMap, a: Asking, w: Window)
    requires AllCountable(ws, st, kinds) && w in st && w in kinds && Countable(st[w], kinds[w])
    ensures AllCountable(ws + [w], st, kinds)
    ensures CountedBy(ws + [w], st, kinds, a) == CountedBy(ws, st, kinds, a) + WindowCounted(st[w], kinds[w], a)
  {
    assert (ws + [w])[..|ws|] == ws;
  }

  method Zeroes(s: Span) returns (counts: seq<nat>)
    requires Sound(s)
    ensures Histogram(s, counts, [])
  {
    counts := seq(Buckets(s), _ => 0);
  }

  /** Every file is read by the columnar path or misses nothing on the row path. */
  ghost predicate FilesExact(tables: seq<seq<seq<Record>>>, kinds: seq<bool>, q: Query)
    requires |kinds| == |tables| && NoEmptyBlocks(tables)
  {
    forall i {:trigger NoEmptyBlock(tables[i])} :: 0 <= i < |tables| ==>
      (kinds[i] && q.source.None?) || Missed(tables[i], q) == []
  }

  lemma {:induction false} FilesCountedExactly(tables: seq<seq<seq<Record>>>, kinds: seq<bool>, q: Query)
    requires |kinds| == |tables| && NoEmptyBlocks(tables) && FilesExact(tables, kinds, q)
    requires forall i :: 0 <= i < |tables| ==> Sorted(Flat(tables[i]))
    ensures FilesCounted(tables, kinds, q) == FilesWanted(tables, q)
  {
    if tables != [] {
      var n := |tables| - 1;
      assert forall i :: 0 <= i < |tables| ==> NoEmptyBlock(tables[i]);
      FilesCountedExactly(tables[..n], kinds[..n], q);
      ScannedIsSelected(tables[n], q);
    }
  }

  ghost predicate AllExact(ws: seq<Window>, st: Store, kinds: KindMap, q: Query)
    requires AllCountable(ws, st, kinds)
  {
    forall i {:trigger ws[i]} :: 0 <= i < |ws| ==> FilesExact(st[ws[i]].tables, kinds[ws[i]], q)
  }

  lemma {:induction false} CountedExactly(ws: seq<Window>, st: Store, kinds: KindMap, q: Query)
    requires SaneStore(st) && AllCountable(ws, st, kinds) && AllExact(ws, st, kinds, q)
    ensures CountedBy(ws, st, kinds, Asking(q, q)) == WantedBy(ws, st, Asking(q, q))
  {
    if ws != [] {
      var n := |ws| - 1;
      var w := ws[n];
      assert SaneAt(st, w) && FilesExact(st[w].tables, kinds[w], q);
      FilesCountedExactly(st[w].tables, kinds[w], q);
      assert AllExact(ws[..n], st, kinds, q) by { assert forall i :: 0 <= i < n ==> ws[..n][i] == ws[i]; }
      CountedExactly(ws[..n], st, kinds, q);
    }
  }

  /** Aggregate refines the histogram of the held records in range and source, and its counts add up to their number. */
  lemma AggregateRefines(order: seq<Window>, ws: seq<Window>, st: Store, kinds: KindMap, s: Span, source: Option<Data>,
                         counts: seq<nat>)
    requires SaneStore(st) && AllIn(order, st) && ws == Overlapped(order, s.start, s.end) && source != Some([])
    requires AllCountable(ws, st, kinds) && AllExact(ws, st, kinds, Query(s.start, s.end, source))
    requires Histogram(s, counts, CountedBy(ws, st, kinds, Ask(s.start, s.end, source)))
    ensures Histogram(s, counts, Select(Query(s.start, s.end, source), AllHeld(order, st)))
    ensures Sum(counts) == |Select(Query(s.start, s.end, source), AllHeld(order, st))|
  {
    var q := Query(s.start, s.end, source);
    assert Ask(s.start, s.end, source) == Asking(q, q);
    CountedExactly(ws, st, kinds, q);
    SkippedWindows(order, st, s.start, s.end, source);
    WantedIsSelect(order, st, q);
    var rs := Select(q, AllHeld(order, st));
    forall r | r in rs
      ensures s.start <= r.ts < s.end
    {
      SelectMember(q, AllHeld(order, st), r);
    }
    HistogramSum(s, counts, rs);
  }
}
