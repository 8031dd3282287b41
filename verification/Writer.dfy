/** The SSTable writer (internal/sstable/writer.go). */
module Writer {
  import opened Bytes
  import opened Records
  import opened Blocks
  import opened TableFormat
  import opened TableFile

  const DEFAULT_BLOCK_SIZE: int := 32 * 1024

  // ---------------------------------------------------------------- block splitting

  function SizeOf(rs: seq<Record>): nat {
    if rs == [] then 0 else SizeOf(rs[..|rs| - 1]) + 16 + |rs[|rs| - 1].src| + |rs[|rs| - 1].payload|
  }

  lemma SizeAppend(rs: seq<Record>, r: Record)
    ensures SizeOf(rs + [r]) == SizeOf(rs) + 16 + |r.src| + |r.payload|
  {
    assert (rs + [r])[..|rs|] == rs;
  }

  /** The size of the pending records is that of their encoding in a row block. */
  lemma {:induction false} SizeIsEncoding(rs: seq<Record>)
    ensures SizeOf(rs) == |Rows(rs)|
  {
    if rs == [] {
      assert Rows(rs) == [];
    } else {
      var n := |rs| - 1;
      SizeIsEncoding(rs[..n]);
      RowsAppend(rs[..n], rs[n]);
      assert rs == rs[..n] + [rs[n]];
    }
  }

  /** A block is closed by the record that brings it to the block size. */
  ghost predicate Full(blockSize: int, block: seq<Record>) {
    block != [] && SizeOf(block) >= blockSize && SizeOf(block[..|block| - 1]) < blockSize
  }

  ghost predicate AllFull(blockSize: int, blocks: seq<seq<Record>>) {
    forall i {:trigger Full(blockSize, blocks[i])} :: 0 <= i < |blocks| ==> Full(blockSize, blocks[i])
  }

  lemma AllFullAppend(blockSize: int, blocks: seq<seq<Record>>, block: seq<Record>)
    requires AllFull(blockSize, blocks) && Full(blockSize, block)
    ensures AllFull(blockSize, blocks + [block])
  {
    forall i | 0 <= i < |blocks + [block]|
      ensures Full(blockSize, (blocks + [block])[i])
    {
      if i < |blocks| { assert Full(blockSize, blocks[i]); }
    }
  }

  /** The record that reaches the block size completes the block. */
  lemma Completes(blockSize: int, pending: seq<Record>, r: Record)
    requires SizeOf(pending) < blockSize <= SizeOf(pending + [r])
    ensures Full(blockSize, pending + [r])
  {
    assert (pending + [r])[..|pending|] == pending;
  }

  lemma {:induction false} SizeBound(rs: seq<Record>)
    ensures 16 * |rs| <= SizeOf(rs)
  {
    if rs != [] { SizeBound(rs[..|rs| - 1]); }
  }

  /** At most ceil(blockSize / 16) records share a block. */
  lemma BlockCountBound(blockSize: int, block: seq<Record>)
    requires blockSize > 0 && (Full(blockSize, block) || SizeOf(block) < blockSize)
    ensures |block| <= (blockSize + 15) / 16
  {
    if Full(blockSize, block) { SizeBound(block[..|block| - 1]); } else { SizeBound(block); }
  }

  // ---------------------------------------------------------------- source tracking

  /** The first block that holds source k, or |blocks|. */
  function FirstIdx(blocks: seq<seq<Record>>, k: Data): (i: nat)
    ensures i <= |blocks|
  {
    if blocks == [] then 0
    else
      var n := |blocks| - 1;
      var f := FirstIdx(blocks[..n], k);
      if f < n then f else if k in SourceSet(blocks[n]) then n else n + 1
  }

  lemma {:induction false} FirstIdxFound(blocks: seq<seq<Record>>, k: Data)
    ensures FirstIdx(blocks, k) < |blocks| <==> k in SourceSet(Flat(blocks))
  {
    if blocks != [] {
      var n := |blocks| - 1;
      FirstIdxFound(blocks[..n], k);
      SourcesConcat(Flat(blocks[..n]), blocks[n]);
    }
  }

  lemma SourcesConcat(a: seq<Record>, b: seq<Record>)
    ensures SourceSet(a + b) == SourceSet(a) + SourceSet(b)
  {
    forall k | k in SourceSet(a) + SourceSet(b)
      ensures k in SourceSet(a + b)
    {
      var r :| (r in a || r in b) && r.src == k;
      assert r in a + b;
    }
  }

  lemma SourcesAppend(a: seq<Record>, r: Record)
    ensures SourceSet(a + [r]) == SourceSet(a) + {r.src} && Sources(a + [r]) == Sources(a) + [r.src]
  {
    SourcesConcat(a, [r]);
    assert SourceSet([r]) == {r.src} by { assert r in [r]; }
  }

  /** The index knows every source of rs, and how many of its records carry it. */
  ghost predicate Counted(srcIndex: map<Data, SrcEntry>, rs: seq<Record>) {
    srcIndex.Keys == SourceSet(rs)
    && forall k {:trigger multiset(Sources(rs))[k]} :: k in srcIndex ==> srcIndex[k].count == multiset(Sources(rs))[k]
  }

  /** newSrcs are the sources first seen in pending; every other source points at its first block. */
  ghost predicate Placed(srcIndex: map<Data, SrcEntry>, newSrcs: seq<Data>, blocks: seq<seq<Record>>,
                         pending: seq<Record>, base: nat, blobs: seq<Data>)
    requires |blobs| == |blocks|
  {
    (forall k {:trigger k in newSrcs} :: k in newSrcs <==> k in SourceSet(pending) && k !in SourceSet(Flat(blocks)))
    && forall k {:trigger FirstIdx(blocks, k)} :: k in srcIndex && k !in newSrcs ==>
         srcIndex[k].firstBlock == base + |Concat(blobs[..FirstIdx(blocks, k)])|
  }

  function Count(srcIndex: map<Data, SrcEntry>, k: Data): map<Data, SrcEntry> {
    if k in srcIndex then srcIndex[k := srcIndex[k].(count := srcIndex[k].count + 1)] else srcIndex[k := SrcEntry(0, 1)]
  }

  lemma CountRecord(srcIndex: map<Data, SrcEntry>, rs: seq<Record>, r: Record)
    requires Counted(srcIndex, rs)
    ensures Counted(Count(srcIndex, r.src), rs + [r])
  {
    SourcesAppend(rs, r);
    var ms := multiset(Sources(rs));
    assert multiset(Sources(rs + [r])) == ms + multiset{r.src};
  }

  lemma PlaceRecord(srcIndex: map<Data, SrcEntry>, newSrcs: seq<Data>, blocks: seq<seq<Record>>, pending: seq<Record>,
                    base: nat, blobs: seq<Data>, r: Record)
    requires |blobs| == |blocks| && Placed(srcIndex, newSrcs, blocks, pending, base, blobs)
    requires srcIndex.Keys == SourceSet(Flat(blocks) + pending)
    ensures Placed(Count(srcIndex, r.src),
                   if r.src in srcIndex then newSrcs else newSrcs + [r.src], blocks, pending + [r], base, blobs)
  {
    SourcesAppend(pending, r);
    SourcesConcat(Flat(blocks), pending);
  }

  /** flushBlock's loop: the new sources point at the block being written. */
  function Point(srcIndex: map<Data, SrcEntry>, keys: seq<Data>, offset: nat): map<Data, SrcEntry> {
    map k | k in srcIndex :: if k in keys then srcIndex[k].(firstBlock := offset) else srcIndex[k]
  }

  lemma PlaceBlock(srcIndex: map<Data, SrcEntry>, newSrcs: seq<Data>, blocks: seq<seq<Record>>, pending: seq<Record>,
                   base: nat, blobs: seq<Data>, blob: Data)
    requires |blobs| == |blocks| && Placed(srcIndex, newSrcs, blocks, pending, base, blobs)
    requires srcIndex.Keys == SourceSet(Flat(blocks) + pending)
    ensures Placed(Point(srcIndex, newSrcs, base + |Concat(blobs)|), [], blocks + [pending], [], base, blobs + [blob])
  {
    SourcesConcat(Flat(blocks), pending);
    forall k {:trigger FirstIdx(blocks + [pending], k)} | k in srcIndex
      ensures Point(srcIndex, newSrcs, base + |Concat(blobs)|)[k].firstBlock
              == base + |Concat((blobs + [blob])[..FirstIdx(blocks + [pending], k)])|
    {
      FirstIdxFound(blocks, k);
      PlaceOne(blocks, pending, blobs, blob, k);
    }
  }

  /** Where a source's first block is once pending is a block. */
  lemma PlaceOne(blocks: seq<seq<Record>>, pending: seq<Record>, blobs: seq<Data>, blob: Data, k: Data)
    requires |blobs| == |blocks| && (k in SourceSet(Flat(blocks)) || k in SourceSet(pending))
    ensures var f := FirstIdx(blocks + [pending], k);
            (blobs + [blob])[..f] == if k in SourceSet(Flat(blocks)) then blobs[..FirstIdx(blocks, k)] else blobs
  {
    FirstIdxFound(blocks, k);
    assert (blocks + [pending])[..|blocks|] == blocks && (blobs + [blob])[..|blobs|] == blobs;
  }

  // ---------------------------------------------------------------- the order of keys in the source index

  lemma LesserOf(k: Data, l: Data, j: Data)
    requires j == k || !LexLess(j, l)
    ensures !LexLess(j, if LexLess(k, l) then k else l)
  {
    LexTrichotomy(k, l);
    if LexLess(k, l) && LexLess(j, k) { LexTransitive(j, k, l); }
  }

  lemma {:induction false} HasLeast(s: set<Data>)
    requires s != {}
    ensures exists k :: k in s && forall j :: j in s ==> !LexLess(j, k)
  {
    var k :| k in s;
    LexTrichotomy(k, k);
    var rest := s - {k};
    if rest != {} {
      HasLeast(rest);
      var l :| l in rest && forall j :: j in rest ==> !LexLess(j, l);
      var least := if LexLess(k, l) then k else l;
      forall j | j in s
        ensures !LexLess(j, least)
      {
        assert j == k || j in rest;
        LesserOf(k, l, j);
      }
    } else {
      assert s == rest + {k};
    }
  }

  /** sort.Strings over the keys. */
  method SortedKeys(index: map<Data, SrcEntry>) returns (keys: seq<Data>)
    ensures KeysCover(keys, index) && forall i, j :: 0 <= i < j < |keys| ==> ByteLess(keys[i], keys[j])
  {
    keys := [];
    var rest := index.Keys;
    while rest != {}
      invariant rest <= index.Keys && forall k :: k in index <==> k in keys || k in rest
      invariant forall i, j :: 0 <= i < j < |keys| ==> LexLess(keys[i], keys[j])
      invariant forall i, k :: 0 <= i < |keys| && k in rest ==> LexLess(keys[i], k)
      decreases |rest|
    {
      HasLeast(rest);
      var least :| least in rest && forall j :: j in rest ==> !LexLess(j, least);
      forall k | k in rest && k != least
        ensures LexLess(least, k)
      {
        LexTrichotomy(least, k);
      }
      keys := keys + [least];
      rest := rest - {least};
    }
    forall i, j | 0 <= i < j < |keys|
      ensures ByteLess(keys[i], keys[j])
    {
      LexIsByteOrder(keys[i], keys[j]);
    }
  }

  // ---------------------------------------------------------------- the writer

  /** recordCount, hasRecords, minTS, maxTS and the order-check fields lastTS and lastSrcID. */
  datatype Seen = Seen(recordCount: nat, hasRecords: bool, minTs: Int64, maxTs: Int64, lastTs: Int64, lastSrc: Data)

  function Note(seen: Seen, r: Record): Seen {
    Seen(seen.recordCount + 1, true, if seen.hasRecords then seen.minTs else r.ts, r.ts, r.ts, r.src)
  }

  /** These fields summarise the sorted records rs. */
  ghost predicate Summarised(rs: seq<Record>, seen: Seen) {
    Sorted(rs) && seen.recordCount == |rs| && seen.hasRecords == (rs != [])
    && (rs != [] ==>
          seen.minTs == rs[0].ts
          && var last := rs[|rs| - 1]; seen.maxTs == last.ts && seen.lastTs == last.ts && seen.lastSrc == last.src)
  }

  lemma NoteSummarises(rs: seq<Record>, seen: Seen, r: Record)
    requires Summarised(rs, seen) && (rs == [] || !KeyLess(r, rs[|rs| - 1]))
    ensures Summarised(rs + [r], Note(seen, r))
  {
    SortedAppend(rs, r);
  }

  /** The bytes written so far hold the closed blocks. */
  ghost predicate Laid(codec: Codec, opts: Options, out: Data, offset: nat, blocks: seq<seq<Record>>, blobs: seq<Data>,
                       timeIndex: seq<IndexEntry>) {
    out == Header(opts) + Concat(blobs) && offset == |out| && Indexed(codec, opts, blocks, blobs, timeIndex)
  }

  lemma LayBlock(codec: Codec, opts: Options, out: Data, offset: nat, blocks: seq<seq<Record>>, blobs: seq<Data>,
                 timeIndex: seq<IndexEntry>, block: seq<Record>, blob: Data)
    requires Laid(codec, opts, out, offset, blocks, blobs, timeIndex) && block != []
             && StoredBlock(codec, opts, block) == Some(blob)
    ensures Laid(codec, opts, out + blob, offset + |blob|, blocks + [block], blobs + [blob],
                 timeIndex + [IndexEntry(block[0].ts, offset, |blob| % TWO_32)])
  {
    ConcatAppend(blobs, blob);
    Assoc(Header(opts), Concat(blobs), blob);
    var blocks', blobs', index' :=
      blocks + [block], blobs + [blob], timeIndex + [IndexEntry(block[0].ts, offset, |blob| % TWO_32)];
    forall i | 0 <= i < |blocks'|
      ensures IndexedAt(codec, opts, blocks', blobs', index', i)
    {
      assert blobs'[..i] == blobs[..i];
      if i < |blocks| {
        assert IndexedAt(codec, opts, blocks, blobs, timeIndex, i);
      } else {
        assert blobs[..i] == blobs;
      }
    }
  }

  /** The source index and the sources waiting for their first block. */
  ghost predicate Tracked(opts: Options, srcIndex: map<Data, SrcEntry>, newSrcs: seq<Data>, blocks: seq<seq<Record>>,
                          pending: seq<Record>, blobs: seq<Data>) {
    |blobs| == |blocks|
    && if opts.indexSources then
         Counted(srcIndex, Flat(blocks) + pending)
         && Placed(srcIndex, newSrcs, blocks, pending, |Header(opts)|, blobs)
       else srcIndex == map[] && newSrcs == []
  }

  lemma NewSourcesKnown(opts: Options, srcIndex: map<Data, SrcEntry>, newSrcs: seq<Data>, blocks: seq<seq<Record>>,
                        pending: seq<Record>, blobs: seq<Data>)
    requires Tracked(opts, srcIndex, newSrcs, blocks, pending, blobs)
    ensures forall k :: k in newSrcs ==> k in srcIndex
  {
    SourcesConcat(Flat(blocks), pending);
  }

  lemma TrackRecord(opts: Options, srcIndex: map<Data, SrcEntry>, newSrcs: seq<Data>, blocks: seq<seq<Record>>,
                    pending: seq<Record>, blobs: seq<Data>, r: Record)
    requires opts.indexSources && Tracked(opts, srcIndex, newSrcs, blocks, pending, blobs)
    ensures Tracked(opts, Count(srcIndex, r.src),
                    if r.src in srcIndex then newSrcs else newSrcs + [r.src], blocks, pending + [r], blobs)
  {
    CountRecord(srcIndex, Flat(blocks) + pending, r);
    assert Flat(blocks) + pending + [r] == Flat(blocks) + (pending + [r]);
    PlaceRecord(srcIndex, newSrcs, blocks, pending, |Header(opts)|, blobs, r);
  }

  lemma TrackBlock(opts: Options, srcIndex: map<Data, SrcEntry>, newSrcs: seq<Data>, blocks: seq<seq<Record>>,
                   pending: seq<Record>, blobs: seq<Data>, blob: Data)
    requires Tracked(opts, srcIndex, newSrcs, blocks, pending, blobs)
    ensures Tracked(opts, Point(srcIndex, newSrcs, |Header(opts)| + |Concat(blobs)|), [], blocks + [pending], [],
                    blobs + [blob])
  {
    FlatAppend(blocks, pending);
    if opts.indexSources {
      assert Flat(blocks + [pending]) + [] == Flat(blocks) + pending;
      PlaceBlock(srcIndex, newSrcs, blocks, pending, |Header(opts)|, blobs, blob);
    }
  }

  // ---------------------------------------------------------------- the writer's state, as a value

  /** The writer's fields, with the closed blocks and their stored bytes. */
  datatype Draft = Draft(out: Data, offset: nat, seen: Seen, pending: seq<Record>, pendingSize: nat,
                         timeIndex: seq<IndexEntry>,
                         srcIndex: map<Data, SrcEntry>, newSrcs: seq<Data>, blocks: seq<seq<Record>>, blobs: seq<Data>)

  /** Every record accepted so far, in order. */
  ghost function Contents(d: Draft): seq<Record> {
    Flat(d.blocks) + d.pending
  }

  /** Everything but the bound on the pending block, which Add breaks before it flushes. */
  ghost predicate Sound(codec: Codec, opts: Options, d: Draft) {
    Summarised(Contents(d), d.seen)
    && Laid(codec, opts, d.out, d.offset, d.blocks, d.blobs, d.timeIndex)
    && Tracked(opts, d.srcIndex, d.newSrcs, d.blocks, d.pending, d.blobs)
    && d.pendingSize == SizeOf(d.pending)
  }

  function Blank(opts: Options): Draft {
    Draft(Header(opts), |Header(opts)|, Seen(0, false, 0, 0, 0, []), [], 0, [], map[], [], [], [])
  }

  function Taken(opts: Options, d: Draft, r: Record): Draft {
    d.(seen := Note(d.seen, r), pending := d.pending + [r], pendingSize := d.pendingSize + 16 + |r.src| + |r.payload|,
       srcIndex := if opts.indexSources then Count(d.srcIndex, r.src) else d.srcIndex,
       newSrcs := if opts.indexSources && r.src !in d.srcIndex then d.newSrcs + [r.src] else d.newSrcs)
  }

  lemma TakeSound(codec: Codec, opts: Options, d: Draft, r: Record)
    requires Sound(codec, opts, d) && (Contents(d) == [] || !KeyLess(r, Contents(d)[|Contents(d)| - 1]))
    ensures Sound(codec, opts, Taken(opts, d, r)) && Contents(Taken(opts, d, r)) == Contents(d) + [r]
  {
    var rs, e := Contents(d), Taken(opts, d, r);
    assert Contents(e) == rs + [r];
    assert Summarised(rs + [r], e.seen) by { NoteSummarises(rs, d.seen, r); }
    assert SizeOf(e.pending) == e.pendingSize by { SizeAppend(d.pending, r); }
    assert Tracked(opts, e.srcIndex, e.newSrcs, d.blocks, e.pending, d.blobs) by {
      if opts.indexSources { TrackRecord(opts, d.srcIndex, d.newSrcs, d.blocks, d.pending, d.blobs, r); }
    }
  }

  function Closed(d: Draft, blob: Data): Draft
    requires d.pending != []
  {
    d.(out := d.out + blob, offset := d.offset + |blob|, pending := [], pendingSize := 0,
       timeIndex := d.timeIndex + [IndexEntry(d.pending[0].ts, d.offset, |blob| % TWO_32)],
       srcIndex := Point(d.srcIndex, d.newSrcs, d.offset), newSrcs := [], blocks := d.blocks + [d.pending],
       blobs := d.blobs + [blob])
  }

  lemma CloseSound(codec: Codec, opts: Options, d: Draft, blob: Data)
    requires Sound(codec, opts, d) && d.pending != [] && StoredBlock(codec, opts, d.pending) == Some(blob)
    ensures Sound(codec, opts, Closed(d, blob)) && Contents(Closed(d, blob)) == Contents(d)
  {
    LayBlock(codec, opts, d.out, d.offset, d.blocks, d.blobs, d.timeIndex, d.pending, blob);
    TrackBlock(opts, d.srcIndex, d.newSrcs, d.blocks, d.pending, d.blobs, blob);
    FlatAppend(d.blocks, d.pending);
    assert Flat(d.blocks + [d.pending]) + [] == Contents(d);
  }

  // ---------------------------------------------------------------- the writer

  datatype AddResult = Added | OutOfOrder | CompressFailed

  class Writer {
    const codec: Codec
    const opts: Options
    var out: Data
    var offset: nat
    var seen: Seen
    var pending: seq<Record>
    var pendingSize: nat
    var timeIndex: seq<IndexEntry>
    var srcIndex: map<Data, SrcEntry>
    var newSrcs: seq<Data>
    ghost var now: Draft

    /** The fields are those of the draft. */
    ghost predicate Pictured()
      reads this
    {
      out == now.out && offset == now.offset && seen == now.seen
      && pending == now.pending && pendingSize == now.pendingSize && timeIndex == now.timeIndex
      && srcIndex == now.srcIndex && newSrcs == now.newSrcs
    }

    ghost predicate Valid()
      reads this
    {
      Pictured() && opts.blockSize > 0 && Sound(codec, opts, now) && AllFull(opts.blockSize, now.blocks)
      && pendingSize < opts.blockSize
    }

    constructor (codec: Codec, opts: Options)
      ensures Valid() && Contents(now) == [] && this.codec == codec
      ensures this.opts == opts.(blockSize := if opts.blockSize <= 0 then 32 * 1024 else opts.blockSize)
    {
      this.codec := codec;
      var o := if opts.blockSize <= 0 then opts.(blockSize := DEFAULT_BLOCK_SIZE) else opts;
      this.opts := o;
      out, offset := Header(o), |Header(o)|;
      seen := Seen(0, false, 0, 0, 0, []);
      pending, pendingSize, timeIndex, srcIndex, newSrcs := [], 0, [], map[], [];
      now := Blank(o);
      BlankSound(codec, o);
    }

    /** ErrOutOfOrder exactly for a record before the last one; otherwise the record is taken. */
    method Add(r: Record) returns (res: AddResult)
      requires Valid()
      modifies this
      ensures res == OutOfOrder <==> old(Contents(now)) != [] && KeyLess(r, old(Contents(now)[|Contents(now)| - 1]))
      ensures res == OutOfOrder <==> old(Contents(now)) != [] && Precedes(r, old(Contents(now)[|Contents(now)| - 1]))
      ensures res == OutOfOrder ==> Valid() && now == old(now)
      ensures res == Added ==> Valid() && Contents(now) == old(Contents(now)) + [r]
      ensures res == CompressFailed ==> StoredBlock(codec, opts, old(now.pending) + [r]) == None
    {
      if Contents(now) != [] { KeyIsByteOrder(r, Contents(now)[|Contents(now)| - 1]); }
      if seen.hasRecords && (r.ts < seen.lastTs || (r.ts == seen.lastTs && LexLess(r.src, seen.lastSrc))) {
        return OutOfOrder;
      }
      var ok := Accept(r);
      return if ok then Added else CompressFailed;
    }

    method Accept(r: Record) returns (ok: bool)
      requires Valid() && (Contents(now) == [] || !KeyLess(r, Contents(now)[|Contents(now)| - 1]))
      modifies this
      ensures ok ==> Valid() && Contents(now) == old(Contents(now)) + [r]
      ensures !ok ==> StoredBlock(codec, opts, old(now.pending) + [r]) == None
    {
      TakeSound(codec, opts, now, r);
      Take(r);
      ok := true;
      if pendingSize >= opts.blockSize {
        Completes(opts.blockSize, old(pending), r);
        AllFullAppend(opts.blockSize, now.blocks, pending);
        ok := FlushBlock();
      }
    }

    /** The file's bytes and metadata; the ghost image says what they are made of. */
    method Finish() returns (ok: bool, file: Data, meta: Meta, ghost im: Image)
      requires Valid()
      modifies this
      ensures ok ==> Finished(codec, im) && file == FileBytes(im) && meta == im.meta && im.opts == opts
      ensures ok ==> Flat(im.blocks) == old(Contents(now)) && Divided(opts.blockSize, im.blocks)
      ensures ok ==> meta.partStart == opts.partStart && meta.partEnd == opts.partEnd
      ensures ok && opts.indexSources ==> Counted(im.index, Flat(im.blocks)) && FirstBlocks(im)
      ensures !ok ==> StoredBlock(codec, opts, old(now.pending)) == None
    {
      ghost var full, last := now.blocks, pending;
      ok := FlushBlock();
      if !ok {
        im := Image(opts, [], [], [], [], map[], Meta(0, 0, 0, 0, 0, 0, 0, 0, 0));
        return false, [], Meta(0, 0, 0, 0, 0, 0, 0, 0, 0), im;
      }
      DividedAtEnd(opts.blockSize, full, last, now.blocks);
      file, meta, im := Assemble(codec, opts, out, offset, seen, timeIndex, srcIndex, now);
    }

    method Take(r: Record)
      requires Pictured()
      modifies this
      ensures Pictured() && now == Taken(opts, old(now), r)
    {
      ghost var w := Taken(opts, now, r);
      var index, srcs := srcIndex, newSrcs;
      if opts.indexSources {
        if r.src !in index { srcs := srcs + [r.src]; }
        index := Count(index, r.src);
      }
      assert index == w.srcIndex && srcs == w.newSrcs;
      seen, srcIndex, newSrcs := Note(seen, r), index, srcs;
      pending, pendingSize := pending + [r], pendingSize + 8 + 4 + |r.src| + 4 + |r.payload|;
      now := w;
      assert Pictured();
    }

    /** Closes the pending block; false when compression fails. */
    method FlushBlock() returns (ok: bool)
      requires Pictured() && Sound(codec, opts, now)
      modifies this
      ensures ok ==> Pictured() && Sound(codec, opts, now) && Contents(now) == old(Contents(now)) && pending == []
      ensures ok ==> now.blocks == if old(pending) == [] then old(now.blocks) else old(now.blocks) + [old(pending)]
      ensures !ok ==> StoredBlock(codec, opts, old(pending)) == None
    {
      if pending == [] { return true; }
      var index := PointSources();
      var blob := Store();
      if blob.None? { return false; }
      CloseSound(codec, opts, now, blob.value);
      Close(blob.value, index);
      return true;
    }

    method Close(blob: Data, index: map<Data, SrcEntry>)
      requires Pictured() && pending != [] && index == Point(srcIndex, newSrcs, offset)
      modifies this
      ensures Pictured() && now == Closed(old(now), blob)
    {
      ghost var w := Closed(now, blob);
      out := out + blob;
      timeIndex := timeIndex + [IndexEntry(pending[0].ts, offset, |blob| % TWO_32)];
      offset := offset + |blob|;
      srcIndex, newSrcs := index, [];
      pending, pendingSize := [], 0;
      now := w;
      assert Pictured();
    }

    /** The stored form of the pending block. */
    method Store() returns (blob: Option<Data>)
      ensures blob == StoredBlock(codec, opts, pending)
    {
      var encoded;
      if opts.columnar {
        encoded := EncodeColBlock(codec.crc, pending);
      } else {
        encoded := EncodeBlock(codec.crc, pending);
      }
      if opts.compression == 0 { return Some(encoded); }
      blob := codec.compress(opts.compression, encoded);
    }

    /** The source index with the new sources pointing at the block about to be written. */
    method PointSources() returns (index: map<Data, SrcEntry>)
      requires Tracked(opts, srcIndex, newSrcs, now.blocks, pending, now.blobs)
      ensures index == Point(srcIndex, newSrcs, offset)
    {
      NewSourcesKnown(opts, srcIndex, newSrcs, now.blocks, pending, now.blobs);
      index := srcIndex;
      for i := 0 to |newSrcs|
        invariant index == Point(srcIndex, newSrcs[..i], offset)
      {
        var k := newSrcs[i];
        PointOne(srcIndex, newSrcs, i, offset);
        index := index[k := index[k].(firstBlock := offset)];
      }
      assert newSrcs[..|newSrcs|] == newSrcs;
    }
  }

  lemma BlankSound(codec: Codec, opts: Options)
    ensures Sound(codec, opts, Blank(opts)) && Contents(Blank(opts)) == []
  {
    assert Header(opts) + [] == Header(opts);
    assert SourceSet([]) == {};
  }

  lemma PointOne(srcIndex: map<Data, SrcEntry>, keys: seq<Data>, i: nat, offset: nat)
    requires i < |keys| && keys[i] in srcIndex
    ensures var p := Point(srcIndex, keys[..i], offset);
            Point(srcIndex, keys[..i + 1], offset) == p[keys[i] := p[keys[i]].(firstBlock := offset)]
  {
    assert keys[..i + 1] == keys[..i] + [keys[i]];
  }

  /** Every block but the last is full; the last is full or what was left over. */
  ghost predicate Divided(blockSize: int, blocks: seq<seq<Record>>) {
    blocks == [] || (AllFull(blockSize, blocks[..|blocks| - 1])
                     && (Full(blockSize, blocks[|blocks| - 1]) || 0 < SizeOf(blocks[|blocks| - 1]) < blockSize))
  }

  lemma DividedAtEnd(blockSize: int, full: seq<seq<Record>>, last: seq<Record>, blocks: seq<seq<Record>>)
    requires AllFull(blockSize, full) && SizeOf(last) < blockSize
             && blocks == if last == [] then full else full + [last]
    ensures Divided(blockSize, blocks)
  {
    if last != [] {
      assert blocks[..|blocks| - 1] == full;
      SizeBound(last);
    } else if full != [] {
      var n := |full| - 1;
      assert Full(blockSize, full[n]);
      forall i | 0 <= i < |full[..n]|
        ensures Full(blockSize, full[..n][i])
      {
        assert Full(blockSize, full[i]);
      }
    }
  }

  /** The source index points at each source's first block. */
  ghost predicate FirstBlocks(im: Image) {
    |im.blobs| == |im.blocks|
    && forall k {:trigger FirstIdx(im.blocks, k)} :: k in im.index ==>
         FirstIdx(im.blocks, k) < |im.blocks|
         && im.index[k].firstBlock == |Header(im.opts)| + |Concat(im.blobs[..FirstIdx(im.blocks, k)])|
  }

  lemma FinishedImage(codec: Codec, opts: Options, d: Draft, im: Image)
    requires Sound(codec, opts, d) && d.pending == []
    requires KeysCover(im.keys, im.index) && im.opts == opts && im.blocks == d.blocks && im.blobs == d.blobs
             && im.entries == d.timeIndex && im.index == d.srcIndex
    requires im.meta == Meta(d.seen.minTs, d.seen.maxTs, d.offset, |TimeIndexBytes(im.entries)|,
                             d.offset + |TimeIndexBytes(im.entries)|,
                             |SrcIndexBytes(im.keys, im.index)|, d.seen.recordCount, opts.partStart, opts.partEnd)
    ensures Finished(codec, im)
            && FileBytes(im) == d.out + TimeIndexBytes(im.entries) + SrcIndexBytes(im.keys, im.index) + Footer(im.meta)
    ensures opts.indexSources ==> Counted(im.index, Flat(im.blocks)) && FirstBlocks(im)
  {
    assert Flat(d.blocks) + [] == Flat(d.blocks);
    assert forall k :: k in d.newSrcs ==> k in SourceSet([]);
    if opts.indexSources {
      forall k | k in im.index
        ensures FirstIdx(im.blocks, k) < |im.blocks|
      {
        FirstIdxFound(d.blocks, k);
      }
    }
  }

  /** The tail of Finish: both indexes and the footer behind the blocks. */
  method Assemble(codec: Codec, opts: Options, out: Data, offset: nat, seen: Seen, timeIndex: seq<IndexEntry>,
                  srcIndex: map<Data, SrcEntry>, ghost d: Draft)
    returns (file: Data, meta: Meta, ghost im: Image)
    requires Sound(codec, opts, d) && d.pending == []
    requires out == d.out && offset == d.offset && seen == d.seen && timeIndex == d.timeIndex && srcIndex == d.srcIndex
    ensures Finished(codec, im) && file == FileBytes(im) && meta == im.meta && im.opts == opts && im.blocks == d.blocks
    ensures meta.partStart == opts.partStart && meta.partEnd == opts.partEnd
    ensures opts.indexSources ==> Counted(im.index, Flat(im.blocks)) && FirstBlocks(im)
  {
    var times := WriteTimeIndex(timeIndex);
    var siOff := offset + |times|;
    var keys := SortedKeys(srcIndex);
    var sources := WriteSrcIndex(keys, srcIndex);
    meta := Meta(seen.minTs, seen.maxTs, offset, |times|, siOff, |sources|, seen.recordCount, opts.partStart,
                 opts.partEnd);
    file := out + times + sources + Footer(meta);
    im := Image(opts, d.blocks, d.blobs, timeIndex, keys, srcIndex, meta);
    FinishedImage(codec, opts, d, im);
  }

  lemma {:induction false} TimeIndexAppend(es: seq<IndexEntry>, e: IndexEntry)
    ensures TimeIndexBytes(es + [e]) == TimeIndexBytes(es) + EntryBytes(e)
  {
    if es == [] {
      assert es + [e] == [e] && [e][1..] == [];
      assert TimeIndexBytes([e]) == EntryBytes(e) + TimeIndexBytes([]);
    } else {
      assert (es + [e])[1..] == es[1..] + [e];
      TimeIndexAppend(es[1..], e);
      Assoc(EntryBytes(es[0]), TimeIndexBytes(es[1..]), EntryBytes(e));
    }
  }

  method WriteTimeIndex(es: seq<IndexEntry>) returns (b: Data)
    ensures b == TimeIndexBytes(es)
  {
    b := [];
    for i := 0 to |es|
      invariant b == TimeIndexBytes(es[..i])
    {
      TimeIndexAppend(es[..i], es[i]);
      assert es[..i + 1] == es[..i] + [es[i]];
      b := b + EntryBytes(es[i]);
    }
    assert es[..|es|] == es;
  }

  lemma {:induction false} SrcIndexAppend(keys: seq<Data>, index: map<Data, SrcEntry>, k: Data)
    requires k in index && forall j :: j in keys ==> j in index
    ensures SrcIndexBytes(keys + [k], index) == SrcIndexBytes(keys, index) + SrcEntryBytes(k, index[k])
  {
    if keys == [] {
      assert keys + [k] == [k] && [k][1..] == [];
      assert SrcIndexBytes([k], index) == SrcEntryBytes(k, index[k]) + SrcIndexBytes([], index);
    } else {
      assert (keys + [k])[1..] == keys[1..] + [k];
      SrcIndexAppend(keys[1..], index, k);
      Assoc(SrcEntryBytes(keys[0], index[keys[0]]), SrcIndexBytes(keys[1..], index), SrcEntryBytes(k, index[k]));
    }
  }

  method WriteSrcIndex(keys: seq<Data>, index: map<Data, SrcEntry>) returns (b: Data)
    requires forall k :: k in keys ==> k in index
    ensures b == SrcIndexBytes(keys, index)
  {
    b := [];
    for i := 0 to |keys|
      invariant b == SrcIndexBytes(keys[..i], index)
    {
      SrcIndexAppend(keys[..i], index, keys[i]);
      assert keys[..i + 1] == keys[..i] + [keys[i]];
      b := b + SrcEntryBytes(keys[i], index[keys[i]]);
    }
    assert keys[..|keys|] == keys;
  }

  /** Below 0x42524D54 records to a block no headerless file looks versioned. */
  lemma SmallBlocksUnambiguous(blockSize: int, im: Image)
    requires 0 < blockSize <= 16 * (0x42524D54 - 1) && Divided(blockSize, im.blocks)
    ensures Unambiguous(im)
  {
    if im.blocks != [] {
      assert |im.blocks| > 1 ==>
               im.blocks[..|im.blocks| - 1][0] == im.blocks[0] && Full(blockSize, im.blocks[..|im.blocks| - 1][0]);
      BlockCountBound(blockSize, im.blocks[0]);
    }
  }

  lemma LastInOrder(rs: seq<Record>, r: Record)
    requires Sorted(rs + [r])
    ensures rs != [] ==> !KeyLess(r, rs[|rs| - 1])
  {
    if rs != [] {
      var all := rs + [r];
      assert KeyLe(all[|rs| - 1], all[|rs|]);
    }
  }

  /** Some block cannot be compressed. */
  ghost predicate Uncompressible(codec: Codec) {
    exists o, block :: StoredBlock(codec, o, block) == None
  }

  lemma FoundOne(codec: Codec, o: Options, block: seq<Record>)
    requires StoredBlock(codec, o, block) == None
    ensures Uncompressible(codec)
  {}

  /** A record that is not before the last one is added, unless compression fails. */
  method AddInOrder(w: Writer, ghost before: seq<Record>, r: Record) returns (ok: bool)
    requires w.Valid() && Contents(w.now) == before && (before == [] || !KeyLess(r, before[|before| - 1]))
    modifies w
    ensures ok ==> w.Valid() && Contents(w.now) == before + [r]
    ensures !ok ==> Uncompressible(w.codec)
  {
    ghost var block := w.now.pending + [r];
    var res := w.Add(r);
    if res == CompressFailed { FoundOne(w.codec, w.opts, block); }
    return res == Added;
  }
}
