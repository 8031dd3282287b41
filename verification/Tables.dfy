/** SSTables end to end: writing a sorted list, opening the file and scanning it (internal/sstable). */
module Tables {
  import opened Bytes
  import opened Records
  import opened TableFormat
  import opened TableFile
  import opened Scans
  import opened Writer
  import opened Caching
  import RowScan
  import ColScan

  /** Write/read refinement: the finished file opens, and scanning it returns the filtered list but for records stamped
      exactly start in blocks before the start block. */
  lemma WriteThenRead(codec: Codec, im: Image, path: string, q: Query)
    requires Lossless(codec) && Finished(codec, im) && ImageFits(im) && Unambiguous(im)
    ensures OpenFile(path, FileBytes(im)) == Opened(ReaderOf(path, im))
            && Represents(codec, ReaderOf(path, im), im.blocks)
    ensures NoEmptyBlock(im.blocks) && Select(q, Flat(im.blocks)) == Missed(im.blocks, q) + Scanned(im.blocks, q)
    ensures forall r :: r in Missed(im.blocks, q) ==> r.ts == q.start
    ensures StrictBoundaries(im.blocks) ==> Scanned(im.blocks, q) == Select(q, Flat(im.blocks))
  {
    OpenWritten(codec, im, path);
    WrittenRepresents(codec, im, path);
    ScannedIsSelected(im.blocks, q);
    if StrictBoundaries(im.blocks) { ExactAcrossStrictBoundaries(im.blocks, q); }
  }

  /** When no block is stored in zero bytes, no two blocks share an offset, so cache keys tell them apart. */
  lemma StoredApart(codec: Codec, im: Image, path: string)
    requires Finished(codec, im) && forall i :: 0 <= i < |im.blobs| ==> im.blobs[i] != []
    ensures RowScan.OffsetsDistinct(ReaderOf(path, im))
  {
    forall i, j | 0 <= i < j < |im.entries|
      ensures im.entries[i].offset != im.entries[j].offset
    {
      assert IndexedAt(codec, im.opts, im.blocks, im.blobs, im.entries, i)
             && IndexedAt(codec, im.opts, im.blocks, im.blobs, im.entries, j);
      ConcatGrows(im.blobs, i, j);
    }
  }

  lemma {:induction false} ConcatGrows(blobs: seq<Data>, i: nat, j: nat)
    requires i < j <= |blobs| && forall k :: 0 <= k < |blobs| ==> blobs[k] != []
    ensures |Concat(blobs[..i])| < |Concat(blobs[..j])|
  {
    assert blobs[..j][..j - 1] == blobs[..j - 1] && blobs[j - 1] != [];
    if i < j - 1 { ConcatGrows(blobs, i, j - 1); }
  }

  /** Reader.Scan, drained, through a cache that many readers share. */
  method ScanTable(codec: Codec, rd: Reader, start: Int64, end: Int64, sourceID: Data, cache: BlockCache?,
                   ghost blocks: seq<seq<Record>>, ghost readers: set<Reader>) returns (records: seq<Record>)
    requires Represents(codec, rd, blocks) && rd in readers && RowScan.Serves(codec, cache, readers)
    modifies cache
    ensures NoEmptyBlock(blocks) && records == Scanned(blocks, Asked(start, end, sourceID)) && Sorted(records)
    ensures RowScan.Serves(codec, cache, readers) && RowScan.Kept(cache, rd.path)
  {
    ScannedSorted(codec, rd, blocks, Asked(start, end, sourceID));
    if rd.version.columnar {
      records := ColScan.DrainColumns(codec, rd, start, end, sourceID, blocks);
    } else {
      if cache != null { assert RowScan.Faithful(codec, rd, cache); }
      records := RowScan.DrainRows(codec, rd, start, end, sourceID, cache, blocks);
      RowScan.StillServes(codec, cache, rd, readers);
    }
  }

  lemma ScannedSorted(codec: Codec, rd: Reader, blocks: seq<seq<Record>>, q: Query)
    requires Represents(codec, rd, blocks)
    ensures NoEmptyBlock(blocks) && Sorted(Scanned(blocks, q))
  {
    ScannedIsSelected(blocks, q);
  }

  method AddAll(w: Writer, rs: seq<Record>) returns (ok: bool)
    requires w.Valid() && Contents(w.now) == [] && Sorted(rs)
    modifies w
    ensures ok ==> w.Valid() && Contents(w.now) == rs
    ensures !ok ==> Uncompressible(w.codec)
  {
    ghost var done: seq<Record> := [];
    for i := 0 to |rs|
      invariant w.Valid() && done == rs[..i] && Contents(w.now) == done
    {
      assert rs[..i + 1] == rs[..i] + [rs[i]];
      LastInOrder(done, rs[i]);
      ok := AddInOrder(w, done, rs[i]);
      if !ok { return; }
      done := done + [rs[i]];
    }
    assert done == rs;
    return true;
  }

  /** Adding a sorted list record by record; false only when compression fails. A block size of 0 or less stands for
      the default, which is below the bound. */
  method WriteTable(codec: Codec, opts: Options, rs: seq<Record>) returns (ok: bool, file: Data, ghost im: Image)
    requires Sorted(rs)
    ensures ok ==> Finished(codec, im) && file == FileBytes(im) && Flat(im.blocks) == rs
    ensures ok && opts.blockSize <= 16 * (0x42524D54 - 1) ==> Unambiguous(im)
    ensures !ok ==> Uncompressible(codec)
  {
    im := Image(opts, [], [], [], [], map[], Meta(0, 0, 0, 0, 0, 0, 0, 0, 0));
    var w := new Writer(codec, opts);
    ok := AddAll(w, rs);
    if !ok { return false, [], im; }
    var meta;
    ok, file, meta, im := w.Finish();
    if ok && opts.blockSize <= 16 * (0x42524D54 - 1) { SmallBlocksUnambiguous(w.opts.blockSize, im); }
  }
}
