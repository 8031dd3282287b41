/** Row-block iteration through the block cache and a reused decompression buffer (internal/sstable/reader.go). */
module RowScan {
  import opened Bytes
  import opened Records
  import opened Blocks
  import opened TableFormat
  import opened TableFile
  import opened Scans
  import opened Caching

  function KeyAt(rd: Reader, i: nat): Key
    requires i < |rd.timeIndex|
  {
    Key(rd.path, rd.timeIndex[i].offset)
  }

  /** The checked part of block i, read from the file. */
  function RawAt(codec: Codec, rd: Reader, i: nat): (p: Option<Data>)
    requires i < |rd.timeIndex|
    ensures p.Some? ==> |p.value| >= 4
  {
    match StoredAt(rd, i)
    case None => None
    case Some(b) => RowPart(codec, rd.version.compression, b)
  }

  /** No two blocks start at the same offset. */
  ghost predicate OffsetsDistinct(rd: Reader) {
    forall i, j :: 0 <= i < j < |rd.timeIndex| ==> rd.timeIndex[i].offset != rd.timeIndex[j].offset
  }

  /** The objects a shared cache is made of. */
  ghost function Shared(cache: BlockCache?): set<object>
    reads cache
  {
    if cache == null then {} else {cache as object} + (set a | a in cache.items.Values)
  }

  /** What the cache says of block i is what the file says. */
  ghost predicate FaithfulAt(codec: Codec, rd: Reader, cache: BlockCache, i: nat)
    requires i < |rd.timeIndex|
    reads cache`items, cache.items.Values
  {
    KeyAt(rd, i) in cache.items ==> RawAt(codec, rd, i) == Some(cache.items[KeyAt(rd, i)][..])
  }

  ghost predicate Faithful(codec: Codec, rd: Reader, cache: BlockCache)
    reads cache`items, cache.items.Values
  {
    forall i {:trigger FaithfulAt(codec, rd, cache, i)} :: 0 <= i < |rd.timeIndex| ==> FaithfulAt(codec, rd, cache, i)
  }

  /** The cache is sound, true to the file, and does not own the caller's buffer. */
  ghost predicate CacheOk(codec: Codec, rd: Reader, cache: BlockCache?, buf: array<Byte>)
    reads Shared(cache)
  {
    cache != null ==> cache.Valid() && OffsetsDistinct(rd) && Faithful(codec, rd, cache) && buf !in cache.items.Values
  }

  /** No cached array is overwritten or replaced: every entry keeps its array and bytes, or is new, under path and with
      an array of its own. */
  twostate predicate Kept(cache: BlockCache?, path: string)
    reads Shared(cache)
  {
    cache != null ==> forall k {:trigger cache.items[k]} :: k in cache.items ==>
      (k in old(cache.items) && cache.items[k] == old(cache.items[k]) && cache.items[k][..] == old(cache.items[k][..]))
      || (k.path == path && fresh(cache.items[k]))
  }

  /** decompress: writes into dst when the result fits, and allocates otherwise. */
  method Decompress(codec: Codec, ct: Byte, src: Data, dst: array<Byte>) returns (ok: bool, buf: array<Byte>, n: nat)
    modifies dst
    ensures ok <==> codec.decompress(ct, src).Some?
    ensures ok ==> n <= buf.Length && Some(buf[..n]) == codec.decompress(ct, src)
    ensures buf == dst || fresh(buf)
  {
    var d := codec.decompress(ct, src);
    if d.None? { return false, dst, 0; }
    n := |d.value|;
    buf := dst;
    if n > dst.Length { buf := new Byte[n](_ => 0); }
    for i := 0 to n
      invariant buf[..i] == d.value[..i]
    {
      buf[i] := d.value[i];
    }
    assert d.value[..n] == d.value;
    return true, buf, n;
  }

  method Load(data: Data) returns (a: array<Byte>)
    ensures fresh(a) && a[..] == data
  {
    a := new Byte[|data|](i requires 0 <= i < |data| => data[i]);
  }

  /** The uncompressed branch of readBlockRaw; the array stands for the mapped file region, which nothing writes. */
  method ReadPlain(codec: Codec, rd: Reader, idx: nat, unused: array<Byte>)
    returns (ok: bool, payload: array<Byte>, len: nat)
    requires idx < |rd.timeIndex| && StoredAt(rd, idx).Some? && rd.version.compression == 0
    ensures ok <==> RawAt(codec, rd, idx).Some?
    ensures payload == unused || fresh(payload)
    ensures ok ==> len <= payload.Length && RawAt(codec, rd, idx) == Some(payload[..len])
  {
    var stored := StoredAt(rd, idx).value;
    var checked := ValidateBlock(codec.crc, stored);
    if checked.None? { return false, unused, 0; }
    payload := Load(stored);
    len := |checked.value|;
    assert payload[..len] == checked.value;
    return true, payload, len;
  }

  /** The cache miss of readBlockRaw. */
  method ReadCompressed(codec: Codec, rd: Reader, idx: nat, cache: BlockCache?, decompBuf: array<Byte>)
    returns (ok: bool, payload: array<Byte>, len: nat, buf: array<Byte>)
    requires idx < |rd.timeIndex| && StoredAt(rd, idx).Some? && rd.version.compression != 0
             && CacheOk(codec, rd, cache, decompBuf)
    requires cache != null ==> KeyAt(rd, idx) !in cache.items
    modifies decompBuf, cache
    ensures ok <==> RawAt(codec, rd, idx).Some?
    ensures payload == buf
    ensures ok ==> len <= payload.Length && RawAt(codec, rd, idx) == Some(payload[..len])
    ensures CacheOk(codec, rd, cache, buf)
    ensures Kept(cache, rd.path)
    ensures buf == decompBuf || fresh(buf)
  {
    var n;
    ok, buf, n := Decompress(codec, rd.version.compression, StoredAt(rd, idx).value, decompBuf);
    payload, len := buf, 0;
    if !ok { return; }
    var checked := ValidateBlock(codec.crc, buf[..n]);
    if checked.None? { return false, payload, len, buf; }
    len := |checked.value|;
    assert buf[..len] == buf[..n][..len];
    if cache != null { Remember(codec, rd, idx, cache, buf, len); }
  }

  /** Puts a copy of the block's payload into the cache. */
  method Remember(codec: Codec, rd: Reader, idx: nat, cache: BlockCache, buf: array<Byte>, len: nat)
    requires idx < |rd.timeIndex| && CacheOk(codec, rd, cache, buf) && KeyAt(rd, idx) !in cache.items
    requires len <= buf.Length && RawAt(codec, rd, idx) == Some(buf[..len])
    modifies cache
    ensures CacheOk(codec, rd, cache, buf) && Kept(cache, rd.path)
  {
    cache.Put(KeyAt(rd, idx), buf, len);
    forall i | 0 <= i < |rd.timeIndex|
      ensures FaithfulAt(codec, rd, cache, i)
    {
      assert old(FaithfulAt(codec, rd, cache, i));
      assert i != idx ==> KeyAt(rd, i) != KeyAt(rd, idx);
    }
  }

  /** The cache's answer for block idx. */
  method Recall(codec: Codec, rd: Reader, idx: nat, cache: BlockCache, buf: array<Byte>)
    returns (hit: Option<array<Byte>>)
    requires idx < |rd.timeIndex| && CacheOk(codec, rd, cache, buf)
    modifies cache
    ensures CacheOk(codec, rd, cache, buf) && Kept(cache, rd.path) && cache.items == old(cache.items)
    ensures hit.None? <==> KeyAt(rd, idx) !in cache.items
    ensures hit.Some? ==> hit.value in old(cache.items.Values) && RawAt(codec, rd, idx) == Some(hit.value[..])
  {
    assert FaithfulAt(codec, rd, cache, idx);
    hit := cache.Get(KeyAt(rd, idx));
    forall i | 0 <= i < |rd.timeIndex|
      ensures FaithfulAt(codec, rd, cache, i)
    {
      assert old(FaithfulAt(codec, rd, cache, i));
    }
  }

  /** readBlockRaw: whatever the cache holds and whatever buffer is passed, the payload is the file's. */
  method ReadBlockRaw(codec: Codec, rd: Reader, idx: nat, cache: BlockCache?, decompBuf: array<Byte>)
    returns (ok: bool, payload: array<Byte>, len: nat, buf: array<Byte>)
    requires idx < |rd.timeIndex| && CacheOk(codec, rd, cache, decompBuf)
    modifies decompBuf, cache
    ensures ok <==> RawAt(codec, rd, idx).Some?
    ensures ok ==> len <= payload.Length && RawAt(codec, rd, idx) == Some(payload[..len])
    ensures CacheOk(codec, rd, cache, buf)
    ensures Kept(cache, rd.path)
    ensures buf == decompBuf || fresh(buf)
    ensures payload == decompBuf || fresh(payload) || (cache != null && payload in old(cache.items.Values))
  {
    payload, len, buf := decompBuf, 0, decompBuf;
    var stored := StoredAt(rd, idx);
    if stored.None? { return false, payload, len, buf; }
    if rd.version.compression != 0 {
      if cache != null {
        var hit := Recall(codec, rd, idx, cache, decompBuf);
        if hit.Some? {
          assert hit.value[..hit.value.Length] == hit.value[..];
          return true, hit.value, hit.value.Length, decompBuf;
        }
      }
      ok, payload, len, buf := ReadCompressed(codec, rd, idx, cache, decompBuf);
      return;
    }
    ok, payload, len := ReadPlain(codec, rd, idx, decompBuf);
  }

  // ---------------------------------------------------------------- the iterator

  /** The cursor stands before the records of unread, the last of which come from the blocks after idx. */
  ghost predicate Cursor(payload: Data, off: nat, rem: nat, unread: seq<Record>, blocks: seq<seq<Record>>, idx: nat) {
    forall parsed {:trigger Rest(payload, off, rem, parsed)} :: Rest(payload, off, rem, parsed) ==>
      parsed.Some? && unread == parsed.value + From(blocks, idx + 1)
  }

  /** What is left of the block. */
  ghost predicate Rest(payload: Data, off: nat, rem: nat, parsed: Option<seq<Record>>) {
    parsed == ParseRows(payload, off, rem)
  }

  lemma CursorStep(payload: Data, off: nat, rem: nat, unread: seq<Record>, blocks: seq<seq<Record>>, idx: nat)
    requires Cursor(payload, off, rem, unread, blocks, idx) && rem > 0
    ensures ParseRecordAt(payload, off).Some? && unread != [] && unread[0] == ParseRecordAt(payload, off).value.view
    ensures Cursor(payload, ParseRecordAt(payload, off).value.next, rem - 1, unread[1..], blocks, idx)
  {
    assert Rest(payload, off, rem, ParseRows(payload, off, rem));
    var p := ParseRecordAt(payload, off).value;
    var left := ParseRows(payload, p.next, rem - 1).value;
    assert unread == [p.view] + left + From(blocks, idx + 1);
    assert unread[1..] == left + From(blocks, idx + 1);
  }

  lemma CursorEnd(payload: Data, off: nat, unread: seq<Record>, blocks: seq<seq<Record>>, idx: nat)
    requires Cursor(payload, off, 0, unread, blocks, idx)
    ensures unread == From(blocks, idx + 1)
  {
    assert Rest(payload, off, 0, Some([]));
    assert [] + From(blocks, idx + 1) == From(blocks, idx + 1);
  }

  lemma CursorStart(codec: Codec, rd: Reader, blocks: seq<seq<Record>>, idx: nat, payload: Data)
    requires Represents(codec, rd, blocks) && !rd.version.columnar && idx < |blocks|
             && RawAt(codec, rd, idx) == Some(payload)
    ensures |payload| >= 4 && Cursor(payload, 4, GetU32(payload[..4]), From(blocks, idx), blocks, idx)
  {
    assert BlockAt(codec, rd, idx) == Some(blocks[idx]);
  }

  lemma TailSorted(s: seq<Record>)
    requires Sorted(s) && s != []
    ensures Sorted(s[1..])
  {}

  /** A record outside the query leaves the selection as it was. */
  lemma SkipOne(q: Query, s: seq<Record>)
    requires s != []
    ensures Select(q, s) == (if Wants(q, s[0]) then [s[0]] else []) + Select(q, s[1..])
  {}

  datatype Turn = Found | Exhausted | Crossed

  class ScanIterator {
    const codec: Codec
    const rd: Reader
    const start: Int64
    const end: Int64
    const sourceID: Data
    const cache: BlockCache?
    var blockIdx: nat
    var blockData: array<Byte>
    var blockLen: nat
    var decompBuf: array<Byte>
    var blockOff: nat
    var blockRem: nat
    var current: Record
    var err: bool
    ghost const blocks: seq<seq<Record>>
    /** The records not yet looked at. */
    ghost var unread: seq<Record>
    /** Where in the block the current view points. */
    ghost var viewOff: nat

    ghost function Q(): Query {
      Asked(start, end, sourceID)
    }

    ghost predicate AtCursor()
      reads this, blockData
    {
      blockLen <= blockData.Length && blockOff <= blockLen && Sorted(unread)
      && Cursor(blockData[..blockLen], blockOff, blockRem, unread, blocks, blockIdx)
    }

    ghost predicate Table() {
      Represents(codec, rd, blocks) && !rd.version.columnar
    }

    ghost predicate Valid()
      reads this, blockData, Shared(cache)
    {
      Table() && AtCursor() && CacheOk(codec, rd, cache, decompBuf) && !err
    }

    /** The zero-copy view still shows the current record. */
    ghost predicate Shows()
      reads this, blockData
    {
      blockLen <= blockData.Length && Holds(blockData[..blockLen], viewOff, RecordBody(current))
    }

    /** Buffers stay the iterator's own: whatever it now writes to or reads from it had before, is new, or is cached;
        cached arrays stay where they are. */
    twostate predicate Confined()
      reads this, Shared(cache)
    {
      (decompBuf == old(decompBuf) || fresh(decompBuf))
      && (blockData == old(blockData) || blockData == old(decompBuf) || fresh(blockData)
          || (cache != null && blockData in old(cache.items.Values)))
      && Kept(cache, rd.path)
    }

    /** Reader.Scan, once the start block has been found and read. */
    constructor (codec: Codec, rd: Reader, start: Int64, end: Int64, sourceID: Data, cache: BlockCache?,
                 startBlock: nat,
                 blockData: array<Byte>, blockLen: nat, decompBuf: array<Byte>, ghost blocks: seq<seq<Record>>)
      requires Represents(codec, rd, blocks) && !rd.version.columnar && startBlock < |blocks|
               && CacheOk(codec, rd, cache, decompBuf)
      requires blockLen <= blockData.Length && RawAt(codec, rd, startBlock) == Some(blockData[..blockLen])
      ensures Valid() && Q() == Asked(start, end, sourceID) && unread == From(blocks, startBlock)
      ensures this.blockData == blockData && this.decompBuf == decompBuf && this.cache == cache
      ensures this.codec == codec && this.rd == rd
    {
      CursorStart(codec, rd, blocks, startBlock, blockData[..blockLen]);
      FromSorted(blocks, startBlock);
      this.codec, this.rd, this.start, this.end, this.sourceID, this.cache := codec, rd, start, end, sourceID, cache;
      this.blockIdx, this.blockData, this.blockLen, this.decompBuf := startBlock, blockData, blockLen, decompBuf;
      this.blockOff, this.blockRem := 4, GetU32(blockData[..blockLen][..4]);
      this.current, this.err := Record(0, [], []), false;
      this.blocks, this.unread, this.viewOff := blocks, From(blocks, startBlock), 0;
    }

    /** The inner loop: the rest of the current block. */
    method InBlock() returns (found: bool, done: bool)
      requires Table() && AtCursor()
      modifies this`blockOff, this`blockRem, this`current, this`unread, this`viewOff
      ensures AtCursor()
      ensures found ==> Select(Q(), old(unread)) == [current] + Select(Q(), unread) && Shows()
      ensures !found ==> Select(Q(), old(unread)) == Select(Q(), unread)
      ensures !found && done ==> Select(Q(), unread) == []
      ensures !found && !done ==> blockRem == 0
    {
      while blockRem > 0
        invariant AtCursor() && Select(Q(), old(unread)) == Select(Q(), unread)
        decreases blockRem
      {
        ghost var at := blockOff;
        var r := TakeOne();
        if r.ts >= end { return false, true; }
        if r.ts < start { continue; }
        if |sourceID| > 0 && r.src != sourceID { continue; }
        current := r;
        viewOff := at;
        return true, false;
      }
      return false, false;
    }

    /** The next record of the block; the query's answer is that record, if wanted, and what is left. */
    method TakeOne() returns (r: Record)
      requires Table() && AtCursor() && blockRem > 0
      modifies this`blockOff, this`blockRem, this`unread
      ensures AtCursor() && blockRem == old(blockRem) - 1
      ensures Select(Q(), old(unread)) == (if Wants(Q(), r) then [r] else []) + Select(Q(), unread)
      ensures r.ts >= end ==> Select(Q(), unread) == []
      ensures Holds(blockData[..blockLen], old(blockOff), RecordBody(r))
    {
      ghost var payload := blockData[..blockLen];
      CursorStep(payload, blockOff, blockRem, unread, blocks, blockIdx);
      ParsedRecordIsThere(payload, blockOff);
      SkipOne(Q(), unread);
      TailSorted(unread);
      var p := ParseRecordAt(blockData[..blockLen], blockOff).value;
      r := p.view;
      if r.ts >= end { PastEnd(Q(), unread); }
      blockOff, blockRem, unread := p.next, blockRem - 1, unread[1..];
    }

    /** Next: the next record wanted, or false when there is none. Only this iterator, its own buffer and the cache's
        bookkeeping change; no cached array does. */
    method Next() returns (ok: bool)
      requires Valid()
      modifies this, decompBuf, cache
      ensures Valid()
      ensures ok ==> Select(Q(), old(unread)) == [current] + Select(Q(), unread) && Shows()
      ensures !ok ==> Select(Q(), old(unread)) == [] && Select(Q(), unread) == []
      ensures Confined()
    {
      while true
        invariant Valid() && Select(Q(), old(unread)) == Select(Q(), unread)
        invariant Confined()
        decreases |blocks| - blockIdx
      {
        var turn := Turn();
        if turn.Found? { return true; }
        if turn.Exhausted? { return false; }
      }
    }

    /** One turn of the outer loop. */
    method Turn() returns (turn: Turn)
      requires Valid()
      modifies this, decompBuf, cache
      ensures Valid()
      ensures turn.Found? ==> Select(Q(), old(unread)) == [current] + Select(Q(), unread) && Shows()
      ensures !turn.Found? ==> Select(Q(), old(unread)) == Select(Q(), unread)
      ensures turn.Exhausted? ==> Select(Q(), unread) == []
      ensures turn.Crossed? ==> old(blockIdx) < blockIdx < |blocks|
      ensures Confined()
    {
      var found, done := InBlock();
      if found { return Found; }
      if done { return Exhausted; }
      CursorEnd(blockData[..blockLen], blockOff, unread, blocks, blockIdx);
      var more := NextBlock();
      return if more then Crossed else Exhausted;
    }

    /** Crossing to the next block. */
    method NextBlock() returns (more: bool)
      requires Valid() && blockRem == 0 && unread == From(blocks, blockIdx + 1)
      modifies this, decompBuf, cache
      ensures Valid() && Select(Q(), unread) == Select(Q(), old(unread)) && blockIdx == old(blockIdx) + 1
      ensures more ==> blockIdx < |blocks|
      ensures !more ==> Select(Q(), unread) == []
      ensures Confined()
    {
      if blockIdx + 1 >= |rd.timeIndex| || rd.timeIndex[blockIdx + 1].minTs >= end {
        if blockIdx + 1 < |blocks| {
          NextPastEnd(codec, rd, Q(), blocks, blockIdx + 1);
        }
        Leave();
        return false;
      }
      LoadNext();
      return true;
    }

    /** blockIdx moves past a block that is not read. */
    method Leave()
      requires AtCursor() && blockRem == 0 && Sorted(Flat(blocks))
      modifies this`blockIdx, this`unread
      ensures AtCursor() && blockIdx == old(blockIdx) + 1 && unread == From(blocks, blockIdx + 1)
    {
      var i := blockIdx + 1;
      ghost var later := From(blocks, i + 1);
      FromSorted(blocks, i + 1);
      CursorAtEnd(blockData[..blockLen], blockOff, blocks, i);
      blockIdx, unread := i, later;
    }

    method LoadNext()
      requires Valid() && unread == From(blocks, blockIdx + 1) && blockIdx + 1 < |blocks|
      modifies this, decompBuf, cache
      ensures Valid() && unread == old(unread) && blockIdx == old(blockIdx) + 1
      ensures Confined()
    {
      var i := blockIdx + 1;
      assert BlockAt(codec, rd, i) == Some(blocks[i]);
      var ok, payload, len, buf := ReadBlockRaw(codec, rd, i, cache, decompBuf);
      Adopt(i, payload, len, buf);
    }

    method Adopt(i: nat, payload: array<Byte>, len: nat, buf: array<Byte>)
      requires Table() && i < |blocks| && unread == From(blocks, i) && Sorted(unread)
      requires len <= payload.Length && RawAt(codec, rd, i) == Some(payload[..len])
      modifies this`blockIdx, this`blockData, this`blockLen, this`decompBuf, this`blockOff, this`blockRem
      ensures AtCursor() && blockIdx == i && decompBuf == buf && blockData == payload
    {
      CursorStart(codec, rd, blocks, i, payload[..len]);
      blockIdx := i;
      blockData, blockLen, decompBuf := payload, len, buf;
      blockOff, blockRem := 4, GetU32(payload[..len][..4]);
    }
  }

  lemma CursorAtEnd(payload: Data, off: nat, blocks: seq<seq<Record>>, idx: nat)
    ensures Cursor(payload, off, 0, From(blocks, idx + 1), blocks, idx)
  {
    assert [] + From(blocks, idx + 1) == From(blocks, idx + 1);
  }

  // ---------------------------------------------------------------- several iterators over one cache

  /** The cache is sound and true to the reader's file. */
  ghost predicate Trusted(codec: Codec, rd: Reader, cache: BlockCache?)
    reads Shared(cache)
  {
    cache != null ==> cache.Valid() && OffsetsDistinct(rd) && Faithful(codec, rd, cache)
  }

  /** The cache is true to every one of the readers, and a path names one file. */
  ghost predicate Serves(codec: Codec, cache: BlockCache?, readers: set<Reader>)
    reads Shared(cache)
  {
    cache != null ==>
      cache.Valid() && (forall a, b :: a in readers && b in readers && a.path == b.path ==> a == b)
      && forall rd {:trigger rd in readers} :: rd in readers ==> OffsetsDistinct(rd) && Faithful(codec, rd, cache)
  }

  /** Reading through one reader keeps the cache true to all of them. */
  twostate lemma StillServes(new codec: Codec, cache: BlockCache?, new rd: Reader, new readers: set<Reader>)
    requires old(Serves(codec, cache, readers)) && rd in readers && Kept(cache, rd.path)
    requires Trusted(codec, rd, cache)
    ensures Serves(codec, cache, readers)
  {
    if cache != null {
      forall x | x in readers && x != rd
        ensures Faithful(codec, x, cache)
      {
        assert old(Faithful(codec, x, cache));
        forall i | 0 <= i < |x.timeIndex|
          ensures FaithfulAt(codec, x, cache, i)
        {
          assert old(FaithfulAt(codec, x, cache, i));
        }
      }
    }
  }

  /** Reader.Scan on a row table; null is the empty iterator. */
  method OpenScan(codec: Codec, rd: Reader, start: Int64, end: Int64, sourceID: Data, cache: BlockCache?,
                  ghost blocks: seq<seq<Record>>) returns (it: ScanIterator?)
    requires Represents(codec, rd, blocks) && !rd.version.columnar && Trusted(codec, rd, cache)
    modifies cache
    ensures NoEmptyBlock(blocks) && Trusted(codec, rd, cache) && Kept(cache, rd.path)
    ensures it == null ==> Scanned(blocks, Asked(start, end, sourceID)) == []
    ensures it != null ==> fresh(it) && it.Valid() && it.codec == codec && it.rd == rd && it.cache == cache
    ensures it != null ==>
              fresh(it.decompBuf) && (fresh(it.blockData) || (cache != null && it.blockData in old(cache.items.Values)))
    ensures it != null ==> it.Q() == Asked(start, end, sourceID)
                           && Select(it.Q(), it.unread) == Scanned(blocks, Asked(start, end, sourceID))
  {
    var b := Locate(codec, rd, start, end, sourceID, blocks);
    if b.None? { return null; }
    it := OpenAt(codec, rd, start, end, sourceID, cache, b.value, blocks);
  }

  /** Loads the start block and makes the iterator. */
  method OpenAt(codec: Codec, rd: Reader, start: Int64, end: Int64, sourceID: Data, cache: BlockCache?, idx: nat,
                ghost blocks: seq<seq<Record>>) returns (it: ScanIterator)
    requires Represents(codec, rd, blocks) && !rd.version.columnar && Trusted(codec, rd, cache) && idx < |blocks|
    modifies cache
    ensures Trusted(codec, rd, cache) && Kept(cache, rd.path)
    ensures fresh(it) && it.Valid() && it.codec == codec && it.rd == rd && it.cache == cache && fresh(it.decompBuf)
    ensures fresh(it.blockData) || (cache != null && it.blockData in old(cache.items.Values))
    ensures it.Q() == Asked(start, end, sourceID) && Select(it.Q(), it.unread) == Select(it.Q(), From(blocks, idx))
  {
    var none := new Byte[0];
    assert BlockAt(codec, rd, idx) == Some(blocks[idx]);
    var ok, payload, len, buf := ReadBlockRaw(codec, rd, idx, cache, none);
    assert fresh(payload) || (cache != null && payload in old(cache.items.Values));
    it := new ScanIterator(codec, rd, start, end, sourceID, cache, idx, payload, len, buf, blocks);
  }

  /** Draining a scan of a row table, with any cache contents: exactly what the blocks hold from the start block on. */
  method DrainRows(codec: Codec, rd: Reader, start: Int64, end: Int64, sourceID: Data, cache: BlockCache?,
                   ghost blocks: seq<seq<Record>>) returns (records: seq<Record>)
    requires Represents(codec, rd, blocks) && !rd.version.columnar && Trusted(codec, rd, cache)
    modifies cache
    ensures NoEmptyBlock(blocks) && records == Scanned(blocks, Asked(start, end, sourceID))
    ensures Trusted(codec, rd, cache) && Kept(cache, rd.path)
  {
    var it := OpenScan(codec, rd, start, end, sourceID, cache, blocks);
    if it == null { return []; }
    records := Drain(it);
  }

  method Drain(it: ScanIterator) returns (records: seq<Record>)
    requires it.Valid()
    modifies it, it.decompBuf, it.cache
    ensures records == old(Select(it.Q(), it.unread))
    ensures it.Valid() && it.Confined()
  {
    ghost var all, left := Select(it.Q(), it.unread), Select(it.Q(), it.unread);
    records := [];
    while true
      invariant it.Valid() && left == Select(it.Q(), it.unread)
      invariant it.Confined()
      invariant all == records + left
      decreases |left|
    {
      var ok := it.Next();
      if !ok { return; }
      HeadMoves(records, left, it.current);
      left := left[1..];
      records := records + [it.current];
    }
  }

  lemma HeadMoves(done: seq<Record>, left: seq<Record>, r: Record)
    requires left != [] && left[0] == r
    ensures done + left == done + [r] + left[1..]
  {}
}
