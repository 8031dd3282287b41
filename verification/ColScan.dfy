/** Columnar iteration and the timestamps-only block scan (internal/sstable/reader.go). */
module ColScan {
  import opened Bytes
  import opened Records
  import opened Blocks
  import opened TableFormat
  import opened TableFile
  import opened Scans

  /** readColBlock: decoding copies every field, so nothing refers to the decompression buffer afterwards. */
  method ReadColBlock(codec: Codec, rd: Reader, idx: nat) returns (r: Option<seq<Record>>)
    requires idx < |rd.timeIndex| && rd.version.columnar
    ensures r == BlockAt(codec, rd, idx)
  {
    var stored := StoredAt(rd, idx);
    if stored.None? { return None; }
    var data := stored.value;
    if rd.version.compression != 0 {
      var d := codec.decompress(rd.version.compression, data);
      if d.None? { return None; }
      data := d.value;
    }
    r := DecodeColumnar(codec.crc, data);
  }

  class ColScanIterator {
    const codec: Codec
    const rd: Reader
    const start: Int64
    const end: Int64
    const sourceID: Data
    var blockIdx: nat
    var blockRecs: seq<Record>
    var recIdx: nat
    var current: Record
    var err: bool
    ghost const blocks: seq<seq<Record>>
    /** The records not yet looked at. */
    ghost var unread: seq<Record>

    ghost function Q(): Query {
      Asked(start, end, sourceID)
    }

    ghost predicate Valid()
      reads this
    {
      Represents(codec, rd, blocks) && rd.version.columnar && !err && recIdx <= |blockRecs|
      && Sorted(unread) && unread == blockRecs[recIdx..] + From(blocks, blockIdx + 1)
    }

    constructor (codec: Codec, rd: Reader, start: Int64, end: Int64, sourceID: Data, startBlock: nat, recs: seq<Record>,
                 ghost blocks: seq<seq<Record>>)
      requires Represents(codec, rd, blocks) && rd.version.columnar && startBlock < |blocks|
               && recs == blocks[startBlock]
      ensures Valid() && Q() == Asked(start, end, sourceID) && unread == From(blocks, startBlock)
    {
      FromSorted(blocks, startBlock);
      assert recs[0..] == recs;
      this.codec, this.rd, this.start, this.end, this.sourceID := codec, rd, start, end, sourceID;
      this.blockIdx, this.blockRecs, this.recIdx, this.current, this.err :=
        startBlock, recs, 0, Record(0, [], []), false;
      this.blocks, this.unread := blocks, From(blocks, startBlock);
    }

    /** The next record of the block; the query's answer is that record, if wanted, and what is left. */
    method TakeOne() returns (r: Record)
      requires Valid() && recIdx < |blockRecs|
      modifies this`recIdx, this`unread
      ensures Valid() && recIdx == old(recIdx) + 1
      ensures Select(Q(), old(unread)) == (if Wants(Q(), r) then [r] else []) + Select(Q(), unread)
      ensures r.ts >= end ==> Select(Q(), unread) == []
    {
      r := blockRecs[recIdx];
      StepUnread(Q(), blockRecs, recIdx, From(blocks, blockIdx + 1), unread);
      if r.ts >= end { PastEnd(Q(), unread); }
      recIdx, unread := recIdx + 1, unread[1..];
    }

    method InBlock() returns (found: bool, done: bool)
      requires Valid()
      modifies this`recIdx, this`current, this`unread
      ensures Valid()
      ensures found ==> Select(Q(), old(unread)) == [current] + Select(Q(), unread)
      ensures !found ==> Select(Q(), old(unread)) == Select(Q(), unread)
      ensures !found && done ==> Select(Q(), unread) == []
      ensures !found && !done ==> recIdx == |blockRecs|
    {
      while recIdx < |blockRecs|
        invariant Valid() && Select(Q(), old(unread)) == Select(Q(), unread)
        decreases |blockRecs| - recIdx
      {
        var r := TakeOne();
        if r.ts >= end {
          return false, true;
        }
        if r.ts < start { continue; }
        if |sourceID| > 0 && r.src != sourceID { continue; }
        current := r;
        return true, false;
      }
      return false, false;
    }

    method Next() returns (ok: bool)
      requires Valid()
      modifies this
      ensures Valid()
      ensures ok ==> Select(Q(), old(unread)) == [current] + Select(Q(), unread)
      ensures !ok ==> Select(Q(), old(unread)) == [] && Select(Q(), unread) == []
    {
      while true
        invariant Valid() && Select(Q(), old(unread)) == Select(Q(), unread)
        decreases |blocks| - blockIdx
      {
        var found, done := InBlock();
        if found { return true; }
        if done { return false; }
        var more := NextBlock();
        if !more { return false; }
      }
    }

    method NextBlock() returns (more: bool)
      requires Valid() && recIdx == |blockRecs|
      modifies this
      ensures Valid() && Select(Q(), unread) == Select(Q(), old(unread)) && blockIdx == old(blockIdx) + 1
      ensures more ==> blockIdx < |blocks|
      ensures !more ==> Select(Q(), unread) == []
    {
      var i := blockIdx + 1;
      assert unread == From(blocks, i);
      if i >= |rd.timeIndex| || rd.timeIndex[i].minTs >= end {
        if i < |blocks| { NextPastEnd(codec, rd, Q(), blocks, i); }
        Leave(i);
        return false;
      }
      LoadNext(i);
      return true;
    }

    /** blockIdx moves past a block that is not read. */
    method Leave(i: nat)
      requires Valid() && recIdx == |blockRecs|
      modifies this`blockIdx, this`unread
      ensures Valid() && blockIdx == i && unread == From(blocks, i + 1)
    {
      FromSorted(blocks, i + 1);
      blockIdx, unread := i, From(blocks, i + 1);
    }

    method LoadNext(i: nat)
      requires Valid() && i < |blocks| && unread == From(blocks, i)
      modifies this`blockIdx, this`blockRecs, this`recIdx
      ensures Valid() && blockIdx == i
    {
      assert BlockAt(codec, rd, i) == Some(blocks[i]);
      var recs := ReadColBlock(codec, rd, i);
      blockRecs, recIdx, blockIdx := recs.value, 0, i;
    }
  }

  lemma StepUnread(q: Query, recs: seq<Record>, i: nat, later: seq<Record>, unread: seq<Record>)
    requires i < |recs| && unread == recs[i..] + later
    ensures unread[0] == recs[i] && unread[1..] == recs[i + 1..] + later && (Sorted(unread) ==> Sorted(unread[1..]))
    ensures Select(q, unread) == (if Wants(q, recs[i]) then [recs[i]] else []) + Select(q, unread[1..])
  {
    assert unread[1..] == recs[i + 1..] + later;
  }

  /** Draining a scan of a columnar table. */
  method DrainColumns(codec: Codec, rd: Reader, start: Int64, end: Int64, sourceID: Data,
                      ghost blocks: seq<seq<Record>>)
    returns (records: seq<Record>)
    requires Represents(codec, rd, blocks) && rd.version.columnar
    ensures NoEmptyBlock(blocks) && records == Scanned(blocks, Asked(start, end, sourceID))
  {
    var b := Locate(codec, rd, start, end, sourceID, blocks);
    if b.None? { return []; }
    assert BlockAt(codec, rd, b.value) == Some(blocks[b.value]);
    var recs := ReadColBlock(codec, rd, b.value);
    var it := new ColScanIterator(codec, rd, start, end, sourceID, b.value, recs.value, blocks);
    records := Drain(it);
  }

  method Drain(it: ColScanIterator) returns (records: seq<Record>)
    requires it.Valid()
    modifies it
    ensures records == old(Select(it.Q(), it.unread))
  {
    ghost var all := Select(it.Q(), it.unread);
    records := [];
    var ok := it.Next();
    while ok
      invariant it.Valid()
      invariant if ok then all == records + [it.current] + Select(it.Q(), it.unread) else all == records
      decreases |all| - |records|, ok
    {
      records := records + [it.current];
      ok := it.Next();
    }
  }
}
