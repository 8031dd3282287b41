/** What a range scan over sorted blocks must return, and where Reader.Scan starts reading
    (internal/sstable/reader.go). */
module Scans {
  import opened Bytes
  import opened Records
  import opened TableFormat
  import opened TableFile

  /** Timestamps in [start, end), of one source or of all. */
  datatype Query = Query(start: int, end: int, source: Option<Data>)

  predicate Wants(q: Query, r: Record) {
    q.start <= r.ts < q.end && (q.source.None? || r.src == q.source.value)
  }

  /** The reference: the records wanted, in order. */
  function Select(q: Query, rs: seq<Record>): seq<Record> {
    if rs == [] then [] else (if Wants(q, rs[0]) then [rs[0]] else []) + Select(q, rs[1..])
  }

  lemma {:induction false} SelectConcat(q: Query, a: seq<Record>, b: seq<Record>)
    ensures Select(q, a + b) == Select(q, a) + Select(q, b)
  {
    if a == [] {
      assert a + b == b;
    } else {
      assert (a + b)[0] == a[0] && (a + b)[1..] == a[1..] + b;
      SelectConcat(q, a[1..], b);
    }
  }

  lemma {:induction false} SelectMember(q: Query, rs: seq<Record>, r: Record)
    ensures r in Select(q, rs) <==> r in rs && Wants(q, r)
  {
    if rs != [] { SelectMember(q, rs[1..], r); }
  }

  lemma {:induction false} SelectNone(q: Query, rs: seq<Record>)
    requires forall r :: r in rs ==> !Wants(q, r)
    ensures Select(q, rs) == []
  {
    if rs != [] {
      assert rs[0] in rs;
      SelectNone(q, rs[1..]);
    }
  }

  lemma {:induction false} SelectCount(q: Query, rs: seq<Record>, r: Record)
    ensures multiset(Select(q, rs))[r] == if Wants(q, r) then multiset(rs)[r] else 0
  {
    if rs != [] {
      SelectCount(q, rs[1..], r);
      assert rs == [rs[0]] + rs[1..];
    }
  }

  lemma {:induction false} SelectSorted(q: Query, rs: seq<Record>)
    requires Sorted(rs)
    ensures Sorted(Select(q, rs))
  {
    if rs != [] {
      var rest := rs[1..];
      SelectSorted(q, rest);
      var s := Select(q, rest);
      if Wants(q, rs[0]) {
        forall j | 0 <= j < |s|
          ensures KeyLe(rs[0], s[j])
        {
          SelectMember(q, rest, s[j]);
        }
      }
    }
  }

  /** Nothing is wanted from a sorted list whose first record is past the end. */
  lemma PastEnd(q: Query, rs: seq<Record>)
    requires Sorted(rs) && (rs == [] || rs[0].ts >= q.end)
    ensures Select(q, rs) == []
  {
    forall r | r in rs
      ensures !Wants(q, r)
    {
      var i :| 0 <= i < |rs| && rs[i] == r;
      if i > 0 { assert KeyLe(rs[0], rs[i]); }
    }
    SelectNone(q, rs);
  }

  // ---------------------------------------------------------------- blocks

  /** The records of block i and later. */
  function From(blocks: seq<seq<Record>>, i: nat): seq<Record>
    decreases |blocks| - i
  {
    if i >= |blocks| then [] else blocks[i] + From(blocks, i + 1)
  }

  lemma {:induction false} FlatSplit(blocks: seq<seq<Record>>, i: nat)
    requires i <= |blocks|
    ensures Flat(blocks) == Flat(blocks[..i]) + From(blocks, i)
    decreases |blocks| - i
  {
    if i == |blocks| {
      assert blocks[..i] == blocks;
    } else {
      FlatSplit(blocks, i + 1);
      assert blocks[..i + 1][..i] == blocks[..i];
      assert Flat(blocks[..i + 1]) == Flat(blocks[..i]) + blocks[i];
      assert Flat(blocks[..i]) + blocks[i] + From(blocks, i + 1)
               == Flat(blocks[..i]) + (blocks[i] + From(blocks, i + 1));
    }
  }

  lemma FromSorted(blocks: seq<seq<Record>>, i: nat)
    requires Sorted(Flat(blocks))
    ensures Sorted(From(blocks, i))
  {
    if i <= |blocks| {
      FlatSplit(blocks, i);
      SuffixSorted(Flat(blocks[..i]), From(blocks, i));
    }
  }

  lemma SuffixSorted(a: seq<Record>, b: seq<Record>)
    requires Sorted(a + b)
    ensures Sorted(b)
  {
    forall i, j | 0 <= i < j < |b|
      ensures KeyLe(b[i], b[j])
    {
      assert KeyLe((a + b)[|a| + i], (a + b)[|a| + j]);
    }
  }

  /** Records of earlier blocks come no later than those of block i. */
  lemma EarlierBlock(blocks: seq<seq<Record>>, i: nat, r: Record)
    requires Sorted(Flat(blocks)) && i < |blocks| && blocks[i] != [] && r in Flat(blocks[..i])
    ensures r.ts <= blocks[i][0].ts
  {
    FlatSplit(blocks, i);
    var a, b := Flat(blocks[..i]), From(blocks, i);
    var k :| 0 <= k < |a| && a[k] == r;
    assert (a + b)[k] == r && (a + b)[|a|] == blocks[i][0];
    assert KeyLe((a + b)[k], (a + b)[|a|]);
  }

  lemma MinsIncrease(blocks: seq<seq<Record>>, i: nat, j: nat)
    requires Sorted(Flat(blocks)) && i <= j < |blocks| && blocks[i] != [] && blocks[j] != []
    ensures blocks[i][0].ts <= blocks[j][0].ts
  {
    if i < j {
      FlatMember(blocks[..j], i, blocks[i][0]);
      EarlierBlock(blocks, j, blocks[i][0]);
    }
  }

  lemma {:induction false} FlatMember(blocks: seq<seq<Record>>, i: nat, r: Record)
    requires i < |blocks| && r in blocks[i]
    ensures r in Flat(blocks)
  {
    var n := |blocks| - 1;
    if i < n { FlatMember(blocks[..n], i, r); }
  }

  ghost predicate NoEmptyBlock(blocks: seq<seq<Record>>) {
    forall i :: 0 <= i < |blocks| ==> blocks[i] != []
  }

  /** Where Reader.Scan starts: the last block whose first timestamp is at most start, or block 0. */
  ghost predicate StartsAt(blocks: seq<seq<Record>>, start: int, b: nat)
    requires NoEmptyBlock(blocks)
  {
    b <= |blocks| && (b == |blocks| ==> blocks == [])
    && (b > 0 ==> blocks[b][0].ts <= start)
    && forall i :: b < i < |blocks| ==> blocks[i][0].ts > start
  }

  /** The records a scan does not look at. */
  ghost function Unread(blocks: seq<seq<Record>>, b: nat): seq<Record>
    requires b <= |blocks|
  {
    Flat(blocks[..b])
  }

  /** Starting at block b drops from the reference only records stamped exactly start in earlier blocks. */
  lemma StartBlockDrops(blocks: seq<seq<Record>>, q: Query, b: nat)
    requires Sorted(Flat(blocks)) && NoEmptyBlock(blocks) && StartsAt(blocks, q.start, b)
    ensures Select(q, Flat(blocks)) == Select(q, Unread(blocks, b)) + Select(q, From(blocks, b))
    ensures forall r :: r in Select(q, Unread(blocks, b)) ==> r.ts == q.start
  {
    FlatSplit(blocks, b);
    SelectConcat(q, Unread(blocks, b), From(blocks, b));
    assert blocks[..0] == [];
    forall r | r in Select(q, Unread(blocks, b))
      ensures r.ts == q.start
    {
      SelectMember(q, Unread(blocks, b), r);
      if b > 0 { EarlierBlock(blocks, b, r); }
    }
  }

  /** The scan is exact if and only if no earlier block holds a wanted record stamped start. */
  lemma StartBlockExactIff(blocks: seq<seq<Record>>, q: Query, b: nat)
    requires Sorted(Flat(blocks)) && NoEmptyBlock(blocks) && StartsAt(blocks, q.start, b)
    ensures Select(q, From(blocks, b)) == Select(q, Flat(blocks))
            <==> !exists r :: r in Unread(blocks, b) && r.ts == q.start && Wants(q, r)
  {
    StartBlockDrops(blocks, q, b);
    var lost := Select(q, Unread(blocks, b));
    if lost == [] {
      forall r | r in Unread(blocks, b)
        ensures !Wants(q, r)
      {
        SelectMember(q, Unread(blocks, b), r);
      }
    } else {
      var r := lost[0];
      assert r in lost;
      SelectMember(q, Unread(blocks, b), r);
      assert |Select(q, Flat(blocks))| == |lost| + |Select(q, From(blocks, b))|;
    }
  }

  /** Timestamps grow strictly from each block to the next. */
  ghost predicate StrictBoundaries(blocks: seq<seq<Record>>)
    requires NoEmptyBlock(blocks)
  {
    forall i, r {:trigger r in blocks[i]} :: 0 <= i < |blocks| - 1 && r in blocks[i] ==> r.ts < blocks[i + 1][0].ts
  }

  lemma StrictBoundariesExact(blocks: seq<seq<Record>>, q: Query, b: nat)
    requires Sorted(Flat(blocks)) && NoEmptyBlock(blocks) && StartsAt(blocks, q.start, b) && StrictBoundaries(blocks)
    ensures Select(q, From(blocks, b)) == Select(q, Flat(blocks))
  {
    StartBlockExactIff(blocks, q, b);
    if b > 0 {
      forall r | r in Unread(blocks, b)
        ensures r.ts < q.start
      {
        BeforeBoundary(blocks, b, r);
      }
    } else {
      assert blocks[..0] == [];
    }
  }

  lemma {:induction false} BeforeBoundary(blocks: seq<seq<Record>>, b: nat, r: Record)
    requires Sorted(Flat(blocks)) && NoEmptyBlock(blocks) && StrictBoundaries(blocks) && 0 < b < |blocks|
             && r in Flat(blocks[..b])
    ensures r.ts < blocks[b][0].ts
  {
    assert blocks[..b][..b - 1] == blocks[..b - 1];
    assert blocks[..0] == [];
    if r !in blocks[b - 1] {
      BeforeBoundary(blocks, b - 1, r);
      MinsIncrease(blocks, b - 1, b);
    }
  }

  // ---------------------------------------------------------------- binary search

  /** sort.Search: the first index at which a monotone f holds, or n. */
  method SortSearch(n: nat, f: nat --> bool) returns (k: nat)
    requires forall i :: 0 <= i < n ==> f.requires(i)
    requires forall i, j :: 0 <= i <= j < n && f(i) ==> f(j)
    ensures k <= n && (forall i :: 0 <= i < k ==> !f(i)) && forall i :: k <= i < n ==> f(i)
  {
    var i, j := 0, n;
    while i < j
      invariant 0 <= i <= j <= n
      invariant (forall x :: 0 <= x < i ==> !f(x)) && forall x :: j <= x < n ==> f(x)
    {
      var h := (i + j) / 2;
      if !f(h) { i := h + 1; } else { j := h; }
    }
    k := i;
  }

  // ---------------------------------------------------------------- Reader.Scan up to the choice of the iterator

  /** SSTables filter by source only when len(sourceID) > 0. */
  function Asked(start: int, end: int, sourceID: Data): Query {
    Query(start, end, if |sourceID| == 0 then None else Some(sourceID))
  }

  /** The start block as a function. */
  function StartBlock(blocks: seq<seq<Record>>, start: int, i: nat): (b: nat)
    requires i < |blocks| && forall j :: 0 <= j <= i ==> blocks[j] != []
    ensures b <= i
  {
    if i == 0 || blocks[i][0].ts <= start then i else StartBlock(blocks, start, i - 1)
  }

  lemma StartUnique(blocks: seq<seq<Record>>, start: int, a: nat, b: nat)
    requires NoEmptyBlock(blocks) && StartsAt(blocks, start, a) && StartsAt(blocks, start, b)
    ensures a == b
  {}

  lemma {:induction false} StartBlockFound(blocks: seq<seq<Record>>, start: int, i: nat)
    requires NoEmptyBlock(blocks) && i < |blocks| && forall j :: i < j < |blocks| ==> blocks[j][0].ts > start
    ensures StartsAt(blocks, start, StartBlock(blocks, start, i))
  {
    if i > 0 && blocks[i][0].ts > start { StartBlockFound(blocks, start, i - 1); }
  }

  /** What a scan of a table with these blocks delivers. */
  function Scanned(blocks: seq<seq<Record>>, q: Query): seq<Record>
    requires NoEmptyBlock(blocks)
  {
    if blocks == [] then [] else Select(q, From(blocks, StartBlock(blocks, q.start, |blocks| - 1)))
  }

  /** What it leaves out. */
  function Missed(blocks: seq<seq<Record>>, q: Query): seq<Record>
    requires NoEmptyBlock(blocks)
  {
    if blocks == [] then [] else Select(q, Flat(blocks[..StartBlock(blocks, q.start, |blocks| - 1)]))
  }

  /** A scan delivers the reference but for the missed records, all stamped exactly start; it is exact iff there are
      none. */
  lemma ScannedIsSelected(blocks: seq<seq<Record>>, q: Query)
    requires Sorted(Flat(blocks)) && NoEmptyBlock(blocks)
    ensures Select(q, Flat(blocks)) == Missed(blocks, q) + Scanned(blocks, q)
    ensures forall r :: r in Missed(blocks, q) ==> r.ts == q.start
    ensures Scanned(blocks, q) == Select(q, Flat(blocks)) <==> Missed(blocks, q) == []
    ensures Sorted(Scanned(blocks, q))
  {
    if blocks != [] {
      var b := StartBlock(blocks, q.start, |blocks| - 1);
      StartBlockFound(blocks, q.start, |blocks| - 1);
      StartBlockDrops(blocks, q, b);
      FromSorted(blocks, b);
      SelectSorted(q, From(blocks, b));
      assert |Select(q, Flat(blocks))| == |Missed(blocks, q)| + |Scanned(blocks, q)|;
    }
  }

  lemma ExactAcrossStrictBoundaries(blocks: seq<seq<Record>>, q: Query)
    requires Sorted(Flat(blocks)) && NoEmptyBlock(blocks) && StrictBoundaries(blocks)
    ensures Missed(blocks, q) == []
  {
    if blocks != [] {
      var b := StartBlock(blocks, q.start, |blocks| - 1);
      StartBlockFound(blocks, q.start, |blocks| - 1);
      StrictBoundariesExact(blocks, q, b);
      ScannedIsSelected(blocks, q);
    }
  }

  lemma {:induction false} FlatEmpty(blocks: seq<seq<Record>>)
    requires NoEmptyBlock(blocks)
    ensures Flat(blocks) == [] <==> blocks == []
  {
    if blocks != [] { assert blocks[|blocks| - 1] != []; }
  }

  /** The file's time range does not meet [start, end). */
  predicate OutOfRange(m: Meta, start: int, end: int) {
    m.maxTs < start || m.minTs >= end
  }

  /** Skipping a file by its time range drops nothing wanted. */
  lemma RangeSkipSound(m: Meta, rs: seq<Record>, q: Query)
    requires Sorted(rs) && Summary(m, rs) && (m.count == 0 || OutOfRange(m, q.start, q.end))
    ensures Select(q, rs) == []
  {
    forall r | r in rs
      ensures !Wants(q, r)
    {
      var i :| 0 <= i < |rs| && rs[i] == r;
      if i > 0 { assert KeyLe(rs[0], rs[i]); }
      if i < |rs| - 1 { assert KeyLe(rs[i], rs[|rs| - 1]); }
    }
    SelectNone(q, rs);
  }

  /** Skipping a file by its source index drops nothing wanted. */
  lemma SourceSkipSound(rs: seq<Record>, q: Query)
    requires q.source.Some? && q.source.value !in SourceSet(rs)
    ensures Select(q, rs) == []
  {
    SelectNone(q, rs);
  }

  method FirstLater(entries: seq<IndexEntry>, start: int) returns (k: nat)
    requires forall i, j :: 0 <= i <= j < |entries| ==> entries[i].minTs <= entries[j].minTs
    ensures k <= |entries| && forall i :: 0 <= i < |entries| ==> (entries[i].minTs > start <==> i >= k)
  {
    var later: nat --> bool := (i: nat) requires i < |entries| => entries[i].minTs > start;
    k := SortSearch(|entries|, later);
    forall i | 0 <= i < |entries|
      ensures entries[i].minTs > start <==> i >= k
    {
      assert later(i) <==> entries[i].minTs > start;
    }
  }

  /** Reader.Scan before it reads: None is the empty iterator, Some(b) the block to start with. */
  method Locate(codec: Codec, rd: Reader, start: int, end: int, sourceID: Data, ghost blocks: seq<seq<Record>>)
    returns (b: Option<nat>)
    requires Represents(codec, rd, blocks)
    ensures NoEmptyBlock(blocks)
    ensures b == None ==> Scanned(blocks, Asked(start, end, sourceID)) == []
    ensures b.Some? ==> b.value < |blocks|
    ensures b.Some? ==>
              Scanned(blocks, Asked(start, end, sourceID)) == Select(Asked(start, end, sourceID), From(blocks, b.value))
  {
    ghost var q := Asked(start, end, sourceID);
    FlatEmpty(blocks);
    ScannedIsSelected(blocks, q);
    if rd.meta.count == 0 || rd.meta.maxTs < start || rd.meta.minTs >= end {
      RangeSkipSound(rd.meta, Flat(blocks), q);
      return None;
    }
    if |sourceID| > 0 && rd.srcIndex.Some? && sourceID !in rd.srcIndex.value {
      SourceSkipSound(Flat(blocks), q);
      return None;
    }
    IndexIncreases(codec, rd, blocks);
    var k := FirstLater(rd.timeIndex, start);
    if k > 0 { k := k - 1; }
    StartBlockFound(blocks, start, |blocks| - 1);
    StartUnique(blocks, start, k, StartBlock(blocks, start, |blocks| - 1));
    return Some(k);
  }

  lemma IndexIncreases(codec: Codec, rd: Reader, blocks: seq<seq<Record>>)
    requires Represents(codec, rd, blocks)
    ensures forall i, j :: 0 <= i <= j < |rd.timeIndex| ==> rd.timeIndex[i].minTs <= rd.timeIndex[j].minTs
  {
    forall i, j | 0 <= i <= j < |rd.timeIndex|
      ensures rd.timeIndex[i].minTs <= rd.timeIndex[j].minTs
    {
      MinsIncrease(blocks, i, j);
    }
  }

  /** A block that starts past the end, and everything after it, holds nothing wanted. */
  lemma NextPastEnd(codec: Codec, rd: Reader, q: Query, blocks: seq<seq<Record>>, i: nat)
    requires Represents(codec, rd, blocks) && i < |blocks| && rd.timeIndex[i].minTs >= q.end
    ensures Select(q, From(blocks, i)) == [] && Select(q, From(blocks, i + 1)) == []
  {
    FromSorted(blocks, i);
    FromSorted(blocks, i + 1);
    assert From(blocks, i) == blocks[i] + From(blocks, i + 1);
    PastEnd(q, From(blocks, i));
    LaterPastEnd(q, blocks, i);
  }

  lemma LaterPastEnd(q: Query, blocks: seq<seq<Record>>, i: nat)
    requires i < |blocks| && Sorted(From(blocks, i)) && blocks[i] != [] && blocks[i][0].ts >= q.end
             && Sorted(From(blocks, i + 1))
    ensures Select(q, From(blocks, i + 1)) == []
  {
    var all, later := From(blocks, i), From(blocks, i + 1);
    if later != [] {
      assert all[|blocks[i]|] == later[0];
      assert KeyLe(all[0], all[|blocks[i]|]);
    }
    PastEnd(q, later);
  }
}
