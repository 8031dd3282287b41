/** The sorted in-memory buffer of one partition (internal/memtable/memtable.go). */
module Memtable {
  import opened Bytes
  import opened Records
  import opened Scans

  // ---------------------------------------------------------------- what a history of appends must leave

  /** The records with k's timestamp and source. */
  function OfKey(rs: seq<Record>, k: Record): seq<Record> {
    if rs == [] then [] else (if SameKey(rs[0], k) then [rs[0]] else []) + OfKey(rs[1..], k)
  }

  function Reverse(rs: seq<Record>): seq<Record> {
    if rs == [] then [] else Reverse(rs[1..]) + [rs[0]]
  }

  function SizeSum(rs: seq<Record>): nat {
    if rs == [] then 0 else SizeSum(rs[..|rs| - 1]) + 8 + |rs[|rs| - 1].src| + |rs[|rs| - 1].payload|
  }

  /** Sorted, a permutation of the history, equal keys in reverse arrival order. */
  ghost predicate Reflects(rs: seq<Record>, history: seq<Record>) {
    Sorted(rs) && multiset(rs) == multiset(history)
    && forall k {:trigger OfKey(rs, k)} :: OfKey(rs, k) == Reverse(OfKey(history, k))
  }

  lemma {:induction false} OfKeyConcat(a: seq<Record>, b: seq<Record>, k: Record)
    ensures OfKey(a + b, k) == OfKey(a, k) + OfKey(b, k)
  {
    if a == [] {
      assert a + b == b;
    } else {
      assert (a + b)[1..] == a[1..] + b;
      OfKeyConcat(a[1..], b, k);
    }
  }

  lemma {:induction false} NoneOfKey(a: seq<Record>, k: Record)
    requires forall i :: 0 <= i < |a| ==> !SameKey(a[i], k)
    ensures OfKey(a, k) == []
  {
    if a != [] { NoneOfKey(a[1..], k); }
  }

  lemma {:induction false} ReverseAppend(rs: seq<Record>, r: Record)
    ensures Reverse(rs + [r]) == [r] + Reverse(rs)
  {
    if rs == [] {
      assert Reverse([r]) == Reverse([]) + [r];
    } else {
      assert (rs + [r])[1..] == rs[1..] + [r];
      ReverseAppend(rs[1..], r);
    }
  }

  /** i is where insertionPoint puts r: behind the smaller keys, in front of the equal ones. */
  ghost predicate InsertsAt(rs: seq<Record>, r: Record, i: nat) {
    i <= |rs| && (forall j :: 0 <= j < i ==> KeyLess(rs[j], r)) && forall j :: i <= j < |rs| ==> !KeyLess(rs[j], r)
  }

  function Inserted(rs: seq<Record>, r: Record, i: nat): seq<Record>
    requires i <= |rs|
  {
    rs[..i] + [r] + rs[i..]
  }

  lemma InsertSorted(rs: seq<Record>, r: Record, i: nat)
    requires Sorted(rs) && InsertsAt(rs, r, i)
    ensures Sorted(Inserted(rs, r, i)) && multiset(Inserted(rs, r, i)) == multiset(rs) + multiset{r}
  {
    assert rs == rs[..i] + rs[i..];
    forall j | 0 <= j < i
      ensures KeyLe(rs[j], r)
    {
      KeyTotal(rs[j], r);
    }
  }

  lemma InsertOfKey(rs: seq<Record>, r: Record, i: nat, k: Record)
    requires InsertsAt(rs, r, i)
    ensures OfKey(Inserted(rs, r, i), k) == (if SameKey(r, k) then [r] else []) + OfKey(rs, k)
  {
    assert rs == rs[..i] + rs[i..];
    OfKeyConcat(rs[..i], rs[i..], k);
    OfKeyConcat(rs[..i] + [r], rs[i..], k);
    OfKeyConcat(rs[..i], [r], k);
    assert OfKey([r], k) == if SameKey(r, k) then [r] else [];
    if SameKey(r, k) {
      forall j | 0 <= j < i
        ensures !SameKey(rs[..i][j], k)
      {
        LexTrichotomy(rs[j].src, r.src);
      }
      NoneOfKey(rs[..i], k);
    }
  }

  lemma InsertReflects(rs: seq<Record>, history: seq<Record>, r: Record, i: nat)
    requires Reflects(rs, history) && InsertsAt(rs, r, i)
    ensures Reflects(Inserted(rs, r, i), history + [r])
  {
    InsertSorted(rs, r, i);
    forall k
      ensures OfKey(Inserted(rs, r, i), k) == Reverse(OfKey(history + [r], k))
    {
      assert OfKey(rs, k) == Reverse(OfKey(history, k));
      InsertOfKey(rs, r, i, k);
      OfKeyConcat(history, [r], k);
      assert OfKey([r], k) == if SameKey(r, k) then [r] else [];
      if SameKey(r, k) {
        ReverseAppend(OfKey(history, k), r);
      } else {
        assert OfKey(history, k) + [] == OfKey(history, k);
      }
    }
  }

  /** Nothing but the history decides the buffer: two lists that reflect it are equal. */
  lemma {:induction false} ReflectionUnique(a: seq<Record>, b: seq<Record>)
    requires Sorted(a) && Sorted(b) && forall k :: OfKey(a, k) == OfKey(b, k)
    ensures a == b
  {
    HeadOfKey(a);
    HeadOfKey(b);
    if a != [] && b != [] {
      SameHead(a, b);
      forall k
        ensures OfKey(a[1..], k) == OfKey(b[1..], k)
      {
        assert OfKey(a, k) == OfKey(b, k);
        if SameKey(a[0], k) {
          assert OfKey(a[1..], k) == OfKey(a, k)[1..] && OfKey(b[1..], k) == OfKey(b, k)[1..];
        } else {
          assert [] + OfKey(a[1..], k) == OfKey(a[1..], k) && [] + OfKey(b[1..], k) == OfKey(b[1..], k);
        }
      }
      ReflectionUnique(a[1..], b[1..]);
    }
  }

  lemma HeadOfKey(rs: seq<Record>)
    ensures rs == [] || OfKey(rs, rs[0]) != []
  {}

  lemma {:induction false} InOfKey(rs: seq<Record>, k: Record, r: Record)
    requires r in OfKey(rs, k)
    ensures exists i :: 0 <= i < |rs| && rs[i] == r
  {
    if !(SameKey(rs[0], k) && r == rs[0]) {
      InOfKey(rs[1..], k, r);
      var i :| 0 <= i < |rs[1..]| && rs[1..][i] == r;
      assert rs[i + 1] == r;
    }
  }

  lemma SameHead(a: seq<Record>, b: seq<Record>)
    requires Sorted(a) && Sorted(b) && a != [] && b != [] && forall k :: OfKey(a, k) == OfKey(b, k)
    ensures a[0] == b[0]
  {
    var x, y := a[0], b[0];
    assert OfKey(a, x) == [x] + OfKey(a[1..], x) && OfKey(b, y) == [y] + OfKey(b[1..], y);
    assert OfKey(b, x) == OfKey(a, x) && OfKey(a, y) == OfKey(b, y);
    InOfKey(b, x, x);
    InOfKey(a, y, y);
    var i :| 0 <= i < |b| && b[i] == x;
    var j :| 0 <= j < |a| && a[j] == y;
    KeyTotal(x, y);
    assert SameKey(x, y) by {
      if i > 0 { assert KeyLe(b[0], b[i]); }
      if j > 0 { assert KeyLe(a[0], a[j]); }
    }
    assert OfKey(b, x)[0] == y;
  }

  // ---------------------------------------------------------------- the iterator

  class Iterator {
    const records: seq<Record>
    var pos: int
    const end: Int64
    const sourceID: Option<Data>
    var current: Record
    /** The records not yet looked at. */
    ghost var unread: seq<Record>

    /** The memtable filters by source whenever sourceID is not nil, even when it is empty. */
    ghost function Q(): Query {
      Query(MIN_INT64, end, sourceID)
    }

    ghost predicate Valid()
      reads this
    {
      -1 <= pos && Sorted(records) && Sorted(unread) && unread == if pos < |records| then records[pos + 1..] else []
    }

    constructor (records: seq<Record>, end: Int64, sourceID: Option<Data>)
      requires Sorted(records)
      ensures Valid() && unread == records && Q() == Query(MIN_INT64, end, sourceID) && this.end == end
              && this.sourceID == sourceID
    {
      this.records, this.pos, this.end, this.sourceID, this.current, this.unread :=
        records, -1, end, sourceID, Record(0, [], []), records;
      assert records[0..] == records;
    }

    method Next() returns (ok: bool)
      requires Valid()
      modifies this
      ensures Valid()
      ensures ok ==> Select(Q(), old(unread)) == [current] + Select(Q(), unread)
      ensures !ok ==> Select(Q(), old(unread)) == [] && Select(Q(), unread) == []
    {
      while true
        invariant Valid() && Select(Q(), old(unread)) == Select(Q(), unread)
        decreases |records| - pos
      {
        ghost var before := unread;
        pos := pos + 1;
        if pos >= |records| { return false; }
        var r := records[pos];
        StepUnread(Q(), records, pos, before);
        unread := unread[1..];
        if r.ts >= end {
          PastEnd(Q(), before);
          return false;
        }
        if sourceID.Some? && r.src != sourceID.value { continue; }
        current := r;
        return true;
      }
    }
  }

  lemma StepUnread(q: Query, rs: seq<Record>, i: nat, unread: seq<Record>)
    requires i < |rs| && unread == rs[i..] && Sorted(unread)
    ensures unread != [] && unread[0] == rs[i] && unread[1..] == rs[i + 1..] && Sorted(unread[1..])
    ensures Select(q, unread) == (if Wants(q, rs[i]) then [rs[i]] else []) + Select(q, unread[1..])
  {}

  method Drain(it: Iterator) returns (rs: seq<Record>)
    requires it.Valid()
    modifies it
    ensures rs == old(Select(it.Q(), it.unread))
  {
    ghost var all := Select(it.Q(), it.unread);
    rs := [];
    var ok := it.Next();
    while ok
      invariant it.Valid()
      invariant if ok then all == rs + [it.current] + Select(it.Q(), it.unread) else all == rs
      decreases |all| - |rs|, ok
    {
      rs := rs + [it.current];
      ok := it.Next();
    }
  }

  // ---------------------------------------------------------------- the memtable

  class Memtable {
    var records: seq<Record>
    var sizeBytes: nat
    /** Every record appended, in arrival order. */
    ghost var history: seq<Record>

    ghost predicate Valid()
      reads this
    {
      Reflects(records, history) && sizeBytes == SizeSum(history)
    }

    constructor ()
      ensures Valid() && history == [] && sizeBytes == 0
    {
      records, sizeBytes, history := [], 0, [];
    }

    method Append(r: Record)
      requires Valid()
      modifies this
      ensures Valid() && history == old(history) + [r]
      ensures sizeBytes == old(sizeBytes) + 8 + |r.src| + |r.payload|
    {
      var i := InsertionPoint(records, r);
      InsertReflects(records, history, r, i);
      assert (history + [r])[..|history|] == history;
      records := records[..i] + [r] + records[i..];
      sizeBytes := sizeBytes + 8 + |r.src| + |r.payload|;
      history := history + [r];
    }

    /** None is the runtime panic of a negative slice length; otherwise the iterator is over a copy. */
    method Scan(start: Int64, end: Int64, sourceID: Option<Data>) returns (it: Option<Iterator>)
      requires Valid()
      ensures it == None <==> exists r :: r in records && end <= r.ts < start
      ensures it.Some? ==> fresh(it.value) && it.value.Valid()
                           && Select(it.value.Q(), it.value.unread) == Select(Query(start, end, sourceID), records)
    {
      var a := FirstAtOrAfter(records, start);
      var b := FirstAtOrAfter(records, end);
      if b < a {
        assert records[b] in records;
        return None;
      }
      var s := records[a..b];
      var iter := new Iterator(s, end, sourceID);
      SliceSelects(records, start, end, sourceID, a, b);
      return Some(iter);
    }

    /** The flush snapshot: everything stamped before math.MaxInt64. */
    method Freeze() returns (it: Iterator)
      requires Valid()
      ensures fresh(it) && it.Valid() && Select(it.Q(), it.unread) == Select(Query(MIN_INT64, MAX_INT64, None), records)
    {
      it := new Iterator(records, MAX_INT64, None);
    }
  }

  method InsertionPoint(records: seq<Record>, r: Record) returns (i: nat)
    requires Sorted(records)
    ensures InsertsAt(records, r, i)
    ensures i <= |records| && forall j :: 0 <= j < |records| ==> (Precedes(records[j], r) <==> j < i)
  {
    var f: nat --> bool := (i: nat) requires i < |records| =>
      if records[i].ts != r.ts then records[i].ts > r.ts else !LexLess(records[i].src, r.src);
    forall i, j | 0 <= i <= j < |records| && f(i)
      ensures f(j)
    {
      if i < j { KeyTransitive(r, records[i], records[j]); }
    }
    i := SortSearch(|records|, f);
    forall j | 0 <= j < |records|
      ensures KeyLess(records[j], r) <==> j < i
    {
      assert f(j) <==> !KeyLess(records[j], r);
    }
    forall j | 0 <= j < |records| {
      KeyIsByteOrder(records[j], r);
    }
  }

  method FirstAtOrAfter(records: seq<Record>, t: Int64) returns (k: nat)
    requires Sorted(records)
    ensures k <= |records| && forall i :: 0 <= i < |records| ==> (records[i].ts >= t <==> i >= k)
  {
    var f: nat --> bool := (i: nat) requires i < |records| => records[i].ts >= t;
    forall i, j | 0 <= i <= j < |records| && f(i)
      ensures f(j)
    {
      if i < j { assert KeyLe(records[i], records[j]); }
    }
    k := SortSearch(|records|, f);
    forall i | 0 <= i < |records|
      ensures records[i].ts >= t <==> i >= k
    {
      assert f(i) <==> records[i].ts >= t;
    }
  }

  lemma SelectThirds(q: Query, rs: seq<Record>, a: nat, b: nat)
    requires a <= b <= |rs|
    ensures Select(q, rs[..a]) == [] && Select(q, rs[b..]) == [] ==> Select(q, rs) == Select(q, rs[a..b])
  {
    var x, y, z := rs[..a], rs[a..b], rs[b..];
    assert rs == x + (y + z);
    SelectConcat(q, x, y + z);
    SelectConcat(q, y, z);
  }

  lemma SliceSelects(rs: seq<Record>, start: Int64, end: Int64, sourceID: Option<Data>, a: nat, b: nat)
    requires Sorted(rs) && a <= b <= |rs|
    requires forall i :: 0 <= i < |rs| ==> (rs[i].ts >= start <==> i >= a) && (rs[i].ts >= end <==> i >= b)
    ensures Sorted(rs[a..b])
            && Select(Query(MIN_INT64, end, sourceID), rs[a..b]) == Select(Query(start, end, sourceID), rs)
  {
    var q := Query(start, end, sourceID);
    var x, y, z := rs[..a], rs[a..b], rs[b..];
    SelectThirds(q, rs, a, b);
    OutsideSelectsNone(q, rs, 0, a, x);
    OutsideSelectsNone(q, rs, b, |rs|, z);
    InsideSelects(q, rs, a, b, y);
  }

  /** A stretch of rs outside the range. */
  lemma OutsideSelectsNone(q: Query, rs: seq<Record>, i: nat, j: nat, part: seq<Record>)
    requires i <= j <= |rs| && part == rs[i..j] && forall k :: i <= k < j ==> rs[k].ts < q.start || rs[k].ts >= q.end
    ensures Select(q, part) == []
  {
    assert forall k :: 0 <= k < |part| ==> part[k] == rs[i + k];
    SelectNone(q, part);
  }

  /** A stretch of rs that starts in range needs no lower bound. */
  lemma InsideSelects(q: Query, rs: seq<Record>, i: nat, j: nat, part: seq<Record>)
    requires Sorted(rs) && i <= j <= |rs| && part == rs[i..j] && forall k :: i <= k < j ==> q.start <= rs[k].ts
    ensures Sorted(part) && Select(Query(MIN_INT64, q.end, q.source), part) == Select(q, part)
  {
    assert forall k :: 0 <= k < |part| ==> part[k] == rs[i + k];
    SameSelection(Query(MIN_INT64, q.end, q.source), q, part);
  }

  lemma {:induction false} SameSelection(q: Query, p: Query, rs: seq<Record>)
    requires forall i :: 0 <= i < |rs| ==> (Wants(q, rs[i]) <==> Wants(p, rs[i]))
    ensures Select(q, rs) == Select(p, rs)
  {
    if rs != [] { SameSelection(q, p, rs[1..]); }
  }

  /** The history determines the buffer: no two buffers reflect the same one. */
  lemma BufferDeterminedByHistory(a: seq<Record>, b: seq<Record>, history: seq<Record>)
    requires Reflects(a, history) && Reflects(b, history)
    ensures a == b
  {
    forall k
      ensures OfKey(a, k) == OfKey(b, k)
    {
      assert OfKey(a, k) == Reverse(OfKey(history, k)) && OfKey(b, k) == Reverse(OfKey(history, k));
    }
    ReflectionUnique(a, b);
  }
}
