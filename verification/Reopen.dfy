/** The memtables that Open rebuilds from the log (internal/engine/engine.go, internal/memtable/memtable.go). */
module Reopen {
  import opened Bytes
  import opened Records
  import opened Windows
  import opened Bags
  import opened Protocol
  import opened Recovery
  import Memtable

  /** The memtable that receives the records in turn. */
  method Refill(records: seq<Record>) returns (m: Memtable.Memtable)
    ensures fresh(m) && m.Valid() && m.history == records
  {
    m := new Memtable.Memtable();
    for i := 0 to |records|
      invariant fresh(m) && m.Valid() && m.history == records[..i]
    {
      m.Append(records[i]);
      assert records[..i + 1] == records[..i] + [records[i]];
    }
    assert records[..|records|] == records;
  }

  /** order lists the segments by number, which is the order of their zero-padded names. */
  ghost predicate ByName(order: seq<nat>, wals: map<nat, seq<Record>>) {
    (forall i :: i in order <==> i in wals) && forall i, j :: 0 <= i < j < |order| ==> order[i] < order[j]
  }

  /** sort.Strings over the segment names. */
  method SegmentOrder(wals: map<nat, seq<Record>>) returns (order: seq<nat>)
    ensures ByName(order, wals)
  {
    order := [];
    var rest := wals.Keys;
    while rest != {}
      invariant rest <= wals.Keys && forall i :: i in wals <==> i in order || i in rest
      invariant forall i, j :: 0 <= i < j < |order| ==> order[i] < order[j]
      invariant forall i, n :: 0 <= i < |order| && n in rest ==> order[i] < n
      decreases |rest|
    {
      var n := Least(rest);
      order, rest := order + [n], rest - {n};
    }
  }

  method Least(s: set<nat>) returns (n: nat)
    requires s != {}
    ensures n in s && forall k :: k in s ==> n <= k
  {
    n :| n in s;
    var rest := s - {n};
    while rest != {}
      invariant rest <= s && n in s && forall k :: k in s ==> k in rest || n <= k
      decreases |rest|
    {
      var k :| k in rest;
      if k < n { n := k; }
      rest := rest - {k};
    }
  }

  /** What the memtable of window w is sent when all segments are replayed into a fresh engine: the kept records of the
      window, in log order. */
  method ReplayWindow(d: Duration, rc: Recoverer, wals: map<nat, seq<Record>>, order: seq<nat>, w: Win)
    returns (records: seq<Record>)
    requires rc.d == d && rc.mems == map[] && forall i :: 0 <= i < |order| ==> order[i] in wals
    modifies rc`mems
    ensures records == Kept(d, InTurn(wals, order), w, rc.maxFlushedTS)
  {
    var covered := rc.ReplayWals(wals, order);
    records := Sent(rc.mems, w);
    assert Sent(map[], w) == [];
    assert [] + Kept(d, InTurn(wals, order), w, rc.maxFlushedTS) == Kept(d, InTurn(wals, order), w, rc.maxFlushedTS);
  }

  /** Replaying the segments in the order of their names rebuilds the memtable of window w: its buffer is sorted, holds
      exactly what the step machine rebuilds, and has records of equal key in reverse log order. */
  method RebuildWindow(d: Duration, rc: Recoverer, wals: map<nat, seq<Record>>, w: Win)
    returns (m: Memtable.Memtable, order: seq<nat>)
    requires rc.d == d && rc.mems == map[]
    modifies rc`mems
    ensures ByName(order, wals)
    ensures fresh(m) && Memtable.Reflects(m.records, Kept(d, InTurn(wals, order), w, rc.maxFlushedTS))
    ensures multiset(m.records) == ReplayedWals(d, wals, w, rc.maxFlushedTS)
  {
    order := SegmentOrder(wals);
    var records := ReplayWindow(d, rc, wals, order, w);
    m := Refill(records);
    KeptIsRebuilt(d, wals, order, w, rc.maxFlushedTS);
    BufferReflects(m);
  }

  lemma BufferReflects(m: Memtable.Memtable)
    requires m.Valid()
    ensures Memtable.Reflects(m.records, m.history) && multiset(m.records) == multiset(m.history)
  {}

  /** A memtable that had received the logged records of its window, none of which is flushed, is rebuilt as it was,
      records of equal key included. */
  lemma SameBuffer(d: Duration, wals: map<nat, seq<Record>>, order: seq<nat>, w: Win, maxTs: map<Win, int>,
                   before: seq<Record>, after: seq<Record>)
    requires forall i :: 0 <= i < |order| ==> order[i] in wals
    requires Memtable.Reflects(before, Kept(d, InTurn(wals, order), w, map[]))
    requires forall r :: r in InTurn(wals, order) && WinOf(d, r) == w ==> !Skipped(d, maxTs, r)
    requires Memtable.Reflects(after, Kept(d, InTurn(wals, order), w, maxTs))
    ensures after == before
  {
    NothingSkipped(d, InTurn(wals, order), w, maxTs);
    Memtable.BufferDeterminedByHistory(before, after, Kept(d, InTurn(wals, order), w, maxTs));
  }

  lemma {:induction false} NothingSkipped(d: Duration, records: seq<Record>, w: Win, maxTs: map<Win, int>)
    requires forall r :: r in records && WinOf(d, r) == w ==> !Skipped(d, maxTs, r)
    ensures Kept(d, records, w, maxTs) == Kept(d, records, w, map[])
  {
    if records != [] {
      assert records[0] in records && forall r :: r in records[1..] ==> r in records;
      NothingSkipped(d, records[1..], w, maxTs);
    }
  }
}
