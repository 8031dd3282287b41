/** The scan of a running engine against the history of its run: what it returns is what was written and not retired. */
module EndToEnd {
  import opened Bytes
  import opened Records
  import opened Windows
  import opened Bags
  import opened Protocol
  import opened Structure
  import opened CrashSafety
  import Conservation
  import Compaction
  import opened TableFile
  import opened Scans
  import opened EngineScan

  /** The window starts at a multiple of the duration and has its length. */
  predicate Aligned(d: Duration, w: Window) {
    WindowStart(w.start, d) == w.start && w.end == w.start + d
  }

  lemma AlignedHolds(d: Duration, w: Window, ts: int)
    requires Aligned(d, w) && w.Contains(ts)
    ensures WindowStart(ts, d) == w.start
  {
    FloorDivIsFloor(ts, d);
    FloorDivIsFloor(w.start, d);
    var q, p := FloorDiv(w.start, d), FloorDiv(ts, d);
    if q < p { MultiplesApart(q, p, d); } else if p < q { MultiplesApart(p, q, d); }
  }

  /** What the store holds for the window that starts at x. */
  ghost function HeldAt(d: Duration, st: Store, x: Win): Held {
    if Window(x, x + d) in st then st[Window(x, x + d)] else Held([], [])
  }

  /** The store has aligned windows whose memtables and files hold what the run's memory holds. */
  ghost predicate Mirrors(d: Duration, m: Memory, st: Store) {
    (forall w {:trigger w in st} :: w in st ==> Aligned(d, w))
    && forall x {:trigger HeldAt(d, st, x)} :: multiset(Kept(HeldAt(d, st, x))) == At(m.mem, x) + ReaderBag(m.files, x)
  }

  /** A record is held only by its own window. */
  lemma HeldByOwnWindow(d: Duration, w: Window, h: Held, r: Record)
    requires Aligned(d, w) && Inside(w, h) && r in Kept(h)
    ensures w == Window(WinOf(d, r), WinOf(d, r) + d)
  {
    if r !in h.mem {
      var all := Compaction.Contained(h.tables);
      Compaction.FlattenMember(all, r);
      var i :| 0 <= i < |all| && r in all[i];
      assert r in Flat(h.tables[i]);
    }
    AlignedHolds(d, w, r.ts);
  }

  lemma {:induction false} CountHeld(d: Duration, order: seq<Window>, st: Store, r: Record, own: Window)
    requires AllIn(order, st) && SaneStore(st) && (forall w :: w in st ==> Aligned(d, w))
    requires (forall i, j :: 0 <= i < j < |order| ==> order[i] != order[j])
             && own == Window(WinOf(d, r), WinOf(d, r) + d)
    ensures multiset(AllHeld(order, st))[r] == if own in order then multiset(Kept(st[own]))[r] else 0
  {
    if order != [] {
      var n := |order| - 1;
      var w := order[n];
      CountHeld(d, order[..n], st, r, own);
      assert SaneAt(st, w);
      assert order == order[..n] + [w];
      if w != own && r in Kept(st[w]) { HeldByOwnWindow(d, w, st[w], r); }
    }
  }

  /** Nothing is on its way between memtable, file and retirement. */
  ghost predicate AtRest(m: Memory) {
    m.flush.NoFlush? && !(m.compact.Retiring? && m.compact.logged) && forall x :: At(m.pend, x) == multiset{}
  }

  lemma RestHoldsWritten(d: Duration, s: State, x: Win)
    requires Conservation.Accounted(d, s) && s.mode.Running? && AtRest(s.mode.m)
    ensures At(s.mode.m.mem, x) + ReaderBag(s.mode.m.files, x) == At(s.written, x)
  {
    var m := s.mode.m;
    assert Conservation.Held(m, x) == At(s.written, x) + Conservation.Expiring(m, x);
    assert At(m.pend, x) == multiset{} && Conservation.InFlight(m.flush, x) == multiset{};
    assert Conservation.Expiring(m, x) == multiset{};
    DropEmpty(At(m.mem, x), ReaderBag(m.files, x), At(s.written, x));
  }

  lemma DropEmpty(a: Bag, b: Bag, c: Bag)
    requires a + multiset{} + multiset{} + b == c + multiset{}
    ensures a + b == c
  {
    assert a + multiset{} + multiset{} == a && c + multiset{} == c;
  }

  lemma HeldIsWritten(d: Duration, s: State, st: Store, order: seq<Window>, r: Record)
    requires Conservation.Accounted(d, s) && s.mode.Running? && AtRest(s.mode.m) && Mirrors(d, s.mode.m, st)
    requires SaneStore(st) && Lists(order, st.Keys) && AllIn(order, st)
    ensures multiset(AllHeld(order, st))[r] == At(s.written, WinOf(d, r))[r]
  {
    CountOwnWindow(d, st, order, r);
    WindowHoldsWritten(d, s, st, WinOf(d, r));
  }

  lemma CountOwnWindow(d: Duration, st: Store, order: seq<Window>, r: Record)
    requires SaneStore(st) && Lists(order, st.Keys) && AllIn(order, st) && forall w :: w in st ==> Aligned(d, w)
    ensures multiset(AllHeld(order, st))[r] == multiset(Kept(HeldAt(d, st, WinOf(d, r))))[r]
  {
    CountHeld(d, order, st, r, Window(WinOf(d, r), WinOf(d, r) + d));
  }

  lemma WindowHoldsWritten(d: Duration, s: State, st: Store, x: Win)
    requires Conservation.Accounted(d, s) && s.mode.Running? && AtRest(s.mode.m) && Mirrors(d, s.mode.m, st)
    ensures multiset(Kept(HeldAt(d, st, x))) == At(s.written, x)
  {
    RestHoldsWritten(d, s, x);
    assert multiset(Kept(HeldAt(d, st, x))) == At(s.mode.m.mem, x) + ReaderBag(s.mode.m.files, x);
  }

  /** In a guarded run, at any moment with nothing in flight, what Engine.Scan delivers from a store that mirrors the
      run's memory is exactly the written and not retired records in range and source, as often as they were written. */
  lemma ScanReturnsWritten(d: Duration, states: seq<State>, labels: seq<Label>, n: nat, st: Store, order: seq<Window>,
                           start: int, end: int, source: Option<Data>, records: seq<Record>)
    requires IsRun(d, states, labels) && FreshRun(d, states, labels) && NumberedRun(states, labels) && n <= |labels|
    requires forall k :: 0 <= k < n ==> Guard(d, states[k], labels[k])
    requires states[n].mode.Running? && AtRest(states[n].mode.m) && Mirrors(d, states[n].mode.m, st)
    requires SaneStore(st) && Lists(order, st.Keys) && AllIn(order, st) && source != Some([])
    requires MissedBy(order, st, Ask(start, end, source)) == []
    requires multiset(records) + multiset(MissedBy(order, st, Ask(start, end, source)))
               == multiset(WantedBy(order, st, Ask(start, end, source)))
    ensures forall r ::
              multiset(records)[r] ==
              if Wants(Query(start, end, source), r) then At(states[n].written, WinOf(d, r))[r] else 0
  {
    var q := Query(start, end, source);
    Conservation.MemoryAgreesWithDisk(d, states, labels, n);
    ScanRefines(order, st, start, end, source, records);
    forall r
      ensures multiset(records)[r] == if Wants(q, r) then At(states[n].written, WinOf(d, r))[r] else 0
    {
      SelectCount(q, AllHeld(order, st), r);
      HeldIsWritten(d, states[n], st, order, r);
    }
  }

  /** Every file of the store has strictly growing timestamps across its block boundaries. */
  ghost predicate Strict(st: Store) {
    forall w, i :: w in st && 0 <= i < |st[w].tables| ==>
      NoEmptyBlock(st[w].tables[i]) && StrictBoundaries(st[w].tables[i])
  }

  /** Engine.Scan at any moment of a guarded run with nothing in flight: sorted, and exactly the written and not retired
      records in range and source, unless a memtable makes it panic. */
  method ScanWritten(e: Engine, start: Int64, end: Int64, source: Option<Data>, ghost d: Duration,
                     ghost states: seq<State>, ghost labels: seq<Label>, ghost n: nat) returns (res: ScanResult)
    requires e.Valid() && e.Cached() && Strict(e.store) && source != Some([])
    requires IsRun(d, states, labels) && FreshRun(d, states, labels) && NumberedRun(states, labels) && n <= |labels|
    requires forall k :: 0 <= k < n ==> Guard(d, states[k], labels[k])
    requires states[n].mode.Running? && AtRest(states[n].mode.m) && Mirrors(d, states[n].mode.m, e.store)
    modifies e.cache
    ensures e.Valid() && e.Cached()
    ensures res == Panic <==> exists w :: w in e.partitions && Backwards(e.store, w, start, end)
    ensures res.Delivered? ==> InByteOrder(res.records)
    ensures res.Delivered? ==> forall r ::
              multiset(res.records)[r] ==
              if Wants(Query(start, end, source), r) then At(states[n].written, WinOf(d, r))[r] else 0
  {
    ghost var order;
    res, order := e.Scan(start, end, source);
    if res.Delivered? {
      NothingMissed(order, e.store, Ask(start, end, source));
      ScanReturnsWritten(d, states, labels, n, e.store, order, start, end, source, res.records);
    }
  }
}
