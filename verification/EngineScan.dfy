/** Engine.Scan over every partition's memtable and SSTables (internal/engine/engine.go,
    internal/partition/router.go). */
module EngineScan {
  import opened Bytes
  import opened Records
  import opened Windows
  import opened TableFormat
  import opened TableFile
  import opened Scans
  import opened Merge
  import opened Tables
  import opened Caching
  import Compaction
  import Memtable
  import RowScan

  type Blocks = seq<seq<Record>>

  // ---------------------------------------------------------------- what one window holds, delivers and misses

  /** The records of one window: its memtable and the blocks of its files. */
  datatype Held = Held(mem: seq<Record>, tables: seq<Blocks>)

  /** The two readings of a source filter: a memtable filters unless it is nil, an SSTable when it is not empty. */
  datatype Asking = Asking(mem: Query, sst: Query)

  function Ask(start: int, end: int, source: Option<Data>): Asking {
    Asking(Query(start, end, source), Asked(start, end, if source.None? then [] else source.value))
  }

  /** Whether a record is wanted does not depend on its having been flushed if and only if the filter is not the empty,
      non-nil one (or the range is empty). */
  lemma ReadingsAgree(start: Int64, end: Int64, source: Option<Data>)
    ensures (forall r ::
               Wanted(Held([r], []), Ask(start, end, source)) == Wanted(Held([], [[[r]]]), Ask(start, end, source)))
            <==> source != Some([]) || start >= end
  {
    var a := Ask(start, end, source);
    forall r
      ensures Wanted(Held([r], []), a) == (if Wants(a.mem, r) then [r] else [])
      ensures Wanted(Held([], [[[r]]]), a) == (if Wants(a.sst, r) then [r] else [])
    {
      OneWanted(r, a);
    }
    var x := Record(start, [0], []);
    if source == Some([]) && start < end {
      assert !Wants(a.mem, x) && Wants(a.sst, x);
    }
  }

  /** A record on its own, in the memtable or in a file. */
  lemma OneWanted(r: Record, a: Asking)
    ensures Wanted(Held([r], []), a) == (if Wants(a.mem, r) then [r] else [])
    ensures Wanted(Held([], [[[r]]]), a) == (if Wants(a.sst, r) then [r] else [])
  {
    assert Select(a.mem, [r]) == (if Wants(a.mem, r) then [r] else []) + Select(a.mem, []);
    assert [[r]][..0] == [] && Flat([[r]]) == [] + [r] == [r];
    assert [[[r]]][..0] == [];
    assert Select(a.sst, [r]) == (if Wants(a.sst, r) then [r] else []) + Select(a.sst, []);
    assert FilesWanted([[[r]]], a.sst) == [] + Select(a.sst, [r]);
  }

  ghost predicate Sane(h: Held) {
    Sorted(h.mem) && forall i :: 0 <= i < |h.tables| ==> NoEmptyBlock(h.tables[i]) && Sorted(Flat(h.tables[i]))
  }

  /** The matching records of the window's files. */
  ghost function FilesWanted(tables: seq<Blocks>, q: Query): seq<Record> {
    if tables == [] then [] else FilesWanted(tables[..|tables| - 1], q) + Select(q, Flat(tables[|tables| - 1]))
  }

  ghost function FilesMissed(tables: seq<Blocks>, q: Query): seq<Record>
    requires forall i :: 0 <= i < |tables| ==> NoEmptyBlock(tables[i])
  {
    if tables == [] then [] else FilesMissed(tables[..|tables| - 1], q) + Missed(tables[|tables| - 1], q)
  }

  ghost function Wanted(h: Held, a: Asking): seq<Record> {
    Select(a.mem, h.mem) + FilesWanted(h.tables, a.sst)
  }

  ghost function WindowMissed(h: Held, a: Asking): seq<Record>
    requires Sane(h)
  {
    FilesMissed(h.tables, a.sst)
  }

  /** Every record of the window lies in it. */
  ghost predicate Inside(w: Window, h: Held) {
    (forall r :: r in h.mem ==> w.Contains(r.ts))
    && forall i, r {:trigger r in Flat(h.tables[i])} :: 0 <= i < |h.tables| && r in Flat(h.tables[i]) ==>
         w.Contains(r.ts)
  }

  /** Window skip: a window that does not overlap the range holds nothing wanted. */
  lemma WindowSkipSound(w: Window, h: Held, start: int, end: int, source: Option<Data>)
    requires Inside(w, h) && !w.Overlaps(start, end)
    ensures Wanted(h, Ask(start, end, source)) == []
  {
    var a := Ask(start, end, source);
    forall r | r in h.mem
      ensures !Wants(a.mem, r)
    {
    }
    SelectNone(a.mem, h.mem);
    FilesSkipped(w, h, a.sst, h.tables);
  }

  lemma {:induction false} FilesSkipped(w: Window, h: Held, q: Query, tables: seq<Blocks>)
    requires Inside(w, h) && !w.Overlaps(q.start, q.end) && |tables| <= |h.tables| && tables == h.tables[..|tables|]
    ensures FilesWanted(tables, q) == []
  {
    if tables != [] {
      var n := |tables| - 1;
      FilesSkipped(w, h, q, tables[..n]);
      assert tables[n] == h.tables[n];
      SelectNone(q, Flat(tables[n]));
    }
  }

  // ---------------------------------------------------------------- one window's iterators

  /** How often r is in the lists. */
  ghost function Copies(lists: seq<seq<Record>>, r: Record): nat {
    multiset(Flatten(lists))[r]
  }

  lemma CopiesConcat(a: seq<seq<Record>>, b: seq<seq<Record>>, r: Record)
    ensures Copies(a + b, r) == Copies(a, r) + Copies(b, r)
  {
    FlattenConcat(a, b);
  }

  lemma CopiesOne(list: seq<Record>, r: Record)
    ensures Copies([list], r) == multiset(list)[r]
  {
    assert [list][..0] == [] && Flatten([list]) == [] + list == list;
  }

  /** The iterator lists of one window are sorted and, with the missed records, hold what the window's files want. */
  ghost predicate FilesDeliver(lists: seq<seq<Record>>, tables: seq<Blocks>, q: Query)
    requires forall i :: 0 <= i < |tables| ==> NoEmptyBlock(tables[i])
  {
    AllSorted(lists)
    && forall r {:trigger Copies(lists, r)} ::
         Copies(lists, r) + multiset(FilesMissed(tables, q))[r] == multiset(FilesWanted(tables, q))[r]
  }

  lemma DeliverOne(lists: seq<seq<Record>>, tables: seq<Blocks>, q: Query, list: seq<Record>, table: Blocks)
    requires (forall i :: 0 <= i < |tables| ==> NoEmptyBlock(tables[i])) && NoEmptyBlock(table)
             && FilesDeliver(lists, tables, q)
    requires Sorted(list) && multiset(list) + multiset(Missed(table, q)) == multiset(Select(q, Flat(table)))
    ensures FilesDeliver(lists + [list], tables + [table], q)
  {
    assert AllSorted(lists + [list]) by {
      assert Sorted([list][0]);
      AllSortedConcat(lists, [list]);
    }
    var more := tables + [table];
    assert more[..|tables|] == tables;
    assert FilesMissed(more, q) == FilesMissed(tables, q) + Missed(table, q)
           && FilesWanted(more, q) == FilesWanted(tables, q) + Select(q, Flat(table));
    forall r
      ensures Copies(lists + [list], r) + multiset(FilesMissed(more, q))[r] == multiset(FilesWanted(more, q))[r]
    {
      CopiesConcat(lists, [list], r);
      CopiesOne(list, r);
      assert multiset(list)[r] + multiset(Missed(table, q))[r] == multiset(Select(q, Flat(table)))[r];
    }
  }

  lemma DeliverNone(lists: seq<seq<Record>>, tables: seq<Blocks>, q: Query, table: Blocks)
    requires (forall i :: 0 <= i < |tables| ==> NoEmptyBlock(tables[i])) && NoEmptyBlock(table)
             && FilesDeliver(lists, tables, q)
    requires Sorted(Flat(table)) && Select(q, Flat(table)) == []
    ensures FilesDeliver(lists, tables + [table], q)
  {
    ScannedIsSelected(table, q);
    var more := tables + [table];
    assert more[..|tables|] == tables;
    assert FilesMissed(more, q) == FilesMissed(tables, q) + [] && FilesWanted(more, q) == FilesWanted(tables, q) + [];
  }

  /** The inner loop of Scan: file range skip, then Reader.Scan. */
  method ScanFiles(codec: Codec, readers: seq<Reader>, ghost tables: seq<Blocks>, start: Int64, end: Int64,
                   sourceID: Data, cache: BlockCache?, ghost all: set<Reader>) returns (lists: seq<seq<Record>>)
    requires Compaction.Readers(codec, readers, tables) && RowScan.Serves(codec, cache, all)
    requires forall rd :: rd in readers ==> rd in all
    modifies cache
    ensures FilesDeliver(lists, tables, Asked(start, end, sourceID)) && RowScan.Serves(codec, cache, all)
  {
    ghost var q := Asked(start, end, sourceID);
    lists := [];
    ghost var done: seq<Blocks> := [];
    for i := 0 to |readers|
      invariant done == tables[..i] && (forall j :: 0 <= j < |done| ==> NoEmptyBlock(done[j]))
                && FilesDeliver(lists, done, q)
      invariant RowScan.Serves(codec, cache, all)
    {
      ghost var table := tables[i];
      lists := ScanFile(codec, readers[i], table, start, end, sourceID, lists, done, cache, all);
      done := done + [table];
    }
    assert done == tables;
  }

  method ScanFile(codec: Codec, rd: Reader, ghost table: Blocks, start: Int64, end: Int64, sourceID: Data,
                  lists: seq<seq<Record>>, ghost done: seq<Blocks>, cache: BlockCache?, ghost all: set<Reader>)
    returns (more: seq<seq<Record>>)
    requires Represents(codec, rd, table) && NoEmptyBlock(table) && rd in all && RowScan.Serves(codec, cache, all)
    requires (forall j :: 0 <= j < |done| ==> NoEmptyBlock(done[j]))
             && FilesDeliver(lists, done, Asked(start, end, sourceID))
    modifies cache
    ensures forall j :: 0 <= j < |done + [table]| ==> NoEmptyBlock((done + [table])[j])
    ensures FilesDeliver(more, done + [table], Asked(start, end, sourceID)) && RowScan.Serves(codec, cache, all)
  {
    ghost var q := Asked(start, end, sourceID);
    if rd.meta.maxTs < start || rd.meta.minTs >= end {
      RangeSkipSound(rd.meta, Flat(table), q);
      DeliverNone(lists, done, q, table);
      return lists;
    }
    var list := ScanTable(codec, rd, start, end, sourceID, cache, table, all);
    ScannedIsSelected(table, q);
    DeliverOne(lists, done, q, list, table);
    return lists + [list];
  }

  // ---------------------------------------------------------------- all windows

  type Store = map<Window, Held>

  ghost predicate SaneStore(st: Store) {
    forall w {:trigger SaneAt(st, w)} :: w in st ==> SaneAt(st, w)
  }

  ghost predicate SaneAt(st: Store, w: Window)
    requires w in st
  {
    Sane(st[w]) && Inside(w, st[w])
  }

  ghost predicate AllIn(ws: seq<Window>, st: Store) {
    forall i :: 0 <= i < |ws| ==> ws[i] in st
  }

  ghost function WantedBy(ws: seq<Window>, st: Store, a: Asking): seq<Record>
    requires AllIn(ws, st)
  {
    if ws == [] then [] else WantedBy(ws[..|ws| - 1], st, a) + Wanted(st[ws[|ws| - 1]], a)
  }

  ghost function MissedBy(ws: seq<Window>, st: Store, a: Asking): seq<Record>
    requires AllIn(ws, st) && SaneStore(st)
  {
    if ws == [] then []
    else
      var n := |ws| - 1;
      assert SaneAt(st, ws[n]);
      MissedBy(ws[..n], st, a) + WindowMissed(st[ws[n]], a)
  }

  /** Router.Overlapping's filter. */
  function Overlapped(ws: seq<Window>, start: int, end: int): (r: seq<Window>)
    ensures forall w :: w in r <==> w in ws && w.Overlaps(start, end)
  {
    if ws == [] then []
    else
      var n := |ws| - 1;
      Overlapped(ws[..n], start, end) + if ws[n].Overlaps(start, end) then [ws[n]] else []
  }

  lemma {:induction false} MissedIsWanted(tables: seq<Blocks>, q: Query)
    requires forall i :: 0 <= i < |tables| ==> NoEmptyBlock(tables[i]) && Sorted(Flat(tables[i]))
    ensures |FilesMissed(tables, q)| <= |FilesWanted(tables, q)|
  {
    if tables != [] {
      var n := |tables| - 1;
      MissedIsWanted(tables[..n], q);
      ScannedIsSelected(tables[n], q);
    }
  }

  /** Asking only the overlapping windows changes nothing. */
  lemma {:induction false} SkippedWindows(ws: seq<Window>, st: Store, start: int, end: int, source: Option<Data>)
    requires AllIn(ws, st) && SaneStore(st)
    ensures AllIn(Overlapped(ws, start, end), st)
    ensures WantedBy(Overlapped(ws, start, end), st, Ask(start, end, source))
              == WantedBy(ws, st, Ask(start, end, source))
    ensures MissedBy(Overlapped(ws, start, end), st, Ask(start, end, source))
              == MissedBy(ws, st, Ask(start, end, source))
  {
    if ws != [] {
      var n, a := |ws| - 1, Ask(start, end, source);
      assert SaneAt(st, ws[n]);
      SkippedWindows(ws[..n], st, start, end, source);
      var front := Overlapped(ws[..n], start, end);
      if ws[n].Overlaps(start, end) {
        assert (front + [ws[n]])[..|front|] == front;
      } else {
        WindowSkipSound(ws[n], st[ws[n]], start, end, source);
        MissedIsWanted(st[ws[n]].tables, a.sst);
        assert Overlapped(ws, start, end) == front;
      }
    }
  }

  /** Everything held, window by window. */
  ghost function AllHeld(ws: seq<Window>, st: Store): seq<Record>
    requires AllIn(ws, st)
  {
    if ws == [] then [] else AllHeld(ws[..|ws| - 1], st) + Kept(st[ws[|ws| - 1]])
  }

  ghost function Kept(h: Held): seq<Record> {
    h.mem + Flatten(Compaction.Contained(h.tables))
  }

  lemma {:induction false} FilesWantedIsSelect(tables: seq<Blocks>, q: Query)
    ensures FilesWanted(tables, q) == Select(q, Flatten(Compaction.Contained(tables)))
  {
    if tables != [] {
      var n := |tables| - 1;
      FilesWantedIsSelect(tables[..n], q);
      assert Compaction.Contained(tables)[..n] == Compaction.Contained(tables[..n]);
      SelectConcat(q, Flatten(Compaction.Contained(tables[..n])), Flat(tables[n]));
    }
  }

  lemma {:induction false} WantedIsSelect(ws: seq<Window>, st: Store, q: Query)
    requires AllIn(ws, st)
    ensures WantedBy(ws, st, Asking(q, q)) == Select(q, AllHeld(ws, st))
  {
    if ws != [] {
      var n := |ws| - 1;
      var h := st[ws[n]];
      WantedIsSelect(ws[..n], st, q);
      FilesWantedIsSelect(h.tables, q);
      SelectConcat(q, h.mem, Flatten(Compaction.Contained(h.tables)));
      SelectConcat(q, AllHeld(ws[..n], st), Kept(h));
    }
  }

  // ---------------------------------------------------------------- the engine

  datatype ScanResult = Panic | Delivered(records: seq<Record>)

  /** ws lists the windows of the store, each once, in whatever order the map is iterated. */
  ghost predicate Lists(ws: seq<Window>, keys: set<Window>) {
    (forall w :: w in ws <==> w in keys) && forall i, j :: 0 <= i < j < |ws| ==> ws[i] != ws[j]
  }

  /** The memtable of an overlapping window has a record in [end, start), which needs start > end. */
  ghost predicate Backwards(st: Store, w: Window, start: int, end: int) {
    w in st && w.Overlaps(start, end) && exists r :: r in st[w].mem && end <= r.ts < start
  }

  /** TimePartition.Scan, drained; None is the panic of a backwards range. */
  method ScanMemtable(m: Memtable.Memtable, start: Int64, end: Int64, source: Option<Data>)
    returns (rs: Option<seq<Record>>)
    requires m.Valid()
    ensures rs == None <==> exists r :: r in m.records && end <= r.ts < start
    ensures rs.Some? ==> rs.value == Select(Query(start, end, source), m.records) && Sorted(rs.value)
  {
    SelectSorted(Query(start, end, source), m.records);
    var it := m.Scan(start, end, source);
    if it.None? { return None; }
    var records := Memtable.Drain(it.value);
    return Some(records);
  }

  class Engine {
    const codec: Codec
    var partitions: map<Window, Memtable.Memtable>
    var files: map<Window, seq<Reader>>
    /** The block cache every reader was opened with; null disables it. */
    const cache: BlockCache?
    /** The open readers. */
    ghost var all: set<Reader>
    /** What each partition's memtable and files hold. */
    ghost var store: Store

    function FilesOf(w: Window): seq<Reader>
      reads this
    {
      if w in files then files[w] else []
    }

    ghost predicate PartitionOk(w: Window)
      requires w in partitions && w in store
      reads this, partitions[w]
    {
      partitions[w].Valid() && partitions[w].records == store[w].mem
      && Compaction.Readers(codec, FilesOf(w), store[w].tables)
    }

    ghost predicate Valid()
      reads this, partitions.Values
    {
      files.Keys <= partitions.Keys && store.Keys == partitions.Keys && SaneStore(store)
      && forall w {:trigger PartitionOk(w)} :: w in partitions ==> PartitionOk(w)
    }

    /** The shared cache is true to every open file. */
    ghost predicate Cached()
      reads this, RowScan.Shared(cache)
    {
      RowScan.Serves(codec, cache, all) && forall w, rd :: w in files && rd in files[w] ==> rd in all
    }

    /** Router.Overlapping. */
    method Overlapping(start: int, end: int) returns (out: seq<Window>, ghost order: seq<Window>)
      ensures forall w :: w in out <==> w in partitions && w.Overlaps(start, end)
      ensures Lists(order, partitions.Keys) && out == Overlapped(order, start, end)
    {
      out, order := [], [];
      var rest := partitions.Keys;
      while rest != {}
        invariant rest <= partitions.Keys && Lists(order, partitions.Keys - rest)
                  && out == Overlapped(order, start, end)
        decreases |rest|
      {
        var w :| w in rest;
        assert (order + [w])[..|order|] == order;
        order := order + [w];
        if w.Overlaps(start, end) { out := out + [w]; }
        rest := rest - {w};
      }
    }

    /** The iterators of one partition. */
    method ScanWindow(w: Window, start: Int64, end: Int64, source: Option<Data>)
      returns (ok: bool, lists: seq<seq<Record>>)
      requires Valid() && Cached() && w in partitions
      modifies cache
      ensures Valid() && Cached()
      ensures !ok <==> exists r :: r in store[w].mem && end <= r.ts < start
      ensures ok ==> WindowDelivers(lists, store[w], Ask(start, end, source))
    {
      assert SaneAt(store, w) && PartitionOk(w);
      var mem := ScanMemtable(partitions[w], start, end, source);
      if mem.None? { return false, []; }
      var sourceID := if source.None? then [] else source.value;
      var fs := ScanFiles(codec, FilesOf(w), store[w].tables, start, end, sourceID, cache, all);
      DeliverWindow(mem.value, fs, store[w], Ask(start, end, source));
      return true, [mem.value] + fs;
    }

    method Gather(ws: seq<Window>, start: Int64, end: Int64, source: Option<Data>)
      returns (ok: bool, lists: seq<seq<Record>>)
      requires Valid() && Cached() && AllIn(ws, store) && forall w :: w in ws ==> w.Overlaps(start, end)
      modifies cache
      ensures Valid() && Cached()
      ensures !ok <==> exists w :: w in ws && Backwards(store, w, start, end)
      ensures ok ==> WindowsDeliver(lists, ws, store, Ask(start, end, source))
    {
      lists := [];
      ghost var done: seq<Window> := [];
      for i := 0 to |ws|
        invariant done == ws[..i] && WindowsDeliver(lists, done, store, Ask(start, end, source))
        invariant Valid() && Cached() && forall w :: w in done ==> !Backwards(store, w, start, end)
      {
        var w := ws[i];
        assert w in ws && w in store && w.Overlaps(start, end);
        ok, lists := GatherOne(lists, done, w, start, end, source);
        if !ok { return; }
        done := done + [w];
      }
      assert done == ws;
      return true, lists;
    }

    method GatherOne(lists: seq<seq<Record>>, ghost done: seq<Window>, w: Window, start: Int64, end: Int64,
                     source: Option<Data>)
      returns (ok: bool, more: seq<seq<Record>>)
      requires Valid() && Cached() && w in store && w.Overlaps(start, end)
      requires WindowsDeliver(lists, done, store, Ask(start, end, source))
      modifies cache
      ensures Valid() && Cached()
      ensures !ok <==> Backwards(store, w, start, end)
      ensures ok ==> WindowsDeliver(more, done + [w], store, Ask(start, end, source))
    {
      var fine, ls := ScanWindow(w, start, end, source);
      if !fine { return false, []; }
      DeliverMore(lists, done, store, Ask(start, end, source), ls, w);
      return true, lists + ls;
    }

    /** Engine.Scan, drained: in (Timestamp, SourceID) order, the wanted records of every window but for those stamped
        exactly start that lie before the start block of their file. */
    method Scan(start: Int64, end: Int64, source: Option<Data>) returns (res: ScanResult, ghost order: seq<Window>)
      requires Valid() && Cached()
      modifies cache
      ensures Valid() && Cached() && Lists(order, partitions.Keys) && AllIn(order, store)
      ensures res == Panic <==> exists w :: w in partitions && Backwards(store, w, start, end)
      ensures res.Delivered? ==> Sorted(res.records) && InByteOrder(res.records)
      ensures res.Delivered? ==> multiset(res.records) + multiset(MissedBy(order, store, Ask(start, end, source)))
                                 == multiset(WantedBy(order, store, Ask(start, end, source)))
    {
      var ok, lists;
      ok, lists, order := Iterators(start, end, source);
      if !ok { return Panic, order; }
      var records := MergeLists(lists, order, store, Ask(start, end, source));
      SortedIsByteOrder(records);
      return Delivered(records), order;
    }

    /** Engine.Scan up to the merge: the lists hold what all windows want, although only overlapping ones are asked. */
    method Iterators(start: Int64, end: Int64, source: Option<Data>)
      returns (ok: bool, lists: seq<seq<Record>>, ghost order: seq<Window>)
      requires Valid() && Cached()
      modifies cache
      ensures Valid() && Cached() && Lists(order, partitions.Keys) && AllIn(order, store)
      ensures !ok <==> exists w :: w in partitions && Backwards(store, w, start, end)
      ensures ok ==> WindowsDeliver(lists, order, store, Ask(start, end, source))
    {
      var ws;
      ws, order := Overlapping(start, end);
      SkippedDelivers(ws, order, store, start, end, source);
      ok, lists := Gather(ws, start, end, source);
    }
  }

  /** What delivers the overlapping windows delivers all of them. */
  lemma SkippedDelivers(ws: seq<Window>, order: seq<Window>, st: Store, start: int, end: int, source: Option<Data>)
    requires AllIn(order, st) && SaneStore(st) && ws == Overlapped(order, start, end)
    ensures AllIn(ws, st)
    ensures forall lists {:trigger WindowsDeliver(lists, ws, st, Ask(start, end, source))} ::
              WindowsDeliver(lists, ws, st, Ask(start, end, source)) ==>
                WindowsDeliver(lists, order, st, Ask(start, end, source))
  {
    SkippedWindows(order, st, start, end, source);
  }

  /** Draining the merge iterator over the lists of all windows. */
  method MergeLists(lists: seq<seq<Record>>, ghost ws: seq<Window>, ghost st: Store, ghost a: Asking)
    returns (records: seq<Record>)
    requires WindowsDeliver(lists, ws, st, a)
    ensures Sorted(records)
    ensures multiset(records) + multiset(MissedBy(ws, st, a)) == multiset(WantedBy(ws, st, a))
  {
    AllDelivered(lists, ws, st, a);
    var fine;
    ghost var tags;
    records, fine, tags := Drain(lists, seq(|lists|, _ => false));
    InterleavedContent(records, tags, lists);
  }

  ghost predicate WindowsDeliver(lists: seq<seq<Record>>, ws: seq<Window>, st: Store, a: Asking) {
    SaneStore(st) && AllIn(ws, st) && AllSorted(lists)
    && forall r {:trigger Copies(lists, r)} ::
         Copies(lists, r) + multiset(MissedBy(ws, st, a))[r] == multiset(WantedBy(ws, st, a))[r]
  }

  lemma AllDelivered(lists: seq<seq<Record>>, ws: seq<Window>, st: Store, a: Asking)
    requires WindowsDeliver(lists, ws, st, a)
    ensures multiset(Flatten(lists)) + multiset(MissedBy(ws, st, a)) == multiset(WantedBy(ws, st, a))
  {
    forall r
      ensures (multiset(Flatten(lists)) + multiset(MissedBy(ws, st, a)))[r] == multiset(WantedBy(ws, st, a))[r]
    {
      assert Copies(lists, r) == multiset(Flatten(lists))[r];
    }
  }

  lemma DeliverMore(lists: seq<seq<Record>>, ws: seq<Window>, st: Store, a: Asking, ls: seq<seq<Record>>, w: Window)
    requires WindowsDeliver(lists, ws, st, a) && w in st && WindowDelivers(ls, st[w], a)
    ensures WindowsDeliver(lists + ls, ws + [w], st, a)
  {
    AllSortedConcat(lists, ls);
    var more := ws + [w];
    assert more[..|ws|] == ws;
    assert MissedBy(more, st, a) == MissedBy(ws, st, a) + WindowMissed(st[w], a)
           && WantedBy(more, st, a) == WantedBy(ws, st, a) + Wanted(st[w], a);
    forall r
      ensures Copies(lists + ls, r) + multiset(MissedBy(more, st, a))[r] == multiset(WantedBy(more, st, a))[r]
    {
      CopiesConcat(lists, ls, r);
    }
  }

  /** Scan refinement: with a nil or non-empty filter and no missed record, the result is exactly the held records in
      range and source. */
  lemma ScanRefines(order: seq<Window>, st: Store, start: int, end: int, source: Option<Data>, records: seq<Record>)
    requires AllIn(order, st) && SaneStore(st) && source != Some([])
    requires multiset(records) + multiset(MissedBy(order, st, Ask(start, end, source)))
               == multiset(WantedBy(order, st, Ask(start, end, source)))
    ensures multiset(records) == multiset(Select(Query(start, end, source), AllHeld(order, st)))
            <==> MissedBy(order, st, Ask(start, end, source)) == []
  {
    var q := Query(start, end, source);
    assert Ask(start, end, source) == Asking(q, q);
    WantedIsSelect(order, st, q);
    var missed := MissedBy(order, st, Asking(q, q));
    assert |multiset(records)| + |missed| == |multiset(Select(q, AllHeld(order, st)))|;
  }

  /** No record is missed when timestamps grow strictly across every file's block boundaries. */
  lemma {:induction false} NothingMissed(order: seq<Window>, st: Store, a: Asking)
    requires AllIn(order, st) && SaneStore(st)
    requires forall w, i :: w in st && 0 <= i < |st[w].tables| ==>
               NoEmptyBlock(st[w].tables[i]) && StrictBoundaries(st[w].tables[i])
    ensures MissedBy(order, st, a) == []
  {
    if order != [] {
      var n := |order| - 1;
      NothingMissed(order[..n], st, a);
      assert SaneAt(st, order[n]);
      NoFileMisses(st[order[n]].tables, a.sst);
    }
  }

  lemma {:induction false} NoFileMisses(tables: seq<Blocks>, q: Query)
    requires forall i :: 0 <= i < |tables| ==>
               NoEmptyBlock(tables[i]) && Sorted(Flat(tables[i])) && StrictBoundaries(tables[i])
    ensures FilesMissed(tables, q) == []
  {
    if tables != [] {
      var n := |tables| - 1;
      NoFileMisses(tables[..n], q);
      ExactAcrossStrictBoundaries(tables[n], q);
    }
  }

  ghost predicate WindowDelivers(lists: seq<seq<Record>>, h: Held, a: Asking) {
    Sane(h) && AllSorted(lists)
    && forall r {:trigger Copies(lists, r)} ::
         Copies(lists, r) + multiset(WindowMissed(h, a))[r] == multiset(Wanted(h, a))[r]
  }

  lemma {:induction false} FlattenConcat(a: seq<seq<Record>>, b: seq<seq<Record>>)
    ensures Flatten(a + b) == Flatten(a) + Flatten(b)
    decreases |b|
  {
    if b == [] {
      assert a + b == a;
    } else {
      var n := |b| - 1;
      assert (a + b)[..|a| + n] == a + b[..n];
      FlattenConcat(a, b[..n]);
    }
  }

  lemma DeliverWindow(mem: seq<Record>, fs: seq<seq<Record>>, h: Held, a: Asking)
    requires Sane(h) && mem == Select(a.mem, h.mem) && Sorted(mem) && FilesDeliver(fs, h.tables, a.sst)
    ensures WindowDelivers([mem] + fs, h, a)
  {
    assert AllSorted([mem] + fs) by {
      assert Sorted([mem][0]);
      AllSortedConcat([mem], fs);
    }
    forall r
      ensures Copies([mem] + fs, r) + multiset(WindowMissed(h, a))[r] == multiset(Wanted(h, a))[r]
    {
      CopiesConcat([mem], fs, r);
      CopiesOne(mem, r);
    }
  }
}
