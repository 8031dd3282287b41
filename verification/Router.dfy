/** Time partitions and the router that maps timestamps to them (internal/partition/partition.go,
    internal/partition/router.go). */
module Router {
  import opened Bytes
  import opened Records
  import opened Windows
  import opened Scans
  import Memtable

  datatype Lifecycle = Open | Sealed | Deleted

  class TimePartition {
    const window: Window
    var state: Lifecycle
    var mem: Memtable.Memtable

    ghost predicate Valid()
      reads this, mem
    {
      mem.Valid()
    }

    constructor (window: Window)
      ensures Valid() && this.window == window && state == Open && fresh(mem) && mem.history == []
    {
      this.window := window;
      state := Open;
      mem := new Memtable.Memtable();
    }

    /** ErrPartitionSealed exactly when the partition is no longer open. */
    method Append(r: Record) returns (ok: bool)
      requires Valid()
      modifies mem
      ensures Valid() && ok == (state == Open)
      ensures mem.history == if ok then old(mem.history) + [r] else old(mem.history)
    {
      if state != Open { return false; }
      mem.Append(r);
      return true;
    }

    /** The snapshot leaves out records stamped math.MaxInt64; the fresh memtable is empty. */
    method SwapMemtable() returns (it: Memtable.Iterator)
      requires Valid()
      modifies this`mem
      ensures Valid() && fresh(mem) && mem.history == [] && fresh(it) && it.Valid()
      ensures Select(it.Q(), it.unread) == old(Select(Query(MIN_INT64, MAX_INT64, None), mem.records))
    {
      it := mem.Freeze();
      mem := new Memtable.Memtable();
    }

    /** The sum wraps around in int64. */
    predicate IsSealable(now: Int64, lateWindow: Int64) {
      now > Wrap64(window.end + lateWindow)
    }

    method Seal()
      modifies this`state
      ensures state == if old(state) == Open then Sealed else old(state)
    {
      if state == Open { state := Sealed; }
    }
  }

  class Router {
    const duration: Duration
    const lateWindow: Int64
    const strict: bool
    var partitions: map<Window, TimePartition>
    /** What each window's memtable has been sent. */
    ghost var sent: map<Window, seq<Record>>

    /** Everything the router's partitions are made of. */
    ghost function Objects(): set<object>
      reads this, partitions.Values
    {
      (set p | p in partitions.Values :: p as object) + (set p | p in partitions.Values :: p.mem as object)
    }

    /** The partition is filed under its own window. */
    ghost predicate Filed(w: Window)
      requires w in partitions && w in sent
      reads this, partitions[w], partitions[w].mem
    {
      partitions[w].window == w && partitions[w].Valid() && partitions[w].mem.history == sent[w]
    }

    ghost predicate Apart(v: Window, w: Window)
      requires v in partitions && w in partitions
      reads this, partitions[v], partitions[w]
    {
      v != w ==> partitions[v].mem != partitions[w].mem
    }

    /** Each partition is filed under its own window and shares no memtable. */
    ghost predicate Valid()
      reads this, partitions.Values, Objects()
    {
      sent.Keys == partitions.Keys
      && (forall w {:trigger Filed(w)} :: w in partitions ==> Filed(w))
      && forall v, w {:trigger Apart(v, w)} :: v in partitions && w in partitions ==> Apart(v, w)
    }

    constructor (duration: Duration, lateWindow: Int64, strict: bool)
      ensures Valid() && partitions == map[] && sent == map[] && this.duration == duration
              && this.lateWindow == lateWindow && this.strict == strict
    {
      this.duration, this.lateWindow, this.strict := duration, lateWindow, strict;
      partitions, sent := map[], map[];
    }

    /** ErrLateArrival exactly for a late record in Strict mode. A window keeps its partition for good. */
    method Route(ts: Int64, now: Int64) returns (p: Option<TimePartition>)
      requires Valid()
      modifies this`partitions, this`sent
      ensures Valid()
      ensures p == None <==> strict && ts < Wrap64(now - lateWindow)
      ensures p == None ==> partitions == old(partitions)
      ensures p.Some? ==> p.value.window == WindowFor(ts, duration)
      ensures p.Some? && WindowFor(ts, duration) in old(partitions) ==>
                partitions == old(partitions) && p.value == old(partitions)[WindowFor(ts, duration)]
      ensures p.Some? && WindowFor(ts, duration) !in old(partitions) ==>
                partitions == old(partitions)[WindowFor(ts, duration) := p.value] && fresh(p.value)
                && fresh(p.value.mem)
                && p.value.state == Open
      ensures p.Some? ==> WindowFor(ts, duration) in partitions && partitions[WindowFor(ts, duration)] == p.value
      ensures sent == if p.None? || WindowFor(ts, duration) in old(sent) then old(sent)
                      else old(sent)[WindowFor(ts, duration) := []]
    {
      if ts < Wrap64(now - lateWindow) && strict { return None; }
      var win := WindowFor(ts, duration);
      if win in partitions {
        assert Filed(win);
        return Some(partitions[win]);
      }
      var q := new TimePartition(win);
      partitions, sent := partitions[win := q], sent[win := []];
      forall w | w in partitions
        ensures Filed(w)
      {
        if w != win { assert old(Filed(w)); }
      }
      forall v, w | v in partitions && w in partitions
        ensures Apart(v, w)
      {
        if v != win && w != win { assert old(Apart(v, w)); }
      }
      return Some(q);
    }

    /** Route, then Append, as Engine.Append and WAL replay do: one partition grows by r and the others stay. */
    method Insert(r: Record, now: Int64) returns (res: Outcome)
      requires Valid()
      modifies this`partitions, this`sent, set p | p in partitions.Values :: p.mem
      ensures Valid()
      ensures res == Late <==> strict && r.ts < Wrap64(now - lateWindow)
      ensures res == Late ==> sent == old(sent)
      ensures res == Refused ==> WindowFor(r.ts, duration) in old(partitions)
                                 && old(partitions)[WindowFor(r.ts, duration)].state != Open
      ensures res == Refused ==> sent == old(sent) || sent == old(sent)[WindowFor(r.ts, duration) := []]
      ensures res == Accepted ==> sent == Grown(old(sent), WindowFor(r.ts, duration), r)
    {
      var p := Route(r.ts, now);
      if p.None? { return Late; }
      var ok := AppendTo(p.value.window, r);
      return if ok then Accepted else Refused;
    }

    method AppendTo(win: Window, r: Record) returns (ok: bool)
      requires Valid() && win in partitions
      modifies this`sent, partitions[win].mem
      ensures Valid() && ok == (partitions[win].state == Open)
      ensures sent == if ok then Grown(old(sent), win, r) else old(sent)
    {
      assert Filed(win);
      assert forall w {:trigger partitions[w]} :: w in partitions ==> Apart(w, win);
      var p := partitions[win];
      ok := p.Append(r);
      if !ok { return; }
      sent := Grown(sent, win, r);
      StillApart();
      OthersFiled(win);
    }

    /** No partition was added and none was given another memtable. */
    twostate predicate SameMemtables()
      reads this, partitions.Values
    {
      partitions == old(partitions) && forall w {:trigger partitions[w]} :: w in partitions ==>
        partitions[w].mem == old(partitions[w].mem)
    }

    twostate lemma StillApart()
      requires old(Valid()) && SameMemtables()
      ensures forall v, w {:trigger Apart(v, w)} :: v in partitions && w in partitions ==> Apart(v, w)
    {
      forall v, w | v in partitions && w in partitions
        ensures Apart(v, w)
      {
        assert old(Apart(v, w));
      }
    }

    /** A partition stays filed when its memtable and what it was sent did not change. */
    twostate lemma OthersFiled(win: Window)
      requires old(Valid()) && SameMemtables() && sent.Keys == old(sent).Keys
      requires forall w {:trigger partitions[w]} :: w in partitions && w != win ==>
                 unchanged(partitions[w].mem) && sent[w] == old(sent)[w]
      ensures forall w {:trigger Filed(w)} :: w in partitions && w != win ==> Filed(w)
    {
      forall w | w in partitions && w != win
        ensures Filed(w)
      {
        assert old(Filed(w));
      }
    }

    /** Seals exactly the open partitions whose window closed more than the late-arrival window ago. */
    method SealExpired(now: Int64)
      requires Valid()
      modifies partitions.Values
      ensures Valid() && sent == old(sent)
      ensures forall w :: w in partitions ==> partitions[w].mem == old(partitions[w].mem)
      ensures forall w :: w in partitions ==>
                partitions[w].state == if old(partitions[w].state) == Open && now > Wrap64(w.end + lateWindow)
                                       then Sealed else old(partitions[w].state)
    {
      assert forall w :: w in partitions ==> Filed(w);
      SealEach(now);
      StillApart();
      StillFiled();
    }

    /** The loop of SealExpired. */
    method SealEach(now: Int64)
      requires forall w :: w in partitions ==> partitions[w].window == w
      modifies partitions.Values`state
      ensures forall w :: w in partitions ==>
                partitions[w].state == if old(partitions[w].state) == Open && now > Wrap64(w.end + lateWindow)
                                       then Sealed else old(partitions[w].state)
    {
      var rest := partitions.Keys;
      while rest != {}
        invariant rest <= partitions.Keys
        invariant forall w :: w in partitions ==>
                    partitions[w].state == if w !in rest && old(partitions[w].state) == Open
                                              && now > Wrap64(w.end + lateWindow)
                                           then Sealed else old(partitions[w].state)
        decreases |rest|
      {
        var w :| w in rest;
        var p := partitions[w];
        if p.state == Open && p.IsSealable(now, lateWindow) { p.Seal(); }
        rest := rest - {w};
      }
    }

    /** What sealing is for: a record that is on time at a later now, and whose window and late-arrival window fit into
        int64, is taken whatever was sealed before, unless its partition was closed already. */
    method InsertAfterSeal(sealed: Int64, r: Record, now: Int64) returns (res: Outcome)
      requires Valid() && lateWindow >= 0 && sealed <= now && WindowFits(r.ts, duration)
      modifies this`partitions, this`sent, partitions.Values, set p | p in partitions.Values :: p.mem
      ensures Valid()
      ensures var w := WindowFor(r.ts, duration);
              r.ts >= Wrap64(now - lateWindow) && w.end + lateWindow <= MAX_INT64
              && (w !in old(partitions) || old(partitions[w].state) == Open) ==>
                res == Accepted && sent == Grown(old(sent), w, r)
    {
      WindowHoldsTimestamp(r.ts, duration);
      ghost var w := WindowFor(r.ts, duration);
      ghost var onTime := r.ts >= Wrap64(now - lateWindow) && w.end + lateWindow <= MAX_INT64;
      ghost var open := w !in partitions || partitions[w].state == Open;
      if onTime { OnTimeUnsealed(w, lateWindow, sealed, now, r.ts); }
      SealExpired(sealed);
      assert onTime && open && w in partitions ==> partitions[w].state == Open;
      res := Insert(r, now);
      assert onTime && open ==> res == Accepted;
    }

    /** Sealing leaves every partition filed. */
    twostate lemma StillFiled()
      requires old(Valid()) && SameMemtables() && sent == old(sent)
      requires forall w {:trigger partitions[w]} :: w in partitions ==> unchanged(partitions[w].mem)
      ensures forall w {:trigger Filed(w)} :: w in partitions ==> Filed(w)
    {
      forall w | w in partitions
        ensures Filed(w)
      {
        assert old(Filed(w));
      }
    }
  }

  function Grown(sent: map<Window, seq<Record>>, w: Window, r: Record): map<Window, seq<Record>> {
    sent[w := (if w in sent then sent[w] else []) + [r]]
  }

  /** Every partition holds only records of its window. */
  ghost predicate AllInside(sent: map<Window, seq<Record>>) {
    forall w: Window, r: Record {:trigger r in sent[w]} :: w in sent && r in sent[w] ==> w.Contains(r.ts)
  }

  /** Inserting keeps every record inside its partition's window, provided that r's window does not overflow. */
  lemma GrownInside(sent: map<Window, seq<Record>>, r: Record, d: Duration)
    requires AllInside(sent) && WindowFits(r.ts, d)
    ensures AllInside(Grown(sent, WindowFor(r.ts, d), r))
  {
    WindowHoldsTimestamp(r.ts, d);
    var win := WindowFor(r.ts, d);
    var after := Grown(sent, win, r);
    forall w: Window, x: Record | w in after && x in after[w]
      ensures w.Contains(x.ts)
    {
      if !(w == win && x == r) { assert x in sent[w]; }
    }
  }

  /** ts is not late at now. */
  predicate OnTime(ts: Int64, now: Int64, lateWindow: Int64) {
    ts >= Wrap64(now - lateWindow)
  }

  /** A window is sealed only when no on-time record can fall into it any more, exactly if its end plus the late-arrival
      window does not overflow. */
  lemma SealedIsLateIff(w: Window, lateWindow: Int64)
    requires MIN_INT64 <= w.start < w.end <= MAX_INT64 && lateWindow >= 0
    ensures (forall now: Int64, ts: Int64 {:trigger OnTime(ts, now, lateWindow)} ::
               now > Wrap64(w.end + lateWindow) && w.Contains(ts) ==> !OnTime(ts, now, lateWindow))
            <==> w.end + lateWindow <= MAX_INT64
  {
    if w.end + lateWindow > MAX_INT64 {
      var now: Int64, ts: Int64 := MAX_INT64, w.end - 1;
      assert now > Wrap64(w.end + lateWindow) && w.Contains(ts);
      assert OnTime(ts, now, lateWindow);
    } else {
      forall now: Int64, ts: Int64 | now > Wrap64(w.end + lateWindow) && w.Contains(ts)
        ensures !OnTime(ts, now, lateWindow)
      {
        if OnTime(ts, now, lateWindow) { OnTimeUnsealed(w, lateWindow, now, now, ts); }
      }
    }
  }

  lemma OnTimeUnsealed(w: Window, lateWindow: Int64, sealed: Int64, now: Int64, ts: Int64)
    requires w.Contains(ts) && lateWindow >= 0 && sealed <= now
    requires MIN_INT64 <= w.end && w.end + lateWindow <= MAX_INT64 && ts >= Wrap64(now - lateWindow)
    ensures sealed <= Wrap64(w.end + lateWindow)
  {
    assert Wrap64(now - lateWindow) >= now - lateWindow;
  }

  datatype Outcome = Accepted | Late | Refused

  /** The routing of any two timestamps over any history: the same partition if and only if their windows are equal,
      which for windows inside int64 means that each lies in the other's window. */
  lemma RouteByWindow(a: Int64, b: Int64, d: Duration)
    requires WindowFits(a, d) && WindowFits(b, d)
    ensures WindowFor(a, d) == WindowFor(b, d) <==> WindowFor(a, d).Contains(b)
    ensures WindowFor(a, d).Contains(a)
  {
    WindowsTile(a, b, d);
    WindowHoldsTimestamp(a, d);
  }
}
