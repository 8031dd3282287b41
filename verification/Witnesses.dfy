/** Concrete runs that lose, repeat or bring back records: the guards of the crash-safety theorem, fresh merge names
    and the numbering of segments are all needed. */
module Witnesses {
  import opened Bytes
  import opened Records
  import opened Windows
  import opened Bags
  import opened Protocol
  import opened DiskFacts
  import opened Structure
  import opened RecoveryCounts
  import opened CrashSafety
  import Recovery

  const D: Duration := 10

  /** Records of window 0: one flushed, a later-arriving one with an earlier timestamp, one stamped 0; and a record of
      window 10. */
  const FIRST: Record := Record(5, [], [])
  const LATE: Record := Record(3, [], [])
  const ZERO: Record := Record(0, [], [])
  const OTHER: Record := Record(15, [], [])

  lemma TheirWindows()
    ensures WinOf(D, FIRST) == 0 && WinOf(D, LATE) == 0 && WinOf(D, ZERO) == 0 && WinOf(D, OTHER) == 10
  {
    assert FloorDiv(5, 10) == 0 && FloorDiv(3, 10) == 0 && FloorDiv(0, 10) == 0 && FloorDiv(15, 10) == 1;
  }

  // ---------------------------------------------------------------- traces

  datatype Trace = Trace(states: seq<State>, labels: seq<Label>)

  /** A run with fresh merge names that ends in s. */
  ghost predicate Leads(t: Trace, s: State) {
    IsRun(D, t.states, t.labels) && FreshRun(D, t.states, t.labels) && t.states[|t.labels|] == s
  }

  /** One whose Opens also find the newest segment numbers. */
  ghost predicate Good(t: Trace, s: State) {
    Leads(t, s) && NumberedRun(t.states, t.labels)
  }

  predicate EndsWith(t: Trace, l: Label) {
    t.labels != [] && t.labels[|t.labels| - 1] == l
  }

  ghost function Then(t: Trace, l: Label, s: State): Trace {
    Trace(t.states + [s], t.labels + [l])
  }

  lemma RunOn(t: Trace, s: State, l: Label, s': State)
    requires IsRun(D, t.states, t.labels) && t.states[|t.labels|] == s && Enabled(D, s, l) && Step(D, s, l) == s'
    ensures IsRun(D, Then(t, l, s').states, Then(t, l, s').labels)
  {
    var t' := Then(t, l, s');
    forall k | 0 <= k < |t'.labels|
      ensures Enabled(D, t'.states[k], t'.labels[k]) && t'.states[k + 1] == Step(D, t'.states[k], t'.labels[k])
    {
      assert t'.states[k] == t.states[k];
      if k < |t.labels| {
        assert t'.labels[k] == t.labels[k] && t'.states[k + 1] == t.states[k + 1];
      }
    }
  }

  lemma FreshOn(t: Trace, s: State, l: Label, s': State)
    requires Leads(t, s) && IsRun(D, Then(t, l, s').states, Then(t, l, s').labels) && Enabled(D, s, l) && Fresh(D, s, l)
    ensures FreshRun(D, Then(t, l, s').states, Then(t, l, s').labels)
  {
    var t' := Then(t, l, s');
    forall k | 0 <= k < |t'.labels|
      ensures Fresh(D, t'.states[k], t'.labels[k])
    {
      assert t'.states[k] == t.states[k];
      if k < |t.labels| {
        assert t'.labels[k] == t.labels[k] && Fresh(D, t.states[k], t.labels[k]);
      }
    }
  }

  lemma NumberedOn(t: Trace, l: Label, s': State)
    requires NumberedRun(t.states, t.labels) && Resumes(t.states[|t.labels|], l)
    ensures NumberedRun(Then(t, l, s').states, Then(t, l, s').labels)
  {
    var t' := Then(t, l, s');
    forall k {:trigger t'.labels[k]} | 0 <= k < |t'.labels|
      ensures Resumes(t'.states[k], t'.labels[k])
    {
      assert t'.states[k] == t.states[k];
      if k < |t.labels| {
        assert t'.labels[k] == t.labels[k];
      }
    }
  }

  lemma TakeAny(t: Trace, s: State, l: Label, s': State)
    requires Leads(t, s) && Enabled(D, s, l) && Fresh(D, s, l) && Step(D, s, l) == s'
    ensures Leads(Then(t, l, s'), s')
  {
    RunOn(t, s, l, s');
    FreshOn(t, s, l, s');
  }

  lemma Take(t: Trace, s: State, l: Label, s': State)
    requires Good(t, s) && Enabled(D, s, l) && Fresh(D, s, l) && Resumes(s, l) && Step(D, s, l) == s'
    ensures Good(Then(t, l, s'), s')
  {
    TakeAny(t, s, l, s');
    NumberedOn(t, l, s');
  }

  ghost function Idle(mem: map<Win, Bag>, pend: map<Win, Bag>, files: map<Path, Bag>, n: nat): Memory {
    Memory(mem, pend, files, n, n, 0, NoFlush, NoCompact)
  }

  /** Open an empty directory. */
  lemma Opened() returns (t: Trace, s: State)
    ensures Good(t, s)
    ensures s == State(Disk(map[1 := []], map[], []), Running(Idle(map[], map[], map[], 1)), map[])
  {
    var t1, s1 := Replaying();
    s := State(Disk(map[1 := []], map[], []), Running(Idle(map[], map[], map[], 1)), map[]);
    assert WindowsOf(D, map[]) == {};
    assert Rebuilt(D, map[], map[]) == map[];
    Take(t1, s1, OpenDone, s);
    t := Then(t1, OpenDone, s);
  }

  lemma Replaying() returns (t: Trace, s: State)
    ensures Good(t, s) && s == INITIAL.(mode := Opening(Replayed({}, map[]), 0))
  {
    t := Trace([INITIAL], []);
    assert forall p :: !Mentioned([], p);
    s := INITIAL.(mode := Opening(Replayed({}, map[]), 0));
    Take(t, INITIAL, OpenReplay, s);
    t := Then(t, OpenReplay, s);
  }

  /** Append r, both steps. */
  lemma AppendRecord(t: Trace, s: State, r: Record) returns (t': Trace, s': State)
    requires Good(t, s) && s.mode.Running? && s.mode.m.active in s.disk.wals && r.ts < MAX_INT64
    ensures Good(t', s')
    ensures var w, m := WinOf(D, r), s.mode.m;
            s' == State(s.disk.(wals := s.disk.wals[m.active := s.disk.wals[m.active] + [r]]),
                        Running(m.(mem := Add(m.mem, w, multiset{r}), pend := m.pend[w := At(m.pend, w)])),
                        Add(s.written, w, multiset{r}))
  {
    var w, m := WinOf(D, r), s.mode.m;
    var s1 := State(s.disk.(wals := s.disk.wals[m.active := s.disk.wals[m.active] + [r]]),
                    Running(m.(pend := Add(m.pend, w, multiset{r}))), Add(s.written, w, multiset{r}));
    Take(t, s, LogAppend(r), s1);
    t', s' := InsertRecord(Then(t, LogAppend(r), s1), s1, r, At(m.pend, w));
    assert s1.mode.m.pend[w := At(m.pend, w)] == m.pend[w := At(m.pend, w)];
  }

  lemma InsertRecord(t: Trace, s: State, r: Record, rest: Bag) returns (t': Trace, s': State)
    requires Good(t, s) && s.mode.Running? && At(s.mode.m.pend, WinOf(D, r)) == rest + multiset{r}
    ensures Good(t', s')
    ensures var w, m := WinOf(D, r), s.mode.m;
            s' == s.(mode := Running(m.(mem := Add(m.mem, w, multiset{r}), pend := m.pend[w := rest])))
  {
    var w, m := WinOf(D, r), s.mode.m;
    s' := s.(mode := Running(m.(mem := Add(m.mem, w, multiset{r}), pend := m.pend[w := rest])));
    assert rest + multiset{r} - multiset{r} == rest;
    Take(t, s, InsertAppend(r), s');
    t' := Then(t, InsertAppend(r), s');
  }

  const OUT: Path := FlushPath(0, 2)
  const EDIT: Edit := FlushEdit(5)

  function FlushEdit(maxTs: int): Edit {
    Edit([Entry(OUT, maxTs)], [])
  }

  /** The manifest of one flush mentions its file alone. */
  lemma OneMentioned(maxTs: int)
    ensures forall e :: Adds([FlushEdit(maxTs)], e) <==> e == Entry(OUT, maxTs)
    ensures forall p :: Mentioned([FlushEdit(maxTs)], p) <==> p == OUT
  {
    var edits := [FlushEdit(maxTs)];
    assert Front(edits) == [] && Last(edits) == FlushEdit(maxTs);
    forall e
      ensures Adds(edits, e) <==> e == Entry(OUT, maxTs)
    {
      assert !Adds([], e);
    }
    assert Adds(edits, Entry(OUT, maxTs));
  }

  /** Start a flush of window 0: segment 2 becomes active. */
  lemma FlushStart(t: Trace, s: State) returns (t': Trace, s': State)
    requires Good(t, s) && s.mode.Running? && s.mode.m == Idle(s.mode.m.mem, s.mode.m.pend, map[], 1)
    requires s.disk.wals.Keys == {1}
    ensures Good(t', s') && s'.written == s.written && s'.disk == s.disk.(wals := s.disk.wals[2 := []])
    ensures s'.mode == Running(s.mode.m.(walSeq := 2, active := 2, flush := Flushing(Rotated, 0, 1, 2, multiset{}, 0)))
  {
    var m := s.mode.m;
    var m1 := m.(walSeq := 2, flush := Flushing(Taken, 0, 1, 2, multiset{}, 0));
    var s1 := State(s.disk, Running(m1), s.written);
    Take(t, s, FlushTake(0), s1);
    var t1 := Then(t, FlushTake(0), s1);
    s' := State(s.disk.(wals := s.disk.wals[2 := []]),
                Running(m1.(active := 2, flush := m1.flush.(pc := Rotated))), s.written);
    Take(t1, s1, FlushRotate, s');
    t' := Then(t1, FlushRotate, s');
  }

  /** Go on, with r alone in the memtable of window 0, up to the manifest edit. */
  lemma FlushOn(t: Trace, s: State, r: Record) returns (t': Trace, s': State)
    requires Good(t, s) && s.mode.Running? && s.disk.ssts == map[] && s.disk.manifest == []
    requires s.mode.m.flush == Flushing(Rotated, 0, 1, 2, multiset{}, 0) && At(s.mode.m.mem, 0) == multiset{r}
    ensures Good(t', s') && s'.written == s.written
    ensures s'.disk == Disk(s.disk.wals, map[OUT := Complete(multiset{r})], [FlushEdit(r.ts)])
    ensures s'.mode == Running(s.mode.m.(mem := s.mode.m.mem[0 := multiset{}],
                                         flush := Flushing(Published, 0, 1, 2, multiset{r}, r.ts)))
  {
    var m, k := s.mode.m, s.disk;
    var k1 := k.(ssts := map[OUT := Partial]);
    var s1 := State(k1, Running(m.(flush := m.flush.(pc := Created))), s.written);
    Take(t, s, FlushCreate, s1);
    var t1 := Then(t, FlushCreate, s1);
    var m2 := m.(mem := m.mem[0 := multiset{}], flush := Flushing(Swapped, 0, 1, 2, multiset{r}, 0));
    var s2 := State(k1, Running(m2), s.written);
    Take(t1, s1, FlushSwap, s2);
    t', s' := FlushWrite(Then(t1, FlushSwap, s2), s2, r);
  }

  lemma FlushWrite(t: Trace, s: State, r: Record) returns (t': Trace, s': State)
    requires Good(t, s) && s.mode.Running? && s.disk.ssts == map[OUT := Partial] && s.disk.manifest == []
    requires s.mode.m.flush == Flushing(Swapped, 0, 1, 2, multiset{r}, 0)
    ensures Good(t', s') && s'.written == s.written
    ensures s'.disk == Disk(s.disk.wals, map[OUT := Complete(multiset{r})], [FlushEdit(r.ts)])
    ensures s'.mode == Running(s.mode.m.(flush := Flushing(Published, 0, 1, 2, multiset{r}, r.ts)))
  {
    var m := s.mode.m;
    var k1 := s.disk.(ssts := map[OUT := Complete(multiset{r})]);
    var s1 := State(k1, Running(m.(flush := m.flush.(pc := Written, maxTs := r.ts))), s.written);
    assert r in multiset{r} && IsMax(multiset{r}, r.ts);
    Take(t, s, FlushFinish(r.ts), s1);
    var t1 := Then(t, FlushFinish(r.ts), s1);
    s' := State(k1.(manifest := [FlushEdit(r.ts)]),
                Running(m.(flush := m.flush.(pc := Published, maxTs := r.ts))), s.written);
    Take(t1, s1, FlushPublish, s');
    t' := Then(t1, FlushPublish, s');
  }

  /** Delete the old segment. */
  lemma DropOld(t: Trace, s: State, active: seq<Record>) returns (t': Trace, s': State)
    requires Good(t, s) && FlushAt(s, Published) && s.mode.m.flush.oldSeg == 1
    requires 1 in s.disk.wals && s.disk.wals == map[1 := s.disk.wals[1], 2 := active]
    ensures Good(t', s') && s'.written == s.written && EndsWith(t', FlushDropWal)
    ensures s'.disk == s.disk.(wals := map[2 := active])
    ensures s'.mode == Running(s.mode.m.(flush := s.mode.m.flush.(pc := Dropped)))
  {
    s' := State(s.disk.(wals := map[2 := active]),
                Running(s.mode.m.(flush := s.mode.m.flush.(pc := Dropped))), s.written);
    assert s.disk.wals - {1} == map[2 := active];
    Take(t, s, FlushDropWal, s');
    t' := Then(t, FlushDropWal, s');
  }

  /** Flush window 0, holding r alone, up to the manifest edit. */
  lemma FlushOnly(t: Trace, s: State, r: Record) returns (t': Trace, s': State)
    requires Good(t, s) && s.mode.Running? && s.disk.ssts == map[] && s.disk.manifest == []
    requires s.disk.wals.Keys == {1} && s.mode.m == Idle(s.mode.m.mem, s.mode.m.pend, map[], 1)
    requires At(s.mode.m.mem, 0) == multiset{r}
    ensures Good(t', s') && s'.written == s.written
    ensures s'.disk == Disk(s.disk.wals[2 := []], map[OUT := Complete(multiset{r})], [FlushEdit(r.ts)])
    ensures s'.mode == Running(s.mode.m.(mem := s.mode.m.mem[0 := multiset{}], walSeq := 2, active := 2,
                                         flush := Flushing(Published, 0, 1, 2, multiset{r}, r.ts)))
  {
    t', s' := FlushStart(t, s);
    t', s' := FlushOn(t', s', r);
  }

  // ---------------------------------------------------------------- what these disks recover

  /** Replaying the manifest of one flush whose file is present. */
  lemma ReplaysFlush(b: Bag, maxTs: int)
    ensures ReplayManifest([FlushEdit(maxTs)], map[OUT := Complete(b)])
            == Replayed({OUT}, if maxTs > 0 then map[0 := maxTs] else map[])
  {
    var ssts := map[OUT := Complete(b)];
    assert [FlushEdit(maxTs)][..0] == [];
    ReplayOne(Replayed({}, map[]), Entry(OUT, maxTs), ssts);
  }

  lemma FlushedContent(b: Bag, w: Win)
    ensures FilesBag({OUT}, map[OUT := Complete(b)], w) == if w == 0 then b else multiset{}
  {
    var ssts := map[OUT := Complete(b)];
    if w == 0 {
      assert ContentByFile({OUT}, ssts, 0) == map[][OUT := b];
      SumAdd(map[], OUT, b);
    } else {
      assert ContentByFile({OUT}, ssts, w) == map[];
    }
    SumZero<Path>(map[]);
  }

  lemma OneSegment(i: nat, rs: seq<Record>, w: Win, maxTs: map<Win, int>)
    ensures ReplayedWals(D, map[i := rs], w, maxTs) == Unskipped(D, rs, w, maxTs)
  {
    var b := Unskipped(D, rs, w, maxTs);
    assert UnskippedBySegment(D, map[i := rs], w, maxTs) == map[][i := b];
    SumAdd(map[], i, b);
    SumZero<nat>(map[]);
  }

  lemma TwoSegments(rs: seq<Record>, qs: seq<Record>, w: Win, maxTs: map<Win, int>)
    ensures ReplayedWals(D, map[1 := rs, 2 := qs], w, maxTs)
            == Unskipped(D, rs, w, maxTs) + Unskipped(D, qs, w, maxTs)
  {
    var u := UnskippedBySegment(D, map[1 := rs, 2 := qs], w, maxTs);
    assert u.Keys == {1, 2};
    TwoBags(u, Unskipped(D, rs, w, maxTs), Unskipped(D, qs, w, maxTs));
  }

  lemma TwoBags(u: map<nat, Bag>, b: Bag, c: Bag)
    requires u.Keys == {1, 2} && u[1] == b && u[2] == c
    ensures Sum(u) == b + c
  {
    var one: map<nat, Bag> := map[1 := b];
    assert u == one[2 := c] && one == map[][1 := b];
    SumAdd(one, 2, c);
    SumAdd(map[], 1, b);
    SumZero<nat>(map[]);
  }

  lemma OneRecord(r: Record, w: Win, maxTs: map<Win, int>)
    ensures Unskipped(D, [r], w, maxTs) == if WinOf(D, r) == w && !Skipped(D, maxTs, r) then multiset{r} else multiset{}
    ensures Unskipped(D, [], w, maxTs) == multiset{}
  {
    assert [r][..0] == [];
  }

  // ---------------------------------------------------------------- one WAL for all windows

  lemma SharedDisk()
    ensures Recovered(D, Disk(map[2 := []], map[OUT := Complete(multiset{FIRST})], [EDIT]), 10) == multiset{}
  {
    ReplaysFlush(multiset{FIRST}, 5);
    FlushedContent(multiset{FIRST}, 10);
    OneSegment(2, [], 10, map[0 := 5]);
  }

  /** One WAL serves all windows, and a flush of one of them deletes the whole old segment: OTHER, of window 10, is
      written and lost when window 0 is flushed. */
  lemma SharedSegmentLosesRecords() returns (t: Trace, s: State)
    ensures Good(t, s) && EndsWith(t, FlushDropWal)
    ensures OTHER in At(s.written, 10) && Recovered(D, s.disk, 10) == multiset{}
  {
    TheirWindows();
    t, s := Opened();
    t, s := AppendRecord(t, s, FIRST);
    t, s := AppendRecord(t, s, OTHER);
    t, s := FlushOnly(t, s, FIRST);
    assert OTHER in At(s.written, 10);
    t, s := DropOld(t, s, []);
    SharedDisk();
  }

  // ---------------------------------------------------------------- one maximum per window

  lemma LateDisk()
    ensures Recovered(D, Disk(map[1 := [FIRST], 2 := [LATE]], map[OUT := Complete(multiset{FIRST})], [EDIT]), 0)
            == multiset{FIRST}
  {
    TheirWindows();
    ReplaysFlush(multiset{FIRST}, 5);
    FlushedContent(multiset{FIRST}, 0);
    TwoSegments([FIRST], [LATE], 0, map[0 := 5]);
    OneRecord(FIRST, 0, map[0 := 5]);
    OneRecord(LATE, 0, map[0 := 5]);
  }

  /** The replay filter keeps only one maximum per window: LATE, older than a flushed record of its window, is written
      and lost. */
  lemma LateRecordIsLost() returns (t: Trace, s: State)
    ensures Good(t, s) && EndsWith(t, LogAppend(LATE))
    ensures LATE in At(s.written, 0) && Recovered(D, s.disk, 0) == multiset{FIRST}
  {
    TheirWindows();
    t, s := Opened();
    t, s := AppendRecord(t, s, FIRST);
    assert [] + [FIRST] == [FIRST];
    t, s := FlushOnly(t, s, FIRST);
    assert s.disk.wals == map[1 := [FIRST], 2 := []];
    t, s := LogLate(t, s);
  }

  lemma LogLate(t: Trace, s: State) returns (t': Trace, s': State)
    requires Good(t, s) && s.mode.Running? && s.mode.m.active == 2
    requires s.disk == Disk(map[1 := [FIRST], 2 := []], map[OUT := Complete(multiset{FIRST})], [EDIT])
    ensures Good(t', s') && EndsWith(t', LogAppend(LATE))
    ensures LATE in At(s'.written, 0) && Recovered(D, s'.disk, 0) == multiset{FIRST}
  {
    TheirWindows();
    t', s' := LogOnly(t, s, LATE);
    assert [] + [LATE] == [LATE];
    assert s'.disk.wals == map[1 := [FIRST], 2 := [LATE]];
    LateDisk();
  }

  /** Log r, the first step of its append. */
  lemma LogOnly(t: Trace, s: State, r: Record) returns (t': Trace, s': State)
    requires Good(t, s) && s.mode.Running? && s.mode.m.active in s.disk.wals && r.ts < MAX_INT64
    ensures Good(t', s') && EndsWith(t', LogAppend(r))
    ensures var w, m := WinOf(D, r), s.mode.m;
            s' == State(s.disk.(wals := s.disk.wals[m.active := s.disk.wals[m.active] + [r]]),
                        Running(m.(pend := Add(m.pend, w, multiset{r}))), Add(s.written, w, multiset{r}))
  {
    var w, m := WinOf(D, r), s.mode.m;
    s' := State(s.disk.(wals := s.disk.wals[m.active := s.disk.wals[m.active] + [r]]),
                Running(m.(pend := Add(m.pend, w, multiset{r}))), Add(s.written, w, multiset{r}));
    Take(t, s, LogAppend(r), s');
    t' := Then(t, LogAppend(r), s');
  }

  lemma ZeroDisk()
    ensures Recovered(D, Disk(map[1 := [ZERO], 2 := []], map[OUT := Complete(multiset{ZERO})], [FlushEdit(0)]), 0)
            == multiset{ZERO, ZERO}
  {
    TheirWindows();
    ReplaysFlush(multiset{ZERO}, 0);
    FlushedContent(multiset{ZERO}, 0);
    TwoSegments([ZERO], [], 0, map[]);
    OneRecord(ZERO, 0, map[]);
  }

  /** A missing maximum reads as 0, so a flush whose maximum is not positive covers nothing: ZERO, written once, is
      recovered from its file and again from the log. */
  lemma ZeroMaximumRepeatsRecords() returns (t: Trace, s: State)
    ensures Good(t, s) && FlushAt(s, Published)
    ensures At(s.written, 0) == multiset{ZERO} && Recovered(D, s.disk, 0) == multiset{ZERO, ZERO}
  {
    TheirWindows();
    t, s := Opened();
    t, s := AppendRecord(t, s, ZERO);
    assert [] + [ZERO] == [ZERO];
    assert At(s.written, 0) == multiset{ZERO};
    t, s := FlushOnly(t, s, ZERO);
    assert s.disk.wals == map[1 := [ZERO], 2 := []];
    ZeroDisk();
  }

  // ---------------------------------------------------------------- retention

  /** Retire the only file of window 0. */
  lemma RetireFlushed(t: Trace, s: State, r: Record) returns (t': Trace, s': State)
    requires Good(t, s) && FlushAt(s, Dropped) && s.mode.m.flush.Out() == OUT && s.mode.m.compact.NoCompact?
    requires s.disk == Disk(s.disk.wals, map[OUT := Complete(multiset{r})], [FlushEdit(r.ts)])
             && s.mode.m.files == map[]
    requires At(s.written, 0) == multiset{r}
    ensures Good(t', s') && EndsWith(t', RetireRemove(OUT))
    ensures s'.disk == Disk(s.disk.wals, map[], [FlushEdit(r.ts), Edit([], [OUT])]) && At(s'.written, 0) == multiset{}
  {
    var m := s.mode.m;
    var m1 := m.(files := map[OUT := multiset{r}], flush := NoFlush);
    var s1 := State(s.disk, Running(m1), s.written);
    Take(t, s, FlushRegister, s1);
    var t1 := Then(t, FlushRegister, s1);
    var m2 := m1.(compact := Retiring(false, 0, [OUT], {}));
    var s2 := State(s.disk, Running(m2), s.written);
    Take(t1, s1, RetirePick(0, [OUT]), s2);
    t', s' := RetireRest(Then(t1, RetirePick(0, [OUT]), s2), s2, r);
  }

  lemma RetireRest(t: Trace, s: State, r: Record) returns (t': Trace, s': State)
    requires Good(t, s) && s.mode.Running? && s.mode.m.compact == Retiring(false, 0, [OUT], {})
    requires s.disk == Disk(s.disk.wals, map[OUT := Complete(multiset{r})], [FlushEdit(r.ts)])
    requires s.mode.m.files == map[OUT := multiset{r}] && At(s.written, 0) == multiset{r}
    ensures Good(t', s') && EndsWith(t', RetireRemove(OUT))
    ensures s'.disk == Disk(s.disk.wals, map[], [FlushEdit(r.ts), Edit([], [OUT])]) && At(s'.written, 0) == multiset{}
  {
    var m, b := s.mode.m, multiset{r};
    assert Selected(m.files, [OUT]) == map[][OUT := b];
    SumAdd(map[], OUT, b);
    SumZero<Path>(map[]);
    assert InputBag(m.files, [OUT]) == b && AllPaths([OUT]) == {OUT};
    assert [FlushEdit(r.ts)] + [Edit([], [OUT])] == [FlushEdit(r.ts), Edit([], [OUT])];
    assert b - b == multiset{};
    var m1 := m.(compact := Retiring(true, 0, [OUT], {OUT}));
    var s1 := State(s.disk.(manifest := [FlushEdit(r.ts), Edit([], [OUT])]), Running(m1), s.written[0 := multiset{}]);
    Take(t, s, RetirePublish, s1);
    var t1 := Then(t, RetirePublish, s1);
    t', s' := RetireUnlink(t1, s1);
  }

  lemma RetireUnlink(t: Trace, s: State) returns (t': Trace, s': State)
    requires Good(t, s) && s.mode.Running? && s.mode.m.compact == Retiring(true, 0, [OUT], {OUT})
    requires s.disk.ssts.Keys == {OUT}
    ensures Good(t', s') && EndsWith(t', RetireRemove(OUT)) && s'.written == s.written
    ensures s'.disk == s.disk.(ssts := map[])
  {
    assert s.disk.ssts - {OUT} == map[];
    s' := Step(D, s, RetireRemove(OUT));
    Take(t, s, RetireRemove(OUT), s');
    t' := Then(t, RetireRemove(OUT), s');
  }

  lemma RetiredDisk()
    ensures Recovered(D, Disk(map[2 := [FIRST]], map[], [EDIT, Edit([], [OUT])]), 0) == multiset{FIRST}
  {
    TheirWindows();
    ReplaysRetired(5);
    OneSegment(2, [FIRST], 0, map[]);
    OneRecord(FIRST, 0, map[]);
    assert ContentByFile({}, map[], 0) == map[];
    SumZero<Path>(map[]);
  }

  /** A record appended between rotation and swap is flushed and also stays in the new segment; retiring its file
      uncovers it there: FIRST, retired, is recovered. */
  lemma RetiredRecordReturns() returns (t: Trace, s: State)
    ensures Good(t, s) && EndsWith(t, RetireRemove(OUT))
    ensures At(s.written, 0) == multiset{} && Recovered(D, s.disk, 0) == multiset{FIRST}
  {
    TheirWindows();
    t, s := Opened();
    t, s := FlushStart(t, s);
    t, s := AppendRecord(t, s, FIRST);
    assert [] + [FIRST] == [FIRST];
    assert s.disk.wals == map[1 := [], 2 := [FIRST]];
    t, s := FlushOn(t, s, FIRST);
    t, s := DropOld(t, s, [FIRST]);
    assert At(s.written, 0) == multiset{FIRST};
    t, s := RetireFlushed(t, s, FIRST);
    RetiredDisk();
  }

  lemma ReplaysRetired(maxTs: int)
    ensures ReplayManifest([FlushEdit(maxTs), Edit([], [OUT])], map[]) == Replayed({}, map[])
  {
    var edits := [FlushEdit(maxTs), Edit([], [OUT])];
    assert edits[..1] == [FlushEdit(maxTs)] && [FlushEdit(maxTs)][..0] == [];
    ReplayOne(Replayed({}, map[]), Entry(OUT, maxTs), map[]);
    assert ReplayManifest([FlushEdit(maxTs)], map[]) == Replayed({}, map[]);
  }

  // ---------------------------------------------------------------- restarted segment numbers

  /** Open removes the newest segment as covered and dies before it creates the next one. */
  lemma DieInOpen(t: Trace, s: State) returns (t': Trace, s': State)
    requires Good(t, s) && s.disk == Disk(map[2 := []], map[OUT := Complete(multiset{FIRST})], [EDIT])
    ensures Good(t', s') && s'.written == s.written && s'.mode == Down
    ensures s'.disk == Disk(map[], map[OUT := Complete(multiset{FIRST})], [EDIT])
  {
    var rp := Replayed({OUT}, map[0 := 5]);
    var s1 := s.(mode := Down);
    Take(t, s, Crash, s1);
    var t1 := Then(t, Crash, s1);
    ReplaysFlush(multiset{FIRST}, 5);
    assert LastSegment(s.disk.wals) == 2 by { assert s.disk.wals - {2} == map[]; }
    OneMentioned(5);
    var s2 := s.(mode := Opening(rp, 2));
    Take(t1, s1, OpenReplay, s2);
    var t2 := Then(t1, OpenReplay, s2);
    assert s.disk.wals - {2} == map[];
    var s3 := s2.(disk := s.disk.(wals := map[]));
    Take(t2, s2, RemoveCoveredWal(2), s3);
    var t3 := Then(t2, RemoveCoveredWal(2), s3);
    s' := s3.(mode := Down);
    Take(t3, s3, Crash, s');
    t' := Then(t3, Crash, s');
  }

  /** The next Open starts again at segment 1, and the next flush at the name of the first. */
  lemma NumberAgain(t: Trace, s: State) returns (t': Trace, s': State)
    requires Good(t, s) && s.mode == Down && s.disk == Disk(map[], map[OUT := Complete(multiset{FIRST})], [EDIT])
    ensures Leads(t', s') && s'.written == s.written && EndsWith(t', FlushCreate)
    ensures s'.disk == Disk(map[1 := [], 2 := []], map[OUT := Partial], [EDIT])
    ensures s'.mode.Running? && s'.mode.m.flush == Flushing(Created, 0, 1, 2, multiset{}, 0)
  {
    var rp := Replayed({OUT}, map[0 := 5]);
    ReplaysFlush(multiset{FIRST}, 5);
    var s1 := s.(mode := Opening(rp, 0));
    TakeAny(t, s, OpenReplay, s1);
    var t2, s2 := OpenAgain(Then(t, OpenReplay, s1), s1);
    t', s' := FlushOver(t2, s2);
  }

  lemma OpenAgain(t: Trace, s: State) returns (t': Trace, s': State)
    requires Leads(t, s) && s.disk == Disk(map[], map[OUT := Complete(multiset{FIRST})], [EDIT])
    requires s.mode == Opening(Replayed({OUT}, map[0 := 5]), 0)
    ensures Leads(t', s') && s'.written == s.written
    ensures s'.disk == Disk(map[1 := []], map[OUT := Complete(multiset{FIRST})], [EDIT])
    ensures s'.mode == Running(Idle(map[], map[], map[OUT := multiset{FIRST}], 1))
  {
    var rp := Replayed({OUT}, map[0 := 5]);
    assert WindowsOf(D, map[]) == {} && Rebuilt(D, map[], rp.maxTs) == map[];
    assert (map p | p in rp.files :: Content(s.disk.ssts, p)) == map[OUT := multiset{FIRST}];
    s' := State(s.disk.(wals := map[1 := []]), Running(Idle(map[], map[], map[OUT := multiset{FIRST}], 1)), s.written);
    TakeAny(t, s, OpenDone, s');
    t' := Then(t, OpenDone, s');
  }

  lemma FlushOver(t: Trace, s: State) returns (t': Trace, s': State)
    requires Leads(t, s) && s.disk == Disk(map[1 := []], map[OUT := Complete(multiset{FIRST})], [EDIT])
    requires s.mode == Running(Idle(map[], map[], map[OUT := multiset{FIRST}], 1))
    ensures Leads(t', s') && s'.written == s.written && EndsWith(t', FlushCreate)
    ensures s'.disk == Disk(map[1 := [], 2 := []], map[OUT := Partial], [EDIT])
    ensures s'.mode.Running? && s'.mode.m.flush == Flushing(Created, 0, 1, 2, multiset{}, 0)
  {
    var m := s.mode.m.(walSeq := 2, flush := Flushing(Taken, 0, 1, 2, multiset{}, 0));
    var s1 := State(s.disk, Running(m), s.written);
    TakeAny(t, s, FlushTake(0), s1);
    var t1 := Then(t, FlushTake(0), s1);
    var m2 := m.(active := 2, flush := m.flush.(pc := Rotated));
    var s2 := State(s.disk.(wals := map[1 := [], 2 := []]), Running(m2), s.written);
    TakeAny(t1, s1, FlushRotate, s2);
    var t2 := Then(t1, FlushRotate, s2);
    s' := State(s2.disk.(ssts := map[OUT := Partial]), Running(m2.(flush := m2.flush.(pc := Created))), s.written);
    TakeAny(t2, s2, FlushCreate, s');
    t' := Then(t2, FlushCreate, s');
  }

  /** Open numbers segments from the WAL files it finds. When it dies after removing the newest one as covered, the next
      Open starts again at 1 and the next flush truncates a live SSTable: FIRST is written and lost. */
  lemma RestartedNumbersLoseRecords() returns (t: Trace, s: State)
    ensures Leads(t, s) && EndsWith(t, FlushCreate) && !NumberedRun(t.states, t.labels)
    ensures FIRST in At(s.written, 0) && Recovered(D, s.disk, 0) == multiset{}
  {
    TheirWindows();
    t, s := Opened();
    t, s := AppendRecord(t, s, FIRST);
    t, s := FlushOnly(t, s, FIRST);
    assert FIRST in At(s.written, 0);
    t, s := DropOld(t, s, []);
    t, s := DieInOpen(t, s);
    t, s := NumberAgain(t, s);
    TruncatedFlush();
    NameTaken(t, s);
  }

  /** The file being created is one that the manifest knows, which no numbered run reaches. */
  lemma NameTaken(t: Trace, s: State)
    requires Leads(t, s) && s.mode.Running? && Naming(s.mode.m.flush) && s.mode.m.flush.Out() == OUT
    requires s.disk.manifest == [EDIT]
    ensures !NumberedRun(t.states, t.labels)
  {
    OneMentioned(5);
    if NumberedRun(t.states, t.labels) {
      Reachable(D, t.states, t.labels, |t.labels|);
      FlushNameIsNew(D, s);
    }
  }

  lemma TruncatedFlush()
    ensures Recovered(D, Disk(map[1 := [], 2 := []], map[OUT := Partial], [EDIT]), 0) == multiset{}
  {
    var ssts: map<Path, SstFile> := map[OUT := Partial];
    assert [EDIT][..0] == [];
    ReplayOne(Replayed({}, map[]), Entry(OUT, 5), ssts);
    assert ReplayManifest([EDIT], ssts) == Replayed({}, map[]);
    assert ContentByFile({}, ssts, 0) == map[];
    SumZero(UnskippedBySegment(D, map[1 := [], 2 := []], 0, map[]));
  }

  // ---------------------------------------------------------------- reused names

  const ONE: Bag := multiset{FIRST}
  const C1: Path := CompactPath(0, 1)
  const C2: Path := CompactPath(0, 2)

  function Rewrite(inp: Path, out: Path): Edit {
    Edit([Entry(out, 5)], [inp])
  }

  /** A run, with fresh merge names or not, whose Opens find the newest segment numbers. */
  ghost predicate Walks(t: Trace, s: State) {
    IsRun(D, t.states, t.labels) && NumberedRun(t.states, t.labels) && t.states[|t.labels|] == s
  }

  lemma Walk(t: Trace, s: State, l: Label, s': State)
    requires Walks(t, s) && Enabled(D, s, l) && Resumes(s, l) && Step(D, s, l) == s'
    ensures Walks(Then(t, l, s'), s')
  {
    RunOn(t, s, l, s');
    NumberedOn(t, l, s');
  }

  /** Nothing but the file inp, which the engine holds. */
  ghost predicate Holding(s: State, inp: Path, manifest: seq<Edit>) {
    s.mode.Running? && s.mode.m.files == map[inp := ONE] && s.mode.m.compact == NoCompact
    && s.disk.ssts == map[inp := Complete(ONE)] && s.disk.manifest == manifest && inp.win == 0
  }

  ghost predicate Amid(s: State, c: Compact, ssts: map<Path, SstFile>, manifest: seq<Edit>) {
    s.mode.Running? && s.mode.m.compact == c && s.disk.ssts == ssts && s.disk.manifest == manifest
  }

  /** Only the compactor, the SSTables and the manifest have changed. */
  ghost predicate Apart(s: State, s': State) {
    s.mode.Running? && s'.mode.Running? && s'.disk.wals == s.disk.wals && s'.written == s.written
    && s'.mode.m == s.mode.m.(compact := s'.mode.m.compact)
  }

  /** Merge the only file of window 0 into the next output name. */
  lemma MergeInto(t: Trace, s: State, inp: Path, manifest: seq<Edit>) returns (t': Trace, s': State)
    requires Walks(t, s) && Holding(s, inp, manifest) && inp != CompactPath(0, s.mode.m.compactSeq + 1)
    ensures var out := CompactPath(0, s.mode.m.compactSeq + 1);
            Walks(t', s') && Holding(s', out, manifest + [Rewrite(inp, out)]) && s'.disk.wals == s.disk.wals
            && s'.written == s.written && s'.mode.m.compactSeq == s.mode.m.compactSeq + 1
  {
    var out := CompactPath(0, s.mode.m.compactSeq + 1);
    var t1, s1 := PickOnly(t, s, inp, manifest);
    var t2, s2 := CreateOut(t1, s1, inp, out, manifest);
    var t3, s3 := FinishOut(t2, s2, inp, out, manifest);
    var t4, s4 := PublishOut(t3, s3, inp, out, manifest);
    t', s' := SwapOut(t4, s4, inp, out, manifest + [Rewrite(inp, out)]);
  }

  lemma PickOnly(t: Trace, s: State, inp: Path, manifest: seq<Edit>) returns (t': Trace, s': State)
    requires Walks(t, s) && Holding(s, inp, manifest)
    ensures var out := CompactPath(0, s.mode.m.compactSeq + 1);
            var c := Compacting(Picked, 0, [inp], out, multiset{}, 0, {});
            Walks(t', s')
            && s' == State(s.disk, Running(s.mode.m.(compactSeq := s.mode.m.compactSeq + 1, compact := c)), s.written)
  {
    var l := CompactPick(0, [inp]);
    var c := Compacting(Picked, 0, [inp], CompactPath(0, s.mode.m.compactSeq + 1), multiset{}, 0, {});
    s' := State(s.disk, Running(s.mode.m.(compactSeq := s.mode.m.compactSeq + 1, compact := c)), s.written);
    Walk(t, s, l, s');
    t' := Then(t, l, s');
  }

  lemma CreateOut(t: Trace, s: State, inp: Path, out: Path, manifest: seq<Edit>) returns (t': Trace, s': State)
    requires Walks(t, s) && inp != out
    requires Amid(s, Compacting(Picked, 0, [inp], out, multiset{}, 0, {}), map[inp := Complete(ONE)], manifest)
    ensures Walks(t', s') && Apart(s, s')
    ensures Amid(s', Compacting(OutCreated, 0, [inp], out, multiset{}, 0, {}),
                 map[inp := Complete(ONE), out := Partial], manifest)
  {
    s' := State(s.disk.(ssts := map[inp := Complete(ONE), out := Partial]),
                Running(s.mode.m.(compact := s.mode.m.compact.(cpc := OutCreated))), s.written);
    Walk(t, s, CompactCreate, s');
    t' := Then(t, CompactCreate, s');
  }

  lemma OnlyInput(files: map<Path, Bag>, inp: Path)
    requires files == map[inp := ONE]
    ensures InputBag(files, [inp]) == ONE && IsMax(ONE, 5)
  {
    assert Selected(files, [inp]) == map[][inp := ONE];
    SumAdd(map[], inp, ONE);
    SumZero<Path>(map[]);
    assert FIRST in ONE;
  }

  lemma FinishOut(t: Trace, s: State, inp: Path, out: Path, manifest: seq<Edit>) returns (t': Trace, s': State)
    requires Walks(t, s) && inp != out
    requires Amid(s, Compacting(OutCreated, 0, [inp], out, multiset{}, 0, {}),
                  map[inp := Complete(ONE), out := Partial], manifest)
    requires s.mode.m.files == map[inp := ONE]
    ensures Walks(t', s') && Apart(s, s')
    ensures Amid(s', Compacting(OutWritten, 0, [inp], out, ONE, 5, {}),
                 map[inp := Complete(ONE), out := Complete(ONE)], manifest)
  {
    OnlyInput(s.mode.m.files, inp);
    s' := State(s.disk.(ssts := map[inp := Complete(ONE), out := Complete(ONE)]),
                Running(s.mode.m.(compact := Compacting(OutWritten, 0, [inp], out, ONE, 5, {}))), s.written);
    Walk(t, s, CompactFinish(5), s');
    t' := Then(t, CompactFinish(5), s');
  }

  lemma PublishOut(t: Trace, s: State, inp: Path, out: Path, manifest: seq<Edit>) returns (t': Trace, s': State)
    requires Walks(t, s) && inp != out
    requires Amid(s, Compacting(OutWritten, 0, [inp], out, ONE, 5, {}),
                  map[inp := Complete(ONE), out := Complete(ONE)], manifest)
    ensures Walks(t', s') && Apart(s, s')
    ensures Amid(s', Compacting(OutPublished, 0, [inp], out, ONE, 5, {inp}),
                 map[inp := Complete(ONE), out := Complete(ONE)], manifest + [Rewrite(inp, out)])
  {
    assert AllPaths([inp]) == {inp};
    s' := State(s.disk.(manifest := manifest + [Rewrite(inp, out)]),
                Running(s.mode.m.(compact := Compacting(OutPublished, 0, [inp], out, ONE, 5, {inp}))), s.written);
    Walk(t, s, CompactPublish, s');
    t' := Then(t, CompactPublish, s');
  }

  /** Remove the input and register the output. */
  lemma SwapOut(t: Trace, s: State, inp: Path, out: Path, manifest: seq<Edit>) returns (t': Trace, s': State)
    requires Walks(t, s) && inp != out && out.win == 0
    requires Amid(s, Compacting(OutPublished, 0, [inp], out, ONE, 5, {inp}),
                  map[inp := Complete(ONE), out := Complete(ONE)], manifest)
    requires s.mode.m.files == map[inp := ONE]
    ensures Walks(t', s') && Holding(s', out, manifest) && s'.disk.wals == s.disk.wals && s'.written == s.written
    ensures s'.mode.m.compactSeq == s.mode.m.compactSeq
  {
    assert s.disk.ssts - {inp} == map[out := Complete(ONE)];
    var s1 := State(s.disk.(ssts := map[out := Complete(ONE)]),
                    Running(s.mode.m.(compact := Compacting(OutPublished, 0, [inp], out, ONE, 5, {}))), s.written);
    assert {inp} - {inp} == {};
    Walk(t, s, CompactRemove(inp), s1);
    t', s' := RegisterOut(Then(t, CompactRemove(inp), s1), s1, inp, out, manifest);
  }

  lemma RegisterOut(t: Trace, s: State, inp: Path, out: Path, manifest: seq<Edit>) returns (t': Trace, s': State)
    requires Walks(t, s) && inp != out && out.win == 0 && s.mode.Running? && s.mode.m.files == map[inp := ONE]
    requires Amid(s, Compacting(OutPublished, 0, [inp], out, ONE, 5, {}), map[out := Complete(ONE)], manifest)
    ensures Walks(t', s') && Holding(s', out, manifest) && s'.disk.wals == s.disk.wals && s'.written == s.written
    ensures s'.mode.m.compactSeq == s.mode.m.compactSeq
  {
    assert (s.mode.m.files - AllPaths([inp]))[out := ONE] == map[out := ONE];
    s' := State(s.disk, Running(s.mode.m.(files := map[out := ONE], compact := NoCompact)), s.written);
    Walk(t, s, CompactSwapIn, s');
    t' := Then(t, CompactSwapIn, s');
  }

  /** Append FIRST, flush it and register the file: the log is empty. */
  lemma FlushedFirst() returns (t: Trace, s: State)
    ensures Walks(t, s) && Holding(s, OUT, [EDIT]) && s.disk.wals == map[2 := []] && s.mode.m.compactSeq == 0
    ensures At(s.written, 0) == multiset{FIRST}
  {
    TheirWindows();
    t, s := Opened();
    t, s := AppendRecord(t, s, FIRST);
    t, s := FlushOnly(t, s, FIRST);
    assert At(s.written, 0) == multiset{FIRST};
    t, s := DropOld(t, s, []);
    t, s := RegisterFlush(t, s);
  }

  lemma RegisterFlush(t: Trace, s: State) returns (t': Trace, s': State)
    requires Good(t, s) && FlushAt(s, Dropped) && s.mode.m.flush.Out() == OUT && s.mode.m.compact == NoCompact
    requires s.disk.ssts == map[OUT := Complete(ONE)] && s.disk.manifest == [EDIT] && s.mode.m.files == map[]
    ensures Walks(t', s') && Holding(s', OUT, [EDIT]) && s'.disk == s.disk && s'.written == s.written
    ensures s'.mode.m.compactSeq == s.mode.m.compactSeq
  {
    s' := State(s.disk, Running(s.mode.m.(files := map[OUT := ONE], flush := NoFlush)), s.written);
    Walk(t, s, FlushRegister, s');
    t' := Then(t, FlushRegister, s');
  }

  /** Flush FIRST and merge its file into C1. */
  lemma MergedOnce() returns (t: Trace, s: State)
    ensures var manifest := [EDIT, Rewrite(OUT, C1)];
            Walks(t, s) && Holding(s, C1, manifest) && NumbersUpTo(manifest, 2)
    ensures s.disk.wals == map[2 := []] && s.mode.m.compactSeq == 1 && At(s.written, 0) == multiset{FIRST}
  {
    t, s := FlushedFirst();
    t, s := MergeInto(t, s, OUT, [EDIT]);
    assert [EDIT] + [Rewrite(OUT, C1)] == [EDIT, Rewrite(OUT, C1)];
    OneMentioned(5);
    NumbersMerge([EDIT], OUT, C1, 2);
  }

  lemma NumbersMerge(manifest: seq<Edit>, inp: Path, out: Path, n: int)
    requires NumbersUpTo(manifest, n) && out.CompactPath?
    ensures NumbersUpTo(manifest + [Rewrite(inp, out)], n)
  {
    var all := manifest + [Rewrite(inp, out)];
    Appended(manifest, Rewrite(inp, out));
    forall p | Mentioned(all, p) && p.FlushPath?
      ensures p.number <= n
    {
      var e :| Adds(all, e) && e.path == p;
      assert Adds(manifest, e);
      assert Mentioned(manifest, p);
    }
  }

  /** Restart: the log is empty and the merge counter starts again at 0. */
  lemma Restart(t: Trace, s: State, out: Path, manifest: seq<Edit>) returns (t': Trace, s': State)
    requires Walks(t, s) && s.disk == Disk(map[2 := []], map[out := Complete(ONE)], manifest) && out.win == 0
    requires ReplayManifest(manifest, map[out := Complete(ONE)]) == Replayed({out}, map[0 := 5])
    requires NumbersUpTo(manifest, 2)
    ensures Walks(t', s') && s'.written == s.written && Holding(s', out, manifest) && s'.mode.m.compactSeq == 0
    ensures s'.disk.wals == map[3 := []]
  {
    var s1 := s.(mode := Down);
    Walk(t, s, Crash, s1);
    var t1 := Then(t, Crash, s1);
    var s2 := s.(mode := Opening(Replayed({out}, map[0 := 5]), 2));
    assert LastSegment(s.disk.wals) == 2 by { assert s.disk.wals - {2} == map[]; }
    Walk(t1, s1, OpenReplay, s2);
    t', s' := Reopen(Then(t1, OpenReplay, s2), s2, out, manifest);
  }

  lemma Reopen(t: Trace, s: State, out: Path, manifest: seq<Edit>) returns (t': Trace, s': State)
    requires Walks(t, s) && s.disk == Disk(map[2 := []], map[out := Complete(ONE)], manifest) && out.win == 0
    requires s.mode == Opening(Replayed({out}, map[0 := 5]), 2)
    ensures Walks(t', s') && s'.written == s.written && Holding(s', out, manifest) && s'.mode.m.compactSeq == 0
    ensures s'.disk.wals == map[3 := []]
  {
    var s1 := s.(disk := s.disk.(wals := map[]));
    assert s.disk.wals - {2} == map[];
    Walk(t, s, RemoveCoveredWal(2), s1);
    t', s' := ReopenDone(Then(t, RemoveCoveredWal(2), s1), s1, out, manifest);
  }

  lemma ReopenDone(t: Trace, s: State, out: Path, manifest: seq<Edit>) returns (t': Trace, s': State)
    requires Walks(t, s) && s.disk == Disk(map[], map[out := Complete(ONE)], manifest) && out.win == 0
    requires s.mode == Opening(Replayed({out}, map[0 := 5]), 2)
    ensures Walks(t', s') && s'.written == s.written && Holding(s', out, manifest) && s'.mode.m.compactSeq == 0
    ensures s'.disk.wals == map[3 := []]
  {
    s' := State(s.disk.(wals := map[3 := []]), Running(Idle(map[], map[], map[out := ONE], 3)), s.written);
    var rp := s.mode.replayed;
    assert WindowsOf(D, map[]) == {} && Rebuilt(D, map[], rp.maxTs) == map[];
    assert (map p | p in rp.files :: Content(s.disk.ssts, p)) == map[out := ONE];
    Walk(t, s, OpenDone, s');
    t' := Then(t, OpenDone, s');
  }

  lemma ReplaysMerge()
    ensures ReplayManifest([EDIT, Rewrite(OUT, C1)], map[C1 := Complete(ONE)]) == Replayed({C1}, map[0 := 5])
  {
    var ssts := map[C1 := Complete(ONE)];
    assert [EDIT, Rewrite(OUT, C1)][..1] == [EDIT] && [EDIT][..0] == [];
    ReplayOne(Replayed({}, map[]), Entry(OUT, 5), ssts);
    assert ReplayManifest([EDIT], ssts) == Replayed({}, map[]);
    ReplayOne(Replayed({}, map[]), Entry(C1, 5), ssts);
  }

  /** The merge counter is not restored by Open, so the first merge after a restart truncates the first merge's live
      output: without fresh names the store loses records. */
  lemma ReusedNameLosesRecords() returns (t: Trace, s: State)
    ensures IsRun(D, t.states, t.labels) && NumberedRun(t.states, t.labels) && t.states[|t.labels|] == s
    ensures EndsWith(t, CompactCreate) && FIRST in At(s.written, 0) && Recovered(D, s.disk, 0) == multiset{}
  {
    t, s := MergedOnce();
    ReplaysMerge();
    t, s := Restart(t, s, C1, [EDIT, Rewrite(OUT, C1)]);
    t, s := PickOnly(t, s, C1, [EDIT, Rewrite(OUT, C1)]);
    t, s := CreateAgain(t, s);
    NothingLeft();
  }

  /** The name of a live output is taken again: the file is truncated. */
  lemma CreateAgain(t: Trace, s: State) returns (t': Trace, s': State)
    requires Walks(t, s) && s.disk.wals == map[3 := []]
    requires Amid(s, Compacting(Picked, 0, [C1], C1, multiset{}, 0, {}), map[C1 := Complete(ONE)],
                  [EDIT, Rewrite(OUT, C1)])
    ensures Walks(t', s') && EndsWith(t', CompactCreate) && s'.written == s.written
    ensures s'.disk == Disk(map[3 := []], map[C1 := Partial], [EDIT, Rewrite(OUT, C1)])
  {
    var m := s.mode.m.(compact := s.mode.m.compact.(cpc := OutCreated));
    s' := State(s.disk.(ssts := map[C1 := Partial]), Running(m), s.written);
    Walk(t, s, CompactCreate, s');
    t' := Then(t, CompactCreate, s');
  }

  lemma NothingLeft()
    ensures Recovered(D, Disk(map[3 := []], map[C1 := Partial], [EDIT, Rewrite(OUT, C1)]), 0) == multiset{}
  {
    var manifest := [EDIT, Rewrite(OUT, C1)];
    var ssts: map<Path, SstFile> := map[C1 := Partial];
    assert manifest[..1] == [EDIT] && [EDIT][..0] == [];
    ReplayOne(Replayed({}, map[]), Entry(OUT, 5), ssts);
    assert ReplayManifest([EDIT], ssts) == Replayed({}, map[]);
    ReplayOne(Replayed({}, map[]), Entry(C1, 5), ssts);
    assert ReplayManifest(manifest, ssts) == Replayed({}, map[]);
    assert ContentByFile({}, ssts, 0) == map[];
    SumZero(UnskippedBySegment(D, map[3 := []], 0, map[]));
  }

  // ---------------------------------------------------------------- the name of a dead file

  const TWO_MERGES: seq<Edit> := [EDIT, Rewrite(OUT, C1), Rewrite(C1, C2)]
  const THREE_MERGES: seq<Edit> := [EDIT, Rewrite(OUT, C1), Rewrite(C1, C2), Rewrite(C2, C1)]

  lemma ReplaysTwo()
    ensures ReplayManifest(TWO_MERGES, map[C2 := Complete(ONE)]) == Replayed({C2}, map[0 := 5])
  {
    var ssts := map[C2 := Complete(ONE)];
    var none := Replayed({}, map[]);
    assert TWO_MERGES[..2] == [EDIT, Rewrite(OUT, C1)];
    assert [EDIT, Rewrite(OUT, C1)][..1] == [EDIT] && [EDIT][..0] == [];
    ReplayOne(none, Entry(OUT, 5), ssts);
    assert ReplayManifest([EDIT], ssts) == none;
    ReplayOne(none, Entry(C1, 5), ssts);
    assert ReplayManifest([EDIT, Rewrite(OUT, C1)], ssts) == none;
    ReplayOne(none, Entry(C2, 5), ssts);
  }

  lemma OpenOne(st: Recovery.Opened, x: Entry, deleted: seq<Path>, ssts: map<Path, SstFile>)
    ensures Present(ssts, x.path) ==>
              Recovery.OpenEdit(st, Edit([x], deleted), ssts)
              == Recovery.Opened(Recovery.DropAll(Recovery.WithReader(st.files, x.path), deleted),
                                 RaiseMax(st.maxTs, x))
    ensures !Present(ssts, x.path) ==> Recovery.OpenEdit(st, Edit([x], deleted), ssts) == st
  {
    var st' := Recovery.Opened(Recovery.WithReader(st.files, x.path), RaiseMax(st.maxTs, x));
    assert [x][1..] == [] && Recovery.OpenAdds(st', [], ssts) == (st', true);
  }

  /** Dropping a path without a reader changes nothing. */
  lemma DropAbsent(files: map<Win, seq<Path>>, p: Path)
    requires p.win in files && p !in files[p.win]
    ensures Recovery.DropAll(files, [p]) == files
  {
    assert [p][..0] == [] && Recovery.DropAll(files, []) == files;
    Recovery.RemoveAbsent(files[p.win], p);
  }

  /** Open reads C1, returns early at the edit that deletes it, and reads it again. */
  lemma OpensTwice()
    ensures Recovery.OpenManifest(THREE_MERGES, map[C1 := Complete(ONE)]).files == map[0 := [C1, C1]]
  {
    var ssts := map[C1 := Complete(ONE)];
    var none, st := Recovery.Opened(map[], map[]), Recovery.Opened(map[0 := [C1]], map[0 := 5]);
    var a, b := [EDIT], [EDIT, Rewrite(OUT, C1)];
    assert THREE_MERGES[..3] == TWO_MERGES && TWO_MERGES[..2] == b && b[..1] == a && a[..0] == [];
    OpenOne(none, Entry(OUT, 5), [], ssts);
    assert Recovery.OpenManifest(a, ssts) == none;
    OpenOne(none, Entry(C1, 5), [OUT], ssts);
    DropAbsent(st.files, OUT);
    assert Recovery.ListOf(none.files, 0) + [C1] == [C1] && Recovery.ListOf(st.files, 0) + [C1] == [C1, C1];
    assert Recovery.WithReader(none.files, C1) == st.files && RaiseMax(none.maxTs, Entry(C1, 5)) == st.maxTs;
    assert Recovery.OpenManifest(b, ssts) == st;
    OpenOne(st, Entry(C2, 5), [C1], ssts);
    assert Recovery.OpenManifest(TWO_MERGES, ssts) == st;
    OpenOne(st, Entry(C1, 5), [C2], ssts);
    DropAbsent(map[0 := [C1, C1]], C2);
    assert Recovery.WithReader(st.files, C1) == map[0 := [C1, C1]];
  }

  /** Reusing the name of a dead merge output truncates nothing, but Open then holds the file twice: a scan reads
      FIRST, written once, from both readers, although the set of recovered files is right. */
  lemma ReusedNameOpensTwice() returns (t: Trace, s: State)
    ensures IsRun(D, t.states, t.labels) && NumberedRun(t.states, t.labels) && t.states[|t.labels|] == s
    ensures At(s.written, 0) == multiset{FIRST} && ReplayManifest(s.disk.manifest, s.disk.ssts).files == {C1}
    ensures s.disk.ssts == map[C1 := Complete(multiset{FIRST})]
    ensures Recovery.OpenManifest(s.disk.manifest, s.disk.ssts).files == map[0 := [C1, C1]]
  {
    t, s := MergedThrice();
    OpensTwice();
    ReplaysThree();
  }

  /** After a restart C2 is merged into C1 again. */
  lemma MergedThrice() returns (t: Trace, s: State)
    ensures Walks(t, s) && Holding(s, C1, THREE_MERGES) && At(s.written, 0) == multiset{FIRST}
  {
    t, s := MergedTwice();
    ReplaysTwo();
    t, s := Restart(t, s, C2, TWO_MERGES);
    t, s := MergeInto(t, s, C2, TWO_MERGES);
    assert TWO_MERGES + [Rewrite(C2, C1)] == THREE_MERGES;
  }

  /** Two merges of one session: OUT into C1, and C1 into C2. */
  lemma MergedTwice() returns (t: Trace, s: State)
    ensures Walks(t, s) && Holding(s, C2, TWO_MERGES) && s.disk.wals == map[2 := []] && NumbersUpTo(TWO_MERGES, 2)
    ensures At(s.written, 0) == multiset{FIRST}
  {
    t, s := MergedOnce();
    t, s := MergeInto(t, s, C1, [EDIT, Rewrite(OUT, C1)]);
    assert [EDIT, Rewrite(OUT, C1)] + [Rewrite(C1, C2)] == TWO_MERGES;
    NumbersMerge([EDIT, Rewrite(OUT, C1)], C1, C2, 2);
  }

  lemma ReplaysThree()
    ensures ReplayManifest(THREE_MERGES, map[C1 := Complete(ONE)]).files == {C1}
  {
    var ssts := map[C1 := Complete(ONE)];
    var none := Replayed({}, map[]);
    var a, b := [EDIT], [EDIT, Rewrite(OUT, C1)];
    assert THREE_MERGES[..3] == TWO_MERGES && TWO_MERGES[..2] == b && b[..1] == a && a[..0] == [];
    ReplayOne(none, Entry(OUT, 5), ssts);
    assert ReplayManifest(a, ssts) == none;
    ReplayOne(none, Entry(C1, 5), ssts);
    var one := Replayed({C1}, map[0 := 5]);
    assert ReplayManifest(b, ssts) == one;
    ReplayOne(one, Entry(C2, 5), ssts);
    assert ReplayManifest(TWO_MERGES, ssts) == one;
    ReplayOne(one, Entry(C1, 5), ssts);
  }
}
