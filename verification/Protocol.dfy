/** The storage protocol of internal/engine/engine.go and internal/compaction/merge.go as a step machine.

    A state is a disk (WAL segments, SSTable files, manifest edits) and, while the process runs, the
    engine's memory. Appenders, the flusher goroutine and the compactor goroutine interleave; each step is
    one lock-protected or one durable action of the source. A crash may come after any step, and Open
    itself is made of steps that a crash may interrupt. */
module Protocol {
  import opened Bytes
  import opened Records
  import opened Windows
  import opened Bags

  type Win = int

  /** "<start>-<seq>.sst" and "<start>-compact-<seq>.sst". */
  datatype Path = FlushPath(win: Win, number: nat) | CompactPath(win: Win, number: nat)

  datatype Entry = Entry(path: Path, maxTs: int)
  datatype Edit = Edit(added: seq<Entry>, deleted: seq<Path>)

  /** A file that Finish has not completed has no footer and NewReader refuses it. */
  datatype SstFile = Partial | Complete(content: Bag)

  datatype Disk = Disk(wals: map<nat, seq<Record>>, ssts: map<Path, SstFile>, manifest: seq<Edit>)

  // ---------------------------------------------------------------- recovery, as Open computes it

  predicate Present(ssts: map<Path, SstFile>, p: Path) {
    p in ssts && ssts[p].Complete?
  }

  /** What the manifest replay of Open builds: e.files (as a set of paths) and e.maxFlushedTS. */
  datatype Replayed = Replayed(files: set<Path>, maxTs: map<Win, int>)

  /** `if fe.MaxTimestamp > e.maxFlushedTS[win]`: a missing key reads as 0. */
  function RaiseMax(m: map<Win, int>, e: Entry): map<Win, int> {
    if e.maxTs > (if e.path.win in m then m[e.path.win] else 0) then m[e.path.win := e.maxTs] else m
  }

  /** The loop over AddedFiles; ok is false when a file fails to open and the callback returns early. */
  function ReplayAdds(st: Replayed, added: seq<Entry>, ssts: map<Path, SstFile>): (r: (Replayed, bool))
    decreases |added|
  {
    if added == [] then (st, true)
    else if !Present(ssts, added[0].path) then (st, false)
    else
      ReplayAdds(Replayed(st.files + {added[0].path}, RaiseMax(st.maxTs, added[0])), added[1..], ssts)
  }

  function ReplayEdit(st: Replayed, e: Edit, ssts: map<Path, SstFile>): Replayed {
    var (st', ok) := ReplayAdds(st, e.added, ssts);
    if ok then st'.(files := st'.files - (set p | p in e.deleted)) else st'
  }

  function ReplayManifest(manifest: seq<Edit>, ssts: map<Path, SstFile>): Replayed {
    if manifest == [] then Replayed({}, map[])
    else ReplayEdit(ReplayManifest(manifest[..|manifest| - 1], ssts), manifest[|manifest| - 1], ssts)
  }

  /** The window's start, which identifies the window (Windows.WindowKey). */
  function WinOf(d: Duration, r: Record): Win {
    WindowStart(r.ts, d)
  }

  /** `if maxTS, ok := e.maxFlushedTS[win]; ok && rec.Timestamp <= maxTS`: the record is skipped. */
  predicate Skipped(d: Duration, maxTs: map<Win, int>, r: Record) {
    WinOf(d, r) in maxTs && r.ts <= maxTs[WinOf(d, r)]
  }

  /** The records of window w that replaying segment s puts into the memtable. */
  function Unskipped(d: Duration, s: seq<Record>, w: Win, maxTs: map<Win, int>): Bag {
    if s == [] then multiset{} else
      var r := s[|s| - 1];
      Unskipped(d, s[..|s| - 1], w, maxTs)
      + if WinOf(d, r) == w && !Skipped(d, maxTs, r) then multiset{r} else multiset{}
  }

  function UnskippedBySegment(d: Duration, wals: map<nat, seq<Record>>, w: Win, maxTs: map<Win, int>): map<nat, Bag> {
    map i | i in wals :: Unskipped(d, wals[i], w, maxTs)
  }

  ghost function ReplayedWals(d: Duration, wals: map<nat, seq<Record>>, w: Win, maxTs: map<Win, int>): Bag {
    Sum(UnskippedBySegment(d, wals, w, maxTs))
  }

  function WindowsOf(d: Duration, wals: map<nat, seq<Record>>): set<Win> {
    set i, k | i in wals && 0 <= k < |wals[i]| :: WinOf(d, wals[i][k])
  }

  /** The memtables after the WAL replay of Open. */
  ghost function Rebuilt(d: Duration, wals: map<nat, seq<Record>>, maxTs: map<Win, int>): map<Win, Bag> {
    map w | w in WindowsOf(d, wals) :: ReplayedWals(d, wals, w, maxTs)
  }

  function Content(ssts: map<Path, SstFile>, p: Path): Bag {
    if Present(ssts, p) then ssts[p].content else multiset{}
  }

  function ContentByFile(files: set<Path>, ssts: map<Path, SstFile>, w: Win): map<Path, Bag> {
    map p | p in files && p.win == w :: Content(ssts, p)
  }

  ghost function FilesBag(files: set<Path>, ssts: map<Path, SstFile>, w: Win): Bag {
    Sum(ContentByFile(files, ssts, w))
  }

  /** What Open would hold for window w if the process died now: its readers and its memtable. */
  ghost function Recovered(d: Duration, disk: Disk, w: Win): Bag {
    var rp := ReplayManifest(disk.manifest, disk.ssts);
    FilesBag(rp.files, disk.ssts, w) + ReplayedWals(d, disk.wals, w, rp.maxTs)
  }

  // ---------------------------------------------------------------- memory

  datatype FlushPc = Taken | Rotated | Created | Swapped | Written | Published | Dropped
  /** flushPartition, by program point. snap is empty before Swapped, maxTs is meaningful from Written. */
  datatype Flush =
    | NoFlush
    | Flushing(pc: FlushPc, win: Win, oldSeg: nat, newSeg: nat, snap: Bag, maxTs: int)
  {
    function Out(): Path requires Flushing? { FlushPath(win, newSeg) }
  }

  datatype CompactPc = Picked | OutCreated | OutWritten | OutPublished
  /** The compactor goroutine: maybeCompact with compaction.Merge, or retireWindow. */
  datatype Compact =
    | NoCompact
    | Compacting(cpc: CompactPc, win: Win, inputs: seq<Path>, out: Path, bag: Bag, outMax: int, left: set<Path>)
    | Retiring(logged: bool, win: Win, expired: seq<Path>, remaining: set<Path>)

  /** mem: memtables; pend: appends between WAL write and memtable insert; files: open readers. */
  datatype Memory = Memory(
    mem: map<Win, Bag>, pend: map<Win, Bag>, files: map<Path, Bag>,
    walSeq: nat, active: nat, compactSeq: nat, flush: Flush, compact: Compact)

  datatype Mode = Down | Opening(replayed: Replayed, walSeq: nat) | Running(m: Memory)

  /** written: every record whose WAL frame is complete, less the retired ones. It is bookkeeping only. */
  datatype State = State(disk: Disk, mode: Mode, written: map<Win, Bag>)

  function Add(m: map<Win, Bag>, w: Win, b: Bag): map<Win, Bag> {
    m[w := At(m, w) + b]
  }

  function ReadersOf(files: map<Path, Bag>, w: Win): map<Path, Bag> {
    map p | p in files && p.win == w :: files[p]
  }

  ghost function ReaderBag(files: map<Path, Bag>, w: Win): Bag {
    Sum(ReadersOf(files, w))
  }

  function Selected(files: map<Path, Bag>, inputs: seq<Path>): map<Path, Bag> {
    map p | p in files && p in inputs :: files[p]
  }

  ghost function InputBag(files: map<Path, Bag>, inputs: seq<Path>): Bag {
    Sum(Selected(files, inputs))
  }

  ghost predicate IsMax(b: Bag, m: int) {
    (forall r :: r in b ==> r.ts <= m) && exists r :: r in b && r.ts == m
  }

  // ---------------------------------------------------------------- steps

  datatype Label =
    | LogAppend(r: Record) | InsertAppend(r: Record)
    | FlushTake(w: Win) | FlushRotate | FlushCreate | FlushSwap | FlushFinish(maxTs: int)
    | FlushDiscard | FlushPublish | FlushDropWal | FlushRegister
    | CompactPick(w: Win, inputs: seq<Path>) | CompactCreate | CompactFinish(maxTs: int)
    | CompactPublish | CompactRemove(p: Path) | CompactSwapIn
    | RetirePick(w: Win, inputs: seq<Path>) | RetirePublish | RetireRemove(p: Path) | RetireSwapOut
    | Crash | OpenReplay | RemoveOrphan(p: Path) | RemoveCoveredWal(i: nat) | OpenDone

  predicate FlushAt(s: State, pc: FlushPc) {
    s.mode.Running? && s.mode.m.flush.Flushing? && s.mode.m.flush.pc == pc
  }

  predicate CompactAt(s: State, pc: CompactPc) {
    s.mode.Running? && s.mode.m.compact.Compacting? && s.mode.m.compact.cpc == pc
  }

  predicate RetireAt(s: State, logged: bool) {
    s.mode.Running? && s.mode.m.compact.Retiring? && s.mode.m.compact.logged == logged
  }

  predicate NoDuplicates<T(==)>(s: seq<T>) {
    forall i, j :: 0 <= i < j < |s| ==> s[i] != s[j]
  }

  /** Which steps the program can take in s. */
  ghost predicate Enabled(d: Duration, s: State, l: Label) {
    match l
    case LogAppend(r) => s.mode.Running? && r.ts < MAX_INT64
    case InsertAppend(r) => s.mode.Running? && r in At(s.mode.m.pend, WinOf(d, r))
    case FlushTake(w) => s.mode.Running? && s.mode.m.flush.NoFlush?
    case FlushRotate => FlushAt(s, Taken)
    case FlushCreate => FlushAt(s, Rotated)
    case FlushSwap => FlushAt(s, Created)
    case FlushFinish(maxTs) =>
      FlushAt(s, Swapped) && (s.mode.m.flush.snap != multiset{} ==> IsMax(s.mode.m.flush.snap, maxTs))
    case FlushDiscard => FlushAt(s, Written) && s.mode.m.flush.snap == multiset{}
    case FlushPublish => FlushAt(s, Written) && s.mode.m.flush.snap != multiset{}
    case FlushDropWal => FlushAt(s, Published)
    case FlushRegister => FlushAt(s, Dropped)
    case CompactPick(w, inputs) =>
      s.mode.Running? && s.mode.m.compact.NoCompact? && inputs != [] && NoDuplicates(inputs)
      && forall p :: p in inputs <==> p in s.mode.m.files && p.win == w
    case CompactCreate => CompactAt(s, Picked)
    case CompactFinish(maxTs) =>
      CompactAt(s, OutCreated) && IsMax(InputBag(s.mode.m.files, s.mode.m.compact.inputs), maxTs)
    case CompactPublish => CompactAt(s, OutWritten)
    case CompactRemove(p) => CompactAt(s, OutPublished) && p in s.mode.m.compact.left
    case CompactSwapIn => CompactAt(s, OutPublished) && s.mode.m.compact.left == {}
    case RetirePick(w, inputs) =>
      s.mode.Running? && s.mode.m.compact.NoCompact? && inputs != [] && NoDuplicates(inputs)
      && forall p :: p in inputs ==> p in s.mode.m.files && p.win == w
    case RetirePublish => RetireAt(s, false)
    case RetireRemove(p) => RetireAt(s, true) && p in s.mode.m.compact.remaining
    case RetireSwapOut => RetireAt(s, true) && s.mode.m.compact.remaining == {}
    case Crash => true
    case OpenReplay => s.mode.Down?
    case RemoveOrphan(p) => s.mode.Opening? && p in s.disk.ssts && p !in s.mode.replayed.files
    case RemoveCoveredWal(i) => s.mode.Opening? && i in s.disk.wals && NoOrphans(s)
                                && forall r :: r in s.disk.wals[i] ==> Skipped(d, s.mode.replayed.maxTs, r)
    case OpenDone => s.mode.Opening? && NoOrphans(s)
                     && forall i :: i in s.disk.wals ==>
                          exists r :: r in s.disk.wals[i] && !Skipped(d, s.mode.replayed.maxTs, r)
  }

  predicate NoOrphans(s: State) {
    s.mode.Opening? && forall p :: p in s.disk.ssts ==> p in s.mode.replayed.files
  }

  function WithMemory(s: State, m: Memory): State {
    s.(mode := Running(m))
  }

  function WithDisk(s: State, k: Disk): State {
    s.(disk := k)
  }

  function AllPaths(inputs: seq<Path>): set<Path> {
    set p | p in inputs
  }

  /** A number no smaller than any segment on disk. */
  ghost function LastSegment(wals: map<nat, seq<Record>>): (n: nat)
    ensures forall i :: i in wals ==> i <= n
    ensures n in wals || (wals == map[] && n == 0)
    decreases |wals|
  {
    if wals == map[] then 0 else
      var i :| i in wals;
      assert |wals - {i}| < |wals| by { assert (wals - {i}).Keys == wals.Keys - {i}; }
      var n := LastSegment(wals - {i});
      assert forall j :: j in wals ==> j == i || j in wals - {i};
      assert n in wals || n == 0;
      if n < i then i else if n in wals then n else i
  }

  /** The state after step l. */
  ghost function Step(d: Duration, s: State, l: Label): State
    requires Enabled(d, s, l)
  {
    match l
    // Append: WAL frame, then memtable. A refused append never takes its second step.
    case LogAppend(r) =>
      var m := s.mode.m;
      State(s.disk.(wals :=
                      s.disk.wals[m.active := (if m.active in s.disk.wals then s.disk.wals[m.active] else []) + [r]]),
            Running(m.(pend := Add(m.pend, WinOf(d, r), multiset{r}))),
            Add(s.written, WinOf(d, r), multiset{r}))
    case InsertAppend(r) =>
      var m := s.mode.m;
      var w := WinOf(d, r);
      WithMemory(s, m.(pend := m.pend[w := At(m.pend, w) - multiset{r}], mem := Add(m.mem, w, multiset{r})))
    // flushPartition
    case FlushTake(w) =>
      var m := s.mode.m;
      WithMemory(s, m.(walSeq := m.walSeq + 1, flush := Flushing(Taken, w, m.walSeq, m.walSeq + 1, multiset{}, 0)))
    case FlushRotate =>
      var m := s.mode.m;
      var n := m.flush.newSeg;
      WithDisk(WithMemory(s, m.(active := n, flush := m.flush.(pc := Rotated))),
               s.disk.(wals := s.disk.wals[n := if n in s.disk.wals then s.disk.wals[n] else []]))
    case FlushCreate =>
      var m := s.mode.m;
      WithDisk(WithMemory(s, m.(flush := m.flush.(pc := Created))),
               s.disk.(ssts := s.disk.ssts[m.flush.Out() := Partial]))
    case FlushSwap =>
      var m := s.mode.m;
      var w := m.flush.win;
      WithMemory(s, m.(mem := m.mem[w := multiset{}], flush := m.flush.(pc := Swapped, snap := At(m.mem, w))))
    case FlushFinish(maxTs) =>
      var m := s.mode.m;
      WithDisk(WithMemory(s, m.(flush := m.flush.(pc := Written, maxTs := maxTs))),
               s.disk.(ssts := s.disk.ssts[m.flush.Out() := Complete(m.flush.snap)]))
    case FlushDiscard =>
      var m := s.mode.m;
      WithDisk(WithMemory(s, m.(flush := NoFlush)), s.disk.(ssts := s.disk.ssts - {m.flush.Out()}))
    case FlushPublish =>
      var m := s.mode.m;
      WithDisk(WithMemory(s, m.(flush := m.flush.(pc := Published))),
               s.disk.(manifest := s.disk.manifest + [Edit([Entry(m.flush.Out(), m.flush.maxTs)], [])]))
    case FlushDropWal =>
      var m := s.mode.m;
      WithDisk(WithMemory(s, m.(flush := m.flush.(pc := Dropped))), s.disk.(wals := s.disk.wals - {m.flush.oldSeg}))
    case FlushRegister =>
      var m := s.mode.m;
      WithMemory(s, m.(files := m.files[m.flush.Out() := Content(s.disk.ssts, m.flush.Out())], flush := NoFlush))
    // maybeCompact and compaction.Merge
    case CompactPick(w, inputs) =>
      var m := s.mode.m;
      WithMemory(s, m.(compactSeq := m.compactSeq + 1,
                       compact := Compacting(Picked, w, inputs, CompactPath(w, m.compactSeq + 1), multiset{}, 0, {})))
    case CompactCreate =>
      var m := s.mode.m;
      WithDisk(WithMemory(s, m.(compact := m.compact.(cpc := OutCreated))),
               s.disk.(ssts := s.disk.ssts[m.compact.out := Partial]))
    case CompactFinish(maxTs) =>
      var m := s.mode.m;
      var b := InputBag(m.files, m.compact.inputs);
      WithDisk(WithMemory(s, m.(compact := m.compact.(cpc := OutWritten, bag := b, outMax := maxTs))),
               s.disk.(ssts := s.disk.ssts[m.compact.out := Complete(b)]))
    case CompactPublish =>
      var m := s.mode.m;
      WithDisk(WithMemory(s, m.(compact := m.compact.(cpc := OutPublished, left := AllPaths(m.compact.inputs)))),
               s.disk.(manifest := s.disk.manifest
                       + [Edit([Entry(m.compact.out, m.compact.outMax)], m.compact.inputs)]))
    case CompactRemove(p) =>
      var m := s.mode.m;
      WithDisk(WithMemory(s, m.(compact := m.compact.(left := m.compact.left - {p}))),
               s.disk.(ssts := s.disk.ssts - {p}))
    case CompactSwapIn =>
      var m := s.mode.m;
      WithMemory(s, m.(files :=
                         (m.files - AllPaths(m.compact.inputs))[m.compact.out := Content(s.disk.ssts, m.compact.out)],
                       compact := NoCompact))
    // retireWindow
    case RetirePick(w, inputs) =>
      WithMemory(s, s.mode.m.(compact := Retiring(false, w, inputs, {})))
    case RetirePublish =>
      var m := s.mode.m;
      var w := m.compact.win;
      State(s.disk.(manifest := s.disk.manifest + [Edit([], m.compact.expired)]),
            Running(m.(compact := m.compact.(logged := true, remaining := AllPaths(m.compact.expired)))),
            s.written[w := At(s.written, w) - InputBag(m.files, m.compact.expired)])
    case RetireRemove(p) =>
      var m := s.mode.m;
      WithDisk(WithMemory(s, m.(compact := m.compact.(remaining := m.compact.remaining - {p}))),
               s.disk.(ssts := s.disk.ssts - {p}))
    case RetireSwapOut =>
      var m := s.mode.m;
      WithMemory(s, m.(files := m.files - AllPaths(m.compact.expired), compact := NoCompact))
    // process death, and Open
    case Crash => s.(mode := Down)
    case OpenReplay =>
      s.(mode := Opening(ReplayManifest(s.disk.manifest, s.disk.ssts), LastSegment(s.disk.wals)))
    case RemoveOrphan(p) => WithDisk(s, s.disk.(ssts := s.disk.ssts - {p}))
    case RemoveCoveredWal(i) => WithDisk(s, s.disk.(wals := s.disk.wals - {i}))
    case OpenDone =>
      var rp := s.mode.replayed;
      var n := s.mode.walSeq + 1;
      WithDisk(WithMemory(s, Memory(
                 Rebuilt(d, s.disk.wals, rp.maxTs), map[], map p | p in rp.files :: Content(s.disk.ssts, p),
                 n, n, 0, NoFlush, NoCompact)),
               s.disk.(wals := s.disk.wals[n := if n in s.disk.wals then s.disk.wals[n] else []]))
  }

  const INITIAL: State := State(Disk(map[], map[], []), Down, map[])

  /** The states of a run: states[0] is an empty directory and labels[k] leads from states[k] to states[k+1]. */
  ghost predicate IsRun(d: Duration, states: seq<State>, labels: seq<Label>) {
    |states| == |labels| + 1
    && states[0] == INITIAL
    && forall k :: 0 <= k < |labels| ==>
         Enabled(d, states[k], labels[k]) && states[k + 1] == Step(d, states[k], labels[k])
  }
}
