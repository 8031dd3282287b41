/** The structural invariant of the engine: what disk and memory satisfy in every reachable state, whatever was
    appended, as long as no merge output name is used twice and Open finds the newest segment numbers. */
module Structure {
  import opened Records
  import opened Windows
  import opened Bags
  import opened Protocol
  import opened DiskFacts

  /** A merge output is never created under a name the manifest already knows. */
  ghost predicate Fresh(d: Duration, s: State, l: Label)
    requires Enabled(d, s, l)
  {
    l.CompactCreate? ==> !Mentioned(s.disk.manifest, s.mode.m.compact.out)
  }

  /** No flush file of the manifest has a number above n. */
  ghost predicate NumbersUpTo(manifest: seq<Edit>, n: int) {
    forall p {:trigger Mentioned(manifest, p)} :: Mentioned(manifest, p) && p.FlushPath? ==> p.number <= n
  }

  /** Open takes its segment number from the WAL files it finds, and a flush takes its file name from that number: the
      newest segment on disk is numbered no lower than the flush files of the manifest. */
  ghost predicate Resumes(s: State, l: Label) {
    l.OpenReplay? ==> NumbersUpTo(s.disk.manifest, LastSegment(s.disk.wals))
  }

  // ---------------------------------------------------------------- the invariant

  /** Published files that e.files does not hold yet. */
  ghost function Hidden(m: Memory): set<Path> {
    (if m.flush.Flushing? && (m.flush.pc == Published || m.flush.pc == Dropped) then {m.flush.Out()} else {})
    + (if m.compact.Compacting? && m.compact.cpc == OutPublished then {m.compact.out} else {})
  }

  /** Deleted files that e.files still holds. */
  ghost function Lingering(c: Compact): set<Path> {
    if c.Compacting? && c.cpc == OutPublished then AllPaths(c.inputs)
    else if c.Retiring? && c.logged then AllPaths(c.expired)
    else {}
  }

  /** Deleted files that may still be on disk. */
  ghost function Leftover(c: Compact): set<Path> {
    match c
    case NoCompact => {}
    case Compacting(_, _, _, _, _, _, left) => left
    case Retiring(_, _, _, remaining) => remaining
  }

  ghost predicate SegmentsOk(k: Disk, m: Memory) {
    m.active in k.wals
    && (forall i :: i in k.wals ==> i <= m.active)
    && (if m.flush.Flushing? && m.flush.pc == Taken then m.active + 1 == m.walSeq else m.active == m.walSeq)
    && (m.flush.Flushing? ==> m.flush.newSeg == m.walSeq && m.flush.oldSeg + 1 == m.walSeq)
  }

  ghost predicate AllInWindow(d: Duration, bags: map<Win, Bag>) {
    forall w :: InWindow(d, At(bags, w), w)
  }

  /** Every memtable, every append in progress and the flush snapshot stay inside their window. */
  ghost predicate WindowsOk(d: Duration, m: Memory) {
    AllInWindow(d, m.mem) && AllInWindow(d, m.pend)
    && (m.flush.Flushing? ==> InWindow(d, m.flush.snap, m.flush.win))
  }

  ghost predicate FlushOk(k: Disk, m: Memory) {
    m.flush.Flushing? ==>
      var f := m.flush;
      (f.pc == Created || f.pc == Swapped || f.pc == Written ==> !Mentioned(k.manifest, f.Out()))
      && (f.pc == Written ==>
            f.Out() in k.ssts && k.ssts[f.Out()] == Complete(f.snap)
            && (f.snap != multiset{} ==> IsMax(f.snap, f.maxTs)))
      && (f.pc == Published || f.pc == Dropped ==> f.Out() in Live(k.manifest) && Content(k.ssts, f.Out()) == f.snap)
  }

  ghost predicate CompactOk(k: Disk, m: Memory) {
    match m.compact
    case NoCompact => true
    case Compacting(cpc, win, inputs, out, bag, outMax, left) =>
      out.CompactPath? && out.win == win && inputs != []
      && (forall p :: p in inputs ==> p in m.files && p.win == win)
      && (cpc == OutCreated || cpc == OutWritten ==> !Mentioned(k.manifest, out))
      && (cpc == OutWritten ==> out in k.ssts && k.ssts[out] == Complete(bag) && IsMax(bag, outMax))
      && (cpc == OutWritten || cpc == OutPublished ==> bag == InputBag(m.files, inputs))
      && (if cpc == OutPublished then
            out in Live(k.manifest) && Content(k.ssts, out) == bag && left <= AllPaths(inputs)
            && forall p :: p in inputs ==> Supersedes(k.manifest, Entry(out, outMax), p)
          else left == {})
    case Retiring(logged, win, expired, remaining) =>
      (forall p :: p in expired ==> p in m.files && p.win == win)
      && (if logged then remaining <= AllPaths(expired) && forall p :: p in expired ==> Deletes(k.manifest, p)
          else remaining == {})
  }

  ghost predicate FilesOk(k: Disk, m: Memory) {
    m.files.Keys == Live(k.manifest) - Hidden(m) + Lingering(m.compact)
    && (forall p :: p in m.files && p in Live(k.manifest) ==> m.files[p] == Content(k.ssts, p))
    && (forall p :: Deletes(k.manifest, p) && Present(k.ssts, p) ==> p in Leftover(m.compact))
  }

  ghost predicate MemoryOk(d: Duration, k: Disk, m: Memory) {
    SegmentsOk(k, m) && WindowsOk(d, m) && FlushOk(k, m) && CompactOk(k, m) && FilesOk(k, m)
  }

  /** Everything but the segment numbers. */
  ghost predicate Shape(d: Duration, s: State) {
    DiskOk(d, s.disk.manifest, s.disk.ssts)
    && match s.mode
       case Down => true
       case Opening(rp, n) => rp.files == Live(s.disk.manifest) && forall i :: i in s.disk.wals ==> i <= n
       case Running(m) => MemoryOk(d, s.disk, m)
  }

  /** The flush has a number that no file of the manifest has yet. */
  predicate Naming(f: Flush) {
    f.Flushing? && (f.pc == Taken || f.pc == Rotated || f.pc == Created || f.pc == Swapped || f.pc == Written)
  }

  /** Segment numbers run ahead of the flush files the manifest knows. */
  ghost predicate Numbered(s: State) {
    match s.mode
    case Down => true
    case Opening(rp, n) => NumbersUpTo(s.disk.manifest, n)
    case Running(m) => NumbersUpTo(s.disk.manifest, if Naming(m.flush) then m.walSeq - 1 else m.walSeq)
  }

  ghost predicate Inv(d: Duration, s: State) {
    Shape(d, s) && Numbered(s)
  }

  // ---------------------------------------------------------------- appends

  lemma AddInWindow(d: Duration, bags: map<Win, Bag>, r: Record)
    requires AllInWindow(d, bags)
    ensures AllInWindow(d, Add(bags, WinOf(d, r), multiset{r}))
  {
    var bags' := Add(bags, WinOf(d, r), multiset{r});
    forall w
      ensures InWindow(d, At(bags', w), w)
    {
      assert InWindow(d, At(bags, w), w);
    }
  }

  lemma PutInWindow(d: Duration, bags: map<Win, Bag>, w: Win, b: Bag)
    requires AllInWindow(d, bags) && b <= At(bags, w)
    ensures AllInWindow(d, bags[w := b])
  {
    var bags' := bags[w := b];
    forall v
      ensures InWindow(d, At(bags', v), v)
    {
      assert InWindow(d, At(bags, v), v);
      assert forall r :: r in b ==> b[r] <= At(bags, w)[r];
    }
  }

  lemma FilesUntouched(k: Disk, m: Memory, k': Disk, m': Memory)
    requires SegmentsOk(k, m) && FlushOk(k, m) && CompactOk(k, m) && FilesOk(k, m)
    requires k' == k.(wals := k'.wals) && k'.wals.Keys == k.wals.Keys
    requires m' == m.(mem := m'.mem, pend := m'.pend)
    ensures SegmentsOk(k', m') && FlushOk(k', m') && CompactOk(k', m') && FilesOk(k', m')
  {
    assert Hidden(m') == Hidden(m);
  }

  lemma LogAppendKeeps(d: Duration, k: Disk, m: Memory, r: Record, k': Disk, m': Memory)
    requires MemoryOk(d, k, m)
    requires k' == k.(wals := k'.wals) && k'.wals.Keys == k.wals.Keys
    requires m' == m.(pend := Add(m.pend, WinOf(d, r), multiset{r}))
    ensures MemoryOk(d, k', m')
  {
    FilesUntouched(k, m, k', m');
    AddInWindow(d, m.pend, r);
  }

  lemma InsertAppendKeeps(d: Duration, k: Disk, m: Memory, r: Record, m': Memory)
    requires MemoryOk(d, k, m)
    requires var w := WinOf(d, r);
             m' == m.(pend := m.pend[w := At(m.pend, w) - multiset{r}], mem := Add(m.mem, w, multiset{r}))
    ensures MemoryOk(d, k, m')
  {
    FilesUntouched(k, m, k, m');
    AddInWindow(d, m.mem, r);
    PutInWindow(d, m.pend, WinOf(d, r), At(m.pend, WinOf(d, r)) - multiset{r});
  }

  // ---------------------------------------------------------------- flush steps that touch no SSTable

  /** The program counter moves, the segments and the memtables may change, the files do not. */
  lemma FlushMovesKeeps(d: Duration, k: Disk, m: Memory, k': Disk, m': Memory)
    requires FlushOk(k, m) && CompactOk(k, m) && FilesOk(k, m)
    requires k' == k.(wals := k'.wals)
    requires m' == m.(mem := m'.mem, walSeq := m'.walSeq, active := m'.active, flush := m'.flush)
    requires m'.flush.Flushing?
    requires match m'.flush.pc
             case Taken => m.flush.NoFlush?
             case Rotated => m.flush.Flushing? && m.flush.pc == Taken
             case Swapped => m.flush.Flushing? && m.flush.pc == Created && m'.flush.Out() == m.flush.Out()
             case Dropped => m.flush.Flushing? && m.flush.pc == Published && m'.flush == m.flush.(pc := Dropped)
             case _ => false
    ensures FlushOk(k', m') && CompactOk(k', m') && FilesOk(k', m')
  {
    assert Hidden(m') == Hidden(m);
  }

  lemma FlushStepMoves(d: Duration, s: State, l: Label)
    requires Shape(d, s) && Enabled(d, s, l) && (l.FlushTake? || l.FlushRotate? || l.FlushSwap? || l.FlushDropWal?)
    ensures Shape(d, Step(d, s, l))
  {
    var s' := Step(d, s, l);
    FlushMovesKeeps(d, s.disk, s.mode.m, s'.disk, s'.mode.m);
    if l.FlushSwap? { PutInWindow(d, s.mode.m.mem, s.mode.m.flush.win, multiset{}); }
  }

  lemma LingeringDeleted(k: Disk, m: Memory)
    requires CompactOk(k, m)
    ensures forall p :: p in Lingering(m.compact) ==> Deletes(k.manifest, p)
  {
    if m.compact.Compacting? {
      forall p | p in Lingering(m.compact)
        ensures Deletes(k.manifest, p)
      {
        SupersedesBoth(k.manifest, Entry(m.compact.out, m.compact.outMax), p);
      }
    }
  }

  /** Registering another file does not change what the compactor reads. */
  lemma InputsUnchanged(files: map<Path, Bag>, files': map<Path, Bag>, inputs: seq<Path>)
    requires forall p :: p in inputs ==> p in files && p in files' && files[p] == files'[p]
    ensures InputBag(files', inputs) == InputBag(files, inputs)
  {
    assert Selected(files, inputs) == Selected(files', inputs);
  }

  lemma RegisterFiles(k: Disk, m: Memory, m': Memory)
    requires DeletedAreDead(k.manifest) && FilesOk(k, m)
    requires m.flush.Flushing? && m.flush.pc == Dropped && m.flush.Out() in Live(k.manifest)
    requires m.compact.Compacting? ==> m.compact.out.CompactPath?
    requires forall p :: p in Lingering(m.compact) ==> Deletes(k.manifest, p)
    requires m' == m.(files := m.files[m.flush.Out() := Content(k.ssts, m.flush.Out())], flush := NoFlush)
    ensures FilesOk(k, m') && m.flush.Out() !in m.files
  {
    assert Hidden(m) == Hidden(m') + {m.flush.Out()};
    assert m.flush.Out() !in Hidden(m');
  }

  lemma FlushRegisterKeeps(d: Duration, k: Disk, m: Memory, m': Memory)
    requires DeletedAreDead(k.manifest) && MemoryOk(d, k, m) && m.flush.Flushing? && m.flush.pc == Dropped
    requires m' == m.(files := m.files[m.flush.Out() := Content(k.ssts, m.flush.Out())], flush := NoFlush)
    ensures MemoryOk(d, k, m') && m.flush.Out() !in m.files
  {
    LingeringDeleted(k, m);
    RegisterFiles(k, m, m');
    if m.compact.Compacting? { InputsUnchanged(m.files, m'.files, m.compact.inputs); }
  }

  // ---------------------------------------------------------------- compactor steps that touch no file

  lemma PickKeeps(d: Duration, k: Disk, m: Memory, c: Compact, n: nat, m': Memory)
    requires MemoryOk(d, k, m) && m.compact.NoCompact?
    requires m' == m.(compactSeq := n, compact := c)
    requires match c
             case NoCompact => false
             case Compacting(cpc, w, inputs, out, _, _, left) =>
               cpc == Picked && inputs != [] && left == {} && out.CompactPath? && out.win == w
               && forall p :: p in inputs ==> p in m.files && p.win == w
             case Retiring(logged, w, inputs, remaining) =>
               !logged && remaining == {} && forall p :: p in inputs ==> p in m.files && p.win == w
    ensures MemoryOk(d, k, m')
  {
    assert Hidden(m') == Hidden(m) && Lingering(m'.compact) == {} && Leftover(m'.compact) == {};
  }

  lemma SwapInFiles(k: Disk, m: Memory, m': Memory)
    requires DeletedAreDead(k.manifest) && FilesOk(k, m)
    requires m.compact.Compacting? && m.compact.cpc == OutPublished && m.compact.left == {}
             && m.compact.out.CompactPath?
    requires m.compact.out in Live(k.manifest)
    requires forall p :: p in Lingering(m.compact) ==> Deletes(k.manifest, p)
    requires m' == m.(files := (m.files - AllPaths(m.compact.inputs))[m.compact.out := Content(k.ssts, m.compact.out)],
                      compact := NoCompact)
    ensures FilesOk(k, m') && m.compact.out !in m.files
  {
    assert Hidden(m) == Hidden(m') + {m.compact.out};
    assert m.compact.out !in Hidden(m');
    assert m'.files.Keys == m.files.Keys - Lingering(m.compact) + {m.compact.out};
  }

  lemma SwapInKeeps(d: Duration, k: Disk, m: Memory, m': Memory)
    requires DeletedAreDead(k.manifest) && MemoryOk(d, k, m)
    requires m.compact.Compacting? && m.compact.cpc == OutPublished && m.compact.left == {}
    requires m' == m.(files := (m.files - AllPaths(m.compact.inputs))[m.compact.out := Content(k.ssts, m.compact.out)],
                      compact := NoCompact)
    ensures MemoryOk(d, k, m') && m.compact.out !in m.files
  {
    LingeringDeleted(k, m);
    SwapInFiles(k, m, m');
  }

  lemma SwapOutKeeps(d: Duration, k: Disk, m: Memory, m': Memory)
    requires DeletedAreDead(k.manifest) && MemoryOk(d, k, m)
    requires m.compact.Retiring? && m.compact.logged && m.compact.remaining == {}
    requires m' == m.(files := m.files - AllPaths(m.compact.expired), compact := NoCompact)
    ensures MemoryOk(d, k, m')
  {
    LingeringDeleted(k, m);
    assert Hidden(m) == Hidden(m');
    assert m'.files.Keys == m.files.Keys - Lingering(m.compact);
  }

  // ---------------------------------------------------------------- writing a file no edit mentions yet

  /** What the invariant says of other files survives. */
  lemma OtherFilesKeep(k: Disk, m: Memory, k': Disk, out: Path)
    requires DeletedAreDead(k.manifest) && FilesOk(k, m) && out !in Live(k.manifest) && !Mentioned(k.manifest, out)
    requires k' == k.(ssts := k'.ssts) && SameExcept(k.ssts, k'.ssts, out)
    ensures FilesOk(k', m)
    ensures CompactOk(k, m) && (m.compact.Compacting? ==> m.compact.out != out) ==> CompactOk(k', m)
    ensures FlushOk(k, m) && (m.flush.Flushing? ==> m.flush.Out() != out) ==> FlushOk(k', m)
  {
    assert forall p :: p != out ==> Content(k'.ssts, p) == Content(k.ssts, p);
  }

  lemma FlushFileKeeps(d: Duration, k: Disk, m: Memory, k': Disk, m': Memory)
    requires DiskOk(d, k.manifest, k.ssts) && MemoryOk(d, k, m) && m.flush.Flushing?
    requires !Mentioned(k.manifest, m.flush.Out())
    requires k' == k.(ssts := k'.ssts) && SameExcept(k.ssts, k'.ssts, m.flush.Out())
    requires m' == m.(flush := m'.flush) && FlushOk(k', m')
    requires m.flush.pc == Rotated || m.flush.pc == Swapped || m.flush.pc == Written
    requires m'.flush.NoFlush? || (m'.flush == m.flush.(pc := m'.flush.pc, maxTs := m'.flush.maxTs)
                                   && (m'.flush.pc == Created || m'.flush.pc == Written))
    ensures DiskOk(d, k'.manifest, k'.ssts) && MemoryOk(d, k', m')
  {
    UnmentionedFile(d, k.manifest, k.ssts, k'.ssts, m.flush.Out());
    OtherFilesKeep(k, m, k', m.flush.Out());
    assert Hidden(m') == Hidden(m);
  }

  lemma CompactFileKeeps(d: Duration, k: Disk, m: Memory, k': Disk, m': Memory)
    requires DiskOk(d, k.manifest, k.ssts) && MemoryOk(d, k, m) && m.compact.Compacting?
    requires !Mentioned(k.manifest, m.compact.out)
    requires k' == k.(ssts := k'.ssts) && SameExcept(k.ssts, k'.ssts, m.compact.out)
    requires m' == m.(compact := m'.compact) && CompactOk(k', m')
    requires m'.compact.Compacting? && m'.compact.left == {} == m.compact.left
    requires m.compact.cpc != OutPublished && m'.compact.cpc != OutPublished
    ensures DiskOk(d, k'.manifest, k'.ssts) && MemoryOk(d, k', m')
  {
    UnmentionedFile(d, k.manifest, k.ssts, k'.ssts, m.compact.out);
    OtherFilesKeep(k, m, k', m.compact.out);
    assert Hidden(m') == Hidden(m);
    assert Lingering(m'.compact) == Lingering(m.compact) == {};
  }

  /** The name of a flush in progress is not in the manifest. */
  lemma FlushNameIsNew(d: Duration, s: State)
    requires Inv(d, s) && s.mode.Running? && Naming(s.mode.m.flush)
    ensures !Mentioned(s.disk.manifest, s.mode.m.flush.Out())
  {
    assert s.mode.m.flush.Out().number == s.mode.m.walSeq;
  }

  lemma FlushWritesKeeps(d: Duration, s: State, l: Label)
    requires Inv(d, s) && Enabled(d, s, l) && (l.FlushCreate? || l.FlushFinish? || l.FlushDiscard?)
    ensures Shape(d, Step(d, s, l)) && !Mentioned(s.disk.manifest, s.mode.m.flush.Out())
  {
    var s' := Step(d, s, l);
    FlushNameIsNew(d, s);
    FlushFileKeeps(d, s.disk, s.mode.m, s'.disk, s'.mode.m);
  }

  lemma CompactWritesKeeps(d: Duration, s: State, l: Label)
    requires Shape(d, s) && Enabled(d, s, l) && Fresh(d, s, l) && (l.CompactCreate? || l.CompactFinish?)
    ensures Shape(d, Step(d, s, l)) && !Mentioned(s.disk.manifest, s.mode.m.compact.out)
  {
    var s' := Step(d, s, l);
    CompactFileKeeps(d, s.disk, s.mode.m, s'.disk, s'.mode.m);
  }

  // ---------------------------------------------------------------- appending to the manifest

  /** Appending an edit only adds facts about the manifest. */
  lemma ManifestGrows(manifest: seq<Edit>, e: Edit)
    ensures forall p :: Deletes(manifest + [e], p) <==> Deletes(manifest, p) || p in e.deleted
    ensures forall x, p :: Supersedes(manifest + [e], x, p) <==>
                           Supersedes(manifest, x, p) || (x in e.added && p in e.deleted)
    ensures forall p :: Mentioned(manifest + [e], p) <==> Mentioned(manifest, p) || p in AddedPaths(e)
  {
    var all := manifest + [e];
    Appended(manifest, e);
    forall p
      ensures Mentioned(all, p) <==> Mentioned(manifest, p) || p in AddedPaths(e)
    {
      if x :| Adds(manifest, x) && x.path == p { assert Adds(all, x); }
      if p in AddedPaths(e) {
        var x :| x in e.added && x.path == p;
        assert Adds(all, x);
      }
      if x :| Adds(all, x) && x.path == p { assert x in e.added || Adds(manifest, x); }
    }
  }

  ghost function FlushEntry(f: Flush): Entry
    requires f.Flushing?
  {
    Entry(f.Out(), f.maxTs)
  }

  lemma FlushPublishDisk(d: Duration, k: Disk, m: Memory, k': Disk)
    requires DiskOk(d, k.manifest, k.ssts) && WindowsOk(d, m) && FlushOk(k, m)
    requires m.flush.Flushing? && m.flush.pc == Written && m.flush.snap != multiset{}
    requires k' == k.(manifest := k.manifest + [Edit([FlushEntry(m.flush)], [])])
    ensures DiskOk(d, k'.manifest, k'.ssts)
    ensures m.flush.Out() !in Live(k.manifest) && Live(k'.manifest) == Live(k.manifest) + {m.flush.Out()}
  {
    var f := m.flush;
    var e := Edit([FlushEntry(f)], []);
    UnmentionedFile(d, k.manifest, k.ssts, k.ssts, f.Out());
    assert LiveFile(d, k.ssts, f.Out());
    PublishKeepsDiskOk(d, k.manifest, k.ssts, e);
    assert AddedPaths(e) == {f.Out()};
  }

  lemma FlushPublishFiles(k: Disk, m: Memory, k': Disk, m': Memory)
    requires DeletedAreDead(k.manifest) && FlushOk(k, m) && CompactOk(k, m) && FilesOk(k, m)
    requires m.flush.Flushing? && m.flush.pc == Written
    requires m.flush.Out() !in Live(k.manifest) && Live(k'.manifest) == Live(k.manifest) + {m.flush.Out()}
    requires k' == k.(manifest := k.manifest + [Edit([FlushEntry(m.flush)], [])])
    requires m' == m.(flush := m.flush.(pc := Published))
    ensures FlushOk(k', m') && CompactOk(k', m') && FilesOk(k', m')
  {
    ManifestGrows(k.manifest, Edit([FlushEntry(m.flush)], []));
    LingeringDeleted(k, m);
    assert Hidden(m') == Hidden(m) + {m.flush.Out()};
    assert forall p :: p in Lingering(m.compact) ==> Mentioned(k.manifest, p);
  }

  lemma FlushPublishKeeps(d: Duration, s: State)
    requires Shape(d, s) && Enabled(d, s, FlushPublish)
    ensures Shape(d, Step(d, s, FlushPublish))
  {
    var s' := Step(d, s, FlushPublish);
    FlushPublishDisk(d, s.disk, s.mode.m, s'.disk);
    FlushPublishFiles(s.disk, s.mode.m, s'.disk, s'.mode.m);
  }

  lemma InputsAreLive(k: Disk, m: Memory, inputs: seq<Path>)
    requires FilesOk(k, m) && Lingering(m.compact) == {}
    requires forall p :: p in inputs ==> p in m.files
    ensures forall p :: p in inputs ==> p in Live(k.manifest) && p !in Hidden(m) && m.files[p] == Content(k.ssts, p)
  {}

  /** A merged file holds each of its inputs ... */
  lemma MergedHoldsInput(files: map<Path, Bag>, inputs: seq<Path>, p: Path)
    requires p in inputs && p in files
    ensures files[p] <= InputBag(files, inputs)
  {
    SumRemove(Selected(files, inputs), p);
  }

  /** ... and no record that none of them holds. */
  lemma HolderOf(files: map<Path, Bag>, inputs: seq<Path>, r: Record) returns (p: Path)
    requires r in InputBag(files, inputs)
    ensures p in inputs && p in files && r in files[p]
  {
    SumMember(Selected(files, inputs), r);
    p :| p in Selected(files, inputs) && r in Selected(files, inputs)[p];
  }

  lemma MergedInWindow(d: Duration, k: Disk, m: Memory)
    requires LiveFilesGood(d, k.manifest, k.ssts) && CompactOk(k, m) && FilesOk(k, m)
    requires m.compact.Compacting? && m.compact.cpc == OutWritten
    ensures InWindow(d, m.compact.bag, m.compact.win)
  {
    InputsAreLive(k, m, m.compact.inputs);
    forall r | r in m.compact.bag
      ensures WinOf(d, r) == m.compact.win
    {
      var p := HolderOf(m.files, m.compact.inputs, r);
      assert LiveFile(d, k.ssts, p);
    }
  }

  ghost function MergeEdit(c: Compact): Edit
    requires c.Compacting?
  {
    Edit([Entry(c.out, c.outMax)], c.inputs)
  }

  lemma MergePublishable(d: Duration, k: Disk, m: Memory)
    requires LiveFilesGood(d, k.manifest, k.ssts) && CompactOk(k, m) && FilesOk(k, m)
    requires m.compact.Compacting? && m.compact.cpc == OutWritten
    ensures Publishable(d, k.manifest, k.ssts, MergeEdit(m.compact))
  {
    var c := m.compact;
    MergedInWindow(d, k, m);
    InputsAreLive(k, m, c.inputs);
    forall p | p in c.inputs
      ensures p.win == c.out.win && Content(k.ssts, p) <= Content(k.ssts, c.out)
    {
      MergedHoldsInput(m.files, c.inputs, p);
    }
  }

  lemma CompactPublishDisk(d: Duration, k: Disk, m: Memory, k': Disk)
    requires DiskOk(d, k.manifest, k.ssts) && CompactOk(k, m) && FilesOk(k, m)
    requires m.compact.Compacting? && m.compact.cpc == OutWritten
    requires k' == k.(manifest := k.manifest + [MergeEdit(m.compact)])
    ensures DiskOk(d, k'.manifest, k'.ssts)
    ensures m.compact.out !in Live(k.manifest)
    ensures Live(k'.manifest) == Live(k.manifest) + {m.compact.out} - AllPaths(m.compact.inputs)
  {
    MergePublishable(d, k, m);
    OneAddedPath(m.compact);
    PublishKeepsDiskOk(d, k.manifest, k.ssts, MergeEdit(m.compact));
    NewIsNotLive(k, m);
  }

  lemma OneAddedPath(c: Compact)
    requires c.Compacting?
    ensures AddedPaths(MergeEdit(c)) == {c.out} && DeletedPaths(MergeEdit(c)) == AllPaths(c.inputs)
  {}

  lemma NewIsNotLive(k: Disk, m: Memory)
    requires CompactOk(k, m) && m.compact.Compacting? && m.compact.cpc == OutWritten
    ensures m.compact.out !in Live(k.manifest)
  {
    if m.compact.out in Live(k.manifest) { LiveIsMentioned(k.manifest, m.compact.out); }
  }

  /** What publishing a merge requires and changes. */
  ghost predicate MergePublished(k: Disk, m: Memory, k': Disk, m': Memory) {
    m.compact.Compacting? && m.compact.cpc == OutWritten && m.compact.out !in Live(k.manifest)
    && Live(k'.manifest) == Live(k.manifest) + {m.compact.out} - AllPaths(m.compact.inputs)
    && k' == k.(manifest := k.manifest + [MergeEdit(m.compact)])
    && m' == m.(compact := m.compact.(cpc := OutPublished, left := AllPaths(m.compact.inputs)))
  }

  lemma CompactPublishFlush(k: Disk, m: Memory, k': Disk, m': Memory)
    requires FlushOk(k, m) && CompactOk(k, m) && FilesOk(k, m) && MergePublished(k, m, k', m')
    ensures FlushOk(k', m')
  {
    var c := m.compact;
    ManifestGrows(k.manifest, MergeEdit(c));
    assert AddedPaths(MergeEdit(c)) == {c.out};
    assert forall p :: p in c.inputs ==> p in m.files;
  }

  lemma CompactPublishMerge(k: Disk, m: Memory, k': Disk, m': Memory)
    requires CompactOk(k, m) && FilesOk(k, m) && MergePublished(k, m, k', m')
    ensures CompactOk(k', m')
  {
    var c := m.compact;
    ManifestGrows(k.manifest, MergeEdit(c));
    InputsAreLive(k, m, c.inputs);
    assert c.out !in AllPaths(c.inputs);
    assert Entry(c.out, c.outMax) in MergeEdit(c).added;
  }

  lemma CompactPublishFiles(k: Disk, m: Memory, k': Disk, m': Memory)
    requires CompactOk(k, m) && FilesOk(k, m) && MergePublished(k, m, k', m')
    ensures FilesOk(k', m')
  {
    var c := m.compact;
    ManifestGrows(k.manifest, MergeEdit(c));
    InputsAreLive(k, m, c.inputs);
    assert Hidden(m') == Hidden(m) + {c.out};
  }

  lemma CompactPublishKeeps(d: Duration, s: State)
    requires Shape(d, s) && Enabled(d, s, CompactPublish)
    ensures Shape(d, Step(d, s, CompactPublish))
  {
    var s' := Step(d, s, CompactPublish);
    CompactPublishDisk(d, s.disk, s.mode.m, s'.disk);
    CompactPublishFlush(s.disk, s.mode.m, s'.disk, s'.mode.m);
    CompactPublishMerge(s.disk, s.mode.m, s'.disk, s'.mode.m);
    CompactPublishFiles(s.disk, s.mode.m, s'.disk, s'.mode.m);
  }

  lemma RetirePublishDisk(d: Duration, k: Disk, m: Memory, k': Disk)
    requires DiskOk(d, k.manifest, k.ssts) && CompactOk(k, m) && FilesOk(k, m) && m.compact.Retiring?
             && !m.compact.logged
    requires k' == k.(manifest := k.manifest + [Edit([], m.compact.expired)])
    ensures DiskOk(d, k'.manifest, k'.ssts)
    ensures Live(k'.manifest) == Live(k.manifest) - AllPaths(m.compact.expired)
  {
    InputsAreLive(k, m, m.compact.expired);
    PublishKeepsDiskOk(d, k.manifest, k.ssts, Edit([], m.compact.expired));
    assert AddedPaths(Edit([], m.compact.expired)) == {};
  }

  lemma RetirePublishFiles(k: Disk, m: Memory, k': Disk, m': Memory)
    requires FlushOk(k, m) && CompactOk(k, m) && FilesOk(k, m)
    requires m.compact.Retiring? && !m.compact.logged
    requires Live(k'.manifest) == Live(k.manifest) - AllPaths(m.compact.expired)
    requires k' == k.(manifest := k.manifest + [Edit([], m.compact.expired)])
    requires m' == m.(compact := m.compact.(logged := true, remaining := AllPaths(m.compact.expired)))
    ensures FlushOk(k', m') && CompactOk(k', m') && FilesOk(k', m')
  {
    ManifestGrows(k.manifest, Edit([], m.compact.expired));
    assert AddedPaths(Edit([], m.compact.expired)) == {};
    InputsAreLive(k, m, m.compact.expired);
    assert Hidden(m') == Hidden(m);
  }

  lemma RetirePublishKeeps(d: Duration, s: State)
    requires Shape(d, s) && Enabled(d, s, RetirePublish)
    ensures Shape(d, Step(d, s, RetirePublish))
  {
    var s' := Step(d, s, RetirePublish);
    RetirePublishDisk(d, s.disk, s.mode.m, s'.disk);
    RetirePublishFiles(s.disk, s.mode.m, s'.disk, s'.mode.m);
  }

  // ---------------------------------------------------------------- deleting files

  lemma RemoveFiles(k: Disk, m: Memory, p: Path, k': Disk, m': Memory)
    requires FlushOk(k, m) && CompactOk(k, m) && FilesOk(k, m)
    requires p !in Live(k.manifest) && Mentioned(k.manifest, p)
    requires k' == k.(ssts := k.ssts - {p})
    requires match m.compact
             case NoCompact => false
             case Compacting(cpc, _, _, _, _, _, left) =>
               cpc == OutPublished && m' == m.(compact := m.compact.(left := left - {p}))
             case Retiring(logged, _, _, remaining) =>
               logged && m' == m.(compact := m.compact.(remaining := remaining - {p}))
    ensures FlushOk(k', m') && CompactOk(k', m') && FilesOk(k', m')
  {
    assert Hidden(m') == Hidden(m) && Lingering(m'.compact) == Lingering(m.compact);
    assert forall q :: q != p ==> Content(k'.ssts, q) == Content(k.ssts, q);
  }

  lemma RemoveKeeps(d: Duration, s: State, p: Path, l: Label)
    requires Shape(d, s) && (l == CompactRemove(p) || l == RetireRemove(p)) && Enabled(d, s, l)
    ensures Shape(d, Step(d, s, l)) && Deletes(s.disk.manifest, p) && p !in Live(s.disk.manifest)
  {
    var s' := Step(d, s, l);
    LingeringDeleted(s.disk, s.mode.m);
    RemoveDead(d, s.disk.manifest, s.disk.ssts, p);
    RemoveFiles(s.disk, s.mode.m, p, s'.disk, s'.mode.m);
  }

  // ---------------------------------------------------------------- Open

  lemma {:induction false} UnskippedInWindow(d: Duration, s: seq<Record>, w: Win, maxTs: map<Win, int>)
    ensures InWindow(d, Unskipped(d, s, w, maxTs), w)
  {
    if s != [] {
      UnskippedInWindow(d, s[..|s| - 1], w, maxTs);
    }
  }

  lemma ReplayedInWindow(d: Duration, wals: map<nat, seq<Record>>, w: Win, maxTs: map<Win, int>)
    ensures InWindow(d, ReplayedWals(d, wals, w, maxTs), w)
  {
    var a := UnskippedBySegment(d, wals, w, maxTs);
    forall r | r in ReplayedWals(d, wals, w, maxTs)
      ensures WinOf(d, r) == w
    {
      SumMember(a, r);
      var i :| i in a && r in a[i];
      UnskippedInWindow(d, wals[i], w, maxTs);
    }
  }

  lemma RebuiltInWindow(d: Duration, wals: map<nat, seq<Record>>, maxTs: map<Win, int>)
    ensures AllInWindow(d, Rebuilt(d, wals, maxTs))
  {
    forall w
      ensures InWindow(d, At(Rebuilt(d, wals, maxTs), w), w)
    {
      ReplayedInWindow(d, wals, w, maxTs);
    }
  }

  lemma OpenedFiles(k: Disk, files: set<Path>, m: Memory)
    requires DeletedAreDead(k.manifest) && files == Live(k.manifest) && forall p :: p in k.ssts ==> p in files
    requires m.files == (map p | p in files :: Content(k.ssts, p)) && m.flush.NoFlush? && m.compact.NoCompact?
    ensures FilesOk(k, m)
  {
    assert Hidden(m) == {} && Lingering(m.compact) == {};
  }

  lemma OpenDoneKeeps(d: Duration, s: State)
    requires Shape(d, s) && Enabled(d, s, OpenDone)
    ensures Shape(d, Step(d, s, OpenDone))
  {
    var s' := Step(d, s, OpenDone);
    var m := s'.mode.m;
    RebuiltInWindow(d, s.disk.wals, s.mode.replayed.maxTs);
    OpenedFiles(s'.disk, s.mode.replayed.files, m);
  }

  // ---------------------------------------------------------------- every step

  lemma OpenStepKeeps(d: Duration, s: State, l: Label)
    requires Shape(d, s) && Enabled(d, s, l) && !s.mode.Running?
    ensures Shape(d, Step(d, s, l))
  {
    match l
    case Crash =>
    case OpenReplay => RecoveredFilesAreLive(d, s.disk.manifest, s.disk.ssts);
    case RemoveOrphan(p) => RemoveDead(d, s.disk.manifest, s.disk.ssts, p);
    case RemoveCoveredWal(i) =>
    case OpenDone => OpenDoneKeeps(d, s);
  }

  lemma AppendStepKeeps(d: Duration, s: State, l: Label)
    requires Shape(d, s) && Enabled(d, s, l) && (l.LogAppend? || l.InsertAppend?)
    ensures Shape(d, Step(d, s, l))
  {
    match l
    case LogAppend(r) => LogAppendKeeps(d, s.disk, s.mode.m, r, Step(d, s, l).disk, Step(d, s, l).mode.m);
    case InsertAppend(r) => InsertAppendKeeps(d, s.disk, s.mode.m, r, Step(d, s, l).mode.m);
  }

  predicate IsFlushStep(l: Label) {
    l.FlushTake? || l.FlushRotate? || l.FlushCreate? || l.FlushSwap? || l.FlushFinish? || l.FlushDiscard?
    || l.FlushPublish? || l.FlushDropWal? || l.FlushRegister?
  }

  predicate IsCompactStep(l: Label) {
    l.CompactPick? || l.CompactCreate? || l.CompactFinish? || l.CompactPublish? || l.CompactRemove?
    || l.CompactSwapIn? || l.RetirePick? || l.RetirePublish? || l.RetireRemove? || l.RetireSwapOut?
  }

  lemma FlushStepKeeps(d: Duration, s: State, l: Label)
    requires Inv(d, s) && Enabled(d, s, l) && IsFlushStep(l)
    ensures Shape(d, Step(d, s, l))
  {
    if l.FlushPublish? {
      FlushPublishKeeps(d, s);
    } else if l.FlushRegister? {
      FlushRegisterKeeps(d, s.disk, s.mode.m, Step(d, s, l).mode.m);
    } else if l.FlushCreate? || l.FlushFinish? || l.FlushDiscard? {
      FlushWritesKeeps(d, s, l);
    } else {
      FlushStepMoves(d, s, l);
    }
  }

  lemma CompactStepKeeps(d: Duration, s: State, l: Label)
    requires Shape(d, s) && Enabled(d, s, l) && Fresh(d, s, l) && IsCompactStep(l)
    ensures Shape(d, Step(d, s, l))
  {
    match l
    case CompactPick(w, inputs) =>
      PickKeeps(d, s.disk, s.mode.m, Step(d, s, l).mode.m.compact, s.mode.m.compactSeq + 1, Step(d, s, l).mode.m);
    case RetirePick(w, inputs) =>
      PickKeeps(d, s.disk, s.mode.m, Step(d, s, l).mode.m.compact, s.mode.m.compactSeq, Step(d, s, l).mode.m);
    case CompactCreate => CompactWritesKeeps(d, s, l);
    case CompactFinish(_) => CompactWritesKeeps(d, s, l);
    case CompactPublish => CompactPublishKeeps(d, s);
    case RetirePublish => RetirePublishKeeps(d, s);
    case CompactRemove(p) => RemoveKeeps(d, s, p, l);
    case RetireRemove(p) => RemoveKeeps(d, s, p, l);
    case CompactSwapIn => SwapInKeeps(d, s.disk, s.mode.m, Step(d, s, l).mode.m);
    case RetireSwapOut => SwapOutKeeps(d, s.disk, s.mode.m, Step(d, s, l).mode.m);
  }

  // ---------------------------------------------------------------- segment numbers

  lemma NumbersGrow(manifest: seq<Edit>, e: Edit, n: int)
    requires NumbersUpTo(manifest, n) && forall x :: x in e.added && x.path.FlushPath? ==> x.path.number <= n
    ensures NumbersUpTo(manifest + [e], n)
  {
    ManifestGrows(manifest, e);
  }

  lemma PublishNumbers(d: Duration, s: State, l: Label)
    requires Inv(d, s) && Enabled(d, s, l) && (l.FlushPublish? || l.CompactPublish? || l.RetirePublish?)
    ensures Numbered(Step(d, s, l))
  {
    var m := s.mode.m;
    match l
    case FlushPublish => NumbersGrow(s.disk.manifest, Edit([FlushEntry(m.flush)], []), m.walSeq);
    case CompactPublish =>
      NumbersGrow(s.disk.manifest, MergeEdit(m.compact), if Naming(m.flush) then m.walSeq - 1 else m.walSeq);
    case RetirePublish =>
      NumbersGrow(s.disk.manifest, Edit([], m.compact.expired), if Naming(m.flush) then m.walSeq - 1 else m.walSeq);
  }

  lemma StepNumbers(d: Duration, s: State, l: Label)
    requires Inv(d, s) && Enabled(d, s, l) && Resumes(s, l)
    ensures Numbered(Step(d, s, l))
  {
    if l.FlushPublish? || l.CompactPublish? || l.RetirePublish? {
      PublishNumbers(d, s, l);
    } else {
      assert Step(d, s, l).disk.manifest == s.disk.manifest;
    }
  }

  // ---------------------------------------------------------------- every step

  lemma StepShape(d: Duration, s: State, l: Label)
    requires Inv(d, s) && Enabled(d, s, l) && Fresh(d, s, l)
    ensures Shape(d, Step(d, s, l))
  {
    if IsFlushStep(l) {
      FlushStepKeeps(d, s, l);
    } else if IsCompactStep(l) {
      CompactStepKeeps(d, s, l);
    } else if l.LogAppend? || l.InsertAppend? {
      AppendStepKeeps(d, s, l);
    } else if !l.Crash? {
      OpenStepKeeps(d, s, l);
    }
  }

  /** Every step keeps the structural invariant. */
  lemma StepKeeps(d: Duration, s: State, l: Label)
    requires Inv(d, s) && Enabled(d, s, l) && Fresh(d, s, l) && Resumes(s, l)
    ensures Inv(d, Step(d, s, l))
  {
    StepShape(d, s, l);
    StepNumbers(d, s, l);
  }

  ghost predicate FreshRun(d: Duration, states: seq<State>, labels: seq<Label>)
    requires IsRun(d, states, labels)
  {
    forall k :: 0 <= k < |labels| ==> Fresh(d, states[k], labels[k])
  }

  /** No Open of the run finds its newest segment numbered below a flush file of the manifest. */
  ghost predicate NumberedRun(states: seq<State>, labels: seq<Label>) {
    |states| == |labels| + 1 && forall k {:trigger labels[k]} :: 0 <= k < |labels| ==> Resumes(states[k], labels[k])
  }

  lemma {:induction false} Reachable(d: Duration, states: seq<State>, labels: seq<Label>, n: nat)
    requires IsRun(d, states, labels) && FreshRun(d, states, labels) && NumberedRun(states, labels) && n <= |labels|
    ensures Inv(d, states[n])
  {
    if n > 0 {
      Reachable(d, states, labels, n - 1);
      StepKeeps(d, states[n - 1], labels[n - 1]);
    }
  }

  /** In such a run no flush creates its file under a name that the manifest knows. */
  lemma FlushNamesAreFresh(d: Duration, states: seq<State>, labels: seq<Label>, n: nat)
    requires IsRun(d, states, labels) && FreshRun(d, states, labels) && NumberedRun(states, labels) && n < |labels|
    requires labels[n] == FlushCreate
    ensures !Mentioned(states[n].disk.manifest, states[n].mode.m.flush.Out())
  {
    Reachable(d, states, labels, n);
    FlushNameIsNew(d, states[n]);
  }

  /** What is on disk when the process is down carries the numbers. */
  ghost predicate Findable(s: State) {
    s.mode.Down? ==> NumbersUpTo(s.disk.manifest, LastSegment(s.disk.wals))
  }

  lemma StaysFindable(d: Duration, s: State, l: Label)
    requires Inv(d, s) && Enabled(d, s, l) && Findable(s) && (l == Crash ==> !s.mode.Opening?)
    ensures Resumes(s, l) && Findable(Step(d, s, l))
  {
    if l != Crash {
      OnlyCrashes(d, s, l);
    } else if s.mode.Running? {
      CrashFindsNumbers(d, s);
    }
  }

  lemma FindableOn(d: Duration, s: State, l: Label, s': State)
    requires Inv(d, s) && Enabled(d, s, l) && Fresh(d, s, l) && Findable(s) && (l == Crash ==> !s.mode.Opening?)
    requires s' == Step(d, s, l)
    ensures Resumes(s, l) && Inv(d, s') && Findable(s')
  {
    StaysFindable(d, s, l);
    StepKeeps(d, s, l);
  }

  lemma OnlyCrashes(d: Duration, s: State, l: Label)
    requires Enabled(d, s, l) && l != Crash
    ensures !Step(d, s, l).mode.Down?
  {}

  /** Only a crash inside Open can make a later Open find too low a number. */
  lemma {:induction false} CrashesOutsideOpen(d: Duration, states: seq<State>, labels: seq<Label>, n: nat)
    requires IsRun(d, states, labels) && FreshRun(d, states, labels) && n <= |labels|
    requires forall k :: 0 <= k < n && labels[k] == Crash ==> !states[k].mode.Opening?
    ensures Inv(d, states[n]) && Findable(states[n]) && forall k :: 0 <= k < n ==> Resumes(states[k], labels[k])
  {
    if n > 0 {
      CrashesOutsideOpen(d, states, labels, n - 1);
      var s, l := states[n - 1], labels[n - 1];
      assert Enabled(d, s, l) && Fresh(d, s, l) && states[n] == Step(d, s, l);
      FindableOn(d, s, l, states[n]);
    }
  }

  /** A running engine's active segment is numbered no lower than any flush file. */
  lemma CrashFindsNumbers(d: Duration, s: State)
    requires Inv(d, s) && s.mode.Running?
    ensures NumbersUpTo(s.disk.manifest, LastSegment(s.disk.wals))
  {
    assert s.mode.m.active in s.disk.wals;
  }

  /** In every state of every run the files Open would serve are exactly the manifest fold, and an edit whose added
      file is missing has all its deleted files missing too. */
  lemma RecoveredFileSet(d: Duration, states: seq<State>, labels: seq<Label>, n: nat)
    requires IsRun(d, states, labels) && FreshRun(d, states, labels) && NumberedRun(states, labels) && n <= |labels|
    ensures var k := states[n].disk;
            ReplayManifest(k.manifest, k.ssts).files == Live(k.manifest) && EarlyReturnSafe(k.manifest, k.ssts)
  {
    Reachable(d, states, labels, n);
    RecoveredFilesAreLive(d, states[n].disk.manifest, states[n].disk.ssts);
  }

  /** Open deletes exactly the SSTables that are not live; when it is done, what is on disk is the manifest fold. */
  lemma OrphansAreDead(d: Duration, states: seq<State>, labels: seq<Label>, n: nat, p: Path)
    requires IsRun(d, states, labels) && FreshRun(d, states, labels) && NumberedRun(states, labels) && n <= |labels|
    requires states[n].mode.Opening? && p in states[n].disk.ssts
    ensures Enabled(d, states[n], RemoveOrphan(p)) <==> p !in Live(states[n].disk.manifest)
    ensures NoOrphans(states[n]) ==> states[n].disk.ssts.Keys == Live(states[n].disk.manifest)
  {
    Reachable(d, states, labels, n);
    var s := states[n];
    forall q | q in Live(s.disk.manifest)
      ensures q in s.disk.ssts
    {
      assert LiveFile(d, s.disk.ssts, q);
    }
  }
}
