/** Crash safety over whole runs, for every interleaving of appends, flushes, merges, retirements, crashes and
    restarts. */
module CrashSafety {
  import opened Records
  import opened Windows
  import opened Bags
  import opened Protocol
  import opened DiskFacts
  import opened Structure
  import opened RecoveryCounts

  // ---------------------------------------------------------------- the claim

  /** A crash now would recover every record written to the WAL and not retired, exactly once, and nothing else. */
  ghost predicate Safe(d: Duration, s: State) {
    forall w :: Recovered(d, s.disk, w) == At(s.written, w)
  }

  /** The caller-visible condition under which step l keeps Safe:
      - an appended record is later than every flushed maximum of its window;
      - a flush publishes a positive maximum, and whatever reached its window after the swap is later;
      - a dropped WAL segment holds only records some file covers;
      - deleting a retired file uncovers no logged record. */
  ghost predicate Guard(d: Duration, s: State, l: Label)
    requires Enabled(d, s, l)
  {
    match l
    case LogAppend(r) => !Covered(d, s.disk.manifest, s.disk.ssts, r)
    case FlushPublish =>
      var m := s.mode.m;
      var w := m.flush.win;
      0 < m.flush.maxTs && forall r :: r in At(m.mem, w) || r in At(m.pend, w) ==> m.flush.maxTs < r.ts
    case FlushDropWal =>
      var i := s.mode.m.flush.oldSeg;
      i in s.disk.wals ==> forall r :: r in s.disk.wals[i] ==> Covered(d, s.disk.manifest, s.disk.ssts, r)
    case RetireRemove(p) => KeepsCover(d, s.disk, p)
    case RemoveOrphan(p) => KeepsCover(d, s.disk, p)
    case _ => true
  }

  ghost predicate KeepsCover(d: Duration, k: Disk, p: Path) {
    forall r :: r in Logged(k.wals) && Covered(d, k.manifest, k.ssts, r) ==> Covered(d, k.manifest, k.ssts - {p}, r)
  }

  /** The flush snapshot, while it is in no published file. */
  ghost function SnapOf(f: Flush, w: Win): Bag {
    if f.Flushing? && (f.pc == Swapped || f.pc == Written) && f.win == w then f.snap else multiset{}
  }

  /** The memtables, the appends in progress and the snapshot are what the WAL would replay. */
  ghost predicate MemtablesExact(d: Duration, k: Disk, m: Memory) {
    forall w :: Unc(d, k, w) == At(m.mem, w) + At(m.pend, w) + SnapOf(m.flush, w)
  }

  /** The maxima Open read before it deleted anything still decide the same. */
  ghost predicate FilterExact(d: Duration, k: Disk, maxTs: map<Win, int>) {
    forall r :: r in Logged(k.wals) ==> (Skipped(d, maxTs, r) <==> Covered(d, k.manifest, k.ssts, r))
  }

  /** The flush holds an unpublished snapshot. */
  predicate Snapping(f: Flush) {
    f.Flushing? && (f.pc == Swapped || f.pc == Written)
  }

  ghost predicate SameSnaps(f: Flush, f': Flush) {
    if Snapping(f) then Snapping(f') && f'.win == f.win && f'.snap == f.snap
    else !Snapping(f') || f'.snap == multiset{}
  }

  lemma SnapsSame(f: Flush, f': Flush)
    requires SameSnaps(f, f') || SameSnaps(f', f)
    ensures forall w :: SnapOf(f', w) == SnapOf(f, w)
  {}

  /** Memtables and replayed records unchanged: the accounting is unchanged. */
  lemma MemtablesStay(d: Duration, k: Disk, m: Memory, k': Disk, m': Memory)
    requires MemtablesExact(d, k, m) && m'.mem == m.mem && m'.pend == m.pend
    requires SameSnaps(m.flush, m'.flush) || SameSnaps(m'.flush, m.flush)
    requires forall w :: Unc(d, k', w) == Unc(d, k, w)
    ensures MemtablesExact(d, k', m')
  {
    SnapsSame(m.flush, m'.flush);
  }

  ghost predicate Exact(d: Duration, s: State) {
    Safe(d, s)
    && match s.mode
       case Down => true
       case Opening(rp, _) => FilterExact(d, s.disk, rp.maxTs)
       case Running(m) => MemtablesExact(d, s.disk, m)
  }

  // ---------------------------------------------------------------- appends

  lemma LogAppendLoses(d: Duration, s: State, i: nat, r: Record, s': State)
    requires DiskOk(d, s.disk.manifest, s.disk.ssts) && Safe(d, s) && i in s.disk.wals
    requires Covered(d, s.disk.manifest, s.disk.ssts, r)
    requires s'.disk == s.disk.(wals := s.disk.wals[i := s.disk.wals[i] + [r]])
    requires s'.written == Add(s.written, WinOf(d, r), multiset{r})
    ensures !Safe(d, s')
  {
    var w := WinOf(d, r);
    AppendRecovery(d, s, i, r, w);
    assert Recovered(d, s'.disk, w)[r] < At(s'.written, w)[r];
  }

  lemma LogAppendSafe(d: Duration, s: State, i: nat, r: Record, s': State)
    requires DiskOk(d, s.disk.manifest, s.disk.ssts) && Safe(d, s) && i in s.disk.wals
    requires !Covered(d, s.disk.manifest, s.disk.ssts, r)
    requires s'.disk == s.disk.(wals := s.disk.wals[i := s.disk.wals[i] + [r]])
    requires s'.written == Add(s.written, WinOf(d, r), multiset{r})
    ensures Safe(d, s')
    ensures forall w :: Unc(d, s'.disk, w) == Unc(d, s.disk, w) + One(w == WinOf(d, r), r)
  {
    forall w
      ensures Unc(d, s'.disk, w) == Unc(d, s.disk, w) + One(w == WinOf(d, r), r)
      ensures Recovered(d, s'.disk, w) == At(s'.written, w)
    {
      AppendRecovery(d, s, i, r, w);
    }
  }

  lemma AppendRecovery(d: Duration, s: State, i: nat, r: Record, w: Win)
    requires DiskOk(d, s.disk.manifest, s.disk.ssts) && Safe(d, s) && i in s.disk.wals
    ensures var k := s.disk;
            var k' := k.(wals := k.wals[i := k.wals[i] + [r]]);
            var c := w == WinOf(d, r) && !Covered(d, k.manifest, k.ssts, r);
            Unc(d, k', w) == Unc(d, k, w) + One(c, r)
            && Recovered(d, k', w) == Recovered(d, k, w) + One(c, r)
            && At(Add(s.written, WinOf(d, r), multiset{r}), w) == Recovered(d, k, w) + One(w == WinOf(d, r), r)
  {
    var k := s.disk;
    UncAppend(d, k, i, r, w);
    RecoveredSplit(d, k, w);
    RecoveredSplit(d, k.(wals := k.wals[i := k.wals[i] + [r]]), w);
    Assoc(LiveBag(k, w), Unc(d, k, w), One(w == WinOf(d, r) && !Covered(d, k.manifest, k.ssts, r), r));
    AtAdd(s.written, WinOf(d, r), r, w);
  }

  lemma AppendMemtables(d: Duration, k: Disk, m: Memory, r: Record, k': Disk, m': Memory)
    requires MemtablesExact(d, k, m) && m' == m.(pend := Add(m.pend, WinOf(d, r), multiset{r}))
    requires forall w :: Unc(d, k', w) == Unc(d, k, w) + One(w == WinOf(d, r), r)
    ensures MemtablesExact(d, k', m')
  {
    forall w
      ensures Unc(d, k', w) == At(m'.mem, w) + At(m'.pend, w) + SnapOf(m'.flush, w)
    {
      AtAdd(m.pend, WinOf(d, r), r, w);
      GrowMiddle(Unc(d, k, w), At(m.mem, w), At(m.pend, w), SnapOf(m.flush, w), One(w == WinOf(d, r), r));
    }
  }

  lemma LogAppendExact(d: Duration, s: State, r: Record)
    requires Inv(d, s) && Exact(d, s) && Enabled(d, s, LogAppend(r)) && Guard(d, s, LogAppend(r))
    ensures Exact(d, Step(d, s, LogAppend(r)))
  {
    var s' := Step(d, s, LogAppend(r));
    LogAppendSafe(d, s, s.mode.m.active, r, s');
    AppendMemtables(d, s.disk, s.mode.m, r, s'.disk, s'.mode.m);
  }

  lemma InsertAppendExact(d: Duration, k: Disk, m: Memory, r: Record, m': Memory)
    requires MemtablesExact(d, k, m) && r in At(m.pend, WinOf(d, r))
    requires var w := WinOf(d, r);
             m' == m.(pend := m.pend[w := At(m.pend, w) - multiset{r}], mem := Add(m.mem, w, multiset{r}))
    ensures MemtablesExact(d, k, m')
  {
    forall w
      ensures Unc(d, k, w) == At(m'.mem, w) + At(m'.pend, w) + SnapOf(m'.flush, w)
    {
      MoveOne(m.pend, m.mem, WinOf(d, r), r, w);
    }
  }

  // ---------------------------------------------------------------- steps recovery does not see

  lemma SwapBags(mem: map<Win, Bag>, w: Win, pend: Bag, u: Bag, j: Win)
    requires u == At(mem, j) + pend + multiset{}
    ensures u == At(mem[w := multiset{}], j) + pend + When(w == j, At(mem, w))
  {}

  lemma FlushSwapExact(d: Duration, k: Disk, m: Memory, m': Memory)
    requires MemtablesExact(d, k, m) && m.flush.Flushing? && m.flush.pc == Created
    requires var w := m.flush.win;
             m' == m.(mem := m.mem[w := multiset{}], flush := m.flush.(pc := Swapped, snap := At(m.mem, w)))
    ensures MemtablesExact(d, k, m')
  {
    SwapAll(w => Unc(d, k, w), m, m');
  }

  /** The same for any accounting of the windows. */
  lemma SwapAll(unc: Win -> Bag, m: Memory, m': Memory)
    requires m.flush.Flushing? && m.flush.pc == Created
    requires m'.mem == m.mem[m.flush.win := multiset{}] && m'.pend == m.pend
    requires m'.flush == m.flush.(pc := Swapped, snap := At(m.mem, m.flush.win))
    requires forall w :: unc(w) == At(m.mem, w) + At(m.pend, w) + SnapOf(m.flush, w)
    ensures forall w :: unc(w) == At(m'.mem, w) + At(m'.pend, w) + SnapOf(m'.flush, w)
  {
    forall w
      ensures unc(w) == At(m'.mem, w) + At(m'.pend, w) + SnapOf(m'.flush, w)
    {
      assert SnapOf(m.flush, w) == multiset{};
      SwapBags(m.mem, m.flush.win, At(m.pend, w), unc(w), w);
    }
  }

  /** A step that leaves Unc and the live files alone leaves recovery alone. */
  lemma SameUncIsSafe(d: Duration, s: State, k': Disk)
    requires DiskOk(d, s.disk.manifest, s.disk.ssts) && DiskOk(d, k'.manifest, k'.ssts) && Safe(d, s)
    requires Logged(k'.wals) == Logged(s.disk.wals)
    requires forall r :: r in Logged(k'.wals) ==>
               (Covered(d, k'.manifest, k'.ssts, r) <==> Covered(d, s.disk.manifest, s.disk.ssts, r))
    requires Live(k'.manifest) == Live(s.disk.manifest)
    requires forall p :: p in Live(k'.manifest) ==> Content(k'.ssts, p) == Content(s.disk.ssts, p)
    ensures Safe(d, s.(disk := k'))
    ensures forall w :: Unc(d, k', w) == Unc(d, s.disk, w)
  {
    forall w
      ensures Unc(d, k', w) == Unc(d, s.disk, w) && Recovered(d, k', w) == Recovered(d, s.disk, w)
    {
      UncSame(d, s.disk, k', w);
      LiveBagSame(s.disk, k', w);
      RecoveredSplit(d, s.disk, w);
      RecoveredSplit(d, k', w);
    }
  }

  /** Steps that neither log nor publish nor delete: recovery and the memtable accounting stay as they are. */
  lemma QuietStep(d: Duration, s: State, s': State)
    requires DiskOk(d, s.disk.manifest, s.disk.ssts) && DiskOk(d, s'.disk.manifest, s'.disk.ssts)
    requires Exact(d, s) && s.mode.Running? && s'.mode.Running?
    requires s'.written == s.written && s'.disk.manifest == s.disk.manifest
             && Logged(s'.disk.wals) == Logged(s.disk.wals)
    requires forall r :: r in Logged(s.disk.wals) ==>
               (Covered(d, s'.disk.manifest, s'.disk.ssts, r) <==> Covered(d, s.disk.manifest, s.disk.ssts, r))
    requires forall p :: p in Live(s.disk.manifest) ==> Content(s'.disk.ssts, p) == Content(s.disk.ssts, p)
    requires s'.mode.m.mem == s.mode.m.mem && s'.mode.m.pend == s.mode.m.pend
    requires SameSnaps(s.mode.m.flush, s'.mode.m.flush) || SameSnaps(s'.mode.m.flush, s.mode.m.flush)
    ensures Exact(d, s')
  {
    SameUncIsSafe(d, s, s'.disk);
    MemtablesStay(d, s.disk, s.mode.m, s'.disk, s'.mode.m);
  }

  /** Writing a file no edit mentions is quiet. */
  lemma UnmentionedExact(d: Duration, s: State, s': State, out: Path)
    requires DiskOk(d, s.disk.manifest, s.disk.ssts) && Exact(d, s) && s.mode.Running? && s'.mode.Running?
    requires !Mentioned(s.disk.manifest, out) && SameExcept(s.disk.ssts, s'.disk.ssts, out)
    requires s'.written == s.written && s'.disk == s.disk.(ssts := s'.disk.ssts)
    requires s'.mode.m.mem == s.mode.m.mem && s'.mode.m.pend == s.mode.m.pend
    requires SameSnaps(s.mode.m.flush, s'.mode.m.flush) || SameSnaps(s'.mode.m.flush, s.mode.m.flush)
    ensures Exact(d, s')
  {
    UnmentionedFile(d, s.disk.manifest, s.disk.ssts, s'.disk.ssts, out);
    QuietStep(d, s, s');
  }

  lemma FlushCreateExact(d: Duration, s: State)
    requires Inv(d, s) && Exact(d, s) && Enabled(d, s, FlushCreate)
    ensures Exact(d, Step(d, s, FlushCreate))
  {
    FlushNameIsNew(d, s);
    UnmentionedExact(d, s, Step(d, s, FlushCreate), s.mode.m.flush.Out());
  }

  lemma FlushFinishExact(d: Duration, s: State, maxTs: int)
    requires Inv(d, s) && Exact(d, s) && Enabled(d, s, FlushFinish(maxTs))
    ensures Exact(d, Step(d, s, FlushFinish(maxTs)))
  {
    UnmentionedExact(d, s, Step(d, s, FlushFinish(maxTs)), s.mode.m.flush.Out());
  }

  lemma FlushDiscardExact(d: Duration, s: State)
    requires Inv(d, s) && Exact(d, s) && Enabled(d, s, FlushDiscard)
    ensures Exact(d, Step(d, s, FlushDiscard))
  {
    UnmentionedExact(d, s, Step(d, s, FlushDiscard), s.mode.m.flush.Out());
  }

  lemma FlushRotateExact(d: Duration, s: State, s': State, n: nat)
    requires DiskOk(d, s.disk.manifest, s.disk.ssts) && Exact(d, s) && s.mode.Running? && s'.mode.Running?
    requires n !in s.disk.wals && s'.disk == s.disk.(wals := s.disk.wals[n := []])
    requires s'.written == s.written && s'.mode.m.mem == s.mode.m.mem && s'.mode.m.pend == s.mode.m.pend
    requires SameSnaps(s.mode.m.flush, s'.mode.m.flush)
    ensures Exact(d, s')
  {
    LogNewSegment(s.disk.wals, n);
    QuietStep(d, s, s');
  }

  /** The disk and the memtables stay; a flush starts, or its file is registered. */
  lemma FlushQuietExact(d: Duration, s: State, s': State)
    requires Exact(d, s) && s.mode.Running? && s'.mode.Running? && s'.disk == s.disk && s'.written == s.written
    requires s'.mode.m.mem == s.mode.m.mem && s'.mode.m.pend == s.mode.m.pend
    requires SameSnaps(s.mode.m.flush, s'.mode.m.flush) || SameSnaps(s'.mode.m.flush, s.mode.m.flush)
    ensures Exact(d, s')
  {
    MemtablesStay(d, s.disk, s.mode.m, s.disk, s'.mode.m);
  }

  lemma FlushQuietStep(d: Duration, s: State, l: Label)
    requires Exact(d, s) && Enabled(d, s, l) && (l.FlushTake? || l.FlushRegister?)
    ensures Exact(d, Step(d, s, l))
  {
    FlushQuietExact(d, s, Step(d, s, l));
  }

  lemma CompactWritesExact(d: Duration, s: State, s': State, out: Path)
    requires DiskOk(d, s.disk.manifest, s.disk.ssts) && Exact(d, s) && s.mode.Running? && s'.mode.Running?
    requires !Mentioned(s.disk.manifest, out) && SameExcept(s.disk.ssts, s'.disk.ssts, out)
    requires s'.written == s.written && s'.disk == s.disk.(ssts := s'.disk.ssts)
    requires s'.mode.m == s.mode.m.(compact := s'.mode.m.compact)
    ensures Exact(d, s')
  {
    UnmentionedExact(d, s, s', out);
  }

  lemma CompactWriteStep(d: Duration, s: State, l: Label)
    requires Inv(d, s) && Exact(d, s) && Enabled(d, s, l) && Fresh(d, s, l) && (l.CompactCreate? || l.CompactFinish?)
    ensures Exact(d, Step(d, s, l))
  {
    OutIsNew(d, s, l);
    CompactWriteShape(d, s, l, Step(d, s, l));
    CompactWritesExact(d, s, Step(d, s, l), s.mode.m.compact.out);
  }

  lemma OutIsNew(d: Duration, s: State, l: Label)
    requires Inv(d, s) && Enabled(d, s, l) && Fresh(d, s, l) && (l.CompactCreate? || l.CompactFinish?)
    ensures !Mentioned(s.disk.manifest, s.mode.m.compact.out)
  {
    if l.CompactFinish? { NewWhileWritten(s.disk, s.mode.m); }
  }

  lemma NewWhileWritten(k: Disk, m: Memory)
    requires CompactOk(k, m) && m.compact.Compacting? && m.compact.cpc == OutCreated
    ensures !Mentioned(k.manifest, m.compact.out)
  {}

  lemma CompactWriteShape(d: Duration, s: State, l: Label, s': State)
    requires Enabled(d, s, l) && (l.CompactCreate? || l.CompactFinish?) && s' == Step(d, s, l)
    ensures s.mode.Running? && s'.mode.Running? && s'.written == s.written
    ensures SameExcept(s.disk.ssts, s'.disk.ssts, s.mode.m.compact.out)
    ensures s'.disk == s.disk.(ssts := s'.disk.ssts) && s'.mode.m == s.mode.m.(compact := s'.mode.m.compact)
  {}

  lemma CompactQuietExact(d: Duration, s: State, l: Label)
    requires Exact(d, s) && Enabled(d, s, l)
    requires l.CompactPick? || l.CompactSwapIn? || l.RetirePick? || l.RetireSwapOut?
    ensures Exact(d, Step(d, s, l))
  {}

  // ---------------------------------------------------------------- FlushDropWal

  lemma DropWalLoses(d: Duration, s: State, i: nat, r: Record, s': State)
    requires DiskOk(d, s.disk.manifest, s.disk.ssts) && Safe(d, s)
    requires i in s.disk.wals && r in s.disk.wals[i] && !Covered(d, s.disk.manifest, s.disk.ssts, r)
    requires s'.disk == s.disk.(wals := s.disk.wals - {i}) && s'.written == s.written
    ensures !Safe(d, s')
  {
    var w := WinOf(d, r);
    UncDrop(d, s.disk, i, r);
    RecoveredSplit(d, s.disk, w);
    RecoveredSplit(d, s'.disk, w);
    assert LiveBag(s'.disk, w) == LiveBag(s.disk, w);
    assert Recovered(d, s'.disk, w)[r] < At(s.written, w)[r];
  }

  /** Dropping a segment whose records are all covered changes nothing that recovery sees. */
  lemma DropCoveredSegment(d: Duration, s: State, i: nat, k': Disk)
    requires DiskOk(d, s.disk.manifest, s.disk.ssts) && Safe(d, s)
    requires i in s.disk.wals ==> forall r :: r in s.disk.wals[i] ==> Covered(d, s.disk.manifest, s.disk.ssts, r)
    requires k' == s.disk.(wals := s.disk.wals - {i})
    ensures Safe(d, s.(disk := k'))
    ensures forall w :: Unc(d, k', w) == Unc(d, s.disk, w)
  {
    forall w
      ensures Unc(d, k', w) == Unc(d, s.disk, w) && Recovered(d, k', w) == Recovered(d, s.disk, w)
    {
      if i in s.disk.wals {
        UncDropCovered(d, s.disk, i, w);
      } else {
        assert k' == s.disk;
      }
      RecoveredSplit(d, s.disk, w);
      RecoveredSplit(d, k', w);
    }
  }

  lemma FlushDropWalExact(d: Duration, s: State)
    requires Inv(d, s) && Exact(d, s) && Enabled(d, s, FlushDropWal) && Guard(d, s, FlushDropWal)
    ensures Exact(d, Step(d, s, FlushDropWal))
  {
    var s' := Step(d, s, FlushDropWal);
    DropWalExact(d, s, s.mode.m.flush.oldSeg, s'.disk, s'.mode.m);
  }

  lemma DropWalExact(d: Duration, s: State, i: nat, k': Disk, m': Memory)
    requires DiskOk(d, s.disk.manifest, s.disk.ssts) && Exact(d, s) && s.mode.Running?
    requires i in s.disk.wals ==> forall r :: r in s.disk.wals[i] ==> Covered(d, s.disk.manifest, s.disk.ssts, r)
    requires k' == s.disk.(wals := s.disk.wals - {i})
    requires m'.mem == s.mode.m.mem && m'.pend == s.mode.m.pend && SameSnaps(s.mode.m.flush, m'.flush)
    ensures Exact(d, State(k', Running(m'), s.written))
  {
    DropCoveredSegment(d, s, i, k');
    MemtablesStay(d, s.disk, s.mode.m, k', m');
  }

  // ---------------------------------------------------------------- FlushPublish

  /** What the published directory holds and covers. */
  lemma FlushPublishEffect(d: Duration, k: Disk, f: Flush, k': Disk)
    requires f.Flushing? && f.Out() in k.ssts && k.ssts[f.Out()] == Complete(f.snap)
    requires k' == k.(manifest := k.manifest + [Edit([FlushEntry(f)], [])])
    requires f.Out() !in Live(k.manifest) && Live(k'.manifest) == Live(k.manifest) + {f.Out()}
    ensures forall w :: LiveBag(k', w) == LiveBag(k, w) + When(f.win == w, f.snap)
    ensures forall r :: Covered(d, k'.manifest, k'.ssts, r) <==>
                        Covered(d, k.manifest, k.ssts, r) || Covers(d, FlushEntry(f), r)
  {
    forall w
      ensures LiveBag(k', w) == LiveBag(k, w) + When(f.win == w, f.snap)
    {
      FilesBagAdd(Live(k.manifest), k.ssts, f.Out(), w);
    }
    forall r
      ensures Covered(d, k'.manifest, k'.ssts, r) <==> Covered(d, k.manifest, k.ssts, r) || Covers(d, FlushEntry(f), r)
    {
      CoveredAfterPublish(d, k.manifest, k.ssts, FlushEntry(f), [], r);
    }
  }

  lemma PublishUnc(d: Duration, k: Disk, k': Disk, e: Entry, snap: Bag, rest: Bag)
    requires SingleAdds(k.manifest) && SingleAdds(k'.manifest) && k'.wals == k.wals
    requires forall r :: Covered(d, k'.manifest, k'.ssts, r) <==> Covered(d, k.manifest, k.ssts, r) || Covers(d, e, r)
    requires Unc(d, k, e.path.win) == rest + snap && 0 < e.maxTs
    requires forall r :: r in snap ==> r.ts <= e.maxTs
    requires forall r :: r in rest ==> e.maxTs < r.ts
    ensures Unc(d, k', e.path.win) == rest
  {
    var w := e.path.win;
    UncCount(d, k, w);
    UncCount(d, k', w);
    forall x
      ensures Unc(d, k', w)[x] == rest[x]
    {
      assert (rest + snap)[x] == rest[x] + snap[x];
      assert x.ts <= e.maxTs ==> x !in rest;
      assert x.ts > e.maxTs ==> x !in snap;
    }
  }

  /** One window's view of the publication; rest is what the window's memtable and appenders hold. */
  lemma FlushPublishAt(d: Duration, k: Disk, k': Disk, e: Entry, snap: Bag, rest: Bag, w: Win)
    requires DiskOk(d, k.manifest, k.ssts) && DiskOk(d, k'.manifest, k'.ssts) && k'.wals == k.wals
    requires forall r :: Covered(d, k'.manifest, k'.ssts, r) <==> Covered(d, k.manifest, k.ssts, r) || Covers(d, e, r)
    requires LiveBag(k', w) == LiveBag(k, w) + When(e.path.win == w, snap)
    requires Unc(d, k, w) == rest + When(e.path.win == w, snap)
    requires 0 < e.maxTs && forall r :: r in snap ==> r.ts <= e.maxTs
    requires e.path.win == w ==> forall r :: r in rest ==> e.maxTs < r.ts
    ensures Unc(d, k', w) == rest && Recovered(d, k', w) == Recovered(d, k, w)
  {
    RecoveredSplit(d, k, w);
    RecoveredSplit(d, k', w);
    if w == e.path.win {
      PublishUnc(d, k, k', e, snap, rest);
      Shuffle(LiveBag(k, w), rest, snap);
    } else {
      UncSame(d, k, k', w);
    }
  }

  lemma FlushPublishRecovery(d: Duration, k: Disk, m: Memory, k': Disk)
    requires DiskOk(d, k.manifest, k.ssts) && WindowsOk(d, m) && FlushOk(k, m) && MemtablesExact(d, k, m)
    requires m.flush.Flushing? && m.flush.pc == Written && m.flush.snap != multiset{} && 0 < m.flush.maxTs
    requires forall r :: r in At(m.mem, m.flush.win) || r in At(m.pend, m.flush.win) ==> m.flush.maxTs < r.ts
    requires k' == k.(manifest := k.manifest + [Edit([FlushEntry(m.flush)], [])])
    ensures forall w :: Unc(d, k', w) == At(m.mem, w) + At(m.pend, w) && Recovered(d, k', w) == Recovered(d, k, w)
  {
    FlushPublishDisk(d, k, m, k');
    FlushPublishEffect(d, k, m.flush, k');
    forall w
      ensures Unc(d, k', w) == At(m.mem, w) + At(m.pend, w) && Recovered(d, k', w) == Recovered(d, k, w)
    {
      FlushPublishAt(d, k, k', FlushEntry(m.flush), m.flush.snap, At(m.mem, w) + At(m.pend, w), w);
    }
  }

  lemma PublishedMemtables(d: Duration, m: Memory, k': Disk, m': Memory)
    requires m'.mem == m.mem && m'.pend == m.pend && m'.flush.Flushing? && m'.flush.pc == Published
    requires forall w :: Unc(d, k', w) == At(m.mem, w) + At(m.pend, w)
    ensures MemtablesExact(d, k', m')
  {
    forall w
      ensures Unc(d, k', w) == At(m'.mem, w) + At(m'.pend, w) + SnapOf(m'.flush, w)
    {
      assert SnapOf(m'.flush, w) == multiset{};
    }
  }

  lemma FlushPublishExact(d: Duration, s: State)
    requires Inv(d, s) && Exact(d, s) && Enabled(d, s, FlushPublish) && Guard(d, s, FlushPublish)
    ensures Exact(d, Step(d, s, FlushPublish))
  {
    var s' := Step(d, s, FlushPublish);
    FlushPublishRecovery(d, s.disk, s.mode.m, s'.disk);
    PublishedMemtables(d, s.mode.m, s'.disk, s'.mode.m);
  }

  lemma TooLowMaximum(d: Duration, k: Disk, k': Disk, f: Flush, r: Record)
    requires DiskOk(d, k.manifest, k.ssts) && DiskOk(d, k'.manifest, k'.ssts) && k'.wals == k.wals
    requires f.Flushing? && f.maxTs <= 0 && r in f.snap
    requires LiveBag(k', f.win) == LiveBag(k, f.win) + When(f.win == f.win, f.snap)
    requires forall x :: Covered(d, k'.manifest, k'.ssts, x) <==>
                         Covered(d, k.manifest, k.ssts, x) || Covers(d, FlushEntry(f), x)
    ensures Recovered(d, k', f.win)[r] > Recovered(d, k, f.win)[r]
  {
    UncSame(d, k, k', f.win);
    RecoveredSplit(d, k, f.win);
    RecoveredSplit(d, k', f.win);
  }

  lemma LateArrival(d: Duration, k: Disk, k': Disk, f: Flush, rest: Bag, r: Record)
    requires DiskOk(d, k.manifest, k.ssts) && DiskOk(d, k'.manifest, k'.ssts) && k'.wals == k.wals
    requires f.Flushing? && 0 < f.maxTs && r in rest && r.ts <= f.maxTs
    requires Unc(d, k, f.win) == rest + f.snap
    requires LiveBag(k', f.win) == LiveBag(k, f.win) + When(f.win == f.win, f.snap)
    requires forall x :: Covered(d, k'.manifest, k'.ssts, x) <==>
                         Covered(d, k.manifest, k.ssts, x) || Covers(d, FlushEntry(f), x)
    ensures Recovered(d, k', f.win)[r] < Recovered(d, k, f.win)[r]
  {
    UncCount(d, k, f.win);
    UncCount(d, k', f.win);
    RecoveredSplit(d, k, f.win);
    RecoveredSplit(d, k', f.win);
    assert Unc(d, k, f.win)[r] == rest[r] + f.snap[r];
    assert Covers(d, FlushEntry(f), r);
    assert Unc(d, k', f.win)[r] == 0;
  }

  /** Without the guard, a crash right after the edit recovers a record twice or not at all. */
  lemma FlushPublishBreaks(d: Duration, s: State)
    requires Inv(d, s) && Exact(d, s) && Enabled(d, s, FlushPublish) && !Guard(d, s, FlushPublish)
    ensures !Safe(d, Step(d, s, FlushPublish))
  {
    var k, m, k' := s.disk, s.mode.m, Step(d, s, FlushPublish).disk;
    var f, w := m.flush, m.flush.win;
    FlushPublishDisk(d, k, m, k');
    FlushPublishEffect(d, k, f, k');
    if f.maxTs <= 0 {
      var r :| r in f.snap;
      TooLowMaximum(d, k, k', f, r);
    } else {
      var r :| (r in At(m.mem, w) || r in At(m.pend, w)) && r.ts <= f.maxTs;
      LateArrival(d, k, k', f, At(m.mem, w) + At(m.pend, w), r);
    }
    assert Recovered(d, k, w) == At(s.written, w);
  }

  // ---------------------------------------------------------------- CompactPublish

  /** A merge covers nothing that its inputs did not. */
  lemma MergeCoversNoMore(d: Duration, k: Disk, m: Memory, r: Record)
    requires LiveFilesGood(d, k.manifest, k.ssts) && CompactOk(k, m) && FilesOk(k, m)
    requires m.compact.Compacting? && m.compact.cpc == OutWritten
    requires Covers(d, Entry(m.compact.out, m.compact.outMax), r)
    ensures Covered(d, k.manifest, k.ssts, r)
  {
    var c := m.compact;
    InputsAreLive(k, m, c.inputs);
    var top :| top in c.bag && top.ts == c.outMax;
    var p := HolderOf(m.files, c.inputs, top);
    LiveIsMentioned(k.manifest, p);
    var e :| Adds(k.manifest, e) && e.path == p;
    assert IsMax(k.ssts[p].content, e.maxTs);
    assert Covers(d, e, r);
  }

  lemma LiveBagMerge(k: Disk, k': Disk, readers: map<Path, Bag>, inputs: seq<Path>, out: Path, w: Win)
    requires k'.ssts == k.ssts && out !in Live(k.manifest)
    requires forall p :: p in inputs ==>
               p in readers && p in Live(k.manifest) && p.win == out.win && readers[p] == Content(k.ssts, p)
    requires Live(k'.manifest) == Live(k.manifest) + {out} - AllPaths(inputs)
    requires Content(k.ssts, out) == InputBag(readers, inputs)
    ensures LiveBag(k', w) == LiveBag(k, w)
  {
    FilesBagDelete(Live(k.manifest), k.ssts, readers, inputs, out.win, w);
    FilesBagAdd(Live(k.manifest) - AllPaths(inputs), k.ssts, out, w);
    assert out !in AllPaths(inputs);
    assert Live(k'.manifest) == Live(k.manifest) - AllPaths(inputs) + {out};
  }

  lemma CompactPublishCovers(d: Duration, k: Disk, m: Memory, k': Disk)
    requires LiveFilesGood(d, k.manifest, k.ssts) && CompactOk(k, m) && FilesOk(k, m)
    requires m.compact.Compacting? && m.compact.cpc == OutWritten
    requires k' == k.(manifest := k.manifest + [MergeEdit(m.compact)])
    ensures forall r :: Covered(d, k'.manifest, k'.ssts, r) <==> Covered(d, k.manifest, k.ssts, r)
  {
    var c := m.compact;
    forall r
      ensures Covered(d, k'.manifest, k'.ssts, r) <==> Covered(d, k.manifest, k.ssts, r)
    {
      CoveredAfterPublish(d, k.manifest, k.ssts, Entry(c.out, c.outMax), c.inputs, r);
      if Covers(d, Entry(c.out, c.outMax), r) { MergeCoversNoMore(d, k, m, r); }
    }
  }

  lemma CompactPublishExact(d: Duration, s: State)
    requires Inv(d, s) && Exact(d, s) && Enabled(d, s, CompactPublish) && Inv(d, Step(d, s, CompactPublish))
    ensures Exact(d, Step(d, s, CompactPublish))
  {
    var s' := Step(d, s, CompactPublish);
    var k, m, k' := s.disk, s.mode.m, s'.disk;
    CompactPublishDisk(d, k, m, k');
    CompactPublishCovers(d, k, m, k');
    InputsAreLive(k, m, m.compact.inputs);
    forall w
      ensures Unc(d, k', w) == Unc(d, k, w) && Recovered(d, k', w) == Recovered(d, k, w)
    {
      UncSame(d, k, k', w);
      LiveBagMerge(k, k', m.files, m.compact.inputs, m.compact.out, w);
      RecoveredSplit(d, k, w);
      RecoveredSplit(d, k', w);
    }
  }

  // ---------------------------------------------------------------- RetirePublish

  lemma RetireOne(d: Duration, k: Disk, k': Disk, readers: map<Path, Bag>, expired: seq<Path>, win: Win, w: Win)
    requires DiskOk(d, k.manifest, k.ssts) && DiskOk(d, k'.manifest, k'.ssts)
    requires k' == k.(manifest := k.manifest + [Edit([], expired)])
    requires Live(k'.manifest) == Live(k.manifest) - AllPaths(expired)
    requires forall p :: p in expired ==>
               p in readers && p in Live(k.manifest) && p.win == win && readers[p] == Content(k.ssts, p)
    ensures Unc(d, k', w) == Unc(d, k, w)
    ensures Recovered(d, k, w) == Recovered(d, k', w) + When(win == w, InputBag(readers, expired))
  {
    forall r
      ensures Covered(d, k'.manifest, k'.ssts, r) <==> Covered(d, k.manifest, k.ssts, r)
    {
      CoveredAfterRetire(d, k.manifest, k.ssts, expired, r);
    }
    UncSame(d, k, k', w);
    FilesBagDelete(Live(k.manifest), k.ssts, readers, expired, win, w);
    RecoveredSplit(d, k, w);
    RecoveredSplit(d, k', w);
    Shuffle(LiveBag(k', w), Unc(d, k, w), When(win == w, InputBag(readers, expired)));
  }

  lemma AtTake(m: map<Win, Bag>, w: Win, b: Bag, j: Win, left: Bag)
    requires At(m, j) == left + When(w == j, b)
    ensures At(m[w := At(m, w) - b], j) == left
  {}

  lemma RetireRecovery(d: Duration, k: Disk, m: Memory, k': Disk, written: map<Win, Bag>)
    requires DiskOk(d, k.manifest, k.ssts) && CompactOk(k, m) && FilesOk(k, m) && m.compact.Retiring?
             && !m.compact.logged
    requires k' == k.(manifest := k.manifest + [Edit([], m.compact.expired)])
    requires forall w :: Recovered(d, k, w) == At(written, w)
    ensures forall w :: Unc(d, k', w) == Unc(d, k, w)
    ensures var c := m.compact;
            forall w ::
              Recovered(d, k', w) == At(written[c.win := At(written, c.win) - InputBag(m.files, c.expired)], w)
  {
    var c := m.compact;
    RetirePublishDisk(d, k, m, k');
    InputsAreLive(k, m, c.expired);
    var taken := InputBag(m.files, c.expired);
    var written' := written[c.win := At(written, c.win) - taken];
    forall w
      ensures Unc(d, k', w) == Unc(d, k, w) && Recovered(d, k', w) == At(written', w)
    {
      RetireOne(d, k, k', m.files, c.expired, c.win, w);
      AtTake(written, c.win, taken, w, Recovered(d, k', w));
    }
  }

  lemma RetirePublishExact(d: Duration, s: State)
    requires Inv(d, s) && Exact(d, s) && Enabled(d, s, RetirePublish)
    ensures Exact(d, Step(d, s, RetirePublish))
  {
    RetireRecovery(d, s.disk, s.mode.m, Step(d, s, RetirePublish).disk, s.written);
  }

  // ---------------------------------------------------------------- deleting files

  lemma RemoveIsSafe(d: Duration, s: State, p: Path, k': Disk)
    requires DiskOk(d, s.disk.manifest, s.disk.ssts) && Safe(d, s)
    requires p !in Live(s.disk.manifest) && KeepsCover(d, s.disk, p)
    requires k' == s.disk.(ssts := s.disk.ssts - {p})
    ensures DiskOk(d, k'.manifest, k'.ssts) && Safe(d, s.(disk := k'))
    ensures forall w :: Unc(d, k', w) == Unc(d, s.disk, w)
    ensures forall r :: r in Logged(k'.wals) ==>
              (Covered(d, k'.manifest, k'.ssts, r) <==> Covered(d, s.disk.manifest, s.disk.ssts, r))
  {
    RemoveDead(d, s.disk.manifest, s.disk.ssts, p);
    forall r | r in Logged(k'.wals)
      ensures Covered(d, k'.manifest, k'.ssts, r) <==> Covered(d, s.disk.manifest, s.disk.ssts, r)
    {
      if Covered(d, k'.manifest, k'.ssts, r) { CoveredAfterRemove(d, k'.manifest, s.disk.ssts, p, r); }
    }
    SameUncIsSafe(d, s, k');
  }

  /** Deleting the only file that covers a logged record brings the record back. */
  lemma RemoveReplays(d: Duration, k: Disk, p: Path, k': Disk, r: Record)
    requires DiskOk(d, k.manifest, k.ssts) && p !in Live(k.manifest) && k' == k.(ssts := k.ssts - {p})
    requires r in Logged(k.wals) && Covered(d, k.manifest, k.ssts, r) && !Covered(d, k'.manifest, k'.ssts, r)
    ensures Recovered(d, k', WinOf(d, r))[r] > Recovered(d, k, WinOf(d, r))[r]
  {
    var w := WinOf(d, r);
    RemoveDead(d, k.manifest, k.ssts, p);
    UncCount(d, k, w);
    UncCount(d, k', w);
    LiveBagSame(k, k', w);
    RecoveredSplit(d, k, w);
    RecoveredSplit(d, k', w);
  }

  lemma RemoveBreaks(d: Duration, s: State, p: Path, s': State)
    requires DiskOk(d, s.disk.manifest, s.disk.ssts) && Safe(d, s)
    requires p !in Live(s.disk.manifest) && !KeepsCover(d, s.disk, p)
    requires s'.disk == s.disk.(ssts := s.disk.ssts - {p}) && s'.written == s.written
    ensures !Safe(d, s')
  {
    var k, k' := s.disk, s'.disk;
    var r :| r in Logged(k.wals) && Covered(d, k.manifest, k.ssts, r) && !Covered(d, k'.manifest, k'.ssts, r);
    RemoveReplays(d, k, p, k', r);
    assert Recovered(d, k, WinOf(d, r)) == At(s.written, WinOf(d, r));
  }

  lemma MergeInputKeepsCover(d: Duration, k: Disk, p: Path)
    requires DiskOk(d, k.manifest, k.ssts) && p !in Live(k.manifest) && NotRetired(k.manifest, p)
    ensures KeepsCover(d, k, p)
  {
    forall r | r in Logged(k.wals) && Covered(d, k.manifest, k.ssts, r)
      ensures Covered(d, k.manifest, k.ssts - {p}, r)
    {
      RemoveMergeInput(d, k.manifest, k.ssts, p, r);
    }
  }

  lemma CompactRemoveExact(d: Duration, s: State, p: Path)
    requires Inv(d, s) && Exact(d, s) && Enabled(d, s, CompactRemove(p))
    ensures Exact(d, Step(d, s, CompactRemove(p)))
  {
    var s' := Step(d, s, CompactRemove(p));
    var c := s.mode.m.compact;
    assert Supersedes(s.disk.manifest, Entry(c.out, c.outMax), p);
    SupersedesBoth(s.disk.manifest, Entry(c.out, c.outMax), p);
    MergeInputKeepsCover(d, s.disk, p);
    RemoveIsSafe(d, s, p, s'.disk);
  }

  lemma RetireRemoveExact(d: Duration, s: State, p: Path)
    requires Inv(d, s) && Exact(d, s) && Enabled(d, s, RetireRemove(p)) && Guard(d, s, RetireRemove(p))
    ensures Exact(d, Step(d, s, RetireRemove(p)))
  {
    var s' := Step(d, s, RetireRemove(p));
    assert Deletes(s.disk.manifest, p);
    RemoveIsSafe(d, s, p, s'.disk);
  }

  // ---------------------------------------------------------------- Open

  lemma OpenReplayExact(d: Duration, s: State)
    requires Inv(d, s) && Exact(d, s) && Enabled(d, s, OpenReplay)
    ensures Exact(d, Step(d, s, OpenReplay))
  {
    var rp := ReplayManifest(s.disk.manifest, s.disk.ssts);
    forall r
      ensures Skipped(d, rp.maxTs, r) <==> Covered(d, s.disk.manifest, s.disk.ssts, r)
    {
      SkippedIsCovered(d, s.disk.manifest, s.disk.ssts, r);
    }
  }

  lemma RemoveOrphanExact(d: Duration, s: State, p: Path)
    requires Inv(d, s) && Exact(d, s) && Enabled(d, s, RemoveOrphan(p)) && Guard(d, s, RemoveOrphan(p))
    ensures Exact(d, Step(d, s, RemoveOrphan(p)))
  {
    RemoveIsSafe(d, s, p, s.disk.(ssts := s.disk.ssts - {p}));
  }

  lemma RemoveCoveredWalExact(d: Duration, s: State, i: nat)
    requires Inv(d, s) && Exact(d, s) && Enabled(d, s, RemoveCoveredWal(i))
    ensures Exact(d, Step(d, s, RemoveCoveredWal(i)))
  {
    var k' := s.disk.(wals := s.disk.wals - {i});
    forall r | r in s.disk.wals[i]
      ensures Covered(d, s.disk.manifest, s.disk.ssts, r)
    {
      LoggedMember(s.disk.wals, r);
    }
    DropCoveredSegment(d, s, i, k');
    LogDrop(s.disk.wals, i);
  }

  /** The memtables Open rebuilds are the ones a crash-time reading of the disk predicts. */
  lemma RebuiltExact(d: Duration, k: Disk, maxTs: map<Win, int>, w: Win)
    requires SingleAdds(k.manifest) && FilterExact(d, k, maxTs)
    ensures At(Rebuilt(d, k.wals, maxTs), w) == Unc(d, k, w)
  {
    UncCount(d, k, w);
    forall r
      ensures ReplayedWals(d, k.wals, w, maxTs)[r] == Unc(d, k, w)[r]
    {
      WalCount(d, k.wals, w, maxTs, r);
    }
    if r :| r in Unc(d, k, w) {
      LoggedMember(k.wals, r);
      var i :| i in k.wals && r in k.wals[i];
      var j :| 0 <= j < |k.wals[i]| && k.wals[i][j] == r;
      assert w in WindowsOf(d, k.wals);
    }
  }

  lemma OpenDoneExact(d: Duration, s: State, s': State, n: nat)
    requires DiskOk(d, s.disk.manifest, s.disk.ssts) && DiskOk(d, s'.disk.manifest, s'.disk.ssts)
    requires Safe(d, s) && s.mode.Opening? && FilterExact(d, s.disk, s.mode.replayed.maxTs)
    requires s'.written == s.written && s'.mode.Running?
    requires n !in s.disk.wals && s'.disk == s.disk.(wals := s.disk.wals[n := []])
    requires var m := s'.mode.m;
             m.mem == Rebuilt(d, s.disk.wals, s.mode.replayed.maxTs) && m.pend == map[] && m.flush == NoFlush
    ensures Exact(d, s')
  {
    LogNewSegment(s.disk.wals, n);
    SameUncIsSafe(d, s, s'.disk);
    OpenedMemtables(d, s.disk, s.mode.replayed.maxTs, s'.disk, s'.mode.m);
  }

  lemma OpenedMemtables(d: Duration, k: Disk, maxTs: map<Win, int>, k': Disk, m: Memory)
    requires SingleAdds(k.manifest) && FilterExact(d, k, maxTs)
    requires m.mem == Rebuilt(d, k.wals, maxTs) && m.pend == map[] && m.flush == NoFlush
    requires forall w :: Unc(d, k', w) == Unc(d, k, w)
    ensures MemtablesExact(d, k', m)
  {
    forall w
      ensures Unc(d, k', w) == At(m.mem, w) + At(m.pend, w) + SnapOf(m.flush, w)
    {
      RebuiltExact(d, k, maxTs, w);
    }
  }

  // ---------------------------------------------------------------- every step

  lemma FlushStepExact(d: Duration, s: State, l: Label)
    requires Inv(d, s) && Exact(d, s) && Enabled(d, s, l) && Guard(d, s, l) && IsFlushStep(l)
    requires Inv(d, Step(d, s, l))
    ensures Exact(d, Step(d, s, l))
  {
    if l.FlushPublish? {
      FlushPublishExact(d, s);
    } else if l.FlushDropWal? {
      FlushDropWalExact(d, s);
    } else if l.FlushSwap? {
      FlushSwapExact(d, s.disk, s.mode.m, Step(d, s, l).mode.m);
    } else if l.FlushRotate? {
      FlushRotateExact(d, s, Step(d, s, l), s.mode.m.flush.newSeg);
    } else if l.FlushCreate? {
      FlushCreateExact(d, s);
    } else if l.FlushFinish? {
      FlushFinishExact(d, s, l.maxTs);
    } else if l.FlushDiscard? {
      FlushDiscardExact(d, s);
    } else {
      FlushQuietStep(d, s, l);
    }
  }

  lemma CompactStepExact(d: Duration, s: State, l: Label)
    requires Inv(d, s) && Exact(d, s) && Enabled(d, s, l) && Fresh(d, s, l) && Guard(d, s, l) && IsCompactStep(l)
    requires Inv(d, Step(d, s, l))
    ensures Exact(d, Step(d, s, l))
  {
    if l.CompactPublish? {
      CompactPublishExact(d, s);
    } else if l.RetirePublish? {
      RetirePublishExact(d, s);
    } else if l.CompactRemove? {
      CompactRemoveExact(d, s, l.p);
    } else if l.RetireRemove? {
      RetireRemoveExact(d, s, l.p);
    } else if l.CompactCreate? || l.CompactFinish? {
      CompactWriteStep(d, s, l);
    } else {
      CompactQuietExact(d, s, l);
    }
  }

  lemma OpenStepExact(d: Duration, s: State, l: Label)
    requires Inv(d, s) && Exact(d, s) && Enabled(d, s, l) && Guard(d, s, l) && !s.mode.Running?
    requires Inv(d, Step(d, s, l))
    ensures Exact(d, Step(d, s, l))
  {
    match l
    case Crash =>
    case OpenReplay => OpenReplayExact(d, s);
    case RemoveOrphan(p) => RemoveOrphanExact(d, s, p);
    case RemoveCoveredWal(i) => RemoveCoveredWalExact(d, s, i);
    case OpenDone => OpenDoneExact(d, s, Step(d, s, OpenDone), s.mode.walSeq + 1);
  }

  /** A guarded step keeps recovery exact. */
  lemma GuardedStep(d: Duration, s: State, l: Label)
    requires Inv(d, s) && Exact(d, s) && Enabled(d, s, l) && Guard(d, s, l) && Fresh(d, s, l) && Resumes(s, l)
    ensures Inv(d, Step(d, s, l)) && Exact(d, Step(d, s, l))
  {
    StepKeeps(d, s, l);
    if IsFlushStep(l) {
      FlushStepExact(d, s, l);
    } else if IsCompactStep(l) {
      CompactStepExact(d, s, l);
    } else if l.LogAppend? {
      LogAppendExact(d, s, l.r);
    } else if l.InsertAppend? {
      InsertAppendExact(d, s.disk, s.mode.m, l.r, Step(d, s, l).mode.m);
    } else if !l.Crash? {
      OpenStepExact(d, s, l);
    }
  }

  lemma UnguardedDrop(d: Duration, s: State)
    requires DiskOk(d, s.disk.manifest, s.disk.ssts) && Safe(d, s)
    requires Enabled(d, s, FlushDropWal) && !Guard(d, s, FlushDropWal)
    ensures !Safe(d, Step(d, s, FlushDropWal))
  {
    var i := s.mode.m.flush.oldSeg;
    var r :| r in s.disk.wals[i] && !Covered(d, s.disk.manifest, s.disk.ssts, r);
    DropWalLoses(d, s, i, r, Step(d, s, FlushDropWal));
  }

  lemma RetiredIsDead(d: Duration, s: State, p: Path)
    requires Inv(d, s) && Enabled(d, s, RetireRemove(p))
    ensures p !in Live(s.disk.manifest)
  {
    assert Deletes(s.disk.manifest, p);
  }

  lemma UnguardedRemove(d: Duration, s: State, p: Path, l: Label)
    requires DiskOk(d, s.disk.manifest, s.disk.ssts) && Safe(d, s) && p !in Live(s.disk.manifest)
    requires (l == RetireRemove(p) || l == RemoveOrphan(p)) && Enabled(d, s, l) && !KeepsCover(d, s.disk, p)
    ensures !Safe(d, Step(d, s, l))
  {
    var s' := Step(d, s, l);
    assert s'.disk == s.disk.(ssts := s.disk.ssts - {p}) && s'.written == s.written;
    RemoveBreaks(d, s, p, s');
  }

  lemma UnguardedAppend(d: Duration, s: State, r: Record)
    requires Inv(d, s) && Safe(d, s) && Enabled(d, s, LogAppend(r)) && !Guard(d, s, LogAppend(r))
    ensures !Safe(d, Step(d, s, LogAppend(r)))
  {
    LogAppendLoses(d, s, s.mode.m.active, r, Step(d, s, LogAppend(r)));
  }

  /** An unguarded step makes a crash right after it lose or duplicate a record. */
  lemma UnguardedStep(d: Duration, s: State, l: Label)
    requires Inv(d, s) && Exact(d, s) && Enabled(d, s, l) && !Guard(d, s, l)
    ensures !Safe(d, Step(d, s, l))
  {
    match l
    case LogAppend(r) => UnguardedAppend(d, s, r);
    case FlushPublish => FlushPublishBreaks(d, s);
    case FlushDropWal => UnguardedDrop(d, s);
    case RetireRemove(p) => RetiredIsDead(d, s, p); UnguardedRemove(d, s, p, l);
    case RemoveOrphan(p) => UnguardedRemove(d, s, p, l);
  }

  // ---------------------------------------------------------------- whole runs

  ghost predicate GuardedRun(d: Duration, states: seq<State>, labels: seq<Label>)
    requires IsRun(d, states, labels)
  {
    forall k :: 0 <= k < |labels| ==> Guard(d, states[k], labels[k])
  }

  lemma InitialExact(d: Duration)
    ensures Exact(d, INITIAL)
  {
    var k := INITIAL.disk;
    forall w
      ensures Recovered(d, k, w) == multiset{}
    {
      assert ContentByFile({}, k.ssts, w) == map[];
      assert UnskippedBySegment(d, k.wals, w, map[]) == map[];
    }
  }

  lemma {:induction false} GuardedPrefix(d: Duration, states: seq<State>, labels: seq<Label>, n: nat)
    requires IsRun(d, states, labels) && FreshRun(d, states, labels) && NumberedRun(states, labels) && n <= |labels|
    requires forall k :: 0 <= k < n ==> Guard(d, states[k], labels[k])
    ensures Inv(d, states[n]) && Exact(d, states[n])
  {
    if n == 0 {
      InitialExact(d);
    } else {
      GuardedPrefix(d, states, labels, n - 1);
      GuardedStep(d, states[n - 1], labels[n - 1]);
    }
  }

  /** The crash-safety theorem. In every run that never reuses a merge output name and whose Opens find the newest
      segment numbers, a crash at every point recovers exactly the records written and not retired if and only if
      every step of the run meets its guard. */
  lemma CrashSafetyIff(d: Duration, states: seq<State>, labels: seq<Label>)
    requires IsRun(d, states, labels) && FreshRun(d, states, labels) && NumberedRun(states, labels)
    ensures (forall k :: 0 <= k < |states| ==> Safe(d, states[k])) <==> GuardedRun(d, states, labels)
  {
    if GuardedRun(d, states, labels) {
      forall k | 0 <= k < |states|
        ensures Safe(d, states[k])
      {
        GuardedPrefix(d, states, labels, k);
      }
    } else {
      var n := FirstUnguarded(d, states, labels);
      GuardedPrefix(d, states, labels, n);
      UnguardedStep(d, states[n], labels[n]);
      assert !Safe(d, states[n + 1]);
    }
  }

  lemma FirstUnguarded(d: Duration, states: seq<State>, labels: seq<Label>) returns (n: nat)
    requires IsRun(d, states, labels) && !GuardedRun(d, states, labels)
    ensures n < |labels| && !Guard(d, states[n], labels[n])
    ensures forall k :: 0 <= k < n ==> Guard(d, states[k], labels[k])
  {
    n := 0;
    while Guard(d, states[n], labels[n])
      invariant n < |labels|
      invariant forall k :: 0 <= k < n ==> Guard(d, states[k], labels[k])
      decreases |labels| - n
    {
      if n + 1 == |labels| {
        assert GuardedRun(d, states, labels);
      }
      n := n + 1;
    }
  }
}
