/** A caller's discipline under which every guard holds, so that the engine is crash-safe. */
module Discipline {
  import opened Records
  import opened Windows
  import opened Bags
  import opened Protocol
  import opened DiskFacts
  import opened Structure
  import opened RecoveryCounts
  import opened CrashSafety

  /** The records logged by the first n steps. */
  function History(labels: seq<Label>, n: nat): set<Record>
    requires n <= |labels|
  {
    set i | 0 <= i < n && labels[i].LogAppend? :: labels[i].r
  }

  /** Timestamps are at least 1 and strictly increase within a window; no append to the window is between its two
      steps when its memtable is swapped; a dropped segment holds nothing unflushed of another window; retention
      is off. */
  ghost predicate Disciplined(d: Duration, s: State, l: Label, history: set<Record>)
    requires Enabled(d, s, l)
  {
    match l
    case LogAppend(r) => 1 <= r.ts && forall x :: x in history && WinOf(d, x) == WinOf(d, r) ==> x.ts < r.ts
    case FlushSwap => At(s.mode.m.pend, s.mode.m.flush.win) == multiset{}
    case FlushDropWal =>
      var i := s.mode.m.flush.oldSeg;
      i in s.disk.wals ==> forall r :: r in s.disk.wals[i] && WinOf(d, r) != s.mode.m.flush.win ==>
                             Covered(d, s.disk.manifest, s.disk.ssts, r)
    case RetirePick(_, _) => false
    case _ => true
  }

  // ---------------------------------------------------------------- the invariant of disciplined runs

  ghost predicate WalsKnown(wals: map<nat, seq<Record>>, history: set<Record>) {
    forall i, r :: i in wals && r in wals[i] ==> r in history
  }

  ghost predicate IsStamp(d: Duration, history: set<Record>, e: Entry) {
    exists r :: r in history && WinOf(d, r) == e.path.win && r.ts == e.maxTs
  }

  ghost predicate EntriesKnown(d: Duration, manifest: seq<Edit>, history: set<Record>) {
    forall e :: Adds(manifest, e) ==> IsStamp(d, history, e)
  }

  ghost predicate OnlyMergesDelete(manifest: seq<Edit>) {
    forall p :: Deletes(manifest, p) ==> exists x :: Supersedes(manifest, x, p)
  }

  /** r arrived in the flushed window after everything the flush is about to make redundant. */
  ghost predicate AfterFlush(d: Duration, k: Disk, f: Flush, r: Record) {
    f.Flushing? && (f.pc == Swapped || f.pc == Written || f.pc == Published) ==>
      (forall x :: x in f.snap ==> x.ts < r.ts)
      && (f.oldSeg in k.wals ==> forall y :: y in k.wals[f.oldSeg] && WinOf(d, y) == f.win ==> y.ts < r.ts)
  }

  ghost predicate NewcomersLater(d: Duration, k: Disk, m: Memory) {
    m.flush.Flushing? ==>
      forall r :: r in At(m.mem, m.flush.win) || r in At(m.pend, m.flush.win) ==> AfterFlush(d, k, m.flush, r)
  }

  ghost predicate Ordered(d: Duration, s: State, history: set<Record>) {
    (forall x :: x in history ==> 1 <= x.ts)
    && WalsKnown(s.disk.wals, history) && EntriesKnown(d, s.disk.manifest, history) && OnlyMergesDelete(s.disk.manifest)
    && (s.mode.Running? ==> !s.mode.m.compact.Retiring? && NewcomersLater(d, s.disk, s.mode.m))
  }

  /** Whatever memory holds unflushed was logged. */
  lemma UnflushedKnown(d: Duration, s: State, history: set<Record>, w: Win, r: Record)
    requires Inv(d, s) && Exact(d, s) && WalsKnown(s.disk.wals, history) && s.mode.Running?
    requires r in At(s.mode.m.mem, w) || r in At(s.mode.m.pend, w) || r in SnapOf(s.mode.m.flush, w)
    ensures r in history && WinOf(d, r) == w && !Covered(d, s.disk.manifest, s.disk.ssts, r)
  {
    var u := Unc(d, s.disk, w);
    assert u == At(s.mode.m.mem, w) + At(s.mode.m.pend, w) + SnapOf(s.mode.m.flush, w);
    assert r in u;
    UncCount(d, s.disk, w);
    LoggedMember(s.disk.wals, r);
  }

  // ---------------------------------------------------------------- discipline implies the guards

  lemma AppendGuard(d: Duration, s: State, r: Record, history: set<Record>)
    requires Ordered(d, s, history) && Enabled(d, s, LogAppend(r)) && Disciplined(d, s, LogAppend(r), history)
    ensures Guard(d, s, LogAppend(r))
  {
    forall e | Adds(s.disk.manifest, e)
      ensures !Covers(d, e, r)
    {
      assert IsStamp(d, history, e);
    }
  }

  lemma PublishGuard(d: Duration, s: State, history: set<Record>)
    requires Inv(d, s) && Exact(d, s) && Ordered(d, s, history) && Enabled(d, s, FlushPublish)
    ensures Guard(d, s, FlushPublish)
  {
    var m := s.mode.m;
    var f := m.flush;
    var top :| top in f.snap && top.ts == f.maxTs;
    UnflushedKnown(d, s, history, f.win, top);
    forall r | r in At(m.mem, f.win) || r in At(m.pend, f.win)
      ensures f.maxTs < r.ts
    {
      assert AfterFlush(d, s.disk, f, r);
    }
  }

  lemma DroppedIsCovered(d: Duration, s: State, history: set<Record>, r: Record)
    requires Inv(d, s) && Exact(d, s) && Ordered(d, s, history) && Enabled(d, s, FlushDropWal)
    requires var f := s.mode.m.flush;
             f.oldSeg in s.disk.wals && r in s.disk.wals[f.oldSeg] && WinOf(d, r) == f.win
    ensures Covered(d, s.disk.manifest, s.disk.ssts, r)
  {
    var m, f := s.mode.m, s.mode.m.flush;
    UncCount(d, s.disk, f.win);
    LoggedMember(s.disk.wals, r);
    assert r in Logged(s.disk.wals);
    assert SnapOf(f, f.win) == multiset{};
    assert Unc(d, s.disk, f.win) == At(m.mem, f.win) + At(m.pend, f.win) + multiset{};
    assert r in At(m.mem, f.win) || r in At(m.pend, f.win) ==> AfterFlush(d, s.disk, f, r);
  }

  lemma DropGuard(d: Duration, s: State, history: set<Record>)
    requires Inv(d, s) && Exact(d, s) && Ordered(d, s, history) && Enabled(d, s, FlushDropWal)
    requires Disciplined(d, s, FlushDropWal, history)
    ensures Guard(d, s, FlushDropWal)
  {
    var f := s.mode.m.flush;
    if f.oldSeg in s.disk.wals {
      forall r | r in s.disk.wals[f.oldSeg]
        ensures Covered(d, s.disk.manifest, s.disk.ssts, r)
      {
        if WinOf(d, r) == f.win { DroppedIsCovered(d, s, history, r); }
      }
    }
  }

  lemma {:induction false} DeadIsDeleted(manifest: seq<Edit>, e: Entry)
    requires Adds(manifest, e) && e.path !in Live(manifest)
    ensures Deletes(manifest, e.path)
  {
    if e in Last(manifest).added {
      assert e.path in AddedPaths(Last(manifest));
    } else if e.path !in Live(Front(manifest)) {
      DeadIsDeleted(Front(manifest), e);
    }
  }

  lemma OrphanGuard(d: Duration, s: State, p: Path)
    requires Inv(d, s) && Enabled(d, s, RemoveOrphan(p)) && OnlyMergesDelete(s.disk.manifest)
    ensures Guard(d, s, RemoveOrphan(p))
  {
    if Mentioned(s.disk.manifest, p) {
      var e :| Adds(s.disk.manifest, e) && e.path == p;
      DeadIsDeleted(s.disk.manifest, e);
    }
    MergeInputKeepsCover(d, s.disk, p);
  }

  lemma DisciplineGuards(d: Duration, s: State, l: Label, history: set<Record>)
    requires Inv(d, s) && Exact(d, s) && Ordered(d, s, history) && Enabled(d, s, l) && Disciplined(d, s, l, history)
    ensures Guard(d, s, l)
  {
    if l.LogAppend? {
      AppendGuard(d, s, l.r, history);
    } else if l.FlushPublish? {
      PublishGuard(d, s, history);
    } else if l.FlushDropWal? {
      DropGuard(d, s, history);
    } else if l.RemoveOrphan? {
      OrphanGuard(d, s, l.p);
    }
  }

  // ---------------------------------------------------------------- the invariant is kept

  lemma AppendNewcomers(d: Duration, k: Disk, m: Memory, r: Record, k': Disk, m': Memory)
    requires NewcomersLater(d, k, m) && SegmentsOk(k, m) && m' == m.(pend := Add(m.pend, WinOf(d, r), multiset{r}))
    requires k' == k.(wals := k.wals[m.active := k.wals[m.active] + [r]])
    requires m.flush.Flushing? && WinOf(d, r) == m.flush.win ==> AfterFlush(d, k', m.flush, r)
    ensures NewcomersLater(d, k', m')
  {
    if m.flush.Flushing? {
      forall x | x in At(m'.mem, m.flush.win) || x in At(m'.pend, m.flush.win)
        ensures AfterFlush(d, k', m'.flush, x)
      {
        AtAdd(m.pend, WinOf(d, r), r, m.flush.win);
        if x in At(m.mem, m.flush.win) || x in At(m.pend, m.flush.win) {
          assert AfterFlush(d, k, m.flush, x);
          assert m.flush.pc != Taken ==> m.active != m.flush.oldSeg;
        }
      }
    }
  }

  lemma WalsGrow(wals: map<nat, seq<Record>>, i: nat, r: Record, history: set<Record>)
    requires WalsKnown(wals, history) && i in wals
    ensures WalsKnown(wals[i := wals[i] + [r]], history + {r})
  {}

  lemma LogAppendOrdered(d: Duration, s: State, r: Record, history: set<Record>)
    requires Inv(d, s) && Ordered(d, s, history)
    requires Enabled(d, s, LogAppend(r)) && Disciplined(d, s, LogAppend(r), history)
    requires s.mode.m.flush.Flushing? && WinOf(d, r) == s.mode.m.flush.win ==>
               AfterFlush(d, Step(d, s, LogAppend(r)).disk, s.mode.m.flush, r)
    ensures Ordered(d, Step(d, s, LogAppend(r)), history + {r})
  {
    var s' := Step(d, s, LogAppend(r));
    EntriesStayKnown(d, s.disk.manifest, history, r);
    WalsGrow(s.disk.wals, s.mode.m.active, r, history);
    AppendNewcomers(d, s.disk, s.mode.m, r, s'.disk, s'.mode.m);
  }

  lemma EntriesStayKnown(d: Duration, manifest: seq<Edit>, history: set<Record>, r: Record)
    requires EntriesKnown(d, manifest, history)
    ensures EntriesKnown(d, manifest, history + {r})
  {
    forall e | Adds(manifest, e)
      ensures IsStamp(d, history + {r}, e)
    {
      var x :| x in history && WinOf(d, x) == e.path.win && x.ts == e.maxTs;
      assert x in history + {r};
    }
  }

  lemma NewcomerIsLast(d: Duration, s: State, r: Record, history: set<Record>)
    requires Inv(d, s) && Exact(d, s) && Ordered(d, s, history)
    requires Enabled(d, s, LogAppend(r)) && Disciplined(d, s, LogAppend(r), history)
    requires s.mode.m.flush.Flushing? && WinOf(d, r) == s.mode.m.flush.win
    ensures AfterFlush(d, Step(d, s, LogAppend(r)).disk, s.mode.m.flush, r)
  {
    var f, k := s.mode.m.flush, s.disk;
    if f.pc == Swapped || f.pc == Written || f.pc == Published {
      forall x | x in f.snap
        ensures x.ts < r.ts
      {
        if f.pc == Published { PublishedKnown(d, s, history, x); } else { UnflushedKnown(d, s, history, f.win, x); }
      }
    }
  }

  /** A published snapshot is no later than its file's maximum, which is a logged timestamp. */
  lemma PublishedKnown(d: Duration, s: State, history: set<Record>, x: Record)
    requires Inv(d, s) && Ordered(d, s, history) && FlushAt(s, Published) && x in s.mode.m.flush.snap
    ensures exists y :: y in history && WinOf(d, y) == s.mode.m.flush.win && x.ts <= y.ts
  {
    var p := s.mode.m.flush.Out();
    LiveIsMentioned(s.disk.manifest, p);
    var e :| Adds(s.disk.manifest, e) && e.path == p;
    assert IsStamp(d, history, e);
    assert IsMax(s.disk.ssts[p].content, e.maxTs);
  }

  /** The manifest part, over the three kinds of edit. */
  lemma ManifestOrdered(d: Duration, manifest: seq<Edit>, e: Edit, history: set<Record>)
    requires EntriesKnown(d, manifest, history) && OnlyMergesDelete(manifest)
    requires forall x :: x in e.added ==> IsStamp(d, history, x)
    requires e.deleted != [] ==> e.added != []
    ensures EntriesKnown(d, manifest + [e], history) && OnlyMergesDelete(manifest + [e])
  {
    var all := manifest + [e];
    Appended(manifest, e);
    forall p | Deletes(all, p)
      ensures exists x :: Supersedes(all, x, p)
    {
      if Deletes(manifest, p) {
        var x :| Supersedes(manifest, x, p);
        assert Supersedes(all, x, p);
      } else {
        assert Supersedes(all, e.added[0], p);
      }
    }
  }

  lemma FlushedStamp(d: Duration, s: State, history: set<Record>)
    requires Inv(d, s) && Exact(d, s) && WalsKnown(s.disk.wals, history) && Enabled(d, s, FlushPublish)
    ensures IsStamp(d, history, FlushEntry(s.mode.m.flush))
  {
    var f := s.mode.m.flush;
    var top :| top in f.snap && top.ts == f.maxTs;
    UnflushedKnown(d, s, history, f.win, top);
  }

  lemma PublishOrdered(d: Duration, s: State, history: set<Record>)
    requires Ordered(d, s, history) && Enabled(d, s, FlushPublish) && IsStamp(d, history, FlushEntry(s.mode.m.flush))
    ensures Ordered(d, Step(d, s, FlushPublish), history)
  {
    var s' := Step(d, s, FlushPublish);
    ManifestOrdered(d, s.disk.manifest, Edit([FlushEntry(s.mode.m.flush)], []), history);
    FlushMovesOrdered(d, s.disk, s.mode.m, s'.disk, s'.mode.m);
  }

  /** A merge's maximum is the maximum of one of its inputs. */
  lemma MergedStamp(d: Duration, k: Disk, m: Memory, history: set<Record>)
    requires LiveFilesGood(d, k.manifest, k.ssts) && CompactOk(k, m) && FilesOk(k, m)
             && EntriesKnown(d, k.manifest, history)
    requires m.compact.Compacting? && m.compact.cpc == OutWritten
    ensures IsStamp(d, history, Entry(m.compact.out, m.compact.outMax))
  {
    var c := m.compact;
    InputsAreLive(k, m, c.inputs);
    var top :| top in c.bag && top.ts == c.outMax;
    var p := HolderOf(m.files, c.inputs, top);
    var e, x := StampOfFile(d, k, p, history);
    MergedHoldsInput(m.files, c.inputs, p);
    assert x in c.bag;
  }

  /** The maximum of a live file is a logged timestamp. */
  lemma StampOfFile(d: Duration, k: Disk, p: Path, history: set<Record>) returns (e: Entry, x: Record)
    requires LiveFilesGood(d, k.manifest, k.ssts) && EntriesKnown(d, k.manifest, history) && p in Live(k.manifest)
    ensures e.path == p && IsStamp(d, history, e) && p in k.ssts && k.ssts[p].Complete?
    ensures IsMax(k.ssts[p].content, e.maxTs) && x in k.ssts[p].content && x.ts == e.maxTs
  {
    LiveIsMentioned(k.manifest, p);
    e :| Adds(k.manifest, e) && e.path == p;
    assert IsMax(k.ssts[p].content, e.maxTs);
    x :| x in k.ssts[p].content && x.ts == e.maxTs;
  }

  lemma CompactPublishOrdered(d: Duration, s: State, history: set<Record>)
    requires Inv(d, s) && Ordered(d, s, history) && Enabled(d, s, CompactPublish)
    ensures Ordered(d, Step(d, s, CompactPublish), history)
  {
    MergedStamp(d, s.disk, s.mode.m, history);
    ManifestOrdered(d, s.disk.manifest, MergeEdit(s.mode.m.compact), history);
    NewcomersStayLater(d, s.disk, s.mode.m, Step(d, s, CompactPublish).disk, Step(d, s, CompactPublish).mode.m);
  }

  lemma NewcomersStayLater(d: Duration, k: Disk, m: Memory, k': Disk, m': Memory)
    requires NewcomersLater(d, k, m) && m'.flush == m.flush && m'.mem == m.mem && m'.pend == m.pend && k'.wals == k.wals
    ensures NewcomersLater(d, k', m')
  {
    if m.flush.Flushing? {
      forall r | r in At(m.mem, m.flush.win) || r in At(m.pend, m.flush.win)
        ensures AfterFlush(d, k', m'.flush, r)
      {
        assert AfterFlush(d, k, m.flush, r);
      }
    }
  }

  lemma InsertOrdered(d: Duration, k: Disk, m: Memory, r: Record, m': Memory)
    requires NewcomersLater(d, k, m) && r in At(m.pend, WinOf(d, r))
    requires var w := WinOf(d, r);
             m' == m.(pend := m.pend[w := At(m.pend, w) - multiset{r}], mem := Add(m.mem, w, multiset{r}))
    ensures NewcomersLater(d, k, m')
  {
    if m.flush.Flushing? {
      forall x | x in At(m'.mem, m.flush.win) || x in At(m'.pend, m.flush.win)
        ensures AfterFlush(d, k, m'.flush, x)
      {
        assert x in At(m.mem, m.flush.win) || x in At(m.pend, m.flush.win);
      }
    }
  }

  /** The flush moves on: nothing new becomes redundant, except at the swap, when no newcomer is there yet. */
  lemma FlushMovesOrdered(d: Duration, k: Disk, m: Memory, k': Disk, m': Memory)
    requires NewcomersLater(d, k, m) && m'.mem == m.mem && m'.pend == m.pend
    requires m'.flush.Flushing? ==>
               m.flush.Flushing? && m'.flush.win == m.flush.win && m'.flush.oldSeg == m.flush.oldSeg
               && m'.flush.snap == m.flush.snap
               && (m'.flush.pc == Written ==> m.flush.pc == Swapped)
               && (m'.flush.pc == Published ==> m.flush.pc == Written)
               && m'.flush.pc != Swapped
               && (m.flush.oldSeg in k'.wals ==>
                     m.flush.oldSeg in k.wals && k'.wals[m.flush.oldSeg] == k.wals[m.flush.oldSeg])
    ensures NewcomersLater(d, k', m')
  {
    if m'.flush.Flushing? {
      forall r | r in At(m.mem, m.flush.win) || r in At(m.pend, m.flush.win)
        ensures AfterFlush(d, k', m'.flush, r)
      {
        assert AfterFlush(d, k, m.flush, r);
      }
    }
  }

  lemma FlushStartsOrdered(d: Duration, s: State, l: Label, history: set<Record>)
    requires Ordered(d, s, history) && Enabled(d, s, l) && Disciplined(d, s, l, history)
             && (l.FlushTake? || l.FlushSwap?)
    ensures Ordered(d, Step(d, s, l), history)
  {
    var m' := Step(d, s, l).mode.m;
    if l.FlushSwap? {
      assert At(m'.mem, m'.flush.win) == multiset{} && At(m'.pend, m'.flush.win) == multiset{};
    }
  }

  lemma FlushGoesOnOrdered(d: Duration, s: State, l: Label, history: set<Record>)
    requires Inv(d, s) && Ordered(d, s, history) && Enabled(d, s, l) && IsFlushStep(l)
    requires !l.FlushTake? && !l.FlushSwap? && !l.FlushPublish?
    ensures Ordered(d, Step(d, s, l), history)
  {
    FlushMovesOrdered(d, s.disk, s.mode.m, Step(d, s, l).disk, Step(d, s, l).mode.m);
  }

  lemma FlushStepOrdered(d: Duration, s: State, l: Label, history: set<Record>)
    requires Inv(d, s) && Exact(d, s) && Ordered(d, s, history)
    requires Enabled(d, s, l) && Disciplined(d, s, l, history) && IsFlushStep(l)
    ensures Ordered(d, Step(d, s, l), history)
  {
    if l.FlushPublish? {
      FlushedStamp(d, s, history);
      PublishOrdered(d, s, history);
    } else if l.FlushTake? || l.FlushSwap? {
      FlushStartsOrdered(d, s, l, history);
    } else {
      FlushGoesOnOrdered(d, s, l, history);
    }
  }

  lemma CompactStepOrdered(d: Duration, s: State, l: Label, history: set<Record>)
    requires Inv(d, s) && Ordered(d, s, history)
    requires Enabled(d, s, l) && Disciplined(d, s, l, history) && IsCompactStep(l)
    ensures Ordered(d, Step(d, s, l), history)
  {
    if l.CompactPublish? {
      CompactPublishOrdered(d, s, history);
    } else {
      NewcomersStayLater(d, s.disk, s.mode.m, Step(d, s, l).disk, Step(d, s, l).mode.m);
    }
  }

  lemma OrderedStep(d: Duration, s: State, l: Label, history: set<Record>)
    requires Inv(d, s) && Exact(d, s) && Ordered(d, s, history) && Enabled(d, s, l) && Disciplined(d, s, l, history)
    ensures Ordered(d, Step(d, s, l), if l.LogAppend? then history + {l.r} else history)
  {
    if IsFlushStep(l) {
      FlushStepOrdered(d, s, l, history);
    } else if IsCompactStep(l) {
      CompactStepOrdered(d, s, l, history);
    } else if l.LogAppend? {
      if s.mode.m.flush.Flushing? && WinOf(d, l.r) == s.mode.m.flush.win { NewcomerIsLast(d, s, l.r, history); }
      LogAppendOrdered(d, s, l.r, history);
    } else {
      QuietStepOrdered(d, s, l, history);
    }
  }

  /** The second half of an append, crashes and the steps of Open. */
  lemma QuietStepOrdered(d: Duration, s: State, l: Label, history: set<Record>)
    requires Ordered(d, s, history) && Enabled(d, s, l) && !IsFlushStep(l) && !IsCompactStep(l) && !l.LogAppend?
    ensures Ordered(d, Step(d, s, l), history)
  {
    if l.InsertAppend? { InsertOrdered(d, s.disk, s.mode.m, l.r, Step(d, s, l).mode.m); }
  }

  // ---------------------------------------------------------------- whole runs

  ghost predicate DisciplinedRun(d: Duration, states: seq<State>, labels: seq<Label>)
    requires IsRun(d, states, labels)
  {
    forall k :: 0 <= k < |labels| ==> Disciplined(d, states[k], labels[k], History(labels, k))
  }

  lemma DisciplinedStep(d: Duration, s: State, l: Label, history: set<Record>)
    requires Inv(d, s) && Exact(d, s) && Ordered(d, s, history)
    requires Enabled(d, s, l) && Fresh(d, s, l) && Resumes(s, l) && Disciplined(d, s, l, history)
    ensures Guard(d, s, l) && Inv(d, Step(d, s, l)) && Exact(d, Step(d, s, l))
    ensures Ordered(d, Step(d, s, l), if l.LogAppend? then history + {l.r} else history)
  {
    DisciplineGuards(d, s, l, history);
    GuardedStep(d, s, l);
    OrderedStep(d, s, l, history);
  }

  lemma HistoryGrows(labels: seq<Label>, n: nat)
    requires n < |labels|
    ensures History(labels, n + 1)
              == if labels[n].LogAppend? then History(labels, n) + {labels[n].r} else History(labels, n)
  {}

  lemma {:induction false} DisciplinedPrefix(d: Duration, states: seq<State>, labels: seq<Label>, n: nat)
    requires IsRun(d, states, labels) && FreshRun(d, states, labels) && NumberedRun(states, labels)
             && DisciplinedRun(d, states, labels) && n <= |labels|
    ensures Inv(d, states[n]) && Exact(d, states[n]) && Ordered(d, states[n], History(labels, n))
    ensures forall k :: 0 <= k < n ==> Guard(d, states[k], labels[k])
  {
    if n == 0 {
      InitialExact(d);
    } else {
      DisciplinedPrefix(d, states, labels, n - 1);
      DisciplinedStep(d, states[n - 1], labels[n - 1], History(labels, n - 1));
      HistoryGrows(labels, n - 1);
    }
  }

  /** Crash safety for every disciplined run: whatever the interleaving of appends, flush steps and merge steps, and
      wherever the crashes fall, Open recovers every logged record exactly once and nothing else. */
  lemma DisciplinedRunsAreSafe(d: Duration, states: seq<State>, labels: seq<Label>, n: nat, w: Win)
    requires IsRun(d, states, labels) && FreshRun(d, states, labels) && NumberedRun(states, labels)
             && DisciplinedRun(d, states, labels) && n <= |labels|
    ensures Recovered(d, states[n].disk, w) == At(states[n].written, w)
  {
    DisciplinedPrefix(d, states, labels, n);
  }
}
