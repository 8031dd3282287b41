/** What flushes, merges, retirements and appends do over a run, told from the labels: which window a flush empties,
    what its file is called and holds, and in which order the log keeps the appends (internal/engine/engine.go). */
module Effects {
  import opened Bytes
  import opened Records
  import opened Windows
  import opened Bags
  import opened Protocol
  import opened DiskFacts
  import opened Structure

  // ---------------------------------------------------------------- following a run

  /** What holds at i and is kept by every step up to x holds at x. */
  lemma {:induction false} Carry(holds: seq<bool>, i: nat, x: nat)
    requires i <= x < |holds| && holds[i] && forall k :: i <= k < x ==> holds[k] ==> holds[k + 1]
    ensures holds[x]
    decreases x
  {
    if i < x { Carry(holds, i, x - 1); }
  }

  // ---------------------------------------------------------------- flushPartition

  /** Between positions i and x the engine neither dies nor starts another flush. */
  predicate OneFlush(labels: seq<Label>, i: nat, x: nat) {
    x <= |labels| && forall k :: i < k < x ==> labels[k] != Crash && !labels[k].FlushTake?
  }

  /** The flush going on, if there still is one, is of window w and writes segment n next. */
  ghost predicate FlushOf(s: State, w: Win, n: nat) {
    s.mode.Running? && (s.mode.m.flush.NoFlush?
                        || (s.mode.m.flush.win == w && s.mode.m.flush.newSeg == n && s.mode.m.flush.oldSeg == n - 1))
  }

  lemma FlushOfStarts(d: Duration, s: State, w: Win, s': State)
    requires Enabled(d, s, FlushTake(w)) && s' == Step(d, s, FlushTake(w))
    ensures FlushOf(s', w, s.mode.m.walSeq + 1)
  {}

  lemma FlushOfStays(d: Duration, s: State, l: Label, s': State, w: Win, n: nat)
    requires Enabled(d, s, l) && s' == Step(d, s, l) && FlushOf(s, w, n) && l != Crash && !l.FlushTake?
    ensures FlushOf(s', w, n)
  {}

  lemma FlushStaysAt(d: Duration, states: seq<State>, labels: seq<Label>, k: nat, w: Win, n: nat)
    requires IsRun(d, states, labels) && k < |labels| && labels[k] != Crash && !labels[k].FlushTake?
    ensures FlushOf(states[k], w, n) ==> FlushOf(states[k + 1], w, n)
  {
    if FlushOf(states[k], w, n) { FlushOfStays(d, states[k], labels[k], states[k + 1], w, n); }
  }

  lemma FlushFollowed(d: Duration, states: seq<State>, labels: seq<Label>, i: nat, x: nat, w: Win)
    requires IsRun(d, states, labels) && i < x && OneFlush(labels, i, x) && labels[i] == FlushTake(w)
    ensures states[i].mode.Running? && FlushOf(states[x], w, states[i].mode.m.walSeq + 1)
  {
    FlushOfStarts(d, states[i], w, states[i + 1]);
    var n := states[i].mode.m.walSeq + 1;
    var holds := seq(|states|, k requires 0 <= k < |states| => FlushOf(states[k], w, n));
    forall k | i + 1 <= k < x
      ensures holds[k] ==> holds[k + 1]
    {
      FlushStaysAt(d, states, labels, k, w, n);
    }
    Carry(holds, i + 1, x);
  }

  /** The flush going on, if there still is one, has swapped out b. */
  ghost predicate SnapOf(s: State, b: Bag) {
    s.mode.Running? && (s.mode.m.flush.NoFlush?
                        || (s.mode.m.flush.snap == b && !s.mode.m.flush.pc.Taken? && !s.mode.m.flush.pc.Rotated?
                            && !s.mode.m.flush.pc.Created?))
  }

  lemma SnapOfStarts(d: Duration, s: State, s': State)
    requires Enabled(d, s, FlushSwap) && s' == Step(d, s, FlushSwap)
    ensures SnapOf(s', At(s.mode.m.mem, s.mode.m.flush.win))
  {}

  lemma SnapOfStays(d: Duration, s: State, l: Label, s': State, b: Bag)
    requires Enabled(d, s, l) && s' == Step(d, s, l) && SnapOf(s, b) && l != Crash && !l.FlushTake?
    ensures SnapOf(s', b)
  {}

  lemma SnapStaysAt(d: Duration, states: seq<State>, labels: seq<Label>, k: nat, b: Bag)
    requires IsRun(d, states, labels) && k < |labels| && labels[k] != Crash && !labels[k].FlushTake?
    ensures SnapOf(states[k], b) ==> SnapOf(states[k + 1], b)
  {
    if SnapOf(states[k], b) { SnapOfStays(d, states[k], labels[k], states[k + 1], b); }
  }

  lemma SnapFollowed(d: Duration, states: seq<State>, labels: seq<Label>, j: nat, x: nat)
    requires IsRun(d, states, labels) && j < x && OneFlush(labels, j, x) && labels[j] == FlushSwap
    ensures FlushAt(states[j], Created)
    ensures SnapOf(states[x], At(states[j].mode.m.mem, states[j].mode.m.flush.win))
  {
    SnapOfStarts(d, states[j], states[j + 1]);
    var b := At(states[j].mode.m.mem, states[j].mode.m.flush.win);
    var holds := seq(|states|, k requires 0 <= k < |states| => SnapOf(states[k], b));
    forall k | j + 1 <= k < x
      ensures holds[k] ==> holds[k + 1]
    {
      SnapStaysAt(d, states, labels, k, b);
    }
    Carry(holds, j + 1, x);
  }

  /** The file that the flush of w creates is named after w and the segment it switches to. */
  lemma FlushCreates(d: Duration, states: seq<State>, labels: seq<Label>, i: nat, c: nat, w: Win)
    requires IsRun(d, states, labels) && i < c < |labels| && OneFlush(labels, i, c)
    requires labels[i] == FlushTake(w) && labels[c] == FlushCreate
    ensures states[i].mode.Running?
    ensures var out := FlushPath(w, states[i].mode.m.walSeq + 1);
            states[c + 1].disk.ssts == states[c].disk.ssts[out := Partial]
  {
    FlushFollowed(d, states, labels, i, c, w);
  }

  /** The log moves on to a new, empty segment. */
  lemma FlushRotates(d: Duration, states: seq<State>, labels: seq<Label>, i: nat, q: nat, w: Win)
    requires IsRun(d, states, labels) && FreshRun(d, states, labels) && NumberedRun(states, labels)
    requires i < q < |labels| && OneFlush(labels, i, q) && labels[i] == FlushTake(w) && labels[q] == FlushRotate
    ensures states[i].mode.Running? && states[q].mode.Running? && states[q + 1].mode.Running?
    ensures var n := states[i].mode.m.walSeq + 1;
            n !in states[q].disk.wals && states[q + 1].disk.wals == states[q].disk.wals[n := []]
            && states[q + 1].mode.m.active == n
  {
    FlushFollowed(d, states, labels, i, q, w);
    Reachable(d, states, labels, q);
    NewSegmentIsNew(d, states[q]);
  }

  lemma NewSegmentIsNew(d: Duration, s: State)
    requires Inv(d, s) && Enabled(d, s, FlushRotate)
    ensures s.mode.m.flush.newSeg !in s.disk.wals
  {}

  /** The swap empties the memtable of w and leaves every other one alone. */
  lemma FlushSwaps(d: Duration, states: seq<State>, labels: seq<Label>, i: nat, j: nat, w: Win)
    requires IsRun(d, states, labels) && i < j < |labels| && OneFlush(labels, i, j)
    requires labels[i] == FlushTake(w) && labels[j] == FlushSwap
    ensures states[j].mode.Running? && states[j + 1].mode.Running?
    ensures At(states[j + 1].mode.m.mem, w) == multiset{}
    ensures forall v :: v != w ==> At(states[j + 1].mode.m.mem, v) == At(states[j].mode.m.mem, v)
  {
    FlushFollowed(d, states, labels, i, j, w);
  }

  /** What the flush of w has swapped out is the memtable of w at the swap. */
  lemma FlushHolds(d: Duration, states: seq<State>, labels: seq<Label>, i: nat, j: nat, x: nat, w: Win)
    requires IsRun(d, states, labels) && i < j < x && OneFlush(labels, i, x)
    requires labels[i] == FlushTake(w) && labels[j] == FlushSwap
    ensures states[i].mode.Running? && states[j].mode.Running?
    ensures FlushOf(states[x], w, states[i].mode.m.walSeq + 1) && SnapOf(states[x], At(states[j].mode.m.mem, w))
  {
    FlushFollowed(d, states, labels, i, x, w);
    FlushFollowed(d, states, labels, i, j, w);
    SnapFollowed(d, states, labels, j, x);
  }

  /** The file holds exactly what the memtable of w held at the swap. */
  lemma FlushWrites(d: Duration, states: seq<State>, labels: seq<Label>, i: nat, j: nat, k: nat, w: Win)
    requires IsRun(d, states, labels) && i < j < k < |labels| && OneFlush(labels, i, k)
    requires labels[i] == FlushTake(w) && labels[j] == FlushSwap && labels[k].FlushFinish?
    ensures states[i].mode.Running? && states[j].mode.Running?
    ensures var out := FlushPath(w, states[i].mode.m.walSeq + 1);
            states[k + 1].disk.ssts == states[k].disk.ssts[out := Complete(At(states[j].mode.m.mem, w))]
  {
    FlushHolds(d, states, labels, i, j, k, w);
  }

  /** An empty memtable leaves no file. */
  lemma FlushDiscards(d: Duration, states: seq<State>, labels: seq<Label>, i: nat, j: nat, k: nat, w: Win)
    requires IsRun(d, states, labels) && i < j < k < |labels| && OneFlush(labels, i, k)
    requires labels[i] == FlushTake(w) && labels[j] == FlushSwap && labels[k] == FlushDiscard
    ensures states[i].mode.Running? && states[j].mode.Running? && At(states[j].mode.m.mem, w) == multiset{}
    ensures states[k + 1].disk.ssts == states[k].disk.ssts - {FlushPath(w, states[i].mode.m.walSeq + 1)}
  {
    FlushHolds(d, states, labels, i, j, k, w);
  }

  /** The flush going on, if it has written its file, recorded the maximum t. */
  ghost predicate MaxOf(s: State, t: int) {
    s.mode.Running? && (s.mode.m.flush.NoFlush?
                        || (s.mode.m.flush.maxTs == t && !s.mode.m.flush.pc.Taken? && !s.mode.m.flush.pc.Rotated?
                            && !s.mode.m.flush.pc.Created? && !s.mode.m.flush.pc.Swapped?))
  }

  lemma MaxOfStarts(d: Duration, s: State, t: int, s': State)
    requires Enabled(d, s, FlushFinish(t)) && s' == Step(d, s, FlushFinish(t))
    ensures MaxOf(s', t)
  {}

  lemma MaxOfStays(d: Duration, s: State, l: Label, s': State, t: int)
    requires Enabled(d, s, l) && s' == Step(d, s, l) && MaxOf(s, t) && l != Crash && !l.FlushTake?
    ensures MaxOf(s', t)
  {}

  lemma MaxStaysAt(d: Duration, states: seq<State>, labels: seq<Label>, k: nat, t: int)
    requires IsRun(d, states, labels) && k < |labels| && labels[k] != Crash && !labels[k].FlushTake?
    ensures MaxOf(states[k], t) ==> MaxOf(states[k + 1], t)
  {
    if MaxOf(states[k], t) { MaxOfStays(d, states[k], labels[k], states[k + 1], t); }
  }

  lemma MaxFollowed(d: Duration, states: seq<State>, labels: seq<Label>, k: nat, x: nat)
    requires IsRun(d, states, labels) && k < x && OneFlush(labels, k, x) && labels[k].FlushFinish?
    ensures MaxOf(states[x], labels[k].maxTs)
  {
    var t := labels[k].maxTs;
    MaxOfStarts(d, states[k], t, states[k + 1]);
    var holds := seq(|states|, q requires 0 <= q < |states| => MaxOf(states[q], t));
    forall q | k + 1 <= q < x
      ensures holds[q] ==> holds[q + 1]
    {
      MaxStaysAt(d, states, labels, q, t);
    }
    Carry(holds, k + 1, x);
  }

  /** The edit adds that file, with the maximum of what it holds, and deletes nothing. */
  lemma FlushPublishes(d: Duration, states: seq<State>, labels: seq<Label>, i: nat, k: nat, p: nat, w: Win)
    requires IsRun(d, states, labels) && i < k < p < |labels| && OneFlush(labels, i, p)
    requires labels[i] == FlushTake(w) && labels[k].FlushFinish? && labels[p] == FlushPublish
    ensures states[i].mode.Running?
    ensures var out := FlushPath(w, states[i].mode.m.walSeq + 1);
            states[p + 1].disk.manifest == states[p].disk.manifest + [Edit([Entry(out, labels[k].maxTs)], [])]
  {
    FlushFollowed(d, states, labels, i, p, w);
    MaxFollowed(d, states, labels, k, p);
  }

  /** The segment deleted is the one that was active when the flush began. */
  lemma FlushDrops(d: Duration, states: seq<State>, labels: seq<Label>, i: nat, q: nat, w: Win)
    requires IsRun(d, states, labels) && i < q < |labels| && OneFlush(labels, i, q)
    requires labels[i] == FlushTake(w) && labels[q] == FlushDropWal
    ensures states[i].mode.Running? && states[q + 1].disk.wals == states[q].disk.wals - {states[i].mode.m.walSeq}
  {
    FlushFollowed(d, states, labels, i, q, w);
  }

  /** Registering adds exactly that file, with what the memtable of w held at the swap. */
  lemma FlushRegisters(d: Duration, states: seq<State>, labels: seq<Label>, i: nat, j: nat, l: nat, w: Win)
    requires IsRun(d, states, labels) && FreshRun(d, states, labels) && NumberedRun(states, labels)
    requires i < j < l < |labels| && OneFlush(labels, i, l)
    requires labels[i] == FlushTake(w) && labels[j] == FlushSwap && labels[l] == FlushRegister
    ensures states[i].mode.Running? && states[j].mode.Running? && states[l].mode.Running? && states[l + 1].mode.Running?
    ensures var out := FlushPath(w, states[i].mode.m.walSeq + 1);
            out !in states[l].mode.m.files
            && states[l + 1].mode.m.files == states[l].mode.m.files[out := At(states[j].mode.m.mem, w)]
  {
    FlushHolds(d, states, labels, i, j, l, w);
    Reachable(d, states, labels, l);
    RegistersSnap(d, states[l], states[l + 1]);
  }

  lemma RegistersSnap(d: Duration, s: State, s': State)
    requires Inv(d, s) && Enabled(d, s, FlushRegister) && s' == Step(d, s, FlushRegister)
    ensures s'.mode.Running? && s.mode.m.flush.Out() !in s.mode.m.files
    ensures s'.mode.m.files == s.mode.m.files[s.mode.m.flush.Out() := s.mode.m.flush.snap]
  {
    FlushRegisterKeeps(d, s.disk, s.mode.m, s'.mode.m);
  }

  // ---------------------------------------------------------------- maybeCompact

  /** Between positions i and x the engine neither dies nor starts another merge or retirement. */
  predicate OneMerge(labels: seq<Label>, i: nat, x: nat) {
    x <= |labels| && forall k :: i < k < x ==> labels[k] != Crash && !labels[k].CompactPick? && !labels[k].RetirePick?
  }

  /** The merge going on, if there still is one, is of these inputs of window w, into out. */
  ghost predicate MergeOf(s: State, w: Win, inputs: seq<Path>, out: Path) {
    s.mode.Running? && (s.mode.m.compact.NoCompact?
                        || (s.mode.m.compact.Compacting? && s.mode.m.compact.win == w
                            && s.mode.m.compact.inputs == inputs && s.mode.m.compact.out == out))
  }

  lemma MergeOfStarts(d: Duration, s: State, w: Win, inputs: seq<Path>, s': State)
    requires Enabled(d, s, CompactPick(w, inputs)) && s' == Step(d, s, CompactPick(w, inputs))
    ensures MergeOf(s', w, inputs, CompactPath(w, s.mode.m.compactSeq + 1))
  {}

  lemma MergeOfStays(d: Duration, s: State, l: Label, s': State, w: Win, inputs: seq<Path>, out: Path)
    requires Enabled(d, s, l) && s' == Step(d, s, l) && MergeOf(s, w, inputs, out)
    requires l != Crash && !l.CompactPick? && !l.RetirePick?
    ensures MergeOf(s', w, inputs, out)
  {}

  lemma MergeStaysAt(d: Duration, states: seq<State>, labels: seq<Label>, k: nat, w: Win, inputs: seq<Path>, out: Path)
    requires IsRun(d, states, labels) && k < |labels|
    requires labels[k] != Crash && !labels[k].CompactPick? && !labels[k].RetirePick?
    ensures MergeOf(states[k], w, inputs, out) ==> MergeOf(states[k + 1], w, inputs, out)
  {
    if MergeOf(states[k], w, inputs, out) {
      MergeOfStays(d, states[k], labels[k], states[k + 1], w, inputs, out);
    }
  }

  lemma MergeFollowed(d: Duration, states: seq<State>, labels: seq<Label>, i: nat, x: nat)
    requires IsRun(d, states, labels) && i < x && OneMerge(labels, i, x) && labels[i].CompactPick?
    ensures states[i].mode.Running?
    ensures MergeOf(states[x], labels[i].w, labels[i].inputs, CompactPath(labels[i].w, states[i].mode.m.compactSeq + 1))
  {
    var w, inputs := labels[i].w, labels[i].inputs;
    MergeOfStarts(d, states[i], w, inputs, states[i + 1]);
    var out := CompactPath(w, states[i].mode.m.compactSeq + 1);
    var holds := seq(|states|, k requires 0 <= k < |states| => MergeOf(states[k], w, inputs, out));
    forall k | i + 1 <= k < x
      ensures holds[k] ==> holds[k + 1]
    {
      MergeStaysAt(d, states, labels, k, w, inputs, out);
    }
    Carry(holds, i + 1, x);
  }

  /** The merge of the picked inputs writes one file, named after their window and the next merge number, that holds
      exactly what the inputs hold. */
  lemma MergeWrites(d: Duration, states: seq<State>, labels: seq<Label>, i: nat, k: nat)
    requires IsRun(d, states, labels) && i < k < |labels| && OneMerge(labels, i, k)
    requires labels[i].CompactPick? && labels[k].CompactFinish?
    ensures states[i].mode.Running? && states[k].mode.Running?
    ensures var out := CompactPath(labels[i].w, states[i].mode.m.compactSeq + 1);
            states[k + 1].disk.ssts
            == states[k].disk.ssts[out := Complete(InputBag(states[k].mode.m.files, labels[i].inputs))]
  {
    MergeFollowed(d, states, labels, i, k);
  }

  /** Only picked inputs are deleted from the directory. */
  lemma MergeRemoves(d: Duration, states: seq<State>, labels: seq<Label>, i: nat, r: nat)
    requires IsRun(d, states, labels) && FreshRun(d, states, labels) && NumberedRun(states, labels)
    requires i < r < |labels| && OneMerge(labels, i, r) && labels[i].CompactPick? && labels[r].CompactRemove?
    ensures labels[r].p in labels[i].inputs && states[r + 1].disk.ssts == states[r].disk.ssts - {labels[r].p}
  {
    MergeFollowed(d, states, labels, i, r);
    Reachable(d, states, labels, r);
  }

  /** The swap-in takes exactly the picked inputs out of e.files and puts the output, with all they hold, in. */
  lemma MergeSwapsIn(d: Duration, states: seq<State>, labels: seq<Label>, i: nat, l: nat)
    requires IsRun(d, states, labels) && FreshRun(d, states, labels) && NumberedRun(states, labels)
    requires i < l < |labels| && OneMerge(labels, i, l) && labels[i].CompactPick? && labels[l] == CompactSwapIn
    ensures states[i].mode.Running? && states[l].mode.Running? && states[l + 1].mode.Running?
    ensures var out, inputs := CompactPath(labels[i].w, states[i].mode.m.compactSeq + 1), labels[i].inputs;
            out !in states[l].mode.m.files
            && states[l + 1].mode.m.files
               == (states[l].mode.m.files - AllPaths(inputs))[out := InputBag(states[l].mode.m.files, inputs)]
  {
    MergeFollowed(d, states, labels, i, l);
    Reachable(d, states, labels, l);
    SwapsInBag(d, states[l], states[l + 1]);
  }

  lemma SwapsInBag(d: Duration, s: State, s': State)
    requires Inv(d, s) && Enabled(d, s, CompactSwapIn) && s' == Step(d, s, CompactSwapIn)
    ensures var m, c := s.mode.m, s.mode.m.compact;
            s'.mode.Running? && c.out !in m.files
            && s'.mode.m.files == (m.files - AllPaths(c.inputs))[c.out := InputBag(m.files, c.inputs)]
  {
    SwapInKeeps(d, s.disk, s.mode.m, s'.mode.m);
  }

  /** The merge going on, if it has written its file, recorded the maximum t. */
  ghost predicate MergeMaxOf(s: State, t: int) {
    s.mode.Running? && (s.mode.m.compact.NoCompact?
                        || (s.mode.m.compact.Compacting? && s.mode.m.compact.outMax == t
                            && (CompactAt(s, OutWritten) || CompactAt(s, OutPublished))))
  }

  lemma MergeMaxStarts(d: Duration, s: State, t: int, s': State)
    requires Enabled(d, s, CompactFinish(t)) && s' == Step(d, s, CompactFinish(t))
    ensures MergeMaxOf(s', t)
  {}

  lemma MergeMaxStays(d: Duration, s: State, l: Label, s': State, t: int)
    requires Enabled(d, s, l) && s' == Step(d, s, l) && MergeMaxOf(s, t)
    requires l != Crash && !l.CompactPick? && !l.RetirePick?
    ensures MergeMaxOf(s', t)
  {}

  lemma MergeMaxStaysAt(d: Duration, states: seq<State>, labels: seq<Label>, k: nat, t: int)
    requires IsRun(d, states, labels) && k < |labels|
    requires labels[k] != Crash && !labels[k].CompactPick? && !labels[k].RetirePick?
    ensures MergeMaxOf(states[k], t) ==> MergeMaxOf(states[k + 1], t)
  {
    if MergeMaxOf(states[k], t) { MergeMaxStays(d, states[k], labels[k], states[k + 1], t); }
  }

  lemma MergeMaxFollowed(d: Duration, states: seq<State>, labels: seq<Label>, k: nat, x: nat)
    requires IsRun(d, states, labels) && k < x && OneMerge(labels, k, x) && labels[k].CompactFinish?
    ensures MergeMaxOf(states[x], labels[k].maxTs)
  {
    var t := labels[k].maxTs;
    MergeMaxStarts(d, states[k], t, states[k + 1]);
    var holds := seq(|states|, q requires 0 <= q < |states| => MergeMaxOf(states[q], t));
    forall q | k + 1 <= q < x
      ensures holds[q] ==> holds[q + 1]
    {
      MergeMaxStaysAt(d, states, labels, q, t);
    }
    Carry(holds, k + 1, x);
  }

  /** One edit adds the output with the maximum of its records and deletes exactly the picked inputs. */
  lemma MergePublishes(d: Duration, states: seq<State>, labels: seq<Label>, i: nat, k: nat, p: nat)
    requires IsRun(d, states, labels) && i < k < p < |labels| && OneMerge(labels, i, p)
    requires labels[i].CompactPick? && labels[k].CompactFinish? && labels[p] == CompactPublish
    ensures states[i].mode.Running?
    ensures var out := CompactPath(labels[i].w, states[i].mode.m.compactSeq + 1);
            states[p + 1].disk.manifest
            == states[p].disk.manifest + [Edit([Entry(out, labels[k].maxTs)], labels[i].inputs)]
  {
    MergeFollowed(d, states, labels, i, p);
    MergeMaxFollowed(d, states, labels, k, p);
  }

  // ---------------------------------------------------------------- retireWindow

  /** The retirement going on, if there still is one, is of these files of window w. */
  ghost predicate RetireOf(s: State, w: Win, files: seq<Path>) {
    s.mode.Running? && (s.mode.m.compact.NoCompact?
                        || (s.mode.m.compact.Retiring? && s.mode.m.compact.win == w
                            && s.mode.m.compact.expired == files))
  }

  lemma RetireOfStarts(d: Duration, s: State, w: Win, files: seq<Path>, s': State)
    requires Enabled(d, s, RetirePick(w, files)) && s' == Step(d, s, RetirePick(w, files))
    ensures RetireOf(s', w, files)
  {}

  lemma RetireOfStays(d: Duration, s: State, l: Label, s': State, w: Win, files: seq<Path>)
    requires Enabled(d, s, l) && s' == Step(d, s, l) && RetireOf(s, w, files)
    requires l != Crash && !l.CompactPick? && !l.RetirePick?
    ensures RetireOf(s', w, files)
  {}

  lemma RetireStaysAt(d: Duration, states: seq<State>, labels: seq<Label>, k: nat, w: Win, files: seq<Path>)
    requires IsRun(d, states, labels) && k < |labels|
    requires labels[k] != Crash && !labels[k].CompactPick? && !labels[k].RetirePick?
    ensures RetireOf(states[k], w, files) ==> RetireOf(states[k + 1], w, files)
  {
    if RetireOf(states[k], w, files) { RetireOfStays(d, states[k], labels[k], states[k + 1], w, files); }
  }

  lemma RetireFollowed(d: Duration, states: seq<State>, labels: seq<Label>, i: nat, x: nat)
    requires IsRun(d, states, labels) && i < x && OneMerge(labels, i, x) && labels[i].RetirePick?
    ensures RetireOf(states[x], labels[i].w, labels[i].inputs)
  {
    var w, files := labels[i].w, labels[i].inputs;
    RetireOfStarts(d, states[i], w, files, states[i + 1]);
    var holds := seq(|states|, k requires 0 <= k < |states| => RetireOf(states[k], w, files));
    forall k | i + 1 <= k < x
      ensures holds[k] ==> holds[k + 1]
    {
      RetireStaysAt(d, states, labels, k, w, files);
    }
    Carry(holds, i + 1, x);
  }

  /** Retirement logs exactly the picked files and lets exactly their records go, of their window alone. */
  lemma RetirePublishes(d: Duration, states: seq<State>, labels: seq<Label>, i: nat, p: nat)
    requires IsRun(d, states, labels) && i < p < |labels| && OneMerge(labels, i, p)
    requires labels[i].RetirePick? && labels[p] == RetirePublish
    ensures states[p].mode.Running?
    ensures states[p + 1].disk.manifest == states[p].disk.manifest + [Edit([], labels[i].inputs)]
    ensures At(states[p + 1].written, labels[i].w)
            == At(states[p].written, labels[i].w) - InputBag(states[p].mode.m.files, labels[i].inputs)
    ensures forall v :: v != labels[i].w ==> At(states[p + 1].written, v) == At(states[p].written, v)
  {
    RetireFollowed(d, states, labels, i, p);
  }

  /** The swap-out takes exactly the picked files out of e.files. */
  lemma RetireSwapsOut(d: Duration, states: seq<State>, labels: seq<Label>, i: nat, l: nat)
    requires IsRun(d, states, labels) && i < l < |labels| && OneMerge(labels, i, l)
    requires labels[i].RetirePick? && labels[l] == RetireSwapOut
    ensures states[l].mode.Running? && states[l + 1].mode.Running?
    ensures states[l + 1].mode.m.files == states[l].mode.m.files - AllPaths(labels[i].inputs)
  {
    RetireFollowed(d, states, labels, i, l);
  }

  // ---------------------------------------------------------------- the order of the log

  /** The records logged, in order. */
  function Logged(labels: seq<Label>): seq<Record> {
    if labels == [] then []
    else
      var l := labels[|labels| - 1];
      Logged(labels[..|labels| - 1]) + if l.LogAppend? then [l.r] else []
  }

  /** Segment a is active and holds rs. */
  ghost predicate ActiveHolds(s: State, a: nat, rs: seq<Record>) {
    s.mode.Running? && s.mode.m.active == a && a in s.disk.wals && s.disk.wals[a] == rs
  }

  lemma LogStep(d: Duration, s: State, l: Label, s': State, a: nat, rs: seq<Record>)
    requires Enabled(d, s, l) && s' == Step(d, s, l) && ActiveHolds(s, a, rs) && l != Crash && l != FlushRotate
    requires l == FlushDropWal ==> s.mode.m.flush.oldSeg != a
    ensures ActiveHolds(s', a, rs + if l.LogAppend? then [l.r] else [])
  {
    assert rs + [] == rs;
  }

  lemma OldIsNotActive(d: Duration, s: State)
    requires Inv(d, s) && Enabled(d, s, FlushDropWal)
    ensures s.mode.m.flush.oldSeg != s.mode.m.active
  {}

  lemma ActiveExists(d: Duration, s: State)
    requires Inv(d, s) && s.mode.Running?
    ensures s.mode.m.active in s.disk.wals
  {}

  /** Up to position k segment a has grown from before by what was appended since position i. */
  ghost predicate GrownTo(states: seq<State>, labels: seq<Label>, i: nat, k: nat, a: nat, before: seq<Record>) {
    i <= k <= |labels| && |states| == |labels| + 1 && ActiveHolds(states[k], a, before + Logged(labels[i..k]))
  }

  lemma StartsUngrown(states: seq<State>, labels: seq<Label>, i: nat, a: nat, before: seq<Record>)
    requires i <= |labels| && |states| == |labels| + 1 && ActiveHolds(states[i], a, before)
    ensures GrownTo(states, labels, i, i, a, before)
  {
    assert labels[i..i] == [] && before + [] == before;
  }

  lemma OneAppendMore(d: Duration, states: seq<State>, labels: seq<Label>, i: nat, k: nat, a: nat, before: seq<Record>)
    requires IsRun(d, states, labels) && FreshRun(d, states, labels) && NumberedRun(states, labels) && k < |labels|
    requires labels[k] != Crash && labels[k] != FlushRotate
    ensures GrownTo(states, labels, i, k, a, before) ==> GrownTo(states, labels, i, k + 1, a, before)
  {
    if GrownTo(states, labels, i, k, a, before) {
      Reachable(d, states, labels, k);
      if labels[k] == FlushDropWal { OldIsNotActive(d, states[k]); }
      LogStep(d, states[k], labels[k], states[k + 1], a, before + Logged(labels[i..k]));
      LoggedMore(labels, i, k + 1);
      Regroup(before, Logged(labels[i..k]), if labels[k].LogAppend? then [labels[k].r] else []);
    }
  }

  lemma SegmentGrows(d: Duration, states: seq<State>, labels: seq<Label>, i: nat, x: nat, a: nat, before: seq<Record>)
    requires IsRun(d, states, labels) && FreshRun(d, states, labels) && NumberedRun(states, labels)
    requires i <= x <= |labels| && ActiveHolds(states[i], a, before)
    requires forall k :: i <= k < x ==> labels[k] != Crash && labels[k] != FlushRotate
    ensures GrownTo(states, labels, i, x, a, before)
  {
    var holds := seq(|states|, k requires 0 <= k < |states| => GrownTo(states, labels, i, k, a, before));
    StartsUngrown(states, labels, i, a, before);
    forall k | i <= k < x
      ensures holds[k] ==> holds[k + 1]
    {
      OneAppendMore(d, states, labels, i, k, a, before);
    }
    Carry(holds, i, x);
  }

  /** While one segment is active it grows by the appended records, in the order of their appends. */
  lemma SegmentHoldsAppends(d: Duration, states: seq<State>, labels: seq<Label>, i: nat, x: nat)
    requires IsRun(d, states, labels) && FreshRun(d, states, labels) && NumberedRun(states, labels)
    requires i <= x <= |labels| && states[i].mode.Running?
    requires forall k :: i <= k < x ==> labels[k] != Crash && labels[k] != FlushRotate
    ensures states[i].mode.m.active in states[i].disk.wals
    ensures var a := states[i].mode.m.active;
            ActiveHolds(states[x], a, states[i].disk.wals[a] + Logged(labels[i..x]))
  {
    Reachable(d, states, labels, i);
    ActiveExists(d, states[i]);
    var a := states[i].mode.m.active;
    SegmentGrows(d, states, labels, i, x, a, states[i].disk.wals[a]);
  }

  lemma Regroup(a: seq<Record>, b: seq<Record>, c: seq<Record>)
    ensures (a + b) + c == a + (b + c)
  {}

  lemma LoggedMore(labels: seq<Label>, i: nat, x: nat)
    requires i < x <= |labels|
    ensures Logged(labels[i..x])
            == Logged(labels[i..x - 1]) + if labels[x - 1].LogAppend? then [labels[x - 1].r] else []
  {
    assert labels[i..x][..x - 1 - i] == labels[i..x - 1];
  }

  // ---------------------------------------------------------------- Open comes to its end

  predicate Removal(l: Label) {
    l.RemoveOrphan? || l.RemoveCoveredWal?
  }

  /** The removals lead from s to s'. */
  ghost predicate Removes(d: Duration, s: State, labels: seq<Label>, s': State)
    decreases |labels|
  {
    if labels == [] then s' == s
    else Removal(labels[0]) && Enabled(d, s, labels[0]) && Removes(d, Step(d, s, labels[0]), labels[1..], s')
  }

  lemma {:induction false} RemovesOn(d: Duration, s: State, a: seq<Label>, s': State, b: seq<Label>, s'': State)
    requires Removes(d, s, a, s') && Removes(d, s', b, s'')
    ensures Removes(d, s, a + b, s'')
    decreases |a|
  {
    if a == [] {
      assert a + b == b;
    } else {
      RemovesOn(d, Step(d, s, a[0]), a[1..], s', b, s'');
      assert (a + b)[0] == a[0] && (a + b)[1..] == a[1..] + b;
    }
  }

  lemma RemoveFirst(d: Duration, s: State, l: Label, labels: seq<Label>, s': State)
    requires Removal(l) && Enabled(d, s, l) && Removes(d, Step(d, s, l), labels, s')
    ensures Removes(d, s, [l] + labels, s')
  {
    assert ([l] + labels)[1..] == labels;
  }

  /** The SSTables that the manifest replay opened. */
  function Opened(s: State): map<Path, SstFile>
    requires s.mode.Opening?
  {
    map p | p in s.disk.ssts && p in s.mode.replayed.files :: s.disk.ssts[p]
  }

  /** The segments that bring something new. */
  ghost function Needed(d: Duration, s: State): map<nat, seq<Record>>
    requires s.mode.Opening?
  {
    map i | i in s.disk.wals && exists r :: r in s.disk.wals[i] && !Skipped(d, s.mode.replayed.maxTs, r) ::
      s.disk.wals[i]
  }

  lemma {:induction false} RemoveOrphans(d: Duration, s: State) returns (labels: seq<Label>)
    requires s.mode.Opening?
    ensures Removes(d, s, labels, s.(disk := s.disk.(ssts := Opened(s))))
    decreases |s.disk.ssts|
  {
    if NoOrphans(s) {
      labels := [];
      assert Opened(s) == s.disk.ssts;
    } else {
      var p :| p in s.disk.ssts && p !in s.mode.replayed.files;
      var s' := s.(disk := s.disk.(ssts := s.disk.ssts - {p}));
      assert s'.disk.ssts.Keys == s.disk.ssts.Keys - {p};
      var rest := RemoveOrphans(d, s');
      labels := [RemoveOrphan(p)] + rest;
      assert Opened(s') == Opened(s);
      RemoveFirst(d, s, RemoveOrphan(p), rest, s.(disk := s.disk.(ssts := Opened(s))));
    }
  }

  lemma {:induction false} RemoveCovered(d: Duration, s: State) returns (labels: seq<Label>)
    requires s.mode.Opening? && NoOrphans(s)
    ensures Removes(d, s, labels, s.(disk := s.disk.(wals := Needed(d, s))))
    decreases |s.disk.wals|
  {
    if i :| i in s.disk.wals && forall r :: r in s.disk.wals[i] ==> Skipped(d, s.mode.replayed.maxTs, r) {
      var s' := s.(disk := s.disk.(wals := s.disk.wals - {i}));
      assert s'.disk.wals.Keys == s.disk.wals.Keys - {i};
      var rest := RemoveCovered(d, s');
      labels := [RemoveCoveredWal(i)] + rest;
      assert Needed(d, s') == Needed(d, s);
      RemoveFirst(d, s, RemoveCoveredWal(i), rest, s.(disk := s.disk.(wals := Needed(d, s))));
    } else {
      labels := [];
      assert Needed(d, s) == s.disk.wals;
    }
  }

  /** Open can always come to its end: removing the orphans and then the covered segments leaves exactly the opened
      files and the segments that bring something new, and nothing stands in the way of its last step. */
  lemma OpenCompletes(d: Duration, s: State) returns (labels: seq<Label>, s': State)
    requires s.mode.Opening?
    ensures Removes(d, s, labels, s') && Enabled(d, s', OpenDone)
    ensures s' == State(Disk(Needed(d, s), Opened(s), s.disk.manifest), s.mode, s.written)
  {
    var a := RemoveOrphans(d, s);
    var s1 := s.(disk := s.disk.(ssts := Opened(s)));
    var b := RemoveCovered(d, s1);
    labels, s' := a + b, State(Disk(Needed(d, s), Opened(s), s.disk.manifest), s.mode, s.written);
    assert Needed(d, s1) == Needed(d, s);
    RemovesOn(d, s, a, s1, b, s');
  }
}
