/** Conservation: what the running engine holds, step by step, and that it is what a crash would recover. */
module Conservation {
  import opened Records
  import opened Windows
  import opened Bags
  import opened Protocol
  import opened DiskFacts
  import opened Structure
  import opened RecoveryCounts
  import opened CrashSafety

  /** The in-flight flush snapshot, until its file is registered. */
  ghost function InFlight(f: Flush, w: Win): Bag {
    When(f.Flushing? && (f.pc == Swapped || f.pc == Written || f.pc == Published || f.pc == Dropped) && f.win == w,
         if f.Flushing? then f.snap else multiset{})
  }

  /** Memtables, appends in progress, the in-flight snapshot and the records of e.files, in window w. */
  ghost function Held(m: Memory, w: Win): Bag {
    At(m.mem, w) + At(m.pend, w) + InFlight(m.flush, w) + ReaderBag(m.files, w)
  }

  /** What step l takes in, and what it lets go. */
  function TakenIn(d: Duration, l: Label, w: Win): Bag {
    One(l.LogAppend? && w == (if l.LogAppend? then WinOf(d, l.r) else 0),
        if l.LogAppend? then l.r else Record(0, [], []))
  }

  ghost function LetGo(s: State, l: Label, w: Win): Bag {
    When(l.RetireSwapOut? && RetireAt(s, true) && s.mode.m.compact.win == w,
         if RetireAt(s, true) then InputBag(s.mode.m.files, s.mode.m.compact.expired) else multiset{})
  }

  lemma ReaderBagAdd(files: map<Path, Bag>, p: Path, b: Bag, w: Win)
    requires p !in files
    ensures ReaderBag(files[p := b], w) == ReaderBag(files, w) + When(p.win == w, b)
  {
    if p.win == w {
      SumAdd(ReadersOf(files, w), p, b);
      assert ReadersOf(files[p := b], w) == ReadersOf(files, w)[p := b];
    } else {
      assert ReadersOf(files[p := b], w) == ReadersOf(files, w);
    }
  }

  lemma ReaderBagDelete(files: map<Path, Bag>, inputs: seq<Path>, win: Win, w: Win)
    requires forall p :: p in inputs ==> p in files && p.win == win
    ensures ReaderBag(files, w) == ReaderBag(files - AllPaths(inputs), w) + When(win == w, InputBag(files, inputs))
  {
    var a, b := ReadersOf(files, w), ReadersOf(files - AllPaths(inputs), w);
    if win == w {
      var c := Selected(files, inputs);
      assert c.Keys == AllPaths(inputs);
      assert b == a - c.Keys;
      assert PartOf(c, a);
      SumSplit(a, c);
    } else {
      assert b == a;
    }
  }

  lemma SwapInHolds(d: Duration, k: Disk, m: Memory, m': Memory, w: Win)
    requires DeletedAreDead(k.manifest) && MemoryOk(d, k, m)
    requires m.compact.Compacting? && m.compact.cpc == OutPublished && m.compact.left == {}
    requires m' == m.(files := (m.files - AllPaths(m.compact.inputs))[m.compact.out := Content(k.ssts, m.compact.out)],
                      compact := NoCompact)
    ensures ReaderBag(m'.files, w) == ReaderBag(m.files, w)
  {
    var c := m.compact;
    SwapInKeeps(d, k, m, m');
    ReaderBagDelete(m.files, c.inputs, c.win, w);
    ReaderBagAdd(m.files - AllPaths(c.inputs), c.out, c.bag, w);
  }

  // ---------------------------------------------------------------- one step

  lemma HeldAppend(d: Duration, m: Memory, r: Record, m': Memory, w: Win)
    requires m' == m.(pend := Add(m.pend, WinOf(d, r), multiset{r}))
    ensures Held(m', w) == Held(m, w) + One(w == WinOf(d, r), r)
  {
    AtAdd(m.pend, WinOf(d, r), r, w);
    Widen(At(m.mem, w), At(m.pend, w), InFlight(m.flush, w), ReaderBag(m.files, w), One(w == WinOf(d, r), r));
  }

  lemma Widen(a: Bag, b: Bag, c: Bag, e: Bag, x: Bag)
    ensures a + (b + x) + c + e == a + b + c + e + x
  {}

  lemma HeldInsert(d: Duration, m: Memory, r: Record, m': Memory, w: Win)
    requires r in At(m.pend, WinOf(d, r))
    requires var v := WinOf(d, r);
             m' == m.(pend := m.pend[v := At(m.pend, v) - multiset{r}], mem := Add(m.mem, v, multiset{r}))
    ensures Held(m', w) == Held(m, w)
  {
    MoveOne(m.pend, m.mem, WinOf(d, r), r, w);
  }

  lemma HeldSwap(m: Memory, m': Memory, w: Win)
    requires m.flush.Flushing? && m.flush.pc == Created
    requires var v := m.flush.win;
             m' == m.(mem := m.mem[v := multiset{}], flush := m.flush.(pc := Swapped, snap := At(m.mem, v)))
    ensures Held(m', w) == Held(m, w)
  {
    SwapBags(m.mem, m.flush.win, At(m.pend, w), At(m.mem, w) + At(m.pend, w) + multiset{}, w);
    assert InFlight(m.flush, w) == multiset{};
    assert InFlight(m'.flush, w) == When(m.flush.win == w, At(m.mem, m.flush.win));
  }

  lemma HeldRegister(d: Duration, k: Disk, m: Memory, m': Memory, w: Win)
    requires DeletedAreDead(k.manifest) && MemoryOk(d, k, m) && m.flush.Flushing? && m.flush.pc == Dropped
    requires m' == m.(files := m.files[m.flush.Out() := Content(k.ssts, m.flush.Out())], flush := NoFlush)
    ensures Held(m', w) == Held(m, w)
  {
    FlushRegisterKeeps(d, k, m, m');
    ReaderBagAdd(m.files, m.flush.Out(), m.flush.snap, w);
    assert InFlight(m.flush, w) == When(m.flush.win == w, m.flush.snap) && InFlight(m'.flush, w) == multiset{};
    Assoc(At(m.mem, w) + At(m.pend, w), ReaderBag(m.files, w), When(m.flush.win == w, m.flush.snap));
    Shuffle(At(m.mem, w) + At(m.pend, w), ReaderBag(m.files, w), When(m.flush.win == w, m.flush.snap));
  }

  lemma HeldSame(m: Memory, m': Memory, w: Win)
    requires m'.mem == m.mem && m'.pend == m.pend && InFlight(m'.flush, w) == InFlight(m.flush, w)
    requires ReaderBag(m'.files, w) == ReaderBag(m.files, w)
    ensures Held(m', w) == Held(m, w)
  {}

  lemma HeldRetired(m: Memory, m': Memory, w: Win)
    requires m.compact.Retiring? && forall p :: p in m.compact.expired ==> p in m.files && p.win == m.compact.win
    requires m' == m.(files := m.files - AllPaths(m.compact.expired), compact := NoCompact)
    ensures Held(m', w) + When(m.compact.win == w, InputBag(m.files, m.compact.expired)) == Held(m, w)
  {
    ReaderBagDelete(m.files, m.compact.expired, m.compact.win, w);
    Assoc(At(m.mem, w) + At(m.pend, w) + InFlight(m.flush, w), ReaderBag(m'.files, w),
          When(m.compact.win == w, InputBag(m.files, m.compact.expired)));
  }

  predicate MovesRecords(l: Label) {
    l.LogAppend? || l.InsertAppend? || l.FlushSwap? || l.FlushRegister? || l.CompactSwapIn? || l.RetireSwapOut?
  }

  lemma HeldUnmoved(d: Duration, s: State, l: Label, w: Win)
    requires Enabled(d, s, l) && s.mode.Running? && !l.Crash? && !MovesRecords(l)
    ensures Step(d, s, l).mode.Running? && Held(Step(d, s, l).mode.m, w) == Held(s.mode.m, w)
  {
    var m, m' := s.mode.m, Step(d, s, l).mode.m;
    assert m'.files == m.files && m'.mem == m.mem && m'.pend == m.pend;
    assert InFlight(m'.flush, w) == InFlight(m.flush, w);
  }

  /** What s' holds and l lets go is what s holds and l takes in. */
  ghost predicate Balanced(d: Duration, s: State, l: Label, s': State, w: Win)
    requires s.mode.Running?
  {
    s'.mode.Running? && Held(s'.mode.m, w) + LetGo(s, l, w) == Held(s.mode.m, w) + TakenIn(d, l, w)
  }

  lemma UnmovedStep(d: Duration, s: State, l: Label, w: Win)
    requires Enabled(d, s, l) && s.mode.Running? && !l.Crash? && !MovesRecords(l)
    ensures Balanced(d, s, l, Step(d, s, l), w)
  {
    HeldUnmoved(d, s, l, w);
    assert LetGo(s, l, w) == multiset{} == TakenIn(d, l, w);
  }

  /** The steps that move records between the log, the memtables and the snapshot. */
  lemma MemtableStep(d: Duration, s: State, l: Label, w: Win)
    requires Enabled(d, s, l) && s.mode.Running? && (l.LogAppend? || l.InsertAppend? || l.FlushSwap?)
    ensures Balanced(d, s, l, Step(d, s, l), w)
  {
    var m, m' := s.mode.m, Step(d, s, l).mode.m;
    assert Held(m', w) + multiset{} == Held(m', w) && Held(m, w) + multiset{} == Held(m, w);
    if l.LogAppend? {
      HeldAppend(d, m, l.r, m', w);
    } else if l.InsertAppend? {
      HeldInsert(d, m, l.r, m', w);
    } else {
      HeldSwap(m, m', w);
    }
  }

  /** The steps that change e.files. */
  lemma ReaderStep(d: Duration, s: State, l: Label, w: Win)
    requires Inv(d, s) && Enabled(d, s, l) && s.mode.Running?
    requires l.FlushRegister? || l.CompactSwapIn? || l.RetireSwapOut?
    ensures Balanced(d, s, l, Step(d, s, l), w)
  {
    var m, m' := s.mode.m, Step(d, s, l).mode.m;
    assert Held(m', w) + multiset{} == Held(m', w) && Held(m, w) + multiset{} == Held(m, w);
    if l.FlushRegister? {
      HeldRegister(d, s.disk, m, m', w);
    } else if l.CompactSwapIn? {
      SwapInHolds(d, s.disk, m, m', w);
      HeldSame(m, m', w);
    } else {
      HeldRetired(m, m', w);
    }
  }

  /** Every step of a running engine conserves what it holds, whatever was appended and in whatever order: also when a
      flush registers a file between the compactor's snapshot of the readers and its swap-in. */
  lemma HeldStep(d: Duration, s: State, l: Label, w: Win)
    requires Inv(d, s) && Enabled(d, s, l) && s.mode.Running? && !l.Crash?
    ensures Balanced(d, s, l, Step(d, s, l), w)
  {
    if l.LogAppend? || l.InsertAppend? || l.FlushSwap? {
      MemtableStep(d, s, l, w);
    } else if l.FlushRegister? || l.CompactSwapIn? || l.RetireSwapOut? {
      ReaderStep(d, s, l, w);
    } else {
      UnmovedStep(d, s, l, w);
    }
  }

  // ---------------------------------------------------------------- whole sessions

  ghost predicate Session(d: Duration, states: seq<State>, labels: seq<Label>, i: nat, j: nat)
    requires IsRun(d, states, labels)
  {
    i <= j <= |labels| && forall k :: i <= k <= j ==> states[k].mode.Running?
  }

  ghost function TakenBetween(d: Duration, labels: seq<Label>, i: nat, j: nat, w: Win): Bag
    requires i <= j <= |labels|
    decreases j
  {
    if i == j then multiset{} else TakenBetween(d, labels, i, j - 1, w) + TakenIn(d, labels[j - 1], w)
  }

  ghost function LetGoBetween(states: seq<State>, labels: seq<Label>, i: nat, j: nat, w: Win): Bag
    requires i <= j <= |labels| && |states| == |labels| + 1
    decreases j
  {
    if i == j then multiset{} else LetGoBetween(states, labels, i, j - 1, w) + LetGo(states[j - 1], labels[j - 1], w)
  }

  lemma Balance(held: Bag, out: Bag, inn: Bag, start: Bag, held': Bag, out': Bag, inn': Bag)
    requires held + out == start + inn && held' + out' == held + inn'
    ensures held' + (out + out') == start + (inn + inn')
  {
    forall x
      ensures (held' + (out + out'))[x] == (start + (inn + inn'))[x]
    {
      assert (held + out)[x] == (start + inn)[x] && (held' + out')[x] == (held + inn')[x];
    }
  }

  /** Step k conserves what a running engine holds. */
  ghost predicate StepConserves(d: Duration, states: seq<State>, labels: seq<Label>, k: nat, w: Win) {
    k < |labels| && |states| == |labels| + 1 && states[k].mode.Running? && states[k + 1].mode.Running?
    && Held(states[k + 1].mode.m, w) + LetGo(states[k], labels[k], w)
       == Held(states[k].mode.m, w) + TakenIn(d, labels[k], w)
  }

  lemma SessionStep(d: Duration, states: seq<State>, labels: seq<Label>, k: nat, w: Win)
    requires IsRun(d, states, labels) && FreshRun(d, states, labels) && NumberedRun(states, labels) && k < |labels|
    requires states[k].mode.Running? && states[k + 1].mode.Running?
    ensures StepConserves(d, states, labels, k, w)
  {
    Reachable(d, states, labels, k);
    HeldStep(d, states[k], labels[k], w);
  }

  /** Held at j plus retired between i and j is held at i plus appended. */
  ghost predicate Conserved(d: Duration, states: seq<State>, labels: seq<Label>, i: nat, j: nat, w: Win) {
    i <= j <= |labels| && |states| == |labels| + 1 && states[i].mode.Running? && states[j].mode.Running?
    && Held(states[j].mode.m, w) + LetGoBetween(states, labels, i, j, w)
       == Held(states[i].mode.m, w) + TakenBetween(d, labels, i, j, w)
  }

  lemma {:induction false} Telescope(d: Duration, states: seq<State>, labels: seq<Label>, i: nat, j: nat, w: Win)
    requires i <= j <= |labels| && |states| == |labels| + 1 && states[i].mode.Running?
    requires forall k :: i <= k < j ==> StepConserves(d, states, labels, k, w)
    ensures Conserved(d, states, labels, i, j, w)
    decreases j
  {
    if i < j {
      var k := j - 1;
      Telescope(d, states, labels, i, k, w);
      assert StepConserves(d, states, labels, k, w);
      Balance(Held(states[k].mode.m, w), LetGoBetween(states, labels, i, k, w), TakenBetween(d, labels, i, k, w),
              Held(states[i].mode.m, w), Held(states[j].mode.m, w),
              LetGo(states[k], labels[k], w), TakenIn(d, labels[k], w));
    } else {
      assert LetGoBetween(states, labels, i, j, w) == multiset{} == TakenBetween(d, labels, i, j, w);
    }
  }

  /** Over any stretch of running steps: held at the end plus retired is held at the start plus appended. */
  lemma SessionConserves(d: Duration, states: seq<State>, labels: seq<Label>, i: nat, j: nat, w: Win)
    requires IsRun(d, states, labels) && FreshRun(d, states, labels) && NumberedRun(states, labels)
             && Session(d, states, labels, i, j)
    ensures Conserved(d, states, labels, i, j, w)
  {
    forall k | i <= k < j
      ensures StepConserves(d, states, labels, k, w)
    {
      SessionStep(d, states, labels, k, w);
    }
    Telescope(d, states, labels, i, j, w);
  }

  // ---------------------------------------------------------------- memory agrees with disk

  /** Retired on disk, still held by e.files. */
  ghost function Expiring(m: Memory, w: Win): Bag {
    When(m.compact.Retiring? && m.compact.logged && m.compact.win == w,
         if m.compact.Retiring? then InputBag(m.files, m.compact.expired) else multiset{})
  }

  ghost predicate Accounted(d: Duration, s: State) {
    s.mode.Running? ==> forall w :: Held(s.mode.m, w) == At(s.written, w) + Expiring(s.mode.m, w)
  }

  lemma OpenedHolds(d: Duration, s: State, w: Win)
    requires Inv(d, s) && Exact(d, s) && Enabled(d, s, OpenDone)
    ensures Held(Step(d, s, OpenDone).mode.m, w) == At(s.written, w)
  {
    var k, rp, m := s.disk, s.mode.replayed, Step(d, s, OpenDone).mode.m;
    assert ReadersOf(m.files, w) == ContentByFile(Live(k.manifest), k.ssts, w);
    RebuiltExact(d, k, rp.maxTs, w);
    RecoveredSplit(d, k, w);
    assert Recovered(d, k, w) == At(s.written, w);
    assert InFlight(m.flush, w) == multiset{} && At(m.pend, w) == multiset{};
  }

  lemma WrittenGrows(d: Duration, s: State, l: Label, w: Win)
    requires Enabled(d, s, l) && s.mode.Running? && !l.RetirePublish?
    ensures At(Step(d, s, l).written, w) == At(s.written, w) + TakenIn(d, l, w)
  {
    if l.LogAppend? { AtAdd(s.written, WinOf(d, l.r), l.r, w); }
  }

  lemma CompactorKeepsExpiring(d: Duration, s: State, l: Label, w: Win)
    requires Enabled(d, s, l) && IsCompactStep(l) && !l.RetirePublish? && !l.RetireSwapOut?
    ensures Step(d, s, l).mode.Running? && Expiring(Step(d, s, l).mode.m, w) == Expiring(s.mode.m, w)
  {
    if l.RetireRemove? {
      assert Step(d, s, l).mode.m.files == s.mode.m.files;
    } else {
      assert !RetireAt(s, true) && !RetireAt(Step(d, s, l), true);
    }
  }

  lemma ExpiringUnchanged(d: Duration, s: State, l: Label, w: Win)
    requires Inv(d, s) && Enabled(d, s, l) && s.mode.Running? && !l.Crash? && !l.RetirePublish? && !l.RetireSwapOut?
    ensures Step(d, s, l).mode.Running? && Expiring(Step(d, s, l).mode.m, w) == Expiring(s.mode.m, w)
  {
    if IsCompactStep(l) {
      CompactorKeepsExpiring(d, s, l, w);
    } else if l.FlushRegister? && RetireAt(s, true) {
      RegisterKeepsExpiring(d, s.disk, s.mode.m, Step(d, s, l).mode.m);
    } else {
      CompactorWaits(d, s, l);
    }
  }

  /** Only the compactor changes its own state, and beside it only a flush changes e.files. */
  lemma CompactorWaits(d: Duration, s: State, l: Label)
    requires Enabled(d, s, l) && s.mode.Running? && !l.Crash? && !IsCompactStep(l)
    ensures Step(d, s, l).mode.Running? && Step(d, s, l).mode.m.compact == s.mode.m.compact
    ensures !l.FlushRegister? ==> Step(d, s, l).mode.m.files == s.mode.m.files
  {}

  lemma RegisterKeepsExpiring(d: Duration, k: Disk, m: Memory, m': Memory)
    requires DeletedAreDead(k.manifest) && MemoryOk(d, k, m) && m.flush.Flushing? && m.flush.pc == Dropped
             && m.compact.Retiring?
    requires m' == m.(files := m.files[m.flush.Out() := Content(k.ssts, m.flush.Out())], flush := NoFlush)
    ensures InputBag(m'.files, m.compact.expired) == InputBag(m.files, m.compact.expired)
  {
    FlushRegisterKeeps(d, k, m, m');
    InputsUnchanged(m.files, m'.files, m.compact.expired);
  }

  lemma AccountedOther(d: Duration, s: State, l: Label, w: Win)
    requires Inv(d, s) && Accounted(d, s) && Enabled(d, s, l) && s.mode.Running?
    requires !l.Crash? && !l.RetirePublish? && !l.RetireSwapOut?
    ensures var s' := Step(d, s, l);
            s'.mode.Running? && Held(s'.mode.m, w) == At(s'.written, w) + Expiring(s'.mode.m, w)
  {
    HeldStep(d, s, l, w);
    WrittenGrows(d, s, l, w);
    ExpiringUnchanged(d, s, l, w);
    assert LetGo(s, l, w) == multiset{};
    Regroup(Held(Step(d, s, l).mode.m, w), At(s.written, w), Expiring(s.mode.m, w), TakenIn(d, l, w));
  }

  lemma Regroup(h: Bag, a: Bag, b: Bag, c: Bag)
    requires h + multiset{} == (a + b) + c
    ensures h == (a + c) + b
  {
    assert h + multiset{} == h;
  }

  lemma AccountedRetired(d: Duration, s: State, w: Win)
    requires Inv(d, s) && Accounted(d, s) && Enabled(d, s, RetireSwapOut)
    ensures var s' := Step(d, s, RetireSwapOut);
            Held(s'.mode.m, w) == At(s'.written, w) + Expiring(s'.mode.m, w)
  {
    var s' := Step(d, s, RetireSwapOut);
    HeldStep(d, s, RetireSwapOut, w);
    assert LetGo(s, RetireSwapOut, w) == Expiring(s.mode.m, w);
    Cancel(Held(s'.mode.m, w), At(s.written, w), Expiring(s.mode.m, w));
  }

  lemma RunsOn(d: Duration, s: State, l: Label)
    requires Enabled(d, s, l) && Step(d, s, l).mode.Running?
    ensures l.OpenDone? || (s.mode.Running? && !l.Crash?)
  {}

  lemma AccountedOpen(d: Duration, s: State, w: Win)
    requires Inv(d, s) && Exact(d, s) && Enabled(d, s, OpenDone)
    ensures Held(Step(d, s, OpenDone).mode.m, w) == At(s.written, w) + Expiring(Step(d, s, OpenDone).mode.m, w)
  {
    OpenedHolds(d, s, w);
    assert Expiring(Step(d, s, OpenDone).mode.m, w) == multiset{};
  }

  lemma AccountedAt(d: Duration, s: State, l: Label, w: Win)
    requires Inv(d, s) && Exact(d, s) && Accounted(d, s) && Enabled(d, s, l) && s.mode.Running? && !l.Crash?
    ensures Step(d, s, l).mode.Running?
    ensures Held(Step(d, s, l).mode.m, w) == At(Step(d, s, l).written, w) + Expiring(Step(d, s, l).mode.m, w)
  {
    if l.RetirePublish? {
      RetirePublished(d, s, w);
    } else if l.RetireSwapOut? {
      AccountedRetired(d, s, w);
    } else {
      AccountedOther(d, s, l, w);
    }
  }

  lemma AccountedStep(d: Duration, s: State, l: Label)
    requires Inv(d, s) && Exact(d, s) && Accounted(d, s) && Enabled(d, s, l)
    ensures Accounted(d, Step(d, s, l))
  {
    if Step(d, s, l).mode.Running? {
      RunsOn(d, s, l);
      forall w
        ensures Held(Step(d, s, l).mode.m, w) == At(Step(d, s, l).written, w) + Expiring(Step(d, s, l).mode.m, w)
      {
        if l.OpenDone? { AccountedOpen(d, s, w); } else { AccountedAt(d, s, l, w); }
      }
    }
  }

  lemma Cancel(a: Bag, b: Bag, c: Bag)
    requires a + c == b + c
    ensures a == b
  {
    forall x
      ensures a[x] == b[x]
    {
      assert (a + c)[x] == (b + c)[x];
    }
  }

  lemma RetirePublished(d: Duration, s: State, w: Win)
    requires Inv(d, s) && Exact(d, s) && Accounted(d, s) && Enabled(d, s, RetirePublish)
    ensures var s' := Step(d, s, RetirePublish);
            Held(s'.mode.m, w) == At(s'.written, w) + Expiring(s'.mode.m, w)
  {
    var s' := Step(d, s, RetirePublish);
    var k, m, c := s.disk, s.mode.m, s.mode.m.compact;
    HeldSame(m, s'.mode.m, w);
    assert Expiring(m, w) == multiset{};
    RetireRecovery(d, k, m, s'.disk, s.written);
    RetiredRecovered(d, k, m, s'.disk, w);
  }

  lemma RetiredRecovered(d: Duration, k: Disk, m: Memory, k': Disk, w: Win)
    requires DiskOk(d, k.manifest, k.ssts) && CompactOk(k, m) && FilesOk(k, m) && m.compact.Retiring?
             && !m.compact.logged
    requires k' == k.(manifest := k.manifest + [Edit([], m.compact.expired)])
    ensures Recovered(d, k, w) == Recovered(d, k', w) + When(m.compact.win == w, InputBag(m.files, m.compact.expired))
  {
    RetirePublishDisk(d, k, m, k');
    InputsAreLive(k, m, m.compact.expired);
    RetireOne(d, k, k', m.files, m.compact.expired, m.compact.win, w);
  }

  /** In every guarded run, at every moment, the engine holds in memory exactly what a crash would recover, plus the
      files a retirement has logged but not yet let go. */
  lemma {:induction false} MemoryAgreesWithDisk(d: Duration, states: seq<State>, labels: seq<Label>, n: nat)
    requires IsRun(d, states, labels) && FreshRun(d, states, labels) && NumberedRun(states, labels) && n <= |labels|
    requires forall k :: 0 <= k < n ==> Guard(d, states[k], labels[k])
    ensures Accounted(d, states[n])
  {
    if n > 0 {
      MemoryAgreesWithDisk(d, states, labels, n - 1);
      GuardedPrefix(d, states, labels, n - 1);
      AccountedStep(d, states[n - 1], labels[n - 1]);
    }
  }
}
