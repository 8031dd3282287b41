/** The loops of Open (internal/engine/engine.go), proved against the recovery functions of the step machine. */
module Recovery {
  import opened Bytes
  import opened Records
  import opened Windows
  import opened Bags
  import opened Protocol
  import opened DiskFacts
  import opened Structure

  // ---------------------------------------------------------------- lists of readers

  /** e.files, a list of readers per window, and e.maxFlushedTS. */
  datatype Opened = Opened(files: map<Win, seq<Path>>, maxTs: map<Win, int>)

  function ListOf(files: map<Win, seq<Path>>, w: Win): seq<Path> {
    if w in files then files[w] else []
  }

  function WithReader(files: map<Win, seq<Path>>, p: Path): map<Win, seq<Path>> {
    files[p.win := ListOf(files, p.win) + [p]]
  }

  function RemoveFirst(s: seq<Path>, p: Path): seq<Path> {
    if s == [] then [] else if s[0] == p then s[1..] else [s[0]] + RemoveFirst(s[1..], p)
  }

  function WithoutReader(files: map<Win, seq<Path>>, p: Path): map<Win, seq<Path>> {
    if p.win in files then files[p.win := RemoveFirst(files[p.win], p)] else files
  }

  /** The loop over AddedFiles; a file that fails to open ends the callback. */
  function OpenAdds(st: Opened, added: seq<Entry>, ssts: map<Path, SstFile>): (r: (Opened, bool))
    decreases |added|
  {
    if added == [] then (st, true)
    else if !Present(ssts, added[0].path) then (st, false)
    else OpenAdds(Opened(WithReader(st.files, added[0].path), RaiseMax(st.maxTs, added[0])), added[1..], ssts)
  }

  /** The loop over DeletedFiles. */
  function DropAll(files: map<Win, seq<Path>>, deleted: seq<Path>): map<Win, seq<Path>> {
    if deleted == [] then files
    else WithoutReader(DropAll(files, deleted[..|deleted| - 1]), deleted[|deleted| - 1])
  }

  function OpenEdit(st: Opened, e: Edit, ssts: map<Path, SstFile>): Opened {
    var (st', ok) := OpenAdds(st, e.added, ssts);
    if ok then st'.(files := DropAll(st'.files, e.deleted)) else st'
  }

  function OpenManifest(manifest: seq<Edit>, ssts: map<Path, SstFile>): Opened {
    if manifest == [] then Opened(map[], map[])
    else OpenEdit(OpenManifest(manifest[..|manifest| - 1], ssts), manifest[|manifest| - 1], ssts)
  }

  /** append(readers[:i], readers[i+1:]...) at the first reader of that path. */
  method RemovePath(s: seq<Path>, p: Path) returns (r: seq<Path>)
    ensures r == RemoveFirst(s, p)
  {
    var i := 0;
    while i < |s| && s[i] != p
      invariant 0 <= i <= |s| && forall k :: 0 <= k < i ==> s[k] != p
    {
      i := i + 1;
    }
    if i == |s| {
      RemoveAbsent(s, p);
      return s;
    }
    RemoveAt(s, p, i);
    r := s[..i] + s[i + 1..];
  }

  lemma {:induction false} RemoveAbsent(s: seq<Path>, p: Path)
    requires forall k :: 0 <= k < |s| ==> s[k] != p
    ensures RemoveFirst(s, p) == s
  {
    if s != [] { RemoveAbsent(s[1..], p); }
  }

  lemma {:induction false} RemoveAt(s: seq<Path>, p: Path, i: nat)
    requires i < |s| && s[i] == p && forall k :: 0 <= k < i ==> s[k] != p
    ensures RemoveFirst(s, p) == s[..i] + s[i + 1..]
  {
    if i > 0 {
      RemoveAt(s[1..], p, i - 1);
      assert s[1..][..i - 1] == s[1..i] && s[1..][i..] == s[i + 1..] && s[..i] == [s[0]] + s[1..i];
    }
  }

  class Recoverer {
    const d: Duration
    var files: map<Win, seq<Path>>
    var maxFlushedTS: map<Win, int>
    /** What each partition's memtable was sent, in order. */
    var mems: map<Win, seq<Record>>

    ghost function State(): Opened
      reads this
    {
      Opened(files, maxFlushedTS)
    }

    constructor (d: Duration)
      ensures this.d == d && State() == Opened(map[], map[]) && mems == map[]
    {
      this.d := d;
      files, maxFlushedTS, mems := map[], map[], map[];
    }

    method AddFile(fe: Entry)
      modifies this`files, this`maxFlushedTS
      ensures State() == Opened(WithReader(old(files), fe.path), RaiseMax(old(maxFlushedTS), fe))
    {
      var w := fe.path.win;
      files := files[w := ListOf(files, w) + [fe.path]];
      if fe.maxTs > (if w in maxFlushedTS then maxFlushedTS[w] else 0) { maxFlushedTS := maxFlushedTS[w := fe.maxTs]; }
    }

    method DeleteFile(p: Path)
      modifies this`files
      ensures files == WithoutReader(old(files), p)
    {
      var kept := RemovePath(ListOf(files, p.win), p);
      if p.win in files { files := files[p.win := kept]; }
    }

    /** The manifest callback: the loop over AddedFiles with its early return, then the loop over DeletedFiles. */
    method ReplayEdit(e: Edit, ssts: map<Path, SstFile>)
      modifies this`files, this`maxFlushedTS
      ensures State() == OpenEdit(old(State()), e, ssts)
    {
      ghost var whole := OpenAdds(State(), e.added, ssts);
      for i := 0 to |e.added|
        invariant OpenAdds(State(), e.added[i..], ssts) == whole
      {
        ghost var rest := e.added[i..];
        assert rest[0] == e.added[i] && rest[1..] == e.added[i + 1..];
        if !Present(ssts, e.added[i].path) { return; }
        AddFile(e.added[i]);
      }
      assert e.added[|e.added|..] == [];
      for i := 0 to |e.deleted|
        invariant State() == whole.0.(files := DropAll(whole.0.files, e.deleted[..i]))
      {
        assert e.deleted[..i + 1][..i] == e.deleted[..i];
        DeleteFile(e.deleted[i]);
      }
      assert e.deleted[..|e.deleted|] == e.deleted;
    }

    /** Manifest replay, over any manifest and any directory. */
    method ReplayManifest(manifest: seq<Edit>, ssts: map<Path, SstFile>)
      requires State() == Opened(map[], map[])
      modifies this`files, this`maxFlushedTS
      ensures State() == OpenManifest(manifest, ssts)
    {
      assert manifest[..0] == [];
      for i := 0 to |manifest|
        invariant State() == OpenManifest(manifest[..i], ssts)
      {
        assert manifest[..i + 1][..i] == manifest[..i];
        ReplayEdit(manifest[i], ssts);
      }
      assert manifest[..|manifest|] == manifest;
    }

    /** The WAL callback in Tolerant mode. */
    method ReplayRecord(rec: Record) returns (isNew: bool)
      modifies this`mems
      ensures isNew == !Skipped(d, maxFlushedTS, rec)
      ensures AllSent(d, old(mems), mems, [rec], maxFlushedTS)
    {
      var w := WinOf(d, rec);
      OneKept(d, rec, maxFlushedTS);
      if w in maxFlushedTS && rec.ts <= maxFlushedTS[w] { return false; }
      mems := mems[w := Sent(mems, w) + [rec]];
      return true;
    }

    /** One WAL segment; it is deleted when it brought nothing new. */
    method ReplaySegment(records: seq<Record>) returns (hadNewRecord: bool)
      modifies this`mems
      ensures hadNewRecord == HasNew(d, records, maxFlushedTS)
      ensures AllSent(d, old(mems), mems, records, maxFlushedTS)
    {
      hadNewRecord := false;
      ghost var done: seq<Record> := [];
      NoneSent(d, mems, maxFlushedTS);
      for i := 0 to |records|
        invariant done == records[..i] && hadNewRecord == HasNew(d, done, maxFlushedTS)
                  && AllSent(d, old(mems), mems, done, maxFlushedTS)
      {
        ghost var before := mems;
        var isNew := ReplayRecord(records[i]);
        SentMore(d, old(mems), before, mems, done, [records[i]], maxFlushedTS);
        done := done + [records[i]];
        hadNewRecord := hadNewRecord || isNew;
      }
      assert done == records;
    }

    /** All segments in the order of their names; covered lists those that brought nothing new. */
    method ReplayWals(wals: map<nat, seq<Record>>, order: seq<nat>) returns (covered: seq<nat>)
      requires forall i :: 0 <= i < |order| ==> order[i] in wals
      modifies this`mems
      ensures AllSent(d, old(mems), mems, InTurn(wals, order), maxFlushedTS)
      ensures forall i :: i in covered <==> i in order && !HasNew(d, wals[i], maxFlushedTS)
    {
      covered := [];
      NoneSent(d, mems, maxFlushedTS);
      ghost var done: seq<Record> := [];
      for i := 0 to |order|
        invariant done == InTurn(wals, order[..i]) && AllSent(d, old(mems), mems, done, maxFlushedTS)
        invariant forall k :: k in covered <==> k in order[..i] && !HasNew(d, wals[k], maxFlushedTS)
      {
        ghost var before := mems;
        var hadNewRecord := ReplaySegment(wals[order[i]]);
        SentMore(d, old(mems), before, mems, done, wals[order[i]], maxFlushedTS);
        InTurnMore(wals, order, i);
        done := done + wals[order[i]];
        assert order[..i + 1] == order[..i] + [order[i]];
        if !hadNewRecord { covered := covered + [order[i]]; }
      }
      assert order[..|order|] == order;
    }
  }

  // ---------------------------------------------------------------- lists against the step machine's set

  /** How many readers of p the list of window w holds. */
  ghost function Count(files: map<Win, seq<Path>>, w: Win, p: Path): nat {
    multiset(ListOf(files, w))[p]
  }

  /** Every path of the set has one reader, in the list of its window, and there are no others. */
  ghost predicate Exactly(files: map<Win, seq<Path>>, paths: set<Path>) {
    forall w, p {:trigger Count(files, w, p)} :: Count(files, w, p) == if p.win == w && p in paths then 1 else 0
  }

  /** The paths that the loop over AddedFiles opens. */
  ghost function Opens(added: seq<Entry>, ssts: map<Path, SstFile>): seq<Path> {
    if added == [] || !Present(ssts, added[0].path) then [] else [added[0].path] + Opens(added[1..], ssts)
  }

  /** The edit opens no path that is open already, and none twice. */
  ghost predicate OpensOnce(e: Edit, paths: set<Path>, ssts: map<Path, SstFile>) {
    NoDuplicates(Opens(e.added, ssts)) && forall p :: p in Opens(e.added, ssts) ==> p !in paths
  }

  lemma {:induction false} CountRemoved(s: seq<Path>, p: Path)
    ensures multiset(RemoveFirst(s, p)) == multiset(s) - multiset{p}
  {
    if s != [] {
      assert s == [s[0]] + s[1..];
      if s[0] != p { CountRemoved(s[1..], p); }
    }
  }

  lemma {:induction false} CountDropped(files: map<Win, seq<Path>>, deleted: seq<Path>, w: Win, q: Path)
    ensures var c, k := Count(files, w, q), if q.win == w then multiset(deleted)[q] else 0;
            Count(DropAll(files, deleted), w, q) == if k < c then c - k else 0
  {
    if deleted != [] {
      var n := |deleted| - 1;
      CountDropped(files, deleted[..n], w, q);
      assert deleted == deleted[..n] + [deleted[n]];
      CountWithout(DropAll(files, deleted[..n]), deleted[n], w, q);
    }
  }

  lemma CountWithout(files: map<Win, seq<Path>>, p: Path, w: Win, q: Path)
    ensures var c := Count(files, w, q);
            Count(WithoutReader(files, p), w, q) == if p == q && q.win == w && c > 0 then c - 1 else c
  {
    CountRemoved(ListOf(files, p.win), p);
  }

  lemma {:induction false} CountOpened(st: Opened, added: seq<Entry>, ssts: map<Path, SstFile>, w: Win, q: Path)
    ensures var k := if q.win == w then multiset(Opens(added, ssts))[q] else 0;
            Count(OpenAdds(st, added, ssts).0.files, w, q) == Count(st.files, w, q) + k
    decreases |added|
  {
    if added != [] && Present(ssts, added[0].path) {
      var p := added[0].path;
      CountOpened(Opened(WithReader(st.files, p), RaiseMax(st.maxTs, added[0])), added[1..], ssts, w, q);
      CountWith(st.files, p, w, q);
      assert multiset([p] + Opens(added[1..], ssts))[q] == multiset{p}[q] + multiset(Opens(added[1..], ssts))[q];
    }
  }

  lemma CountWith(files: map<Win, seq<Path>>, p: Path, w: Win, q: Path)
    ensures Count(WithReader(files, p), w, q) == Count(files, w, q) + if p == q && q.win == w then 1 else 0
  {
    assert multiset(ListOf(files, p.win) + [p]) == multiset(ListOf(files, p.win)) + multiset{p};
  }

  /** The two loops go the same way, and their maxima agree whatever the paths. */
  lemma {:induction false} AddsInStep(st: Opened, rp: Replayed, added: seq<Entry>, ssts: map<Path, SstFile>)
    requires st.maxTs == rp.maxTs
    ensures var (st', ok) := OpenAdds(st, added, ssts);
            var (rp', ok') := ReplayAdds(rp, added, ssts);
            ok == ok' && st'.maxTs == rp'.maxTs
            && forall q :: q in rp'.files <==> q in rp.files || q in Opens(added, ssts)
    decreases |added|
  {
    if added != [] && Present(ssts, added[0].path) {
      var x := added[0];
      AddsInStep(Opened(WithReader(st.files, x.path), RaiseMax(st.maxTs, x)),
                 Replayed(rp.files + {x.path}, RaiseMax(rp.maxTs, x)), added[1..], ssts);
    }
  }

  /** How many readers of q an edit leaves in the list of window w, and whether it leaves q in the set. */
  lemma EditCounts(st: Opened, rp: Replayed, e: Edit, ssts: map<Path, SstFile>, w: Win, q: Path)
    requires st.maxTs == rp.maxTs
    ensures var ok := OpenAdds(st, e.added, ssts).1;
            var c := Count(st.files, w, q) + if q.win == w then multiset(Opens(e.added, ssts))[q] else 0;
            var k := if ok && q.win == w then multiset(e.deleted)[q] else 0;
            Count(OpenEdit(st, e, ssts).files, w, q) == (if k < c then c - k else 0)
            && (q in Protocol.ReplayEdit(rp, e, ssts).files <==>
                  (q in rp.files || q in Opens(e.added, ssts)) && !(ok && q in e.deleted))
  {
    AddsInStep(st, rp, e.added, ssts);
    CountOpened(st, e.added, ssts, w, q);
    CountDropped(OpenAdds(st, e.added, ssts).0.files, e.deleted, w, q);
  }

  lemma OnceCounted(s: seq<Path>, q: Path)
    requires NoDuplicates(s)
    ensures multiset(s)[q] == if q in s then 1 else 0
  {
    if q in s {
      var i :| 0 <= i < |s| && s[i] == q;
      assert s == s[..i] + [q] + s[i + 1..];
      assert q !in s[..i] && q !in s[i + 1..];
    }
  }

  lemma EditExact(st: Opened, rp: Replayed, e: Edit, ssts: map<Path, SstFile>)
    requires st.maxTs == rp.maxTs && Exactly(st.files, rp.files) && OpensOnce(e, rp.files, ssts)
    ensures Exactly(OpenEdit(st, e, ssts).files, Protocol.ReplayEdit(rp, e, ssts).files)
  {
    var st', rp' := OpenEdit(st, e, ssts), Protocol.ReplayEdit(rp, e, ssts);
    forall w, q
      ensures Count(st'.files, w, q) == if q.win == w && q in rp'.files then 1 else 0
    {
      EditCounts(st, rp, e, ssts, w, q);
      OnceCounted(Opens(e.added, ssts), q);
      assert Count(st.files, w, q) == if q.win == w && q in rp.files then 1 else 0;
    }
  }

  /** A path opened a second time keeps a reader too many, whether the edit deletes it or not. */
  lemma EditDoubles(st: Opened, rp: Replayed, e: Edit, ssts: map<Path, SstFile>)
    requires st.maxTs == rp.maxTs && Exactly(st.files, rp.files) && NoDuplicates(e.deleted)
    requires !OpensOnce(e, rp.files, ssts)
    ensures !Exactly(OpenEdit(st, e, ssts).files, Protocol.ReplayEdit(rp, e, ssts).files)
  {
    var opens := Opens(e.added, ssts);
    var q := Repeated(opens, rp.files);
    EditCounts(st, rp, e, ssts, q.win, q);
    OnceCounted(e.deleted, q);
    assert Count(st.files, q.win, q) == if q in rp.files then 1 else 0;
    assert Count(OpenEdit(st, e, ssts).files, q.win, q)
           != if q in Protocol.ReplayEdit(rp, e, ssts).files then 1 else 0;
  }

  lemma Repeated(s: seq<Path>, paths: set<Path>) returns (q: Path)
    requires !(NoDuplicates(s) && forall p :: p in s ==> p !in paths)
    ensures q in s && multiset(s)[q] + (if q in paths then 1 else 0) >= 2
  {
    if NoDuplicates(s) {
      q :| q in s && q in paths;
    } else {
      var i, j :| 0 <= i < j < |s| && s[i] == s[j];
      q := s[i];
      assert s == s[..j] + [q] + s[j + 1..];
      assert s[..j][i] == q;
    }
  }

  lemma {:induction false} MaximaAgree(manifest: seq<Edit>, ssts: map<Path, SstFile>)
    ensures OpenManifest(manifest, ssts).maxTs == Protocol.ReplayManifest(manifest, ssts).maxTs
  {
    if manifest != [] {
      var n := |manifest| - 1;
      MaximaAgree(manifest[..n], ssts);
      AddsInStep(OpenManifest(manifest[..n], ssts), Protocol.ReplayManifest(manifest[..n], ssts), manifest[n].added,
                 ssts);
    }
  }

  /** After the first n edits the lists are the set. */
  ghost predicate ExactAfter(manifest: seq<Edit>, ssts: map<Path, SstFile>, n: nat)
    requires n <= |manifest|
  {
    Exactly(OpenManifest(manifest[..n], ssts).files, Protocol.ReplayManifest(manifest[..n], ssts).files)
  }

  /** Edit n opens nothing twice. */
  ghost predicate OnceAt(manifest: seq<Edit>, ssts: map<Path, SstFile>, n: nat)
    requires n < |manifest|
  {
    OpensOnce(manifest[n], Protocol.ReplayManifest(manifest[..n], ssts).files, ssts)
  }

  lemma {:induction false} ListsAreSet(manifest: seq<Edit>, ssts: map<Path, SstFile>, n: nat)
    requires n <= |manifest| && forall i :: 0 <= i < n ==> OnceAt(manifest, ssts, i)
    ensures ExactAfter(manifest, ssts, n)
  {
    if n > 0 {
      ListsAreSet(manifest, ssts, n - 1);
      assert OnceAt(manifest, ssts, n - 1) && manifest[..n][..n - 1] == manifest[..n - 1];
      MaximaAgree(manifest[..n - 1], ssts);
      EditExact(OpenManifest(manifest[..n - 1], ssts), Protocol.ReplayManifest(manifest[..n - 1], ssts),
                manifest[n - 1], ssts);
    } else {
      assert manifest[..0] == [];
    }
  }

  /** Over any manifest whose edits delete no path twice, the lists of Open are the step machine's file set all along if
      and only if no edit opens a path that is open. */
  lemma ListsAreSetIff(manifest: seq<Edit>, ssts: map<Path, SstFile>)
    requires forall i :: 0 <= i < |manifest| ==> NoDuplicates(manifest[i].deleted)
    ensures (forall n :: 0 <= n <= |manifest| ==> ExactAfter(manifest, ssts, n)) <==>
            forall n :: 0 <= n < |manifest| ==> OnceAt(manifest, ssts, n)
  {
    if forall n :: 0 <= n < |manifest| ==> OnceAt(manifest, ssts, n) {
      forall n | 0 <= n <= |manifest|
        ensures ExactAfter(manifest, ssts, n)
      {
        ListsAreSet(manifest, ssts, n);
      }
    } else {
      var n :| 0 <= n < |manifest| && !OnceAt(manifest, ssts, n);
      if ExactAfter(manifest, ssts, n) { StopsExact(manifest, ssts, n); }
    }
  }

  lemma StopsExact(manifest: seq<Edit>, ssts: map<Path, SstFile>, n: nat)
    requires n < |manifest| && ExactAfter(manifest, ssts, n) && !OnceAt(manifest, ssts, n)
    requires NoDuplicates(manifest[n].deleted)
    ensures !ExactAfter(manifest, ssts, n + 1)
  {
    assert manifest[..n + 1][..n] == manifest[..n];
    MaximaAgree(manifest[..n], ssts);
    EditDoubles(OpenManifest(manifest[..n], ssts), Protocol.ReplayManifest(manifest[..n], ssts), manifest[n], ssts);
  }

  // ---------------------------------------------------------------- WAL replay

  ghost predicate HasNew(d: Duration, records: seq<Record>, maxTs: map<Win, int>) {
    exists r :: r in records && !Skipped(d, maxTs, r)
  }

  function Sent(mems: map<Win, seq<Record>>, w: Win): seq<Record> {
    if w in mems then mems[w] else []
  }

  /** The records of window w that the replay filter lets through, in log order. */
  function Kept(d: Duration, records: seq<Record>, w: Win, maxTs: map<Win, int>): seq<Record> {
    if records == [] then []
    else (if WinOf(d, records[0]) == w && !Skipped(d, maxTs, records[0]) then [records[0]] else [])
         + Kept(d, records[1..], w, maxTs)
  }

  /** Every memtable received, behind what it had, the kept records of its window in log order. */
  ghost predicate AllSent(d: Duration, before: map<Win, seq<Record>>, after: map<Win, seq<Record>>,
                          records: seq<Record>, maxTs: map<Win, int>) {
    forall w {:trigger Sent(after, w)} :: Sent(after, w) == Sent(before, w) + Kept(d, records, w, maxTs)
  }

  /** The segments' records, segment after segment. */
  function InTurn(wals: map<nat, seq<Record>>, order: seq<nat>): seq<Record>
    requires forall i :: 0 <= i < |order| ==> order[i] in wals
  {
    if order == [] then [] else InTurn(wals, order[..|order| - 1]) + wals[order[|order| - 1]]
  }

  lemma InTurnMore(wals: map<nat, seq<Record>>, order: seq<nat>, i: nat)
    requires i < |order| && forall k :: 0 <= k < |order| ==> order[k] in wals
    ensures InTurn(wals, order[..i + 1]) == InTurn(wals, order[..i]) + wals[order[i]]
  {
    assert order[..i + 1][..i] == order[..i];
  }

  lemma {:induction false} KeptConcat(d: Duration, a: seq<Record>, b: seq<Record>, w: Win, maxTs: map<Win, int>)
    ensures Kept(d, a + b, w, maxTs) == Kept(d, a, w, maxTs) + Kept(d, b, w, maxTs)
  {
    if a == [] {
      assert a + b == b;
    } else {
      assert (a + b)[1..] == a[1..] + b;
      KeptConcat(d, a[1..], b, w, maxTs);
    }
  }

  lemma OneKept(d: Duration, r: Record, maxTs: map<Win, int>)
    ensures forall w :: Kept(d, [r], w, maxTs) == if WinOf(d, r) == w && !Skipped(d, maxTs, r) then [r] else []
  {
    forall w
      ensures Kept(d, [r], w, maxTs) == if WinOf(d, r) == w && !Skipped(d, maxTs, r) then [r] else []
    {
      assert [r][1..] == [] && Kept(d, [], w, maxTs) == [];
    }
  }

  lemma NoneSent(d: Duration, mems: map<Win, seq<Record>>, maxTs: map<Win, int>)
    ensures AllSent(d, mems, mems, [], maxTs)
  {}

  lemma SentMore(d: Duration, a: map<Win, seq<Record>>, b: map<Win, seq<Record>>, c: map<Win, seq<Record>>,
                 rs: seq<Record>, qs: seq<Record>, maxTs: map<Win, int>)
    requires AllSent(d, a, b, rs, maxTs) && AllSent(d, b, c, qs, maxTs)
    ensures AllSent(d, a, c, rs + qs, maxTs)
  {
    forall w
      ensures Sent(c, w) == Sent(a, w) + Kept(d, rs + qs, w, maxTs)
    {
      KeptConcat(d, rs, qs, w, maxTs);
      assert Sent(b, w) == Sent(a, w) + Kept(d, rs, w, maxTs) && Sent(c, w) == Sent(b, w) + Kept(d, qs, w, maxTs);
      Behind(Sent(a, w), Kept(d, rs, w, maxTs), Kept(d, qs, w, maxTs));
    }
  }

  lemma Behind(a: seq<Record>, b: seq<Record>, c: seq<Record>)
    ensures (a + b) + c == a + (b + c)
  {}

  /** As a multiset, what is kept of a segment is what the step machine counts. */
  lemma {:induction false} KeptIsUnskipped(d: Duration, records: seq<Record>, w: Win, maxTs: map<Win, int>)
    ensures multiset(Kept(d, records, w, maxTs)) == Unskipped(d, records, w, maxTs)
  {
    if records != [] {
      var n := |records| - 1;
      KeptIsUnskipped(d, records[..n], w, maxTs);
      LastKept(d, records[..n], records[n], w, maxTs);
      assert records == records[..n] + [records[n]];
    }
  }

  lemma LastKept(d: Duration, records: seq<Record>, r: Record, w: Win, maxTs: map<Win, int>)
    ensures multiset(Kept(d, records + [r], w, maxTs))
            == multiset(Kept(d, records, w, maxTs))
              + if WinOf(d, r) == w && !Skipped(d, maxTs, r) then multiset{r} else multiset{}
  {
    KeptConcat(d, records, [r], w, maxTs);
    OneKept(d, r, maxTs);
    assert Kept(d, [r], w, maxTs) == if WinOf(d, r) == w && !Skipped(d, maxTs, r) then [r] else [];
  }

  /** What all segments send to the memtable of w is what the step machine rebuilds. */
  lemma {:induction false} KeptIsRebuilt(d: Duration, wals: map<nat, seq<Record>>, order: seq<nat>, w: Win,
                                         maxTs: map<Win, int>)
    requires NoDuplicates(order) && forall i :: i in order <==> i in wals
    ensures multiset(Kept(d, InTurn(wals, order), w, maxTs)) == ReplayedWals(d, wals, w, maxTs)
    decreases |order|
  {
    if order == [] {
      assert wals == map[] && UnskippedBySegment(d, wals, w, maxTs) == map[];
      SumZero<nat>(map[]);
    } else {
      var n := |order| - 1;
      var i, front, rest := order[n], order[..n], wals - {order[n]};
      LeftSegments(wals, order);
      KeptIsRebuilt(d, rest, front, w, maxTs);
      SameTurn(wals, rest, front);
      LastSegmentKept(d, InTurn(wals, front), wals[i], w, maxTs);
      OneSegmentMore(d, wals, i, w, maxTs);
    }
  }

  lemma LeftSegments(wals: map<nat, seq<Record>>, order: seq<nat>)
    requires NoDuplicates(order) && order != [] && forall i :: i in order <==> i in wals
    ensures var n := |order| - 1;
            NoDuplicates(order[..n]) && forall i :: i in order[..n] <==> i in wals - {order[n]}
  {
    var n := |order| - 1;
    assert order == order[..n] + [order[n]];
  }

  lemma LastSegmentKept(d: Duration, before: seq<Record>, segment: seq<Record>, w: Win, maxTs: map<Win, int>)
    ensures multiset(Kept(d, before + segment, w, maxTs))
            == multiset(Kept(d, before, w, maxTs)) + Unskipped(d, segment, w, maxTs)
  {
    KeptConcat(d, before, segment, w, maxTs);
    KeptIsUnskipped(d, segment, w, maxTs);
  }

  lemma OneSegmentMore(d: Duration, wals: map<nat, seq<Record>>, i: nat, w: Win, maxTs: map<Win, int>)
    requires i in wals
    ensures ReplayedWals(d, wals, w, maxTs)
            == ReplayedWals(d, wals - {i}, w, maxTs) + Unskipped(d, wals[i], w, maxTs)
  {
    var u, b := UnskippedBySegment(d, wals - {i}, w, maxTs), Unskipped(d, wals[i], w, maxTs);
    SumAdd(u, i, b);
    assert UnskippedBySegment(d, wals, w, maxTs) == u[i := b];
  }

  lemma {:induction false} SameTurn(a: map<nat, seq<Record>>, b: map<nat, seq<Record>>, order: seq<nat>)
    requires forall i :: 0 <= i < |order| ==> order[i] in a && order[i] in b && a[order[i]] == b[order[i]]
    ensures InTurn(a, order) == InTurn(b, order)
  {
    if order != [] { SameTurn(a, b, order[..|order| - 1]); }
  }

  // ---------------------------------------------------------------- the manifests that runs leave

  /** Every edit adds at most one file, under a name that no earlier edit added. */
  ghost predicate AddsAreNew(manifest: seq<Edit>) {
    manifest != [] ==>
      |Last(manifest).added| <= 1 && (forall x :: x in Last(manifest).added ==> !Mentioned(Front(manifest), x.path))
      && AddsAreNew(Front(manifest))
  }

  /** At most one edit is appended, and what it adds is new. */
  ghost predicate AddsNew(manifest: seq<Edit>, manifest': seq<Edit>) {
    manifest' == manifest || (manifest' != [] && Front(manifest') == manifest && |Last(manifest').added| <= 1
                              && forall x :: x in Last(manifest').added ==> !Mentioned(manifest, x.path))
  }

  lemma AppendsNew(manifest: seq<Edit>, x: Entry, deleted: seq<Path>)
    requires !Mentioned(manifest, x.path)
    ensures AddsNew(manifest, manifest + [Edit([x], deleted)])
  {
    Appended(manifest, Edit([x], deleted));
  }

  lemma FlushEditIsNew(d: Duration, s: Protocol.State)
    requires Inv(d, s) && Enabled(d, s, FlushPublish)
    ensures AddsNew(s.disk.manifest, Step(d, s, FlushPublish).disk.manifest)
  {
    FlushNameIsNew(d, s);
    AppendsNew(s.disk.manifest, Entry(s.mode.m.flush.Out(), s.mode.m.flush.maxTs), []);
  }

  lemma MergeEditIsNew(d: Duration, s: Protocol.State)
    requires Inv(d, s) && Enabled(d, s, CompactPublish)
    ensures AddsNew(s.disk.manifest, Step(d, s, CompactPublish).disk.manifest)
  {
    MergeNameIsNew(s.disk, s.mode.m);
    AppendsNew(s.disk.manifest, Entry(s.mode.m.compact.out, s.mode.m.compact.outMax), s.mode.m.compact.inputs);
  }

  lemma MergeNameIsNew(k: Disk, m: Memory)
    requires CompactOk(k, m) && m.compact.Compacting? && m.compact.cpc == OutWritten
    ensures !Mentioned(k.manifest, m.compact.out)
  {}

  lemma ManifestStep(d: Duration, s: Protocol.State, l: Label)
    requires Inv(d, s) && Enabled(d, s, l)
    ensures AddsNew(s.disk.manifest, Step(d, s, l).disk.manifest)
  {
    if l.FlushPublish? {
      FlushEditIsNew(d, s);
    } else if l.CompactPublish? {
      MergeEditIsNew(d, s);
    } else if l.RetirePublish? {
      Appended(s.disk.manifest, Edit([], s.mode.m.compact.expired));
    }
  }

  lemma {:induction false} RunsAddNew(d: Duration, states: seq<Protocol.State>, labels: seq<Label>, n: nat)
    requires IsRun(d, states, labels) && FreshRun(d, states, labels) && NumberedRun(states, labels) && n <= |labels|
    ensures AddsAreNew(states[n].disk.manifest)
  {
    if n > 0 {
      RunsAddNew(d, states, labels, n - 1);
      Reachable(d, states, labels, n - 1);
      ManifestStep(d, states[n - 1], labels[n - 1]);
    }
  }

  /** Only added files are open. */
  lemma {:induction false} OpenIsMentioned(manifest: seq<Edit>, ssts: map<Path, SstFile>, p: Path)
    requires AddsAreNew(manifest) && p in Protocol.ReplayManifest(manifest, ssts).files
    ensures Mentioned(manifest, p)
  {
    var before := Protocol.ReplayManifest(Front(manifest), ssts);
    if p in before.files {
      OpenIsMentioned(Front(manifest), ssts, p);
      var e :| Adds(Front(manifest), e) && e.path == p;
      assert Adds(manifest, e);
    } else {
      var x := Last(manifest).added[0];
      ReplayOne(before, x, ssts);
      assert Last(manifest).added == [x] && Adds(manifest, x);
    }
  }

  lemma {:induction false} NewAddsOpenOnce(manifest: seq<Edit>, ssts: map<Path, SstFile>, i: nat)
    requires AddsAreNew(manifest) && i < |manifest|
    ensures OnceAt(manifest, ssts, i)
  {
    var n := |manifest| - 1;
    assert Front(manifest) == manifest[..n] && Last(manifest) == manifest[n];
    if i < n {
      NewAddsOpenOnce(manifest[..n], ssts, i);
      assert manifest[..n][..i] == manifest[..i];
    } else {
      var files := Protocol.ReplayManifest(manifest[..n], ssts).files;
      forall p | p in files
        ensures Mentioned(manifest[..n], p)
      {
        OpenIsMentioned(manifest[..n], ssts, p);
      }
      OneOpens(manifest[n].added, ssts);
    }
  }

  lemma OneOpens(added: seq<Entry>, ssts: map<Path, SstFile>)
    requires |added| <= 1
    ensures NoDuplicates(Opens(added, ssts))
            && forall p :: p in Opens(added, ssts) ==> exists x :: x in added && x.path == p
  {
    if added != [] {
      assert Opens(added[1..], ssts) == [];
      assert added[0] in added;
    }
  }

  /** In every state of every run with fresh merge names and found segment numbers, the loops of Open leave one reader
      per live file, in the list of its window, and no other. */
  lemma ReachableManifestsReplay(d: Duration, states: seq<Protocol.State>, labels: seq<Label>, n: nat)
    requires IsRun(d, states, labels) && FreshRun(d, states, labels) && NumberedRun(states, labels) && n <= |labels|
    ensures Exactly(OpenManifest(states[n].disk.manifest, states[n].disk.ssts).files, Live(states[n].disk.manifest))
  {
    var k := states[n].disk;
    RunsAddNew(d, states, labels, n);
    forall i | 0 <= i < |k.manifest|
      ensures OnceAt(k.manifest, k.ssts, i)
    {
      NewAddsOpenOnce(k.manifest, k.ssts, i);
    }
    ListsAreSet(k.manifest, k.ssts, |k.manifest|);
    assert k.manifest[..|k.manifest|] == k.manifest;
    RecoveredFileSet(d, states, labels, n);
  }
}
