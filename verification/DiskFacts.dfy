/** What the directory satisfies between any two steps, and what recovery computes from it. */
module DiskFacts {
  import opened Records
  import opened Windows
  import opened Bags
  import opened Protocol

  // ---------------------------------------------------------------- the manifest, edit by edit

  ghost function Last(manifest: seq<Edit>): Edit
    requires manifest != []
  {
    manifest[|manifest| - 1]
  }

  ghost function Front(manifest: seq<Edit>): seq<Edit>
    requires manifest != []
  {
    manifest[..|manifest| - 1]
  }

  ghost function AddedPaths(e: Edit): set<Path> {
    set x | x in e.added :: x.path
  }

  ghost function DeletedPaths(e: Edit): set<Path> {
    set p | p in e.deleted
  }

  /** The manifest fold that ignores the directory: files added and not deleted since. */
  ghost function Live(manifest: seq<Edit>): set<Path> {
    if manifest == [] then {}
    else Live(Front(manifest)) + AddedPaths(Last(manifest)) - DeletedPaths(Last(manifest))
  }

  /** Some edit adds e. */
  ghost predicate Adds(manifest: seq<Edit>, e: Entry) {
    manifest != [] && (e in Last(manifest).added || Adds(Front(manifest), e))
  }

  /** Some edit deletes p. */
  ghost predicate Deletes(manifest: seq<Edit>, p: Path) {
    manifest != [] && (p in Last(manifest).deleted || Deletes(Front(manifest), p))
  }

  /** Some edit adds e and deletes p: a merge. */
  ghost predicate Supersedes(manifest: seq<Edit>, e: Entry, p: Path) {
    manifest != []
    && ((e in Last(manifest).added && p in Last(manifest).deleted) || Supersedes(Front(manifest), e, p))
  }

  ghost predicate Mentioned(manifest: seq<Edit>, p: Path) {
    exists e :: Adds(manifest, e) && e.path == p
  }

  ghost predicate SingleAdds(manifest: seq<Edit>) {
    manifest != [] ==> |Last(manifest).added| <= 1 && SingleAdds(Front(manifest))
  }

  lemma Appended(manifest: seq<Edit>, e: Edit)
    ensures Front(manifest + [e]) == manifest && Last(manifest + [e]) == e
  {}

  lemma {:induction false} SupersedesBoth(manifest: seq<Edit>, e: Entry, p: Path)
    requires Supersedes(manifest, e, p)
    ensures Adds(manifest, e) && Deletes(manifest, p)
  {
    if !(e in Last(manifest).added && p in Last(manifest).deleted) {
      SupersedesBoth(Front(manifest), e, p);
    }
  }

  lemma {:induction false} LiveIsMentioned(manifest: seq<Edit>, p: Path)
    requires p in Live(manifest)
    ensures Mentioned(manifest, p)
  {
    if p in AddedPaths(Last(manifest)) {
      var x :| x in Last(manifest).added && x.path == p;
      assert Adds(manifest, x);
    } else {
      LiveIsMentioned(Front(manifest), p);
      var x :| Adds(Front(manifest), x) && x.path == p;
      assert Adds(manifest, x);
    }
  }

  // ---------------------------------------------------------------- what replay opens

  /** An edit whose added file is missing has all its deleted files missing. */
  ghost predicate EarlyReturnSafe(manifest: seq<Edit>, ssts: map<Path, SstFile>) {
    forall e, p :: Supersedes(manifest, e, p) && Present(ssts, p) ==> Present(ssts, e.path)
  }

  lemma ReplayOne(st: Replayed, x: Entry, ssts: map<Path, SstFile>)
    ensures ReplayAdds(st, [x], ssts) ==
            if Present(ssts, x.path) then (Replayed(st.files + {x.path}, RaiseMax(st.maxTs, x)), true) else (st, false)
  {
    assert [x][1..] == [];
  }

  /** Open's replay, early return included, opens exactly the live files that are on disk. */
  lemma {:induction false} ReplayOpensLive(manifest: seq<Edit>, ssts: map<Path, SstFile>)
    requires SingleAdds(manifest) && EarlyReturnSafe(manifest, ssts)
    ensures ReplayManifest(manifest, ssts).files == set p | p in Live(manifest) && Present(ssts, p)
  {
    if manifest != [] {
      var e := Last(manifest);
      assert EarlyReturnSafe(Front(manifest), ssts);
      ReplayOpensLive(Front(manifest), ssts);
      if e.added != [] {
        var x := e.added[0];
        assert e.added == [x];
        ReplayOne(ReplayManifest(Front(manifest), ssts), x, ssts);
        assert AddedPaths(e) == {x.path};
        if !Present(ssts, x.path) {
          forall p | p in e.deleted
            ensures !Present(ssts, p)
          {
            assert x in e.added;
            assert Supersedes(manifest, x, p);
          }
        }
      } else {
        assert AddedPaths(e) == {};
      }
    }
  }

  // ---------------------------------------------------------------- coverage

  /** The replay filter, said without the running maximum. */
  predicate Covers(d: Duration, e: Entry, r: Record) {
    e.path.win == WinOf(d, r) && 0 < e.maxTs && r.ts <= e.maxTs
  }

  ghost predicate Covered(d: Duration, manifest: seq<Edit>, ssts: map<Path, SstFile>, r: Record) {
    exists e :: Adds(manifest, e) && Present(ssts, e.path) && Covers(d, e, r)
  }

  lemma RaiseMaxCovers(d: Duration, m: map<Win, int>, e: Entry, r: Record)
    requires forall w :: w in m ==> 0 < m[w]
    ensures forall w :: w in RaiseMax(m, e) ==> 0 < RaiseMax(m, e)[w]
    ensures Skipped(d, RaiseMax(m, e), r) <==> Skipped(d, m, r) || Covers(d, e, r)
  {}

  /** Open skips a WAL record exactly when some file it opens, with a positive maximum, covers it. */
  lemma {:induction false} SkippedIsCovered(d: Duration, manifest: seq<Edit>, ssts: map<Path, SstFile>, r: Record)
    requires SingleAdds(manifest)
    ensures forall w :: w in ReplayManifest(manifest, ssts).maxTs ==> 0 < ReplayManifest(manifest, ssts).maxTs[w]
    ensures Skipped(d, ReplayManifest(manifest, ssts).maxTs, r) <==> Covered(d, manifest, ssts, r)
  {
    if manifest != [] {
      var e := Last(manifest);
      var m := ReplayManifest(Front(manifest), ssts).maxTs;
      SkippedIsCovered(d, Front(manifest), ssts, r);
      CoveredAppend(d, manifest, ssts, r);
      if e.added != [] {
        assert e.added == [e.added[0]];
        ReplayOne(ReplayManifest(Front(manifest), ssts), e.added[0], ssts);
        RaiseMaxCovers(d, m, e.added[0], r);
      }
    }
  }

  lemma CoveredAppend(d: Duration, manifest: seq<Edit>, ssts: map<Path, SstFile>, r: Record)
    requires manifest != []
    ensures Covered(d, manifest, ssts, r) <==>
            Covered(d, Front(manifest), ssts, r)
            || exists x :: x in Last(manifest).added && Present(ssts, x.path) && Covers(d, x, r)
  {
    if x :| Adds(Front(manifest), x) && Present(ssts, x.path) && Covers(d, x, r) {
      assert Adds(manifest, x);
    }
    if x :| x in Last(manifest).added && Present(ssts, x.path) && Covers(d, x, r) {
      assert Adds(manifest, x);
    }
  }

  // ---------------------------------------------------------------- the directory invariant

  ghost predicate InWindow(d: Duration, b: Bag, w: Win) {
    forall r :: r in b ==> WinOf(d, r) == w
  }

  /** Every path is added once. */
  ghost predicate PathsDistinct(manifest: seq<Edit>) {
    forall e, x :: Adds(manifest, e) && Adds(manifest, x) && e.path == x.path ==> e == x
  }

  ghost predicate DeletedAreDead(manifest: seq<Edit>) {
    forall p :: Deletes(manifest, p) ==> p !in Live(manifest) && Mentioned(manifest, p)
  }

  /** While an input of a merge is still on disk, the merge's output is live. */
  ghost predicate LeftoversSuperseded(manifest: seq<Edit>, ssts: map<Path, SstFile>) {
    forall e, p :: Supersedes(manifest, e, p) && Present(ssts, p) ==> e.path in Live(manifest)
  }

  /** A merge's output covers everything its inputs covered. */
  ghost predicate MergesCover(manifest: seq<Edit>) {
    forall e, x :: Adds(manifest, x) && Supersedes(manifest, e, x.path) ==>
      x.maxTs <= e.maxTs && x.path.win == e.path.win
  }

  ghost predicate LiveFile(d: Duration, ssts: map<Path, SstFile>, p: Path) {
    Present(ssts, p) && ssts[p].content != multiset{} && InWindow(d, ssts[p].content, p.win)
  }

  ghost predicate LiveFilesGood(d: Duration, manifest: seq<Edit>, ssts: map<Path, SstFile>) {
    (forall p :: p in Live(manifest) ==> LiveFile(d, ssts, p))
    && forall e :: Adds(manifest, e) && e.path in Live(manifest) ==> IsMax(ssts[e.path].content, e.maxTs)
  }

  ghost predicate DiskOk(d: Duration, manifest: seq<Edit>, ssts: map<Path, SstFile>) {
    SingleAdds(manifest) && PathsDistinct(manifest) && DeletedAreDead(manifest)
    && LeftoversSuperseded(manifest, ssts) && MergesCover(manifest) && LiveFilesGood(d, manifest, ssts)
  }

  /** In every directory that satisfies DiskOk the recovered file set equals the manifest fold. */
  lemma RecoveredFilesAreLive(d: Duration, manifest: seq<Edit>, ssts: map<Path, SstFile>)
    requires DiskOk(d, manifest, ssts)
    ensures ReplayManifest(manifest, ssts).files == Live(manifest)
    ensures EarlyReturnSafe(manifest, ssts)
  {
    forall e, p | Supersedes(manifest, e, p) && Present(ssts, p)
      ensures Present(ssts, e.path)
    {
      assert LiveFile(d, ssts, e.path);
    }
    ReplayOpensLive(manifest, ssts);
    forall p | p in Live(manifest)
      ensures Present(ssts, p)
    {
      assert LiveFile(d, ssts, p);
    }
  }

  // ---------------------------------------------------------------- how the directory may change

  ghost predicate SameExcept(ssts: map<Path, SstFile>, ssts': map<Path, SstFile>, out: Path) {
    forall p :: p != out ==> (p in ssts <==> p in ssts') && (p in ssts ==> ssts[p] == ssts'[p])
  }

  /** Creating, completing or deleting a file no edit mentions. */
  lemma UnmentionedFile(d: Duration, manifest: seq<Edit>, ssts: map<Path, SstFile>, ssts': map<Path, SstFile>,
                        out: Path)
    requires DiskOk(d, manifest, ssts)
    requires !Mentioned(manifest, out)
    requires SameExcept(ssts, ssts', out)
    ensures DiskOk(d, manifest, ssts')
    ensures forall r :: Covered(d, manifest, ssts', r) <==> Covered(d, manifest, ssts, r)
    ensures out !in Live(manifest)
  {
    if out in Live(manifest) { LiveIsMentioned(manifest, out); }
    forall p | p in Live(manifest)
      ensures LiveFile(d, ssts', p)
    {
      assert LiveFile(d, ssts, p);
    }
    assert forall e :: Adds(manifest, e) ==> e.path != out;
    forall e, p | Supersedes(manifest, e, p) && Present(ssts', p)
      ensures e.path in Live(manifest)
    {
      SupersedesBoth(manifest, e, p);
      assert Mentioned(manifest, p);
    }
  }

  /** What appending edit e requires: a flush, a merge or a retirement. */
  ghost predicate Publishable(d: Duration, manifest: seq<Edit>, ssts: map<Path, SstFile>, e: Edit) {
    |e.added| <= 1
    && (forall x :: x in e.added ==>
         !Mentioned(manifest, x.path) && LiveFile(d, ssts, x.path) && IsMax(ssts[x.path].content, x.maxTs))
    && (forall p :: p in e.deleted ==> p in Live(manifest))
    && (forall x, p :: x in e.added && p in e.deleted ==>
          p.win == x.path.win && Content(ssts, p) <= Content(ssts, x.path))
    && (e.deleted != [] ==> forall p :: Deletes(manifest, p) ==> !Present(ssts, p))
  }

  lemma PublishMergesCover(d: Duration, manifest: seq<Edit>, ssts: map<Path, SstFile>, e: Edit)
    requires DiskOk(d, manifest, ssts) && Publishable(d, manifest, ssts, e)
    ensures MergesCover(manifest + [e]) && PathsDistinct(manifest + [e])
  {
    var all := manifest + [e];
    Appended(manifest, e);
    forall a, x | Adds(all, x) && Supersedes(all, a, x.path)
      ensures x.maxTs <= a.maxTs && x.path.win == a.path.win
    {
      if Supersedes(manifest, a, x.path) {
        SupersedesBoth(manifest, a, x.path);
        assert Mentioned(manifest, x.path);
      } else {
        LiveIsMentioned(manifest, x.path);
        assert Adds(manifest, x);
        assert LiveFile(d, ssts, x.path);
        var top :| top in ssts[x.path].content && top.ts == x.maxTs;
        assert top in Content(ssts, a.path);
      }
    }
    forall a, x | Adds(all, a) && Adds(all, x) && a.path == x.path
      ensures a == x
    {
      assert Adds(manifest, x) ==> Mentioned(manifest, x.path);
      assert Adds(manifest, a) ==> Mentioned(manifest, a.path);
    }
  }

  lemma PublishKeepsDiskOk(d: Duration, manifest: seq<Edit>, ssts: map<Path, SstFile>, e: Edit)
    requires DiskOk(d, manifest, ssts) && Publishable(d, manifest, ssts, e)
    ensures DiskOk(d, manifest + [e], ssts)
    ensures Live(manifest + [e]) == Live(manifest) + AddedPaths(e) - DeletedPaths(e)
  {
    var all := manifest + [e];
    Appended(manifest, e);
    PublishMergesCover(d, manifest, ssts, e);
    forall p | Deletes(all, p)
      ensures p !in Live(all) && Mentioned(all, p)
    {
      assert Mentioned(manifest, p) by { if p in e.deleted { LiveIsMentioned(manifest, p); } }
      var x :| Adds(manifest, x) && x.path == p;
      assert Adds(all, x);
    }
    forall x, p | Supersedes(all, x, p) && Present(ssts, p)
      ensures x.path in Live(all)
    {
      if Supersedes(manifest, x, p) {
        SupersedesBoth(manifest, x, p);
      } else if x.path in e.deleted {
        LiveIsMentioned(manifest, x.path);
      }
    }
    forall x | Adds(all, x) && x.path in Live(all)
      ensures IsMax(ssts[x.path].content, x.maxTs)
    {
      if Adds(manifest, x) {
        assert Mentioned(manifest, x.path);
      }
    }
  }

  /** Deleting a file that is not live keeps the directory good. */
  lemma RemoveDead(d: Duration, manifest: seq<Edit>, ssts: map<Path, SstFile>, p: Path)
    requires DiskOk(d, manifest, ssts)
    requires p !in Live(manifest)
    ensures DiskOk(d, manifest, ssts - {p})
  {
    forall q | q in Live(manifest)
      ensures LiveFile(d, ssts - {p}, q)
    {
      assert LiveFile(d, ssts, q);
    }
  }

  /** p is no SSTable of the manifest, or a merge superseded it: not one that retention deleted. */
  ghost predicate NotRetired(manifest: seq<Edit>, p: Path) {
    Mentioned(manifest, p) ==> exists x :: Supersedes(manifest, x, p)
  }

  /** ... and it keeps the coverage when the file was an input of a merge, or was never in the manifest. */
  lemma RemoveMergeInput(d: Duration, manifest: seq<Edit>, ssts: map<Path, SstFile>, p: Path, r: Record)
    requires DiskOk(d, manifest, ssts)
    requires p !in Live(manifest) && NotRetired(manifest, p)
    ensures Covered(d, manifest, ssts - {p}, r) <==> Covered(d, manifest, ssts, r)
  {
    if e :| Adds(manifest, e) && Present(ssts, e.path) && Covers(d, e, r) {
      if e.path == p {
        assert Mentioned(manifest, p);
        var x :| Supersedes(manifest, x, p);
        SupersedesBoth(manifest, x, p);
        assert LiveFile(d, ssts, x.path);
        assert Present(ssts - {p}, x.path) && Covers(d, x, r);
      } else {
        assert Present(ssts - {p}, e.path);
      }
    }
    if e :| Adds(manifest, e) && Present(ssts - {p}, e.path) && Covers(d, e, r) {
      assert Present(ssts, e.path);
    }
  }
}
