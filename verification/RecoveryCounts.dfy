/** Counting what a crash would recover: the records the WAL replay yields and the records of the live files. */
module RecoveryCounts {
  import opened Records
  import opened Windows
  import opened Bags
  import opened Protocol
  import opened DiskFacts

  /** Every record of every segment. */
  ghost function Logged(wals: map<nat, seq<Record>>): Bag {
    Sum(BySegment(wals))
  }

  ghost function BySegment(wals: map<nat, seq<Record>>): map<nat, Bag> {
    map i | i in wals :: multiset(wals[i])
  }

  lemma {:induction false} UnskippedCount(d: Duration, s: seq<Record>, w: Win, maxTs: map<Win, int>, r: Record)
    ensures Unskipped(d, s, w, maxTs)[r] == if WinOf(d, r) == w && !Skipped(d, maxTs, r) then multiset(s)[r] else 0
  {
    if s != [] {
      UnskippedCount(d, s[..|s| - 1], w, maxTs, r);
      assert s == s[..|s| - 1] + [s[|s| - 1]];
    }
  }

  lemma WalCount(d: Duration, wals: map<nat, seq<Record>>, w: Win, maxTs: map<Win, int>, r: Record)
    ensures ReplayedWals(d, wals, w, maxTs)[r] ==
            if WinOf(d, r) == w && !Skipped(d, maxTs, r) then Logged(wals)[r] else 0
  {
    forall i | i in wals
      ensures Unskipped(d, wals[i], w, maxTs)[r] ==
              if WinOf(d, r) == w && !Skipped(d, maxTs, r) then multiset(wals[i])[r] else 0
    {
      UnskippedCount(d, wals[i], w, maxTs, r);
    }
    SumCount(UnskippedBySegment(d, wals, w, maxTs), BySegment(wals), r, WinOf(d, r) == w && !Skipped(d, maxTs, r));
  }

  ghost function Unc(d: Duration, k: Disk, w: Win): Bag {
    ReplayedWals(d, k.wals, w, ReplayManifest(k.manifest, k.ssts).maxTs)
  }

  /** The memtable Open would build for w: the logged records of w that no file covers. */
  lemma UncCount(d: Duration, k: Disk, w: Win)
    requires SingleAdds(k.manifest)
    ensures forall r :: Unc(d, k, w)[r] ==
                        if WinOf(d, r) == w && !Covered(d, k.manifest, k.ssts, r) then Logged(k.wals)[r] else 0
  {
    forall r
      ensures Unc(d, k, w)[r] ==
              if WinOf(d, r) == w && !Covered(d, k.manifest, k.ssts, r) then Logged(k.wals)[r] else 0
    {
      WalCount(d, k.wals, w, ReplayManifest(k.manifest, k.ssts).maxTs, r);
      SkippedIsCovered(d, k.manifest, k.ssts, r);
    }
  }

  lemma LogMore(wals: map<nat, seq<Record>>, i: nat, r: Record)
    requires i in wals
    ensures Logged(wals[i := wals[i] + [r]]) == Logged(wals) + multiset{r}
  {
    SumGrow(BySegment(wals), i, multiset{r});
    assert multiset(wals[i] + [r]) == multiset(wals[i]) + multiset{r};
    assert BySegment(wals[i := wals[i] + [r]]) == BySegment(wals)[i := multiset(wals[i]) + multiset{r}];
  }

  lemma LogNewSegment(wals: map<nat, seq<Record>>, i: nat)
    requires i !in wals
    ensures Logged(wals[i := []]) == Logged(wals)
  {
    SumAdd(BySegment(wals), i, multiset{});
    assert BySegment(wals[i := []]) == BySegment(wals)[i := multiset{}];
  }

  lemma LogDrop(wals: map<nat, seq<Record>>, i: nat)
    requires i in wals
    ensures Logged(wals) == Logged(wals - {i}) + multiset(wals[i])
  {
    SumRemove(BySegment(wals), i);
    assert BySegment(wals - {i}) == BySegment(wals) - {i};
  }

  ghost function LiveBag(k: Disk, w: Win): Bag {
    FilesBag(Live(k.manifest), k.ssts, w)
  }

  lemma RecoveredSplit(d: Duration, k: Disk, w: Win)
    requires DiskOk(d, k.manifest, k.ssts)
    ensures Recovered(d, k, w) == LiveBag(k, w) + Unc(d, k, w)
  {
    RecoveredFilesAreLive(d, k.manifest, k.ssts);
  }

  // ---------------------------------------------------------------- effects on the replayed memtables

  /** Two disks that log the same records and cover the same ones among them replay the same memtables. */
  lemma UncSame(d: Duration, k: Disk, k': Disk, w: Win)
    requires SingleAdds(k.manifest) && SingleAdds(k'.manifest)
    requires Logged(k.wals) == Logged(k'.wals)
    requires forall r :: r in Logged(k.wals) && WinOf(d, r) == w ==>
               (Covered(d, k.manifest, k.ssts, r) <==> Covered(d, k'.manifest, k'.ssts, r))
    ensures Unc(d, k', w) == Unc(d, k, w)
  {
    UncCount(d, k, w);
    UncCount(d, k', w);
    assert forall r :: Unc(d, k', w)[r] == Unc(d, k, w)[r];
  }

  lemma UncAppend(d: Duration, k: Disk, i: nat, r: Record, w: Win)
    requires SingleAdds(k.manifest) && i in k.wals
    ensures Unc(d, k.(wals := k.wals[i := k.wals[i] + [r]]), w) ==
            Unc(d, k, w) + One(w == WinOf(d, r) && !Covered(d, k.manifest, k.ssts, r), r)
  {
    var k' := k.(wals := k.wals[i := k.wals[i] + [r]]);
    var c := w == WinOf(d, r) && !Covered(d, k.manifest, k.ssts, r);
    LogMore(k.wals, i, r);
    UncCount(d, k, w);
    UncCount(d, k', w);
    forall x
      ensures Unc(d, k', w)[x] == Unc(d, k, w)[x] + if c && x == r then 1 else 0
    {
      assert Logged(k'.wals)[x] == Logged(k.wals)[x] + if x == r then 1 else 0;
    }
    PlusOne(Unc(d, k', w), Unc(d, k, w), c, r);
  }

  /** A record of b that no file covers disappears with its segment. */
  lemma UncDrop(d: Duration, k: Disk, i: nat, r: Record)
    requires SingleAdds(k.manifest) && i in k.wals && r in k.wals[i] && !Covered(d, k.manifest, k.ssts, r)
    ensures Unc(d, k.(wals := k.wals - {i}), WinOf(d, r))[r] < Unc(d, k, WinOf(d, r))[r]
  {
    LogDrop(k.wals, i);
    UncCount(d, k, WinOf(d, r));
    UncCount(d, k.(wals := k.wals - {i}), WinOf(d, r));
    assert r in multiset(k.wals[i]);
  }

  lemma UncDropCovered(d: Duration, k: Disk, i: nat, w: Win)
    requires SingleAdds(k.manifest) && i in k.wals
    requires forall r :: r in k.wals[i] ==> Covered(d, k.manifest, k.ssts, r)
    ensures Unc(d, k.(wals := k.wals - {i}), w) == Unc(d, k, w)
  {
    var k' := k.(wals := k.wals - {i});
    LogDrop(k.wals, i);
    UncCount(d, k, w);
    UncCount(d, k', w);
    forall x
      ensures Unc(d, k', w)[x] == Unc(d, k, w)[x]
    {
      assert multiset(k.wals[i])[x] > 0 ==> x in k.wals[i];
    }
  }

  lemma CoveredAfterPublish(d: Duration, manifest: seq<Edit>, ssts: map<Path, SstFile>, x: Entry, deleted: seq<Path>,
                            r: Record)
    requires Present(ssts, x.path)
    ensures Covered(d, manifest + [Edit([x], deleted)], ssts, r) <==> Covered(d, manifest, ssts, r) || Covers(d, x, r)
  {
    var e := Edit([x], deleted);
    Appended(manifest, e);
    CoveredAppend(d, manifest + [e], ssts, r);
    assert x in e.added;
  }

  lemma CoveredAfterRetire(d: Duration, manifest: seq<Edit>, ssts: map<Path, SstFile>, deleted: seq<Path>, r: Record)
    ensures Covered(d, manifest + [Edit([], deleted)], ssts, r) <==> Covered(d, manifest, ssts, r)
  {
    Appended(manifest, Edit([], deleted));
    CoveredAppend(d, manifest + [Edit([], deleted)], ssts, r);
  }

  lemma CoveredAfterRemove(d: Duration, manifest: seq<Edit>, ssts: map<Path, SstFile>, p: Path, r: Record)
    requires Covered(d, manifest, ssts - {p}, r)
    ensures Covered(d, manifest, ssts, r)
  {
    var e :| Adds(manifest, e) && Present(ssts - {p}, e.path) && Covers(d, e, r);
    assert Present(ssts, e.path);
  }

  // ---------------------------------------------------------------- effects on the recovered files

  lemma LiveBagSame(k: Disk, k': Disk, w: Win)
    requires Live(k.manifest) == Live(k'.manifest)
    requires forall p :: p in Live(k.manifest) ==> Content(k.ssts, p) == Content(k'.ssts, p)
    ensures LiveBag(k', w) == LiveBag(k, w)
  {
    assert ContentByFile(Live(k.manifest), k.ssts, w) == ContentByFile(Live(k'.manifest), k'.ssts, w);
  }

  lemma FilesBagAdd(files: set<Path>, ssts: map<Path, SstFile>, out: Path, w: Win)
    requires out !in files
    ensures FilesBag(files + {out}, ssts, w) == FilesBag(files, ssts, w) + When(out.win == w, Content(ssts, out))
  {
    var a, b := ContentByFile(files, ssts, w), ContentByFile(files + {out}, ssts, w);
    if out.win == w {
      SumAdd(a, out, Content(ssts, out));
      assert b == a[out := Content(ssts, out)];
    } else {
      assert b == a;
    }
  }

  /** Taking the merged inputs out of the files takes exactly their records out. */
  lemma FilesBagDelete(files: set<Path>, ssts: map<Path, SstFile>, readers: map<Path, Bag>, inputs: seq<Path>, win: Win,
                       w: Win)
    requires forall p :: p in inputs ==> p in readers && p in files && p.win == win && readers[p] == Content(ssts, p)
    ensures FilesBag(files, ssts, w)
              == FilesBag(files - AllPaths(inputs), ssts, w) + When(win == w, InputBag(readers, inputs))
  {
    var a, b := ContentByFile(files, ssts, w), ContentByFile(files - AllPaths(inputs), ssts, w);
    if win == w {
      var c := Selected(readers, inputs);
      assert c.Keys == AllPaths(inputs);
      assert b == a - c.Keys;
      assert PartOf(c, a);
      SumSplit(a, c);
    } else {
      assert b == a;
    }
  }

  lemma LoggedMember(wals: map<nat, seq<Record>>, r: Record)
    ensures r in Logged(wals) <==> exists i :: i in wals && r in wals[i]
  {
    SumMember(BySegment(wals), r);
    if i :| i in BySegment(wals) && r in BySegment(wals)[i] { assert i in wals && r in wals[i]; }
    if i :| i in wals && r in wals[i] { assert r in BySegment(wals)[i]; }
  }
}
