/** A deployment that meets every hypothesis of the sync claims at once, with a
    directory the plan turns into a file. */
module SyncExample {
  import opened Options
  import opened RemoteTree
  import opened Publish
  import opened TempNames
  import opened PathLists
  import opened Collide
  import opened SyncJob
  import opened SyncPhases
  import opened SyncManifest
  import opened SyncRoom
  import opened SyncFrame
  import opened Sync
  import SlashPaths

  function Exactly(s: string): string { s }

  lemma ShortIsPlain(s: string)
    requires SlashPaths.IsName(s) && |s| <= |TMP_SUFFIX|
    ensures PlainName(Exactly, s)
  {
    forall t | IsTempFileName(t) ensures Exactly(t) != Exactly(s) {
      var i := LastIndex(t, TMP_SUFFIX, |t|);
      assert OccursAt(t, TMP_SUFFIX, i);
    }
  }

  const A: Path := ["a"]
  const AC: Path := ["a", "c"]
  const D: Path := ["d"]
  const DB: Path := ["d", "b"]
  const MANIFEST: Path := ["m"]

  function Plan(): Job {
    Job([A, DB], map[A := 5, DB := 2], "m", Exactly, Exactly)
  }

  /** "d/b" is unchanged, "a/c" is stale and below the planned file "a". */
  function Listed(): Manifest {
    map[AC := 1, DB := 2]
  }

  function Remote(): Tree {
    map[A := Dir, AC := File(Blob(1)), D := Dir, DB := File(Blob(2)), MANIFEST := File(Listing(Listed()))]
  }

  lemma NamesDiffer()
    ensures A != DB && !(A <= DB) && !(DB <= A) && A <= AC && A != AC && !(AC <= A) && !(AC <= DB) && !(DB <= AC)
    ensures D <= DB && D != DB && !(MANIFEST <= A) && !(MANIFEST <= AC) && !(MANIFEST <= DB) && MANIFEST != D
  {
    assert A[0] != DB[0] && AC[0] != DB[0] && MANIFEST[0] != A[0] && MANIFEST[0] != DB[0] && MANIFEST[0] != D[0];
  }

  lemma PathsArePlain()
    ensures PlainPath(Exactly, A) && PlainPath(Exactly, AC) && PlainPath(Exactly, DB) && PlainName(Exactly, "m")
  {
    ShortIsPlain("a");
    ShortIsPlain("b");
    ShortIsPlain("c");
    ShortIsPlain("d");
    ShortIsPlain("m");
  }

  lemma KeysAreExact()
    ensures Key(Plan(), A) == A && Key(Plan(), AC) == AC && Key(Plan(), DB) == DB && ManifestKey(Plan()) == MANIFEST
  {
    KeyOfExact(Exactly, A);
    KeyOfExact(Exactly, AC);
    KeyOfExact(Exactly, DB);
  }

  lemma PlanIsATree()
    ensures Distinct(Plan().files) && PrefixFree(Plan().files) && forall p :: p in Plan().files <==> p in Plan().local
  {
    NamesDiffer();
    var files := Plan().files;
    assert forall p :: p in files <==> p == A || p == DB by {
      assert files[0] == A && files[1] == DB;
    }
  }

  lemma PlanIsSound()
    ensures Sound(Plan()) && SoundManifest(Plan(), Listed()) && ManifestKey(Plan()) == MANIFEST
  {
    PlanIsATree();
    ExactNamesKeepTempsApart(Exactly);
    PathsArePlain();
    PlannedAreApart();
    ListedAreApart();
  }

  lemma PlannedAreApart()
    ensures forall p :: p in Plan().local ==> PlainPath(Exactly, p) && !(MANIFEST <= Key(Plan(), p))
    ensures forall p, q :: p in Plan().local && q in Plan().local && Key(Plan(), p) <= Key(Plan(), q) ==> p == q
    ensures ManifestKey(Plan()) == MANIFEST
  {
    NamesDiffer();
    KeysAreExact();
    PathsArePlain();
    assert forall p :: p in Plan().local <==> p == A || p == DB;
  }

  lemma ListedAreApart()
    ensures SoundManifest(Plan(), Listed())
  {
    NamesDiffer();
    KeysAreExact();
    PathsArePlain();
    assert forall p :: p in Listed() <==> p == AC || p == DB;
  }

  lemma RemoteIsTree()
    ensures WellFormed(Remote())
  {
    assert Parent(A) == [] && Parent(AC) == A && Parent(D) == [] && Parent(DB) == D && Parent(MANIFEST) == [];
  }

  lemma DirsAreCovered(k: Path)
    requires k in Remote() && Remote()[k].Dir?
    ensures exists r :: r in Listed() && Strictly(k, r)
  {
    NamesDiffer();
    assert if k == A then AC in Listed() && Strictly(k, AC) else DB in Listed() && Strictly(k, DB);
  }

  lemma FilesAreListed(k: Path)
    requires k in Remote() && Remote()[k].File?
    ensures k in Listed() || !InReach(Plan(), k)
  {
    NamesDiffer();
    if k == MANIFEST {
      assert forall f :: f in Plan().local <==> f == A || f == DB;
      assert !(k <= A) && !(A <= k) && !(k <= DB) && !(DB <= k);
    }
  }

  lemma ListedStand(r: Path)
    requires r in Listed()
    ensures r in Remote() && Remote()[r].File? && !BelowPlannedFile(Plan(), Remote(), r)
  {
    NamesDiffer();
    assert forall f :: f in Plan().local <==> f == A || f == DB;
  }

  lemma RemoteIsListed()
    ensures Roomy(Plan(), Listed(), Remote())
  {
    var t := Remote();
    forall k | k in t && t[k].Dir? ensures !TempBeside(Plan(), k) && exists r :: r in Listed() && Strictly(k, r) {
      DirsAreNoTemps();
      DirsAreCovered(k);
    }
    forall k | k in t && t[k].File? ensures k in Listed() || !InReach(Plan(), k) {
      FilesAreListed(k);
    }
    forall r | r in Listed() ensures r in t && t[r].File? && !BelowPlannedFile(Plan(), t, r) {
      ListedStand(r);
    }
    DirsAreNoTemps();
    FullyListedIsRoomy(Plan(), ManifestSlots(Plan()), Listed(), t);
  }

  lemma DirsAreNoTemps()
    ensures !TempBeside(Plan(), A) && !TempBeside(Plan(), D) && NoDirs(ManifestSlots(Plan()), Remote())
  {
    NamesDiffer();
    ShortIsPlain("a");
    ShortIsPlain("d");
    assert PlainName(Exactly, A[0]) && PlainName(Exactly, D[0]);
    TempNamesAreRecognised("m", 0);
    assert Exactly(A[0]) != Exactly(ManifestTemp("m")) && Exactly(A[0]) != Exactly(Backup("m"));
    assert Exactly(D[0]) != Exactly(ManifestTemp("m")) && Exactly(D[0]) != Exactly(Backup("m"));
    assert ManifestKey(Plan()) == MANIFEST;
  }

  lemma RemoteIsTruthful()
    ensures ManifestAt(Plan(), Remote()) == Listed() && Truthful(Plan(), Remote())
  {
    NamesDiffer();
    KeyOfExact(Exactly, DB);
    assert ManifestKey(Plan()) == MANIFEST;
    assert FileAt(Remote(), MANIFEST) == Some(Listing(Listed()));
    assert FileAt(Remote(), DB) == Some(Blob(2));
    forall p | Current(Plan(), Listed(), p) ensures p == DB {
    }
  }

  lemma RemoteIsRoomy()
    ensures WellFormed(Remote()) && Roomy(Plan(), Listed(), Remote())
    ensures ManifestAt(Plan(), Remote()) == Listed() && Truthful(Plan(), Remote())
  {
    PlanIsSound();
    RemoteIsTree();
    RemoteIsListed();
    RemoteIsTruthful();
  }

  /** The hypotheses can be met together, collision included. */
  lemma HypothesesCanBeMet()
    ensures Sound(Plan()) && SoundManifest(Plan(), Listed()) && Roomy(Plan(), Listed(), Remote())
    ensures WellFormed(Remote()) && ManifestAt(Plan(), Remote()) == Listed() && Truthful(Plan(), Remote())
    ensures Stale(Plan(), Listed(), AC) && Collides(Exactly, Plan().files, AC) && InTheWay(Plan().files, [AC], A)
    ensures Current(Plan(), Listed(), DB) && !Current(Plan(), Listed(), A)
  {
    PlanIsSound();
    RemoteIsRoomy();
    StaleIsInTheWay();
  }

  lemma StaleIsInTheWay()
    ensures Stale(Plan(), Listed(), AC) && Collides(Exactly, Plan().files, AC) && InTheWay(Plan().files, [AC], A)
    ensures Current(Plan(), Listed(), DB) && !Current(Plan(), Listed(), A)
  {
    NamesDiffer();
    assert A in Plan().files && AC in [AC] && Strictly(A, AC);
  }

  // ---- The same deployment, after a run that took the manifest for missing ----

  const BAK: Path := ["a" + BAK_SUFFIX]
  const BAKC: Path := ["a" + BAK_SUFFIX, "c"]

  /** What such a run leaves without posix-rename: the directory "a" was parked,
      with "a/c" in it, and not removed afterwards. */
  function Finished(): Tree {
    map[A := File(Blob(5)), BAK := Dir, BAKC := File(Blob(1)), D := Dir, DB := File(Blob(2)),
        MANIFEST := File(Listing(Plan().local))]
  }

  lemma FinishedNames()
    ensures BAK != A && BAK != AC && BAK != D && BAK != DB && BAK != MANIFEST && BAKC != A && BAKC != AC && BAKC != D
    ensures BAKC != DB && BAKC != MANIFEST && BAKC != BAK && Parent(BAKC) == BAK && Parent(BAK) == []
    ensures A != D && A != MANIFEST && D != MANIFEST && AC != DB && AC != MANIFEST && DB != MANIFEST
  {
    assert |"a" + BAK_SUFFIX| > 1;
    assert BAK[0] != A[0] && BAK[0] != D[0] && BAK[0] != MANIFEST[0] && BAKC[0] == BAK[0];
    assert A[0] != D[0] && A[0] != MANIFEST[0] && D[0] != MANIFEST[0] && AC[0] == A[0] && DB[0] == D[0];
  }

  lemma FinishedIsTree()
    ensures WellFormed(Finished()) && WellFormed(Remote())
  {
    FinishedNames();
    RemoteIsTree();
    assert Parent(A) == [] && Parent(D) == [] && Parent(DB) == D && Parent(MANIFEST) == [];
  }

  /** The parked names are temporary ones. */
  lemma ParkedNamesAreTemps(k: Path)
    requires k == BAK || k == BAKC
    ensures TempKey(Exactly, k)
  {
    TempNamesAreRecognised("a", 0);
    assert k[0] == Exactly(Backup("a"));
  }

  lemma FinishedFiles(k: Path)
    ensures FileAt(Finished(), k) == FileAt(Remote(), k) || k in {A, AC, BAKC, MANIFEST}
    ensures FileAt(Finished(), A) == Some(Blob(5)) && FileAt(Finished(), AC) == None && FileAt(Finished(), DB) == Some(Blob(2))
    ensures FileAt(Finished(), MANIFEST) == Some(Listing(Plan().local)) && FileAt(Finished(), BAKC) == Some(Blob(1))
    ensures FileAt(Remote(), AC) == Some(Blob(1)) && FileAt(Remote(), A) == None
  {
    FinishedNames();
    NamesDiffer();
  }

  lemma FinishedIsUpToDate()
    ensures UpToDate(Plan(), Finished()) && Truthful(Plan(), Finished())
  {
    KeysAreExact();
    FinishedFiles(A);
    assert forall p :: p in Plan().local <==> p == A || p == DB;
  }

  lemma FinishedKeepsFrame()
    ensures forall k :: !MayChange(Plan(), false, map[], k) && !ManifestArea(Plan(), false, k) ==>
                          FileAt(Finished(), k) == FileAt(Remote(), k)
    ensures forall k :: BelowPlan(Plan(), k) ==> FileAt(Finished(), k) in {None, FileAt(Remote(), k)}
  {
    KeysAreExact();
    NamesDiffer();
    assert A in Plan().local && !Current(Plan(), map[], A);
    forall k ensures FileAt(Finished(), k) == FileAt(Remote(), k) || MayChange(Plan(), false, map[], k) || ManifestArea(Plan(), false, k)
             ensures BelowPlan(Plan(), k) ==> FileAt(Finished(), k) in {None, FileAt(Remote(), k)}
    {
      FinishedFiles(k);
      if k == BAKC {
        ParkedNamesAreTemps(k);
      }
      assert k == A || k == MANIFEST ==> !BelowPlan(Plan(), k) by {
        assert forall p :: p in Plan().local <==> p == A || p == DB;
        assert !Strictly(A, A) && !Strictly(DB, A) && !Strictly(A, MANIFEST) && !Strictly(DB, MANIFEST);
      }
    }
  }

  lemma FinishedManifest()
    ensures ManifestAt(Plan(), Finished()) == Plan().local && GoodManifest(Plan(), Remote(), Finished())
  {
    FinishedListing();
    LocalIsListable();
    assert forall r :: r in ManifestAt(Plan(), Finished()) ==> r in Plan().local;
  }

  lemma FinishedListing()
    ensures ManifestAt(Plan(), Finished()) == Plan().local
  {
    KeysAreExact();
    FinishedFiles(A);
  }

  lemma LocalIsListable()
    ensures SoundManifest(Plan(), Plan().local)
  {
    PlanIsSound();
    LocalIsSound(Plan());
  }

  /** The claims of the run hold of it. */
  lemma FinishedIsGood(candid: bool)
    ensures Good(Plan(), false, candid, map[], Remote(), Finished())
  {
    FinishedKeepsFrame();
    FinishedIsUpToDate();
    FinishedManifest();
    assert ManifestAt(Plan(), Remote()) != map[] by {
      RemoteIsTruthful();
      assert AC in Listed();
    }
  }

  lemma FinishedIsRehoused()
    ensures Rehoused(Plan(), Remote(), Finished())
  {
    KeysAreExact();
    NamesDiffer();
    forall p, k | p in Plan().local && p != [] && Strictly(Key(Plan(), p), k) && FileAt(Remote(), k) != None
      ensures FileAt(Remote(), k) in {FileAt(Finished(), k), FileAt(Finished(), ParkedKey(Plan(), p, k))}
    {
      FinishedFiles(k);
      assert p == A || p == DB;
      assert p == A && k == AC;
      KeyOfExact(Exactly, Parent(A));
      assert ParkedKey(Plan(), A, AC) == BAKC;
    }
  }

  lemma OnlyOneIsStale(r: Path)
    requires Stale(Plan(), Listed(), r)
    ensures r == AC
  {
  }

  lemma StaleFileHasGone()
    ensures StaleGone(Plan(), Listed(), Finished()) && Remembered(Plan(), Listed(), Finished())
  {
    forall r | Stale(Plan(), Listed(), r) ensures FileAt(Finished(), Key(Plan(), r)) == None {
      OnlyOneIsStale(r);
      KeysAreExact();
      FinishedFiles(AC);
    }
  }

  lemma StaleFileWasThere()
    ensures !StaleGone(Plan(), Listed(), Remote())
  {
    NamesDiffer();
    KeysAreExact();
    FinishedFiles(AC);
    assert Stale(Plan(), Listed(), AC);
    assert !PlannedKey(Plan(), AC) by {
      assert forall p :: p in Plan().local <==> p == A || p == DB;
    }
  }

  /** Without posix-rename no stale file need be left under its name after a misread
      run that succeeds, although there was one: it went with the directory. */
  lemma StaleFileIsParked(candid: bool)
    ensures Good(Plan(), false, candid, map[], Remote(), Finished()) && UpToDate(Plan(), Finished())
    ensures WellFormed(Finished()) && Rehoused(Plan(), Remote(), Finished()) && ManifestAt(Plan(), Remote()) == Listed()
    ensures StaleGone(Plan(), Listed(), Finished()) && Remembered(Plan(), Listed(), Finished())
    ensures !StaleGone(Plan(), Listed(), Remote()) && FileAt(Finished(), BAKC) == FileAt(Remote(), AC) != None
  {
    FinishedIsGood(candid);
    FinishedIsUpToDate();
    FinishedIsTree();
    FinishedIsRehoused();
    RemoteIsTruthful();
    StaleFileHasGone();
    StaleFileWasThere();
    FinishedFiles(AC);
  }
}
