/** What holds of every tree a sync run goes through, and what a run reads and
    computes before it changes anything. */
module SyncFrame {
  import opened Options
  import opened RemoteTree
  import opened Publish
  import opened WorkerPool
  import opened PathLists
  import opened DirRemoval
  import opened SyncJob
  import opened SyncPhases
  import opened SyncManifest
  import opened SyncRoom

  predicate ManifestArea(job: Job, ext: bool, k: Path) {
    if ext then k == ManifestKey(job) else ManifestKey(job) <= k
  }

  /** The run starts from a truthful manifest, and works from the manifest that
      is there. It may also take it for missing with the extension, or when no
      planned file is current. */
  ghost predicate Faithful(job: Job, ext: bool, m: Manifest, t0: Tree) {
    Truthful(job, t0)
    && (m == ManifestAt(job, t0) || (m == map[] && (ext || NoneCurrent(job, ManifestAt(job, t0)))))
  }

  predicate PlannedKey(job: Job, k: Path) {
    exists p :: p in job.local && Key(job, p) == k
  }

  /** A stale file that is gone, or whose name a planned file owns now. */
  predicate Cleared(job: Job, t: Tree, r: Path) {
    FileAt(t, Key(job, r)) == None || PlannedKey(job, Key(job, r))
  }

  /** Every stale file that is still there is listed: a retry still knows what it
      has to delete. */
  ghost predicate Remembered(job: Job, m: Manifest, t: Tree) {
    forall r :: Stale(job, m, r) && !Cleared(job, t, r) ==> r in ManifestAt(job, t)
  }

  predicate HasManifest(job: Job, t: Tree) {
    FileAt(t, ManifestKey(job)) != None
  }

  /** The claim on one tree of a run that started at `t0` and works from `m`. */
  ghost predicate Good(job: Job, ext: bool, candid: bool, m: Manifest, t0: Tree, t: Tree) {
    && (forall k :: !MayChange(job, ext, m, k) && !ManifestArea(job, ext, k) ==> FileAt(t, k) == FileAt(t0, k))
    && (forall k :: BelowPlan(job, k) ==> FileAt(t, k) in {None, FileAt(t0, k)})
    && (Faithful(job, ext, m, t0) ==> Truthful(job, t))
    && GoodManifest(job, t0, t)
    && (ext && HasManifest(job, t0) ==> HasManifest(job, t))
    && (candid && m == ManifestAt(job, t0) && (HasManifest(job, t) || m == map[]) ==> Remembered(job, m, t))
  }

  /** The claim on every tree since the trace was `tr0`. */
  ghost predicate GoodSince(job: Job, ext: bool, candid: bool, m: Manifest, t0: Tree, tr0: seq<Tree>, tr: seq<Tree>) {
    && tr0 <= tr
    && forall j {:trigger Good(job, ext, candid, m, t0, tr[j])} :: |tr0| <= j < |tr| ==> Good(job, ext, candid, m, t0, tr[j])
  }

  lemma GoodThen(job: Job, ext: bool, candid: bool, m: Manifest, t0: Tree, tr0: seq<Tree>, tr1: seq<Tree>, tr2: seq<Tree>)
    requires GoodSince(job, ext, candid, m, t0, tr0, tr1) && GoodSince(job, ext, candid, m, t0, tr1, tr2)
    ensures GoodSince(job, ext, candid, m, t0, tr0, tr2)
  {
    forall j | |tr0| <= j < |tr2| ensures Good(job, ext, candid, m, t0, tr2[j]) {
      if j < |tr1| {
        assert Good(job, ext, candid, m, t0, tr1[j]);
      }
    }
  }

  lemma KeptIsGood(job: Job, ext: bool, candid: bool, m: Manifest, t0: Tree, tr0: seq<Tree>, tr: seq<Tree>)
    requires Sound(job) && SoundManifest(job, m) && Kept(job, ext, m, t0, tr0, tr)
    ensures GoodSince(job, ext, candid, m, t0, tr0, tr)
  {
    forall j | |tr0| <= j < |tr| ensures Good(job, ext, candid, m, t0, tr[j]) {
      assert DataFrame(job, ext, m, t0, tr[j]);
      DataIsGood(job, ext, candid, m, t0, tr[j]);
    }
  }

  /** The manifest stays one that a next run can work from, and lists nothing
      that was neither listed nor planned. */
  ghost predicate GoodManifest(job: Job, t0: Tree, t: Tree) {
    && (SoundManifest(job, ManifestAt(job, t0)) ==> SoundManifest(job, ManifestAt(job, t)))
    && (forall r :: r in ManifestAt(job, t) ==> r in ManifestAt(job, t0) || r in job.local)
  }

  lemma DataIsGood(job: Job, ext: bool, candid: bool, m: Manifest, t0: Tree, t: Tree)
    requires Sound(job) && SoundManifest(job, m) && DataFrame(job, ext, m, t0, t)
    ensures Good(job, ext, candid, m, t0, t)
  {
    ManifestUnchanged(job, ext, m, t0, t);
    if Faithful(job, ext, m, t0) {
      FrameKeepsTruth(job, ext, m, t0, t);
    }
  }

  lemma WriteFrameIsGood(job: Job, ext: bool, n: Slots, d: Data, m: Manifest, t1: Tree, t: Tree, k: Path)
    requires Shaped(job, n) && WriteFrame(ext, n, d, t1, t)
    requires !MayChange(job, ext, m, k) && !ManifestArea(job, ext, k)
    ensures FileAt(t, k) == FileAt(t1, k)
  {
    assert !TempKey(job.id, k);
    assert !Owned(ext, Upload(n, d), k);
    assert Same(t1, t, k);
  }

  /** What is listed in a manifest that replaces `m`, or is cleared. */
  ghost predicate Accounted(job: Job, m: Manifest, files: Manifest, t: Tree) {
    forall r :: Stale(job, m, r) && r !in files ==> Cleared(job, t, r)
  }

  lemma WriteRemembers(job: Job, ext: bool, n: Slots, m: Manifest, files: Manifest, t1: Tree, t: Tree)
    requires Shaped(job, n) && SoundManifest(job, m) && WriteFrame(ext, n, Listing(files), t1, t)
    requires ManifestAt(job, t1) == m && (HasManifest(job, t) || m == map[]) && Accounted(job, m, files, t1)
    ensures Remembered(job, m, t)
  {
    forall r | Stale(job, m, r) && !Cleared(job, t, r) ensures r in ManifestAt(job, t) {
      ListedIsOff(job, m);
      WriteKeepsPlain(job, ext, n, Listing(files), t1, t, r);
    }
  }

  lemma WriteBelowPlan(job: Job, ext: bool, n: Slots, d: Data, t1: Tree, t: Tree, k: Path)
    requires Sound(job) && Shaped(job, n) && WriteFrame(ext, n, d, t1, t) && BelowPlan(job, k)
    ensures FileAt(t, k) == FileAt(t1, k)
  {
    var p :| p in job.local && Strictly(Key(job, p), k);
    PlanIsOff(job);
    assert ManifestKey(job) <= k ==> ManifestKey(job) <= Key(job, p);
    assert !Owned(ext, Upload(n, d), k);
    assert Same(t1, t, k);
  }

  lemma WriteKeepsFrame(job: Job, ext: bool, n: Slots, m: Manifest, files: Manifest, t0: Tree, t1: Tree, t: Tree)
    requires Sound(job) && DataFrame(job, ext, m, t0, t1) && Shaped(job, n)
    requires WriteFrame(ext, n, Listing(files), t1, t)
    ensures forall k :: !MayChange(job, ext, m, k) && !ManifestArea(job, ext, k) ==> FileAt(t, k) == FileAt(t0, k)
    ensures forall k :: BelowPlan(job, k) ==> FileAt(t, k) in {None, FileAt(t0, k)}
  {
    forall k | !MayChange(job, ext, m, k) && !ManifestArea(job, ext, k) ensures FileAt(t, k) == FileAt(t0, k) {
      WriteFrameIsGood(job, ext, n, Listing(files), m, t1, t, k);
    }
    forall k | BelowPlan(job, k) ensures FileAt(t, k) in {None, FileAt(t0, k)} {
      WriteBelowPlan(job, ext, n, Listing(files), t1, t, k);
    }
  }

  lemma WriteKeepsManifest(job: Job, ext: bool, n: Slots, m: Manifest, files: Manifest, t0: Tree, t1: Tree, t: Tree)
    requires Shaped(job, n) && WriteFrame(ext, n, Listing(files), t1, t) && ManifestAt(job, t1) == ManifestAt(job, t0)
    requires FileAt(t1, ManifestKey(job)) == FileAt(t0, ManifestKey(job))
    requires SoundManifest(job, files) && forall r :: r in files ==> r in ManifestAt(job, t0) || r in job.local
    ensures GoodManifest(job, t0, t) && (ext && HasManifest(job, t0) ==> HasManifest(job, t))
  {
    assert ManifestAt(job, t) == ManifestAt(job, t1) || ManifestAt(job, t) == map[] || ManifestAt(job, t) == files;
  }

  lemma WriteIsGood(job: Job, ext: bool, candid: bool, n: Slots, m: Manifest, files: Manifest, t0: Tree, t1: Tree, t: Tree)
    requires Sound(job) && SoundManifest(job, m) && DataFrame(job, ext, m, t0, t1) && Shaped(job, n)
    requires Truthful(job, t0) ==> Promised(job, files, t1)
    requires candid ==> Accounted(job, m, files, t1)
    requires WriteFrame(ext, n, Listing(files), t1, t)
    requires SoundManifest(job, files) && forall r :: r in files ==> r in ManifestAt(job, t0) || r in job.local
    ensures Good(job, ext, candid, m, t0, t)
  {
    ManifestUnchanged(job, ext, m, t0, t1);
    WriteKeepsFrame(job, ext, n, m, files, t0, t1, t);
    WriteKeepsManifest(job, ext, n, m, files, t0, t1, t);
    if Faithful(job, ext, m, t0) {
      FrameKeepsTruth(job, ext, m, t0, t1);
      PlanIsOff(job);
      WriteKeepsTruth(job, ext, n, files, t1, t);
    }
    if candid && m == ManifestAt(job, t0) && (HasManifest(job, t) || m == map[]) {
      WriteRemembers(job, ext, n, m, files, t1, t);
    }
  }

  /** Every step of writing such a manifest keeps the claim. */
  lemma WritesAreGood(job: Job, ext: bool, candid: bool, n: Slots, m: Manifest, files: Manifest, t0: Tree, t1: Tree,
                      tr0: seq<Tree>, tr: seq<Tree>)
    requires Sound(job) && SoundManifest(job, m) && DataFrame(job, ext, m, t0, t1) && Shaped(job, n)
    requires (Truthful(job, t0) ==> Promised(job, files, t1)) && (candid ==> Accounted(job, m, files, t1))
    requires SoundManifest(job, files) && forall r :: r in files ==> r in ManifestAt(job, t0) || r in job.local
    requires tr0 <= tr && forall j :: |tr0| <= j < |tr| ==> WriteFrame(ext, n, Listing(files), t1, tr[j])
    ensures GoodSince(job, ext, candid, m, t0, tr0, tr)
  {
    forall j | |tr0| <= j < |tr| ensures Good(job, ext, candid, m, t0, tr[j]) {
      WriteIsGood(job, ext, candid, n, m, files, t0, t1, tr[j]);
    }
  }

  /** The manifest a run works from keeps its promises for as long as the frame
      holds, so it may be written back in part. */
  lemma OldPromised(job: Job, ext: bool, m: Manifest, t0: Tree, t: Tree)
    requires Sound(job) && SoundManifest(job, m) && DataFrame(job, ext, m, t0, t)
    requires Truthful(job, t0) && (m == ManifestAt(job, t0) || m == map[])
    ensures Promised(job, m, t)
  {
    forall p | Current(job, m, p) ensures Holds(job, t, p) {
      assert Holds(job, t0, p);
      CurrentIsKept(job, ext, m, p);
    }
  }

  lemma SameFilesFrame(job: Job, ext: bool, m: Manifest, t0: Tree, t1: Tree, t2: Tree)
    requires DataFrame(job, ext, m, t0, t1)
    requires forall k :: TempKey(job.id, k) || FileAt(t2, k) == FileAt(t1, k)
    requires forall p :: p in job.local ==> FileAt(t2, Key(job, p)) == FileAt(t1, Key(job, p))
    ensures DataFrame(job, ext, m, t0, t2)
  {
  }

  /** A retry that finds the same manifest, or none, finds the hypothesis of the
      pre-pass again, whatever writing the manifest did. */
  lemma RoomyAfterWrite(job: Job, ext: bool, n: Slots, m: Manifest, d: Data, t1: Tree, t: Tree)
    requires Sound(job) && Shaped(job, n) && SoundManifest(job, m) && RoomyBut(job, n, m, t1) && WellFormed(t)
    requires WriteFrame(ext, n, d, t1, t)
    ensures RoomyBut(job, n, m, t)
  {
    forall k | k in t && !OneOf(n, k) ensures Same(t1, t, k) {
      OffSlots(ext, n, d, t1, t, k);
    }
    forall k | OneOf(n, k) ensures !InReach(job, k) && k !in m && (k in t ==> t[k].File?) {
      SlotsAreOff(job, n, m, k);
    }
    SameOffSlots(job, n, m, t1, t);
  }

  /** The names of the manifest are not listed, and not above or below the plan. */
  lemma SlotsAreOff(job: Job, n: Slots, m: Manifest, k: Path)
    requires Sound(job) && Shaped(job, n) && SoundManifest(job, m) && (forall s :: job.id(s) == s) && OneOf(n, k)
    ensures !InReach(job, k) && k !in m
  {
    KeysExact(job, []);
    PlanIsOff(job);
    ListedIsOff(job, m);
    forall p | p in job.local || p in m ensures !(k <= p) {
      if k <= p {
        PlainIsNotSlot(job, n, p, k);
      }
    }
    forall f | f in job.local ensures !(f <= k) {
      assert f <= k ==> f == k;
    }
  }

  lemma SameOffSlots(job: Job, n: Slots, m: Manifest, t1: Tree, t: Tree)
    requires RoomyBut(job, n, m, t1) && NoDirs(n, t)
    requires forall k :: k in t && !OneOf(n, k) ==> Same(t1, t, k)
    requires forall k :: OneOf(n, k) ==> !InReach(job, k) && k !in m && (k in t ==> t[k].File?)
    ensures RoomyBut(job, n, m, t)
  {
    forall r | r in m ensures !BelowPlannedFile(job, t, r) {
      if f :| f in job.local && f in t && t[f].File? && Strictly(f, r) {
        assert InReach(job, f) && Same(t1, t, f);
        assert BelowPlannedFile(job, t1, r);
      }
    }
  }

  lemma OffSlots(ext: bool, n: Slots, d: Data, t1: Tree, t: Tree, k: Path)
    requires WellFormed(t) && WriteFrame(ext, n, d, t1, t) && NoDirs(n, t1) && k in t
    requires k != n.final && k != n.tmp && k != n.backup && n.final != [] && n.tmp != [] && n.backup != []
    ensures Same(t1, t, k)
  {
    NothingBelow(t, n.final, k);
    NothingBelow(t, n.tmp, k);
    NothingBelow(t, n.backup, k);
    assert !Owned(ext, Upload(n, d), k);
  }

  lemma NothingBelow(t: Tree, a: Path, k: Path)
    requires WellFormed(t) && (a in t ==> t[a].File?) && k in t && a != []
    ensures a <= k ==> k == a
  {
    if a <= k && a != k {
      AncestorsExist(t, k, a);
    }
  }

  // ---- Reading and comparing ----

  /**
  Reads the manifest. A connection failure is retried while the budget lasts;
  what cannot be read for another reason counts as a first sync. `last` is the
  reply to the last request.
  */
  method ReadManifest(s: Server, job: Job) returns (ok: bool, m: Manifest, ghost last: Reply)
    requires s.Valid()
    modifies s`tree, s`trace
    ensures s.Valid() && s.tree == old(s.tree) && old(s.trace) <= s.trace
    ensures forall j :: |old(s.trace)| <= j < |s.trace| ==> s.trace[j] == s.tree
    ensures ok <==> !last.Lost?
    ensures Step(s.ext, s.tree, Stat(ManifestKey(job)), last, s.tree)
    ensures m == map[] || (last.Ok? && m == ManifestAt(job, s.tree))
    ensures s.legible && ok ==> m == ManifestAt(job, s.tree)
    ensures s.reliable ==> ok
  {
    var lives: nat := *;
    var r := s.Execute(Stat(ManifestKey(job)));
    while r.Lost? && lives > 0
      invariant s.Valid() && s.tree == old(s.tree) && old(s.trace) <= s.trace
      invariant forall j :: |old(s.trace)| <= j < |s.trace| ==> s.trace[j] == s.tree
      invariant Step(s.ext, s.tree, Stat(ManifestKey(job)), r, s.tree)
      invariant s.legible && ManifestKey(job) in s.tree ==> r.Ok? || r.Lost?
      invariant s.reliable ==> !r.Lost?
    {
      lives := lives - 1;
      r := s.Execute(Stat(ManifestKey(job)));
    }
    ok, m, last := !r.Lost?, map[], r;
    var readable: bool := *;
    if r.Ok? && (readable || s.legible) {
      m := ManifestAt(job, s.tree);
    }
  }

  method ChangedFiles(job: Job, m: Manifest) returns (upload: seq<Path>)
    requires Distinct(job.files) && forall p :: p in job.files <==> p in job.local
    ensures Distinct(upload) && forall p :: p in upload <==> p in job.local && !Current(job, m, p)
  {
    upload := [];
    for i := 0 to |job.files|
      invariant Distinct(upload)
      invariant forall p :: p in upload <==> p in job.files[..i] && !Current(job, m, p)
    {
      var p := job.files[i];
      assert p in job.local && p !in job.files[..i];
      assert job.files[..i + 1] == job.files[..i] + [p];
      if p !in m || m[p] != job.local[p] {
        upload := upload + [p];
      }
    }
    assert job.files[..|job.files|] == job.files;
  }

  /** The entries of the manifest that are gone locally. The source sorts them;
      nothing depends on their order. */
  method StaleEntries(job: Job, m: Manifest) returns (toDelete: seq<Path>)
    ensures StaleList(job, m, toDelete)
  {
    toDelete := [];
    var keys := m.Keys;
    while keys != {}
      invariant keys <= m.Keys && Distinct(toDelete)
      invariant forall r :: r in toDelete <==> Stale(job, m, r) && r !in keys
      decreases keys
    {
      var r :| r in keys;
      keys := keys - {r};
      if r !in job.local {
        toDelete := toDelete + [r];
      }
    }
  }

  /** The entries whose flag is set. */
  method Picked(rels: seq<Path>, done: seq<bool>) returns (out: seq<Path>)
    requires |done| == |rels|
    ensures |out| <= |rels| && PickedBy(rels, done, out)
  {
    out := [];
    for i := 0 to |rels|
      invariant |out| <= i
      invariant forall r :: r in out ==> exists j :: 0 <= j < i && done[j] && rels[j] == r
      invariant forall j :: 0 <= j < i && done[j] ==> rels[j] in out
    {
      if done[i] {
        out := out + [rels[i]];
      }
    }
  }

  /** Collects exactly the directories above the deleted entries, each once. The
      walk up from one entry stops at the first directory already seen. */
  method PruneCandidates(deleted: seq<Path>) returns (dirs: seq<Path>)
    ensures Distinct(dirs)
    ensures forall d :: d in dirs <==> d != [] && exists r :: r in deleted && Strictly(d, r)
  {
    dirs := [];
    for i := 0 to |deleted|
      invariant Distinct(dirs)
      invariant forall d :: d in dirs <==> d != [] && exists r :: r in deleted[..i] && Strictly(d, r)
    {
      assert deleted[..i + 1] == deleted[..i] + [deleted[i]];
      if deleted[i] != [] {
        dirs := AddAncestors(dirs, deleted[..i], deleted[i]);
      }
    }
    assert deleted[..|deleted|] == deleted;
  }

  method AddAncestors(dirs: seq<Path>, ghost before: seq<Path>, rel: Path) returns (out: seq<Path>)
    requires Distinct(dirs) && rel != []
    requires forall d :: d in dirs <==> d != [] && exists r :: r in before && Strictly(d, r)
    ensures Distinct(out)
    ensures forall d :: d in out <==> d in dirs || (d != [] && Strictly(d, rel))
  {
    out := dirs;
    var dir := Parent(rel);
    while dir != [] && dir !in out
      invariant Strictly(dir, rel) && Distinct(out)
      invariant forall d :: d in out <==> d in dirs || (d != [] && Strictly(d, rel) && |d| > |dir|)
      decreases |dir|
    {
      out := out + [dir];
      assert forall d :: Strictly(d, rel) && |d| == |dir| ==> d == dir;
      dir := Parent(dir);
    }
    if dir in dirs {
      ghost var r :| r in before && Strictly(dir, r);
      forall d | d != [] && Strictly(d, rel) && |d| <= |dir| ensures d in dirs {
        PrefixesCompare(d, dir, rel);
        assert d <= dir && Strictly(d, r);
      }
    }
  }
}
