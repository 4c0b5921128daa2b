/** Delivering the changed files (uploadFiles as sync calls it): the directories
    they need, the sweep of stale temporary files, and the uploads. */
module SyncDeliver {
  import opened Options
  import opened RemoteTree
  import opened Publish
  import opened WorkerPool
  import opened TempNames
  import opened PathLists
  import opened Collide
  import opened SyncJob
  import opened SyncPhases
  import opened SyncManifest
  import opened SyncRoom
  import opened SyncFrame
  import opened SyncSteps

  /** No directory stands where a file of the run has to be: a planned one, a
      temporary one, a stale one that is deleted later, or the manifest. */
  ghost predicate Settled(job: Job, m: Manifest, t: Tree) {
    && (forall n :: job.id(n) == n)
    && (forall f :: f in job.local && f in t ==> t[f].File?)
    && (forall k :: k in t && t[k].Dir? ==> !TempBeside(job, k))
    && EndReady(job, m, t)
  }

  /** What the rest of a run needs on a reliable server: the remaining stale
      entries are files, and so are the names of the manifest. */
  ghost predicate EndReady(job: Job, m: Manifest, t: Tree) {
    && (forall r :: Stale(job, m, r) && !Collides(job.fold, job.files, r) && Key(job, r) in t ==> t[Key(job, r)].File?)
    && SlotsFree(job, t)
  }

  lemma MadeRoomSettles(job: Job, m: Manifest, t: Tree, t1: Tree, dirs: set<Path>)
    requires Sound(job) && MadeRoom(job, m, t) && DirsAdded(t, t1, dirs) && SlotsFree(job, t1)
    requires forall f, g :: f in job.local && g in job.local ==> !Strictly(f, g)
    requires forall d :: d in dirs ==> exists f :: f in job.local && Strictly(d, f)
    ensures Settled(job, m, t1)
  {
    forall k | k in t1 && k !in t ensures AbovePlan(job, k) && !TempBeside(job, k) {
      var d :| d in dirs && k <= d;
      var f :| f in job.local && Strictly(d, f);
      assert Strictly(k, f);
      AddedIsPlain(job, k, f);
    }
    forall f | f in job.local && f in t1 ensures t1[f].File? {
      assert AbovePlan(job, f) ==> exists g :: g in job.local && Strictly(f, g);
    }
    forall r | Stale(job, m, r) && !Collides(job.fold, job.files, r) && Key(job, r) in t1 ensures t1[Key(job, r)].File? {
      StaleNotAbovePlan(job, m, r);
    }
  }

  predicate AbovePlan(job: Job, k: Path) {
    exists f :: f in job.local && Strictly(k, f)
  }

  /** A stale entry above a planned file collides. */
  lemma StaleNotAbovePlan(job: Job, m: Manifest, r: Path)
    requires Sound(job) && (forall n :: job.id(n) == n) && !Collides(job.fold, job.files, r)
    ensures Key(job, r) == r && !AbovePlan(job, r)
  {
    KeysExact(job, r);
    assert forall f :: f in job.local ==> f in job.files && !(r <= f);
  }

  lemma AddedIsPlain(job: Job, k: Path, f: Path)
    requires Sound(job) && (forall n :: job.id(n) == n) && f in job.local && k <= f
    ensures !TempBeside(job, k)
  {
    if TempBeside(job, k) {
      assert k[|k| - 1] == job.id(Last(k)) && TempKey(job.id, k);
    }
    KeysExact(job, []);
    PlanIsOff(job);
    AbovePlain(job, k, f);
  }

  lemma PlanIsFlat(job: Job)
    requires Sound(job) && forall n :: job.id(n) == n
    ensures forall f, g :: f in job.local && g in job.local ==> !Strictly(f, g)
  {
    KeysExact(job, []);
    forall f, g | f in job.local && g in job.local ensures !Strictly(f, g) {
      assert Key(job, f) == f && Key(job, g) == g;
    }
  }

  lemma SettledSmaller(job: Job, m: Manifest, t: Tree, t': Tree)
    requires Settled(job, m, t) && forall k :: k in t' ==> k in t && t'[k] == t[k]
    ensures Settled(job, m, t')
  {
  }

  /** In a settled tree with the parents in place every upload is ready. */
  lemma UploadReady(job: Job, m: Manifest, t: Tree, p: Path, i: nat, d: Data)
    requires Sound(job) && SoundManifest(job, m) && Settled(job, m, t) && p in job.local
    requires IsDir(t, Parent(p))
    ensures Ready(Upload(UploadSlots(job.id, p, i), d), t)
  {
    KeysExact(job, []);
    KeySplit(job.id, p);
    TempNamesAreRecognised(Last(p), i) by {
      assert PlainName(job.id, p[|p| - 1]);
    }
    var n := UploadSlots(job.id, p, i);
    var P := KeyOf(job.id, Parent(p));
    assert P == Key(job, Parent(p)) == Parent(p);
    assert n.final == Key(job, p) == p;
    TempIsBeside(job, p, UploadTemp(Last(p), i));
    TempIsBeside(job, p, Backup(Last(p)));
  }

  lemma TempIsBeside(job: Job, p: Path, x: string)
    requires p in job.local && p != [] && IsTempFileName(x)
    ensures TempBeside(job, Parent(p) + [x])
  {
    assert Parent(Parent(p) + [x]) == Parent(p);
  }

  /** The names of the manifest and of the remaining stale entries belong to no
      upload. */
  lemma StaleNotOwned(job: Job, ext: bool, m: Manifest, r: Path, p: Path, i: nat, d: Data)
    requires Sound(job) && SoundManifest(job, m) && Stale(job, m, r) && !Collides(job.fold, job.files, r)
    requires p in job.local && forall n :: job.id(n) == n
    ensures !Owned(ext, Upload(UploadSlots(job.id, p, i), d), Key(job, r))
  {
    KeysExact(job, []);
    PlainIsNotTemp(job, r);
    assert p in job.files && !Strictly(p, r) && p != r;
    if Owned(ext, Upload(UploadSlots(job.id, p, i), d), Key(job, r)) {
      UploadOwned(job, ext, map[], p, i, d, Key(job, r));
    }
  }

  lemma ManifestNotOwned(job: Job, ext: bool, p: Path, i: nat, d: Data, k: Path)
    requires Sound(job) && p in job.local && ManifestName(job, k)
    ensures !Owned(ext, Upload(UploadSlots(job.id, p, i), d), k)
  {
    var id := job.id;
    var n := Trio(id(job.name), id(ManifestTemp(job.name)), id(Backup(job.name)));
    var Q, o := KeyOf(id, Parent(p)), TrioOf(id, Last(p), i);
    KeySplit(id, p);
    ManifestTold(job, Last(p), i) by {
      assert PlainName(id, p[|p| - 1]);
    }
    NotAboveManifest(job, p);
    assert [] + [n.name] == ManifestKey(job);
    TransfersApart([], n, Q, o, k);
  }

  lemma ManifestTold(job: Job, s: string, i: nat)
    requires Sound(job) && PlainName(job.id, s)
    ensures Told(Trio(job.id(job.name), job.id(ManifestTemp(job.name)), job.id(Backup(job.name))), TrioOf(job.id, s, i))
  {
    TempNamesAreRecognised(s, i);
    TempNamesAreRecognised(job.name, i);
  }

  /** Nor does a parked name, or anything below it, belong to the manifest. */
  lemma ParkedIsOffManifest(job: Job, p: Path, s: Path)
    requires Sound(job) && p in job.local
    ensures p != []
    ensures var n, k := ManifestSlots(job), BackupKey(job, p) + s; !(n.final <= k) && !(n.tmp <= k) && !(n.backup <= k)
  {
    if |p| == 1 {
      ParkedNameIsOff(job, p);
    } else {
      ParkedDirIsOff(job, p);
    }
    assert (BackupKey(job, p) + s)[0] == BackupKey(job, p)[0];
  }

  /** None of the three names of the manifest. */
  predicate NoManifestName(job: Job, c: string) {
    c != job.id(job.name) && c != job.id(ManifestTemp(job.name)) && c != job.id(Backup(job.name))
  }

  lemma ParkedDirIsOff(job: Job, p: Path)
    requires Sound(job) && p in job.local && |p| != 1
    ensures |p| > 1 && NoManifestName(job, BackupKey(job, p)[0])
  {
    assert PlainName(job.id, p[0]);
    TempNamesAreRecognised(job.name, 0);
    assert Key(job, p)[0] == job.id(p[0]) && BackupKey(job, p)[0] == job.id(p[0]);
    assert job.id(p[0]) == job.id(job.name) ==> ManifestKey(job) <= Key(job, p);
  }

  lemma ParkedNameIsOff(job: Job, p: Path)
    requires Sound(job) && p in job.local && |p| == 1
    ensures NoManifestName(job, BackupKey(job, p)[0])
  {
    PlannedIsNotManifest(job, p);
    BackupIsNoSlot(job.id, p[0], job.name);
    BackupOfName(job, p);
  }

  lemma BackupOfName(job: Job, p: Path)
    requires |p| == 1
    ensures BackupKey(job, p)[0] == job.id(Backup(p[0]))
  {
    assert KeyOf(job.id, Parent(p)) == [];
  }

  lemma PlannedIsNotManifest(job: Job, p: Path)
    requires Sound(job) && p in job.local && |p| == 1
    ensures PlainName(job.id, p[0]) && PlainName(job.id, job.name) && KeepsTempsApart(job.id)
    ensures job.id(p[0]) != job.id(job.name)
  {
    assert PlainName(job.id, p[0]);
    assert Key(job, p)[0] == job.id(p[0]);
    assert job.id(p[0]) == job.id(job.name) ==> ManifestKey(job) <= Key(job, p);
  }

  lemma BackupIsNoSlot(id: string -> string, s: string, name: string)
    requires PlainName(id, s) && PlainName(id, name) && KeepsTempsApart(id) && id(s) != id(name)
    ensures id(Backup(s)) != id(name) && id(Backup(s)) != id(ManifestTemp(name)) && id(Backup(s)) != id(Backup(name))
  {
    TempNamesAreRecognised(s, 0);
  }

  lemma WriteKeepsRehoused(job: Job, ext: bool, d: Data, t0: Tree, t1: Tree, t: Tree)
    requires Sound(job) && WriteFrame(ext, ManifestSlots(job), d, t1, t) && Rehoused(job, t0, t1)
    ensures Rehoused(job, t0, t)
  {
    forall p, k | p in job.local && p != [] && Strictly(Key(job, p), k) && !TempKey(job.id, k) && FileAt(t0, k) != None
      ensures FileAt(t0, k) in {FileAt(t, k), FileAt(t, ParkedKey(job, p, k))}
    {
      WriteKeepsParked(job, ext, d, t1, t, p, k);
    }
  }

  lemma WriteKeepsParked(job: Job, ext: bool, d: Data, t1: Tree, t: Tree, p: Path, k: Path)
    requires Sound(job) && WriteFrame(ext, ManifestSlots(job), d, t1, t)
    requires p in job.local && p != [] && Strictly(Key(job, p), k) && !TempKey(job.id, k)
    ensures FileAt(t, k) == FileAt(t1, k)
    ensures FileAt(t, ParkedKey(job, p, k)) == FileAt(t1, ParkedKey(job, p, k))
  {
    ManifestShape(job, d);
    assert BelowPlan(job, k);
    WriteBelowPlan(job, ext, ManifestSlots(job), d, t1, t, k);
    ParkedIsOffManifest(job, p, k[|p|..]);
    assert !Owned(ext, Upload(ManifestSlots(job), d), ParkedKey(job, p, k));
    assert Same(t1, t, ParkedKey(job, p, k));
  }

  lemma EndReadyKept(job: Job, ext: bool, m: Manifest, upload: seq<Path>, t: Tree, t': Tree)
    requires Sound(job) && SoundManifest(job, m) && EndReady(job, m, t) && forall p :: p in upload ==> p in job.local
    requires (forall n :: job.id(n) == n) && PoolFrame(ext, UploadTasks(job, upload), t, t')
    ensures EndReady(job, m, t')
  {
    var tasks := UploadTasks(job, upload);
    forall r | Stale(job, m, r) && !Collides(job.fold, job.files, r) ensures Same(t, t', Key(job, r)) {
      forall i | 0 <= i < |tasks| ensures !Owned(ext, tasks[i], Key(job, r)) {
        StaleNotOwned(job, ext, m, r, upload[i], i, tasks[i].data);
      }
      assert !OwnedBySome(ext, tasks, Key(job, r));
    }
    UploadsKeepSlots(job, ext, upload, t, t');
  }

  lemma UploadsKeepSlots(job: Job, ext: bool, upload: seq<Path>, t: Tree, t': Tree)
    requires Sound(job) && SlotsFree(job, t) && forall p :: p in upload ==> p in job.local
    requires PoolFrame(ext, UploadTasks(job, upload), t, t')
    ensures SlotsFree(job, t')
  {
    var tasks := UploadTasks(job, upload);
    forall k | ManifestName(job, k) ensures Same(t, t', k) {
      forall i | 0 <= i < |tasks| ensures !Owned(ext, tasks[i], k) {
        ManifestNotOwned(job, ext, upload[i], i, tasks[i].data, k);
      }
      assert !OwnedBySome(ext, tasks, k);
    }
    SlotsUnchanged(job, t, t');
  }

  lemma SlotsUnchanged(job: Job, t: Tree, t': Tree)
    requires SlotsFree(job, t) && forall k :: ManifestName(job, k) ==> Same(t, t', k)
    ensures SlotsFree(job, t')
  {
    var n := ManifestSlots(job);
    assert ManifestName(job, n.final) && ManifestName(job, n.tmp) && ManifestName(job, n.backup);
  }

  // ---- The three parts ----

  lemma AddedFrame(job: Job, ext: bool, m: Manifest, t0: Tree, t1: Tree, t2: Tree, dirs: set<Path>)
    requires DataFrame(job, ext, m, t0, t1) && DirsAdded(t1, t2, dirs)
    ensures DataFrame(job, ext, m, t0, t2)
  {
    SameFilesFrame(job, ext, m, t0, t1, t2);
  }

  lemma SweptFrame(job: Job, ext: bool, m: Manifest, t0: Tree, t1: Tree, t2: Tree)
    requires Sound(job) && DataFrame(job, ext, m, t0, t1) && forall k :: !TempKey(job.id, k) ==> Same(t1, t2, k)
    ensures DataFrame(job, ext, m, t0, t2)
  {
    forall p | p in job.local ensures FileAt(t2, Key(job, p)) == FileAt(t1, Key(job, p)) {
      PlainIsNotTemp(job, p);
    }
    SameFilesFrame(job, ext, m, t0, t1, t2);
  }

  ghost predicate DirsOf(job: Job, files: seq<Path>, dirs: set<Path>) {
    forall d :: d in dirs <==> d != [] && exists p :: p in files && Strictly(d, Key(job, p))
  }

  lemma AddedKeepSlots(job: Job, files: seq<Path>, dirs: set<Path>, t: Tree, t': Tree)
    requires Sound(job) && DirsOf(job, files, dirs) && DirsAdded(t, t', dirs) && SlotsFree(job, t)
    requires forall p :: p in files ==> p in job.local
    ensures SlotsFree(job, t')
  {
    ManifestShape(job, Blob(0));
    PlanIsOff(job);
    AddedMissSlots(job, ManifestSlots(job), files, dirs, t, t');
  }

  lemma AddedMissSlots(job: Job, n: Slots, files: seq<Path>, dirs: set<Path>, t: Tree, t': Tree)
    requires Shaped(job, n) && DirsOf(job, files, dirs) && DirsAdded(t, t', dirs) && NoDirs(n, t)
    requires forall p :: p in files ==> OffManifest(job, p)
    ensures NoDirs(n, t')
  {
    forall k | k in t' && k !in t ensures k != n.final && k != n.tmp && k != n.backup {
      var d :| d in dirs && k <= d;
      var p :| p in files && Strictly(d, Key(job, p));
      AbovePlain(job, k, p);
    }
  }

  method MakeDirs(s: Server, job: Job, m: Manifest, files: seq<Path>, ghost t0: Tree) returns (ok: bool, ghost dirs: set<Path>)
    requires s.Valid() && Sound(job) && DataFrame(job, s.ext, m, t0, s.tree)
    requires forall p :: p in files ==> p in job.local
    modifies s`tree, s`trace
    ensures s.Valid() && Kept(job, s.ext, m, t0, old(s.trace), s.trace)
    ensures DataFrame(job, s.ext, m, t0, s.tree) && DirsAdded(old(s.tree), s.tree, dirs) && DirsOf(job, files, dirs)
    ensures s.reliable && MadeRoom(job, m, old(s.tree)) ==>
              ok && Settled(job, m, s.tree) && forall d :: d in dirs ==> IsDir(s.tree, d)
    ensures s.reliable && old(s.tree) == map[] ==> ok && forall d :: d in dirs ==> IsDir(s.tree, d)
    ensures SlotsFree(job, old(s.tree)) ==> SlotsFree(job, s.tree)
  {
    ghost var t := s.tree;
    assert [] !in files by { assert [] in files ==> [] in job.local; }
    var made := DirsForFiles(job, files);
    dirs := made;
    if MadeRoom(job, m, t) {
      RoomForDirs(job, m, t, files, dirs);
    }
    ok := CreateRemoteDirs(s, made);
    forall j | |old(s.trace)| <= j < |s.trace| ensures DataFrame(job, s.ext, m, t0, s.trace[j]) {
      AddedFrame(job, s.ext, m, t0, t, s.trace[j], dirs);
    }
    AddedFrame(job, s.ext, m, t0, t, s.tree, dirs);
    if SlotsFree(job, t) {
      AddedKeepSlots(job, files, dirs, t, s.tree);
    }
    if MadeRoom(job, m, t) {
      assert SlotsFree(job, t);
      PlanIsFlat(job);
      MadeRoomSettles(job, m, t, s.tree, dirs);
    }
  }

  method Sweep(s: Server, job: Job, m: Manifest, ghost t0: Tree)
    requires s.Valid() && Sound(job) && DataFrame(job, s.ext, m, t0, s.tree)
    modifies s`tree, s`trace
    ensures s.Valid() && Kept(job, s.ext, m, t0, old(s.trace), s.trace)
    ensures DataFrame(job, s.ext, m, t0, s.tree)
    ensures SweptTo(job, old(s.tree), s.tree)
    ensures Settled(job, m, old(s.tree)) ==> Settled(job, m, s.tree)
    ensures SlotsFree(job, old(s.tree)) ==> SlotsFree(job, s.tree)
  {
    ghost var t := s.tree;
    SweepStaleTemps(s, job);
    if SlotsFree(job, t) {
      SmallerKeepsSlots(ManifestSlots(job), t, s.tree);
    }
    forall j | |old(s.trace)| <= j < |s.trace| ensures DataFrame(job, s.ext, m, t0, s.trace[j]) {
      SweptFrame(job, s.ext, m, t0, t, s.trace[j]);
    }
    SweptFrame(job, s.ext, m, t0, t, s.tree);
    if Settled(job, m, t) {
      SettledSmaller(job, m, t, s.tree);
    }
  }

  /** There is nothing but directories the plan needs. */
  ghost predicate OnlyPlanDirs(job: Job, t: Tree) {
    forall k :: k in t ==> t[k].Dir? && exists p :: p in job.local && Strictly(k, Key(job, p))
  }

  lemma FreshDirs(job: Job, files: seq<Path>, dirs: set<Path>, t: Tree)
    requires DirsOf(job, files, dirs) && DirsAdded(map[], t, dirs) && forall p :: p in files ==> p in job.local
    ensures OnlyPlanDirs(job, t)
  {
    forall k | k in t ensures t[k].Dir? && exists p :: p in job.local && Strictly(k, Key(job, p)) {
      var d :| d in dirs && k <= d;
      var p :| p in files && Strictly(d, Key(job, p));
      assert Strictly(k, Key(job, p));
    }
  }

  /** None of them is in an upload's way. */
  lemma FreshNamesFree(job: Job, t: Tree, k: Path)
    requires Sound(job) && OnlyPlanDirs(job, t)
    requires TempKey(job.id, k) || PlannedKey(job, k)
    ensures k !in t
  {
    if k in t {
      var q :| q in job.local && Strictly(k, Key(job, q));
      PlanIsOff(job);
      AbovePlain(job, k, q);
    }
  }

  lemma UploadNames(job: Job, p: Path, i: nat)
    requires Sound(job) && p in job.local
    ensures var n := UploadSlots(job.id, p, i);
            n.final != [] && PlannedKey(job, n.final) && Parent(n.final) == KeyOf(job.id, Parent(p))
            && TempKey(job.id, n.tmp) && TempKey(job.id, n.backup)
  {
    var n, P := UploadSlots(job.id, p, i), KeyOf(job.id, Parent(p));
    KeySplit(job.id, p);
    assert PlainName(job.id, p[|p| - 1]);
    TempNamesAreRecognised(Last(p), i);
    TempBelow(job.id, P, UploadTemp(Last(p), i), n.tmp);
    TempBelow(job.id, P, Backup(Last(p)), n.backup);
  }

  /** Where nothing was, every upload is ready once its directory is there. */
  lemma FreshUploadReady(job: Job, t: Tree, p: Path, i: nat, d: Data)
    requires Sound(job) && OnlyPlanDirs(job, t) && p in job.local && IsDir(t, KeyOf(job.id, Parent(p)))
    ensures Ready(Upload(UploadSlots(job.id, p, i), d), t)
  {
    UploadNames(job, p, i);
    var n := UploadSlots(job.id, p, i);
    FreshNamesFree(job, t, n.final);
    FreshNamesFree(job, t, n.tmp);
    FreshNamesFree(job, t, n.backup);
  }

  lemma FreshUploadsReady(job: Job, upload: seq<Path>, t: Tree)
    requires Sound(job) && OnlyPlanDirs(job, t)
    requires forall p :: p in upload ==> p in job.local && IsDir(t, KeyOf(job.id, Parent(p)))
    ensures AllReady(UploadTasks(job, upload), t)
  {
    var tasks := UploadTasks(job, upload);
    forall i | 0 <= i < |tasks| ensures Ready(tasks[i], t) {
      FreshUploadReady(job, t, upload[i], i, tasks[i].data);
    }
  }

  lemma FreshParentKept(job: Job, p: Path, files: seq<Path>, dirs: set<Path>, t1: Tree, t2: Tree)
    requires Sound(job) && p in files && p in job.local
    requires DirsOf(job, files, dirs) && forall d :: d in dirs ==> IsDir(t1, d)
    requires forall k :: !TempKey(job.id, k) ==> Same(t1, t2, k)
    ensures IsDir(t2, KeyOf(job.id, Parent(p)))
  {
    var P := KeyOf(job.id, Parent(p));
    KeySplit(job.id, p);
    PlanIsOff(job);
    AbovePlain(job, P, p);
    assert Strictly(P, Key(job, p));
    assert P != [] ==> P in dirs;
  }

  /** Creates the directories of the changed files (with dir-mode set, of all
      planned files) and sweeps stale temporary files. */
  method Prepare(s: Server, job: Job, m: Manifest, upload: seq<Path>, dirMode: bool, ghost t0: Tree) returns (ok: bool)
    requires s.Valid() && Sound(job) && DataFrame(job, s.ext, m, t0, s.tree)
    requires forall p :: p in upload ==> p in job.local
    modifies s`tree, s`trace
    ensures s.Valid() && Kept(job, s.ext, m, t0, old(s.trace), s.trace)
    ensures DataFrame(job, s.ext, m, t0, s.tree)
    ensures forall k :: !TempKey(job.id, k) ==> FileAt(s.tree, k) == FileAt(old(s.tree), k)
    ensures forall k :: FileAt(s.tree, k) in {None, FileAt(old(s.tree), k)}
    ensures s.reliable && MadeRoom(job, m, old(s.tree)) ==>
              ok && UploadsClear(job, m, upload, s.tree)
    ensures s.reliable && old(s.tree) == map[] ==>
              ok && OnlyPlanDirs(job, s.tree) && forall p :: p in upload ==> IsDir(s.tree, KeyOf(job.id, Parent(p)))
    ensures SlotsFree(job, old(s.tree)) ==> SlotsFree(job, s.tree)
  {
    ghost var t, tr := s.tree, s.trace;
    var files := if dirMode then job.files else upload;
    ghost var dirs;
    ok, dirs := MakeDirs(s, job, m, files, t0);
    ghost var t1, mid := s.tree, s.trace;
    if ok {
      Sweep(s, job, m, t0);
      KeptThen(job, s.ext, m, t0, tr, mid, s.trace);
    } else {
      SweptNothing(job, t1);
    }
    PreparedFiles(job, t, t1, s.tree, dirs);
    if ok && s.reliable {
      ParentsPrepared(job, m, upload, files, dirs, t, t1, s.tree);
    }
  }

  lemma SweptNothing(job: Job, t: Tree)
    ensures SweptTo(job, t, t)
  {
  }

  lemma ParentsPrepared(job: Job, m: Manifest, upload: seq<Path>, files: seq<Path>, dirs: set<Path>, t: Tree, t1: Tree, t2: Tree)
    requires Sound(job) && (forall p :: p in upload ==> p in files) && forall p :: p in files ==> p in job.local
    requires DirsOf(job, files, dirs) && DirsAdded(t, t1, dirs) && SweptTo(job, t1, t2)
    ensures (forall d :: d in dirs ==> IsDir(t1, d)) && Settled(job, m, t2) ==> UploadsClear(job, m, upload, t2)
    ensures (forall d :: d in dirs ==> IsDir(t1, d)) && t == map[] ==>
              OnlyPlanDirs(job, t2) && forall p :: p in upload ==> IsDir(t2, KeyOf(job.id, Parent(p)))
  {
    if (forall d :: d in dirs ==> IsDir(t1, d)) && Settled(job, m, t2) {
      ParentsKept(job, upload, files, dirs, t1, t2);
    }
    if (forall d :: d in dirs ==> IsDir(t1, d)) && t == map[] {
      FreshlyPrepared(job, upload, files, dirs, t1, t2);
    }
  }

  lemma PreparedFiles(job: Job, t: Tree, t1: Tree, t2: Tree, dirs: set<Path>)
    requires DirsAdded(t, t1, dirs) && SweptTo(job, t1, t2)
    ensures forall k :: !TempKey(job.id, k) ==> FileAt(t2, k) == FileAt(t, k)
    ensures forall k :: FileAt(t2, k) in {None, FileAt(t, k)}
  {
    forall k ensures FileAt(t2, k) in {None, FileAt(t, k)} && (!TempKey(job.id, k) ==> FileAt(t2, k) == FileAt(t, k)) {
      assert FileAt(t1, k) == FileAt(t, k);
    }
  }

  lemma ParentsKept(job: Job, upload: seq<Path>, files: seq<Path>, dirs: set<Path>, t1: Tree, t2: Tree)
    requires Sound(job) && (forall n :: job.id(n) == n) && forall p :: p in upload ==> p in files && p in job.local
    requires DirsOf(job, files, dirs) && (forall d :: d in dirs ==> IsDir(t1, d)) && SweptTo(job, t1, t2)
    ensures forall p :: p in upload ==> IsDir(t2, Parent(p))
  {
    forall p | p in upload ensures IsDir(t2, Parent(p)) {
      ParentKept(job, p, files, dirs, t1, t2);
    }
  }

  lemma FreshlyPrepared(job: Job, upload: seq<Path>, files: seq<Path>, dirs: set<Path>, t1: Tree, t2: Tree)
    requires Sound(job) && (forall p :: p in upload ==> p in files) && forall p :: p in files ==> p in job.local
    requires DirsOf(job, files, dirs) && DirsAdded(map[], t1, dirs) && forall d :: d in dirs ==> IsDir(t1, d)
    requires SweptTo(job, t1, t2)
    ensures OnlyPlanDirs(job, t2) && forall p :: p in upload ==> IsDir(t2, KeyOf(job.id, Parent(p)))
  {
    FreshDirs(job, files, dirs, t1);
    forall p | p in upload ensures IsDir(t2, KeyOf(job.id, Parent(p))) {
      FreshParentKept(job, p, files, dirs, t1, t2);
    }
  }

  lemma RoomForDirs(job: Job, m: Manifest, t: Tree, files: seq<Path>, dirs: set<Path>)
    requires Sound(job) && MadeRoom(job, m, t) && forall p :: p in files ==> p in job.local
    requires DirsOf(job, files, dirs)
    ensures forall d, e :: e in dirs && d <= e ==> FileAt(t, d) == None
    ensures forall d :: d in dirs ==> exists f :: f in job.local && Strictly(d, f)
  {
    KeysExact(job, []);
    forall d | d in dirs ensures exists f :: f in job.local && Strictly(d, f) {
      var p :| p in files && Strictly(d, Key(job, p));
      assert Strictly(d, p);
    }
    forall d, e | e in dirs && d <= e ensures FileAt(t, d) == None {
      var f :| f in job.local && Strictly(e, f);
      assert Strictly(d, f);
    }
  }

  lemma ParentKept(job: Job, p: Path, files: seq<Path>, dirs: set<Path>, t1: Tree, t2: Tree)
    requires Sound(job) && (forall n :: job.id(n) == n) && p in files && p in job.local
    requires DirsOf(job, files, dirs) && forall d :: d in dirs ==> IsDir(t1, d)
    requires forall k :: !TempKey(job.id, k) ==> Same(t1, t2, k)
    ensures IsDir(t2, Parent(p))
  {
    KeysExact(job, p);
    AbovePlain(job, Parent(p), p);
    assert Strictly(Parent(p), Key(job, p));
    assert Parent(p) != [] ==> Parent(p) in dirs;
  }

  /** What the uploads leave, seen from before the directories were made. */
  lemma AfterPrepare(job: Job, ext: bool, upload: seq<Path>, t: Tree, t1: Tree, t2: Tree)
    requires forall k :: !TempKey(job.id, k) ==> FileAt(t1, k) == FileAt(t, k)
    requires forall k :: !TempKey(job.id, k) && !UploadArea(job, ext, upload, k) ==> FileAt(t2, k) == FileAt(t1, k)
    requires forall k :: BelowPlan(job, k) ==> FileAt(t2, k) in {None, FileAt(t1, k)}
    requires Rehoused(job, t1, t2)
    ensures forall k :: !TempKey(job.id, k) && !UploadArea(job, ext, upload, k) ==> FileAt(t2, k) == FileAt(t, k)
    ensures forall k :: BelowPlan(job, k) ==> FileAt(t2, k) in {None, FileAt(t, k)}
    ensures Rehoused(job, t, t2)
  {
  }

  /** The uploads; on a reliable server nothing stands in their way. */
  method UploadChanged(s: Server, job: Job, m: Manifest, upload: seq<Path>, ghost t0: Tree)
    returns (completed: seq<bool>, ok: bool)
    requires s.Valid() && Sound(job) && SoundManifest(job, m) && DataFrame(job, s.ext, m, t0, s.tree)
    requires Distinct(upload) && forall p :: p in upload <==> p in job.local && !Current(job, m, p)
    modifies s`tree, s`trace
    ensures s.Valid() && Kept(job, s.ext, m, t0, old(s.trace), s.trace)
    ensures DataFrame(job, s.ext, m, t0, s.tree)
    ensures |completed| == |upload|
    ensures forall i :: 0 <= i < |upload| && completed[i] && upload[i] in job.local ==> Holds(job, s.tree, upload[i])
    ensures ok ==> forall i :: 0 <= i < |upload| ==> completed[i]
    ensures forall k :: !TempKey(job.id, k) && !UploadArea(job, s.ext, upload, k) ==>
                          FileAt(s.tree, k) == FileAt(old(s.tree), k)
    ensures forall k :: BelowPlan(job, k) ==> FileAt(s.tree, k) in {None, FileAt(old(s.tree), k)}
    ensures Rehoused(job, old(s.tree), s.tree)
    ensures s.reliable && UploadsClear(job, m, upload, old(s.tree)) ==> ok && EndReady(job, m, s.tree)
    ensures SlotsFree(job, old(s.tree)) ==> SlotsFree(job, s.tree)
  {
    ghost var t1 := s.tree;
    if UploadsClear(job, m, upload, t1) {
      AllUploadsReady(job, m, upload, t1);
    }
    completed, ok := UploadAll(s, job, m, upload, t0);
    AfterUploads(job, s.ext, m, upload, t1, s.tree);
  }

  /** Settled, with the directories of the uploads in place. */
  ghost predicate UploadsClear(job: Job, m: Manifest, upload: seq<Path>, t: Tree) {
    Settled(job, m, t) && forall p :: p in upload && p != [] ==> IsDir(t, Parent(p))
  }

  lemma AfterUploads(job: Job, ext: bool, m: Manifest, upload: seq<Path>, t1: Tree, t2: Tree)
    requires Sound(job) && SoundManifest(job, m) && forall p :: p in upload ==> p in job.local
    requires PoolFrame(ext, UploadTasks(job, upload), t1, t2)
    ensures SlotsFree(job, t1) ==> SlotsFree(job, t2)
    ensures UploadsClear(job, m, upload, t1) ==> EndReady(job, m, t2)
  {
    if SlotsFree(job, t1) {
      UploadsKeepSlots(job, ext, upload, t1, t2);
    }
    if UploadsClear(job, m, upload, t1) {
      EndReadyKept(job, ext, m, upload, t1, t2);
    }
  }

  method Deliver(s: Server, job: Job, m: Manifest, upload: seq<Path>, dirMode: bool, ghost t0: Tree)
    returns (completed: seq<bool>, ok: bool)
    requires s.Valid() && Sound(job) && SoundManifest(job, m) && DataFrame(job, s.ext, m, t0, s.tree)
    requires Distinct(upload) && forall p :: p in upload <==> p in job.local && !Current(job, m, p)
    modifies s`tree, s`trace
    ensures s.Valid() && Kept(job, s.ext, m, t0, old(s.trace), s.trace)
    ensures DataFrame(job, s.ext, m, t0, s.tree)
    ensures |completed| == |upload|
    ensures forall i :: 0 <= i < |upload| && completed[i] && upload[i] in job.local ==> Holds(job, s.tree, upload[i])
    ensures ok ==> forall i :: 0 <= i < |upload| ==> completed[i]
    ensures forall k :: !TempKey(job.id, k) && !UploadArea(job, s.ext, upload, k) ==>
                          FileAt(s.tree, k) == FileAt(old(s.tree), k)
    ensures forall k :: BelowPlan(job, k) ==> FileAt(s.tree, k) in {None, FileAt(old(s.tree), k)}
    ensures Rehoused(job, old(s.tree), s.tree)
    ensures s.reliable && MadeRoom(job, m, old(s.tree)) ==> ok && EndReady(job, m, s.tree)
    ensures SlotsFree(job, old(s.tree)) ==> SlotsFree(job, s.tree)
  {
    ghost var t, tr := s.tree, s.trace;
    ok := Prepare(s, job, m, upload, dirMode, t0);
    completed := seq(|upload|, i => false);
    ghost var t1, mid := s.tree, s.trace;
    if ok {
      completed, ok := UploadChanged(s, job, m, upload, t0);
      AfterPrepare(job, s.ext, upload, t, t1, s.tree);
      KeptThen(job, s.ext, m, t0, tr, mid, s.trace);
    }
  }

  lemma AllUploadsReady(job: Job, m: Manifest, upload: seq<Path>, t: Tree)
    requires Sound(job) && SoundManifest(job, m) && UploadsClear(job, m, upload, t)
    requires forall p :: p in upload ==> p in job.local
    ensures AllReady(UploadTasks(job, upload), t)
  {
    var tasks := UploadTasks(job, upload);
    forall i | 0 <= i < |tasks| ensures Ready(tasks[i], t) {
      UploadReady(job, m, t, upload[i], i, tasks[i].data);
    }
  }
}
