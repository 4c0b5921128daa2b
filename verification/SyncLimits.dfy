/** Where the sync claims stop: families of runs outside their hypotheses, each
    with the exact condition. */
module SyncLimits {
  import opened Options
  import opened RemoteTree
  import opened Publish
  import opened WorkerPool
  import opened TempNames
  import opened PathLists
  import opened Collide
  import opened SyncJob
  import opened SyncPhases
  import opened SyncManifest
  import opened SyncRoom
  import opened SyncDeliver

  // ---- A manifest that was there but could not be read ----

  lemma {:induction false} RunLeavesOthers(n: Slots, run: seq<Config>, i: nat, k: Path)
    requires IsRun(false, false, n, run) && i < |run|
    requires !(n.final <= k) && !(n.tmp <= k) && !(n.backup <= k)
    ensures Same(run[0].tree, run[i].tree, k)
  {
    if i > 0 {
      RunLeavesOthers(n, run, i - 1, k);
      var c, c' := run[i - 1], run[i];
      assert Next(false, false, n, run[i - 1], run[i - 1 + 1]);
      var r: Reply :| Step(false, c.tree, Request(c.stage, n), r, c'.tree) && c'.stage == Advance(c.stage, r, false);
      StepFrame(false, c.tree, Request(c.stage, n), r, c'.tree, k);
    }
  }

  lemma OtherPlannedNotOwned(job: Job, p: Path, i: nat, q: Path)
    requires Sound(job) && p in job.local && q in job.local && p != q
    ensures !Owned(false, Upload(UploadSlots(job.id, p, i), Blob(0)), Key(job, q))
  {
    PlainIsNotTemp(job, q);
    if Owned(false, Upload(UploadSlots(job.id, p, i), Blob(0)), Key(job, q)) {
      UploadOwned(job, false, map[], p, i, Blob(0), Key(job, q));
    }
  }

  lemma PublishKeepsManifest(job: Job, n: Slots, run: seq<Config>, j: nat)
    requires !Owned(false, Upload(n, Blob(0)), ManifestKey(job)) && IsRun(false, false, n, run) && j < |run|
    ensures ManifestAt(job, run[j].tree) == ManifestAt(job, run[0].tree)
  {
    KeptWhenNotOwned(n, run, j, ManifestKey(job));
  }

  lemma ManifestKeyNotOwned(job: Job, p: Path, i: nat)
    requires Sound(job) && p in job.local
    ensures !Owned(false, Upload(UploadSlots(job.id, p, i), Blob(0)), ManifestKey(job))
  {
    assert [] + [job.id(job.name)] == ManifestKey(job);
    ManifestNotOwned(job, false, p, i, Blob(0), ManifestKey(job));
  }

  lemma KeptWhenNotOwned(n: Slots, run: seq<Config>, j: nat, k: Path)
    requires IsRun(false, false, n, run) && j < |run| && !Owned(false, Upload(n, Blob(0)), k)
    ensures Same(run[0].tree, run[j].tree, k)
  {
    RunLeavesOthers(n, run, j, k);
  }

  lemma PublishKeepsOther(job: Job, p: Path, i: nat, run: seq<Config>, j: nat, q: Path)
    requires Sound(job) && p in job.local && q in job.local && p != q
    requires IsRun(false, false, UploadSlots(job.id, p, i), run) && j < |run|
    ensures Holds(job, run[0].tree, q) ==> Holds(job, run[j].tree, q)
  {
    OtherPlannedNotOwned(job, p, i, q);
    RunLeavesOthers(UploadSlots(job.id, p, i), run, j, Key(job, q));
  }

  lemma PublishKeepsOthersTrue(job: Job, p: Path, i: nat, t: Tree, run: seq<Config>, j: nat)
    requires Sound(job) && p in job.local && Truthful(job, t) && !Current(job, ManifestAt(job, t), p)
    requires IsRun(false, false, UploadSlots(job.id, p, i), run) && run[0].tree == t && j < |run|
    ensures Truthful(job, run[j].tree)
  {
    ManifestKeyNotOwned(job, p, i);
    PublishKeepsManifest(job, UploadSlots(job.id, p, i), run, j);
    forall q | Current(job, ManifestAt(job, t), q) ensures Holds(job, run[j].tree, q) {
      PublishKeepsOther(job, p, i, run, j, q);
    }
  }

  /**
  Without posix-rename a file is replaced by parking the live one first. While
  it is parked the target is missing, so replacing `p` keeps the server's
  manifest truthful at every step exactly when that manifest does not call `p`
  current. A run that read the manifest never replaces such a file; one that
  took an unreadable manifest for a first sync replaces all of them.
  */
  lemma BackupPublishIsTruthfulExactly(job: Job, p: Path, i: nat, t: Tree)
    requires Sound(job) && p in job.local && Truthful(job, t) && WellFormed(t)
    requires FileAt(t, UploadSlots(job.id, p, i).tmp) == Some(Blob(job.local[p]))
    requires UploadSlots(job.id, p, i).backup in t ==> t[UploadSlots(job.id, p, i).backup].File?
    ensures (forall run: seq<Config>, j: nat | IsRun(false, false, UploadSlots(job.id, p, i), run) && j < |run|
                                           && run[0] == Config(DropOldBackup, t) :: Truthful(job, run[j].tree))
            <==> !Current(job, ManifestAt(job, t), p)
  {
    var n := UploadSlots(job.id, p, i);
    if Current(job, ManifestAt(job, t), p) {
      var run := ParkedRun(job, p, i, t);
      assert !Truthful(job, run[2].tree);
    } else {
      forall run: seq<Config>, j: nat | IsRun(false, false, n, run) && j < |run| && run[0] == Config(DropOldBackup, t)
        ensures Truthful(job, run[j].tree)
      {
        PublishKeepsOthersTrue(job, p, i, t, run, j);
      }
    }
  }

  /** Transfer `i` of a run that took the manifest for missing, and so replaces every
      planned file, keeps the manifest truthful however its publish goes. */
  ghost predicate TransferIsTruthful(job: Job, i: nat, t: Tree)
    requires i < |job.files| && job.files[i] != []
  {
    forall run: seq<Config>, j: nat | IsRun(false, false, UploadSlots(job.id, job.files[i], i), run) && j < |run|
                                      && run[0] == Config(DropOldBackup, t) :: Truthful(job, run[j].tree)
  }

  /** So without posix-rename such a run is safe to make exactly when no planned file
      is current: then nothing the manifest says is at stake (see Faithful for the
      other steps of the run). */
  lemma MisreadRunIsTruthfulExactly(job: Job, t: Tree)
    requires Sound(job) && Truthful(job, t) && WellFormed(t) && forall i :: 0 <= i < |job.files| ==> job.files[i] != []
    requires forall i :: 0 <= i < |job.files| ==>
               var n := UploadSlots(job.id, job.files[i], i);
               job.files[i] in job.local && FileAt(t, n.tmp) == Some(Blob(job.local[job.files[i]]))
               && (n.backup in t ==> t[n.backup].File?)
    ensures (forall i :: 0 <= i < |job.files| ==> TransferIsTruthful(job, i, t)) <==> NoneCurrent(job, ManifestAt(job, t))
  {
    forall i | 0 <= i < |job.files|
      ensures TransferIsTruthful(job, i, t) <==> !Current(job, ManifestAt(job, t), job.files[i])
    {
      BackupPublishIsTruthfulExactly(job, job.files[i], i, t);
    }
    if p :| Current(job, ManifestAt(job, t), p) {
      assert p in job.files;
    }
  }

  lemma ParkedRun(job: Job, p: Path, i: nat, t: Tree) returns (run: seq<Config>)
    requires Sound(job) && p in job.local && Truthful(job, t) && WellFormed(t) && Current(job, ManifestAt(job, t), p)
    requires FileAt(t, UploadSlots(job.id, p, i).tmp) == Some(Blob(job.local[p]))
    requires UploadSlots(job.id, p, i).backup in t ==> t[UploadSlots(job.id, p, i).backup].File?
    ensures IsRun(false, false, UploadSlots(job.id, p, i), run) && |run| == 3 && run[0] == Config(DropOldBackup, t)
    ensures !Truthful(job, run[2].tree)
  {
    var n, d := UploadSlots(job.id, p, i), Blob(job.local[p]);
    FinalIsKey(job, p, i, d);
    run := ParkSteps(n, d, t);
    ManifestKeyNotOwned(job, p, i);
    PublishKeepsManifest(job, n, run, 2);
    MissingIsUntruthful(job, p, t, run[2].tree);
  }

  lemma ParkSteps(n: Slots, d: Data, t: Tree) returns (run: seq<Config>)
    requires WellShaped(Upload(n, d)) && WellFormed(t) && (n.backup in t ==> t[n.backup].File?) && FileAt(t, n.final) == Some(d)
    ensures IsRun(false, false, n, run) && |run| == 3 && run[0] == Config(DropOldBackup, t)
    ensures FileAt(run[2].tree, n.final) == None
  {
    var c0, c1, c2 := ParkRun(n, d, t);
    run := [c0, c1, c2];
  }

  lemma MissingIsUntruthful(job: Job, p: Path, t: Tree, t': Tree)
    requires Current(job, ManifestAt(job, t), p) && ManifestAt(job, t') == ManifestAt(job, t) && FileAt(t', Key(job, p)) == None
    ensures !Truthful(job, t')
  {
    assert !Holds(job, t', p);
  }

  lemma FinalIsKey(job: Job, p: Path, i: nat, d: Data)
    requires Sound(job) && p in job.local
    ensures WellShaped(Upload(UploadSlots(job.id, p, i), d)) && UploadSlots(job.id, p, i).final == Key(job, p)
  {
    UploadWellShaped(job, p, i, d);
    KeySplit(job.id, p);
  }

  lemma ParkRun(n: Slots, d: Data, t: Tree) returns (c0: Config, c1: Config, c2: Config)
    requires WellShaped(Upload(n, d)) && WellFormed(t)
    requires n.backup in t ==> t[n.backup].File?
    requires FileAt(t, n.final) == Some(d)
    ensures c0 == Config(DropOldBackup, t) && Next(false, false, n, c0, c1) && Next(false, false, n, c1, c2)
    ensures c2.stage == Place(true)
    ensures FileAt(c2.tree, n.final) == None
  {
    var t1 := t - {n.backup};
    c0, c1 := Config(DropOldBackup, t), Config(Park, t1);
    var r0 := if n.backup in t then Ok else NotExist;
    assert Step(false, t, Request(DropOldBackup, n), r0, t1);
    c2 := ParkMovesNew(n, d, t, t1);
  }

  // ---- A manifest that is lost while it is written ----

  /** With the extension a publish is over after one request, and the target is
      never missing. */
  lemma {:induction false} PosixRunKeepsTarget(n: Slots, run: seq<Config>, i: nat)
    requires IsRun(true, true, n, run) && i < |run| && run[0].stage.TryPosix? && FileAt(run[0].tree, n.final) != None
    ensures FileAt(run[i].tree, n.final) != None && (run[i].stage.TryPosix? || Finished(run[i].stage))
  {
    if i > 0 {
      PosixRunKeepsTarget(n, run, i - 1);
      var c, c' := run[i - 1], run[i];
      assert Next(true, true, n, run[i - 1], run[i - 1 + 1]);
      var r: Reply :| Step(true, c.tree, Request(c.stage, n), r, c'.tree) && c'.stage == Advance(c.stage, r, true);
    }
  }

  /** Without it the park succeeds, and moving the new file in and the old one back
      both fail. */
  lemma LosingWrite(n: Slots, d: Data, t: Tree) returns (run: seq<Config>)
    requires WellShaped(Upload(n, d)) && WellFormed(t) && FileAt(t, n.final) == Some(d)
    requires n.backup in t ==> t[n.backup].File?
    ensures IsRun(false, false, n, run) && |run| == 6 && run[0] == Config(TryPosix, t)
    ensures run[5].stage.GaveUp? && FileAt(run[5].tree, n.final) == None
  {
    var c0, c1, c2 := ParkRun(n, d, t);
    NoPosixHere(n, t);
    BothFail(n, c2.tree);
    run := [Config(TryPosix, t), c0, c1, c2, Config(Restore, c2.tree), Config(GaveUp, c2.tree)];
  }

  lemma NoPosixHere(n: Slots, t: Tree)
    ensures Next(false, false, n, Config(TryPosix, t), Config(DropOldBackup, t))
  {
    assert Step(false, t, Request(TryPosix, n), Unsupported, t) && Advance(TryPosix, Unsupported, false) == DropOldBackup;
  }

  lemma BothFail(n: Slots, t: Tree)
    ensures Next(false, false, n, Config(Place(true), t), Config(Restore, t))
    ensures Next(false, false, n, Config(Restore, t), Config(GaveUp, t))
  {
    assert Step(false, t, Request(Place(true), n), Failed, t) && Advance(Place(true), Failed, false) == Restore;
    assert Step(false, t, Request(Restore, n), Failed, t) && Advance(Restore, Failed, false) == GaveUp;
  }

  /** A write of the manifest can leave none at all exactly when the server has no
      posix-rename. What is stale is then listed nowhere, so that remembering
      it is claimed for trees with a manifest, which with the extension is all of
      them. */
  lemma ManifestCanBeLostExactly(job: Job, ext: bool, t: Tree)
    requires Sound(job) && WellFormed(t) && FileAt(t, ManifestKey(job)) != None
    requires ManifestSlots(job).backup in t ==> t[ManifestSlots(job).backup].File?
    ensures (exists run: seq<Config>, i: nat :: IsRun(ext, ext, ManifestSlots(job), run) && i < |run|
                                           && run[0] == Config(TryPosix, t) && run[i].stage.GaveUp?
                                           && FileAt(run[i].tree, ManifestKey(job)) == None)
            <==> !ext
  {
    var n := ManifestSlots(job);
    var d := FileAt(t, ManifestKey(job)).value;
    ManifestShape(job, d);
    if ext {
      forall run: seq<Config>, i: nat | IsRun(true, true, n, run) && i < |run| && run[0] == Config(TryPosix, t)
        ensures FileAt(run[i].tree, n.final) != None
      {
        PosixRunKeepsTarget(n, run, i);
      }
    } else {
      var run := LosingWrite(n, d, t);
      assert run[5].stage.GaveUp?;
    }
  }

  // ---- A directory where the plan puts a file ----

  /** Parking renames whatever is at the target. It leaves every other file
      alone exactly when no file lies below the target. */
  lemma ParkSparesOthersExactly(n: Slots, t: Tree)
    requires Apart(n) && WellFormed(t) && Enabled(false, t, Rename(n.final, n.backup))
    ensures (forall k :: k != n.final && k != n.backup ==> FileAt(Move(t, n.final, n.backup), k) == FileAt(t, k))
            <==> (forall k :: k in t && Strictly(n.final, k) ==> t[k].Dir?)
  {
    var a, b := n.final, n.backup;
    var t' := Move(t, a, b);
    if k :| k in t && Strictly(a, k) && t[k].File? {
      MovedTo(t, a, b, k);
      PrefixesIncomparable(a, b, k);
      assert FileAt(t', k) == None;
    } else {
      forall k | k != a && k != b ensures FileAt(t', k) == FileAt(t, k) {
        if b <= k {
          NewNameIsFree(t, a, b, k);
        } else {
          MovedTo(t, a, b, k);
        }
      }
    }
  }

  /** Below the new name there was nothing, and now there are directories only. */
  lemma NewNameIsFree(t: Tree, a: Path, b: Path, k: Path)
    requires WellFormed(t) && Enabled(false, t, Rename(a, b)) && b <= k && k != b
    requires forall x :: x in t && Strictly(a, x) ==> t[x].Dir?
    ensures FileAt(t, k) == None && FileAt(Move(t, a, b), k) == None
  {
    MovedTo(t, a, b, k);
    if k in t {
      AncestorsExist(t, k, b);
    }
    assert k == b + k[|b|..];
    assert Strictly(a, a + k[|b|..]);
  }

  lemma PrefixesIncomparable(a: Path, b: Path, k: Path)
    requires !(a <= b) && !(b <= a)
    ensures a <= k ==> !(b <= k)
  {
    if a <= k && b <= k {
      PrefixesCompare(a, b, k);
    }
  }

  // ---- A pre-pass whose file deletions failed in part ----

  /** A listed entry is no directory: an entry would lie below it. */
  lemma ListedIsFile(job: Job, m: Manifest, t: Tree, r: Path)
    requires Roomy(job, m, t) && r in m && r in t
    ensures t[r].File?
  {
  }

  /**
  Whether a pre-pass that fails half way can spoil the next one is decided before
  it starts. Whatever part of the file deletions fails, the manifest and the tree
  it leaves meet the pre-pass hypothesis again, exactly when every remote directory
  at or below a planned file has a listed entry below it that does not collide, or
  has all colliding entries below it.
  */
  lemma RetryKeepsRoomExactly(job: Job, m: Manifest, t: Tree)
    requires Roomy(job, m, t)
    ensures (forall deleted, t' :: PartlyCleared(CollidingSet(job, m), t, deleted, t') ==> Roomy(job, m - deleted, t'))
            <==> AllCovered(job, m, t)
  {
    var colliding := CollidingSet(job, m);
    if d :| d in t && t[d].Dir? && AtOrBelowPlan(job, d) && !AlwaysCovered(m, colliding, d) {
      StrandsDirectory(job, m, t, d);
    } else {
      forall deleted, t' | PartlyCleared(colliding, t, deleted, t') ensures Roomy(job, m - deleted, t') {
        CoveredKeepsRoom(job, m, t, deleted, t');
      }
    }
  }

  /** Otherwise deleting just the colliding entries below the directory leaves it
      without any. */
  lemma StrandsDirectory(job: Job, m: Manifest, t: Tree, d: Path)
    requires Roomy(job, m, t) && d in t && t[d].Dir? && AtOrBelowPlan(job, d) && !AlwaysCovered(m, CollidingSet(job, m), d)
    ensures exists deleted, t' :: PartlyCleared(CollidingSet(job, m), t, deleted, t') && !Roomy(job, m - deleted, t')
  {
    var colliding := CollidingSet(job, m);
    var deleted := set r | r in colliding && Strictly(d, r);
    var t' := t - deleted;
    forall r | r in deleted && r in t ensures t[r].File? {
      ListedIsFile(job, m, t, r);
    }
    var c :| c in colliding && !Strictly(d, c);
    assert c !in deleted && deleted < colliding;
    assert d in t' && t'[d].Dir?;
    assert forall r :: r in m - deleted ==> !Strictly(d, r);
    assert PartlyCleared(colliding, t, deleted, t');
  }

  /** The directory `top` holds a file and, one level further down, another one. */
  datatype Stranding = Stranding(top: Path, dir: Path, deep: Path, other: Path)
  {
    ghost predicate Valid() {
      && |top| == 1 && |dir| == 2 && |deep| == 3 && |other| == 2
      && Parent(dir) == top && Parent(deep) == dir && Parent(other) == top && dir != other
    }

    function Remote(): Tree {
      map[top := Dir, dir := Dir, deep := File(Blob(1)), other := File(Blob(2))]
    }

    function Listed(): Manifest {
      map[deep := 1, other := 2]
    }
  }

  lemma StrandingNames(g: Stranding)
    requires g.Valid()
    ensures Strictly(g.top, g.dir) && Strictly(g.dir, g.deep) && Strictly(g.top, g.other) && !(g.dir <= g.other)
    ensures Strictly(g.top, g.deep) && Parent(g.top) == []
  {
  }

  lemma StrandingPlan(job: Job, g: Stranding)
    requires Sound(job) && job.files == [g.top]
    ensures forall f :: f in job.local <==> f == g.top
  {
    assert forall f :: f in job.files <==> f == g.top by { assert job.files[0] == g.top; }
  }

  lemma PlainIsNotBeside(job: Job, k: Path)
    requires k != [] && PlainName(job.id, Last(k))
    ensures !TempBeside(job, k)
  {
  }

  lemma DeeperIsNotBeside(job: Job, k: Path)
    requires (forall f :: f in job.local ==> |f| == 1) && |k| > 1
    ensures !TempBeside(job, k)
  {
  }

  lemma SlotsMiss(g: Stranding, n: Slots)
    requires g.Valid() && |n.final| == |n.tmp| == |n.backup| == 1
    requires n.final[0] != g.top[0] && n.tmp[0] != g.top[0] && n.backup[0] != g.top[0]
    ensures NoDirs(n, g.Remote())
  {
  }

  lemma PlannedIsNoSlot(job: Job, p: Path)
    requires Sound(job) && p in job.local && |p| == 1
    ensures PlainName(job.id, p[0]) && NoManifestName(job, job.id(p[0]))
  {
    assert PlainName(job.id, p[0]);
    TempNamesAreRecognised(job.name, 0);
    assert Key(job, p)[0] == job.id(p[0]);
    assert job.id(p[0]) == job.id(job.name) ==> ManifestKey(job) <= Key(job, p);
  }

  lemma StrandingTemps(job: Job, g: Stranding)
    requires Sound(job) && g.Valid() && job.files == [g.top] && forall n :: job.id(n) == n
    ensures !TempBeside(job, g.top) && !TempBeside(job, g.dir) && NoDirs(ManifestSlots(job), g.Remote())
  {
    StrandingPlan(job, g);
    PlannedIsNoSlot(job, g.top);
    PlainIsNotBeside(job, g.top);
    DeeperIsNotBeside(job, g.dir);
    SlotsMiss(g, ManifestSlots(job));
  }

  lemma StrandingIsCovered(g: Stranding, k: Path)
    requires g.Valid() && k in g.Remote() && g.Remote()[k].Dir?
    ensures exists r :: r in g.Listed() && Strictly(k, r)
  {
    StrandingNames(g);
    assert if k == g.top then g.other in g.Listed() && Strictly(k, g.other) else g.deep in g.Listed() && Strictly(k, g.deep);
  }

  lemma StrandingIsListed(job: Job, g: Stranding, r: Path)
    requires Sound(job) && g.Valid() && job.files == [g.top] && r in g.Listed()
    ensures !BelowPlannedFile(job, g.Remote(), r) && r in g.Remote() && g.Remote()[r].File?
  {
    StrandingPlan(job, g);
    StrandingNames(g);
  }

  lemma StrandingDirs(job: Job, g: Stranding, k: Path)
    requires Sound(job) && g.Valid() && job.files == [g.top] && forall n :: job.id(n) == n
    requires k in g.Remote() && g.Remote()[k].Dir?
    ensures !TempBeside(job, k) && exists r :: r in g.Listed() && Strictly(k, r)
  {
    StrandingTemps(job, g);
    StrandingIsCovered(g, k);
  }

  lemma StrandingIsRoomy(job: Job, g: Stranding)
    requires Sound(job) && g.Valid() && job.files == [g.top] && forall n :: job.id(n) == n
    ensures Roomy(job, g.Listed(), g.Remote())
  {
    StrandingTemps(job, g);
    var m, t, n := g.Listed(), g.Remote(), ManifestSlots(job);
    forall k | k in t && t[k].Dir? ensures !TempBeside(job, k) && exists r :: r in m && Strictly(k, r) {
      StrandingDirs(job, g, k);
    }
    forall r | r in m ensures r in t && t[r].File? && !BelowPlannedFile(job, t, r) {
      StrandingIsListed(job, g, r);
    }
    forall k | k in t && t[k].File? ensures k in m {
    }
    FullyListedIsRoomy(job, n, m, t);
  }

  lemma StrandingIsTree(g: Stranding)
    requires g.Valid()
    ensures WellFormed(g.Remote())
  {
    StrandingNames(g);
  }

  /** The plan turns the directory `top` into a file; of the stale files below it
      the deeper one is deleted and the other is not. */
  lemma StrandedDirectory(job: Job, g: Stranding) returns (t': Tree)
    requires Sound(job) && g.Valid() && job.files == [g.top] && forall n :: job.id(n) == n
    ensures Roomy(job, g.Listed(), g.Remote()) && WellFormed(g.Remote())
    ensures Step(false, g.Remote(), Remove(g.deep), Ok, t') && !Roomy(job, g.Listed() - {g.deep}, t')
  {
    StrandingIsRoomy(job, g);
    StrandingIsTree(g);
    StrandingNames(g);
    t' := g.Remote() - {g.deep};
    StrandingPlan(job, g);
    StrandedIsNotRoomy(job, g, t');
  }

  lemma StrandedIsNotRoomy(job: Job, g: Stranding, t': Tree)
    requires g.Valid() && g.top in job.local && t' == g.Remote() - {g.deep}
    ensures !Roomy(job, g.Listed() - {g.deep}, t')
  {
    StrandingNames(g);
    assert AtOrBelowPlan(job, g.dir) && g.dir in t' && t'[g.dir].Dir?;
    assert forall r :: r in g.Listed() - {g.deep} ==> r == g.other && !Strictly(g.dir, r);
  }
}
