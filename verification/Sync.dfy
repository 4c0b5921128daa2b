/** One sync run from beginning to end (executeSync). */
module Sync {
  import opened Options
  import opened RemoteTree
  import opened Publish
  import opened WorkerPool
  import opened PathLists
  import opened DeleteBudgets
  import opened DirRemoval
  import opened Collide
  import opened SyncJob
  import opened SyncPhases
  import opened SyncManifest
  import opened SyncRoom
  import opened SyncFrame
  import opened SyncSteps
  import opened SyncDeliver
  import opened Confinement

  datatype Outcome =
    | Synced
    | ReadFailed      // the manifest could not be read
    | RootRefused     // the target is too broad to delete below
    | OverBudget      // max_deletes would be exceeded
    | CollideFailed   // a colliding file could not be removed
    | DirsInTheWay    // a directory the plan turns into a file is not empty
    | UploadFailed
    | DeleteFailed
    | ManifestFailed

  /** What a successful run leaves: the planned files as they are locally, a
      manifest that says so, and (below) no stale file. */
  ghost predicate UpToDate(job: Job, t: Tree) {
    && (forall p :: p in job.local ==> Holds(job, t, p))
    && FileAt(t, ManifestKey(job)) == Some(Listing(job.local))
  }

  ghost predicate StaleGone(job: Job, m: Manifest, t: Tree) {
    forall r :: Stale(job, m, r) ==> Cleared(job, t, r)
  }

  ghost predicate RestList(job: Job, m: Manifest, rest: seq<Path>) {
    Distinct(rest) && forall r :: r in rest <==> Stale(job, m, r) && !Collides(job.fold, job.files, r)
  }

  /** Deleting what did not collide can hit no planned file, not even on a
      server that folds names: what folds to a planned name was deleted before
      the upload. */
  lemma RestSparesThePlan(job: Job, m: Manifest, rest: seq<Path>, p: Path)
    requires Sound(job) && RestList(job, m, rest) && p in job.local
    ensures forall r :: r in rest ==> Key(job, r) != Key(job, p)
  {
    assert p in job.files;
    forall r | r in rest ensures Key(job, r) != Key(job, p) {
      if Key(job, r) == Key(job, p) {
        SameKeySameFold(job, r, p);
      }
    }
  }

  lemma SameKeySameFold(job: Job, r: Path, p: Path)
    requires Sound(job) && Key(job, r) == Key(job, p)
    ensures FoldPath(job.fold, r) == FoldPath(job.fold, p)
  {
    assert |r| == |p|;
    forall i | 0 <= i < |r| ensures job.fold(r[i]) == job.fold(p[i]) {
      assert Key(job, r)[i] == Key(job, p)[i];
    }
  }

  /** A stale entry the server takes for an uploaded file was in the way of it. */
  lemma MeetingEntriesCollide(job: Job, m: Manifest, uploaded: seq<Path>, preDeleted: seq<Path>)
    requires Sound(job) && forall p :: p in uploaded ==> p in job.local
    requires forall r :: Stale(job, m, r) && Collides(job.fold, job.files, r) ==> r in preDeleted
    ensures forall r, p :: Stale(job, m, r) && p in uploaded && Key(job, r) == Key(job, p) ==> r in preDeleted
  {
    forall r, p | Stale(job, m, r) && p in uploaded && Key(job, r) == Key(job, p) ensures r in preDeleted {
      assert p in job.files;
      SameKeySameFold(job, r, p);
    }
  }

  /** And deleting what collides, before the upload, can hit no planned file the
      run leaves alone. */
  lemma CollidingSparesTheCurrent(job: Job, m: Manifest, colliding: seq<Path>, p: Path)
    requires Sound(job) && SoundManifest(job, m) && CollidingList(job, m, colliding) && Current(job, m, p)
    ensures forall r :: r in colliding ==> Key(job, r) != Key(job, p)
  {
    assert forall r :: r in colliding ==> r in m && r != p;
  }

  // ---- After the upload ----

  /** Deletes the remaining stale files. */
  method DropRest(s: Server, job: Job, m: Manifest, rest: seq<Path>, ghost t0: Tree) returns (deleted: seq<Path>, ok: bool)
    requires s.Valid() && Sound(job) && SoundManifest(job, m) && RestList(job, m, rest) && DataFrame(job, s.ext, m, t0, s.tree)
    modifies s`tree, s`trace
    ensures s.Valid() && Kept(job, s.ext, m, t0, old(s.trace), s.trace)
    ensures DataFrame(job, s.ext, m, t0, s.tree)
    ensures |deleted| <= |rest| && forall r :: r in deleted ==> r in rest
    ensures s.candid ==> forall r :: r in deleted ==> Key(job, r) !in s.tree
    ensures ok ==> forall r :: r in rest ==> r in deleted
    ensures forall k :: (forall r :: r in rest ==> k != Key(job, r)) ==> Same(old(s.tree), s.tree, k)
    ensures s.reliable && EndReady(job, m, old(s.tree)) ==> ok
    ensures SlotsFree(job, old(s.tree)) ==> SlotsFree(job, s.tree)
  {
    ghost var t := s.tree;
    var done;
    done, ok := DropFiles(s, job, m, rest, t0);
    deleted := Picked(rest, done);
    StaleKeepsSlots(job, m, rest, t, s.tree);
  }

  /** No directory above one of the deleted entries was left empty. */
  ghost predicate Tidy(job: Job, deleted: seq<Path>, t: Tree) {
    forall r, d :: r in deleted && d != [] && Strictly(d, r) ==> !EmptyDir(t, Key(job, d))
  }

  /** The directories above some paths. */
  ghost function Above(rels: set<Path>): set<Path> {
    set r, n | r in rels && 0 < n < |r| :: r[..n]
  }

  lemma AboveSize(names: seq<Path>, deleted: seq<Path>, rels: set<Path>)
    requires Distinct(names) && forall d :: d in names <==> d != [] && exists r :: r in deleted && Strictly(d, r)
    requires forall r :: r in deleted <==> r in rels
    ensures |names| == |Above(rels)|
  {
    forall d ensures d in names <==> d in Above(rels) {
      if d in names {
        var r :| r in deleted && Strictly(d, r);
        assert r in rels && 0 < |d| < |r| && r[..|d|] == d;
      }
      if d in Above(rels) {
        var r, n :| r in rels && 0 < n < |r| && d == r[..n];
        assert Strictly(d, r);
      }
    }
    DistinctSize(names, Above(rels));
  }

  /** Removes the directories the deletions emptied, as far as they are empty and
      the budget lasts. */
  method Prune(s: Server, job: Job, m: Manifest, deleted: seq<Path>, budget: DeleteBudget, ghost t0: Tree) returns (dirs: nat)
    requires s.Valid() && budget.Valid() && DataFrame(job, s.ext, m, t0, s.tree)
    modifies s`tree, s`trace, budget
    ensures s.Valid() && Kept(job, s.ext, m, t0, old(s.trace), s.trace)
    ensures DataFrame(job, s.ext, m, t0, s.tree)
    ensures budget.Valid() && budget.reserved == old(budget.reserved) && budget.taken == old(budget.taken) + dirs
    ensures forall k :: FileAt(s.tree, k) == FileAt(old(s.tree), k)
    ensures SlotsFree(job, old(s.tree)) ==> SlotsFree(job, s.tree)
    ensures dirs <= |Above(set r | r in deleted)|
    ensures s.reliable && old(budget.Affords(|Above(set r | r in deleted)|)) ==> Tidy(job, deleted, s.tree)
  {
    ghost var t := s.tree;
    var names := PruneCandidates(deleted);
    AboveSize(names, deleted, set r | r in deleted);
    var keys := seq(|names|, i requires 0 <= i < |names| => Key(job, names[i]));
    dirs := RemoveRemoteDirs(s, keys, budget);
    forall j | |old(s.trace)| <= j < |s.trace| ensures DataFrame(job, s.ext, m, t0, s.trace[j]) {
      OnlyDirsGoneFiles(t, s.trace[j], keys);
      SameFilesFrame(job, s.ext, m, t0, t, s.trace[j]);
    }
    OnlyDirsGoneFiles(t, s.tree, keys);
    SameFilesFrame(job, s.ext, m, t0, t, s.tree);
    if s.reliable && old(budget.Affords(|keys|)) {
      PrunedIsTidy(job, deleted, names, keys, s.tree);
    }
  }

  lemma PrunedIsTidy(job: Job, deleted: seq<Path>, names: seq<Path>, keys: seq<Path>, t: Tree)
    requires forall d :: d in names <==> d != [] && exists r :: r in deleted && Strictly(d, r)
    requires |keys| == |names| && (forall i :: 0 <= i < |names| ==> keys[i] == Key(job, names[i])) && NoneVacant(keys, t, 0)
    ensures Tidy(job, deleted, t)
  {
    forall r, d | r in deleted && d != [] && Strictly(d, r) ensures !EmptyDir(t, Key(job, d)) {
      assert d in names;
      var i :| 0 <= i < |names| && names[i] == d;
      assert keys[i] in keys;
    }
  }

  /** Writes the manifest of a successful run. */
  method Conclude(s: Server, job: Job, m: Manifest, ghost rest: seq<Path>, ghost t0: Tree) returns (ok: bool)
    requires s.Valid() && Sound(job) && SoundManifest(job, m) && DataFrame(job, s.ext, m, t0, s.tree)
    requires (Truthful(job, t0) ==> Promised(job, job.local, s.tree)) && (forall r :: r in rest ==> r in m)
    requires s.candid ==> StaleGone(job, m, s.tree)
    modifies s`tree, s`trace
    ensures s.Valid() && GoodSince(job, s.ext, s.candid, m, t0, old(s.trace), s.trace)
    ensures forall p :: p in job.local || p in m ==> FileAt(s.tree, Key(job, p)) == FileAt(old(s.tree), Key(job, p))
    ensures ok ==> FileAt(s.tree, ManifestKey(job)) == Some(Listing(job.local))
    ensures s.reliable && SlotsFree(job, old(s.tree)) ==> ok
    ensures Tidy(job, rest, old(s.tree)) ==> Tidy(job, rest, s.tree)
    ensures Rehoused(job, t0, old(s.tree)) ==> Rehoused(job, t0, s.tree)
  {
    ghost var t1, tr := s.tree, s.trace;
    var n := ManifestSlots(job);
    ManifestShape(job, Listing(job.local));
    LocalIsSound(job);
    if NoDirs(n, t1) {
      SlotsReady(n, Listing(job.local), t1);
    }
    ok := WriteManifest(s, n, Listing(job.local));
    WritesAreGood(job, s.ext, s.candid, n, m, job.local, t0, t1, tr, s.trace);
    AfterConclusion(job, s.ext, m, rest, t0, t1, s.tree);
  }

  /** Writing the manifest changes nothing that is known of the files. */
  lemma AfterConclusion(job: Job, ext: bool, m: Manifest, rest: seq<Path>, t0: Tree, t1: Tree, t: Tree)
    requires Sound(job) && SoundManifest(job, m) && forall r :: r in rest ==> r in m
    requires WriteFrame(ext, ManifestSlots(job), Listing(job.local), t1, t)
    ensures forall p :: p in job.local || p in m ==> FileAt(t, Key(job, p)) == FileAt(t1, Key(job, p))
    ensures Tidy(job, rest, t1) ==> Tidy(job, rest, t)
    ensures Rehoused(job, t0, t1) ==> Rehoused(job, t0, t)
  {
    ManifestShape(job, Listing(job.local));
    KnownFilesStay(job, ext, m, t1, t);
    if Rehoused(job, t0, t1) {
      WriteKeepsRehoused(job, ext, Listing(job.local), t0, t1, t);
    }
    if Tidy(job, rest, t1) {
      WriteKeepsTidy(job, ext, ManifestSlots(job), m, rest, t1, t);
    }
  }

  lemma KnownFilesStay(job: Job, ext: bool, m: Manifest, t1: Tree, t: Tree)
    requires Sound(job) && SoundManifest(job, m) && Shaped(job, ManifestSlots(job))
    requires WriteFrame(ext, ManifestSlots(job), Listing(job.local), t1, t)
    ensures forall p :: p in job.local || p in m ==> FileAt(t, Key(job, p)) == FileAt(t1, Key(job, p))
  {
    PlanIsOff(job);
    ListedIsOff(job, m);
    forall p | p in job.local || p in m ensures FileAt(t, Key(job, p)) == FileAt(t1, Key(job, p)) {
      WriteKeepsPlain(job, ext, ManifestSlots(job), Listing(job.local), t1, t, p);
    }
  }

  lemma WriteKeepsTidy(job: Job, ext: bool, n: Slots, m: Manifest, rs: seq<Path>, t: Tree, t': Tree)
    requires Shaped(job, n) && SoundManifest(job, m) && (forall r :: r in rs ==> r in m)
    requires WriteFrame(ext, n, Listing(job.local), t, t') && Tidy(job, rs, t)
    ensures Tidy(job, rs, t')
  {
    ListedIsOff(job, m);
    forall r, d | r in rs && d != [] && Strictly(d, r) ensures !EmptyDir(t', Key(job, d)) {
      KeyOfPrefix(job.id, d, r);
      if EmptyDir(t', Key(job, d)) {
        WriteEmptiesNothing(job, ext, n, Listing(job.local), t, t', Key(job, d), r);
      }
    }
  }

  /** What is known once every changed file is uploaded. */
  ghost predicate Delivered(job: Job, candid: bool, m: Manifest, preDeleted: seq<Path>, t0: Tree, t: Tree) {
    && (Truthful(job, t0) ==> forall p :: p in job.local ==> Holds(job, t, p))
    && (candid ==> forall r :: r in preDeleted ==> Cleared(job, t, r))
  }

  lemma StillDelivered(job: Job, candid: bool, m: Manifest, rest: seq<Path>, preDeleted: seq<Path>, t0: Tree, t: Tree, t': Tree)
    requires Sound(job) && SoundManifest(job, m) && RestList(job, m, rest) && Delivered(job, candid, m, preDeleted, t0, t)
    requires forall r :: r in preDeleted ==> Stale(job, m, r) && Collides(job.fold, job.files, r)
    requires forall k :: (forall r :: r in rest ==> k != Key(job, r)) ==> Same(t, t', k)
    ensures Delivered(job, candid, m, preDeleted, t0, t')
  {
    forall p | p in job.local ensures Same(t, t', Key(job, p)) {
      RestSparesThePlan(job, m, rest, p);
    }
    forall q | Stale(job, m, q) && Collides(job.fold, job.files, q) ensures Same(t, t', Key(job, q)) {
      assert forall r :: r in rest ==> r != q && Key(job, r) != Key(job, q);
    }
  }

  /** What a run has deleted before the upload: every colliding entry. */
  ghost predicate PreCleared(job: Job, m: Manifest, preDeleted: seq<Path>) {
    forall r :: r in preDeleted <==> Stale(job, m, r) && Collides(job.fold, job.files, r)
  }

  /**
  The claim on what one run leaves behind, besides the claims on its steps:
  convergence after a success; after a failure the manifest records exactly what
  was uploaded and deleted. When a directory stayed in the way it records neither,
  so that a retry finds the pre-pass hypothesis again; when a colliding file
  stayed, the retry finds it with the recorded manifest if every directory was
  covered (see AllCovered).
  */
  ghost predicate RunResult(job: Job, ext: bool, candid: bool, reliable: bool, m: Manifest, outcome: Outcome,
                            uploaded: seq<Path>, deleted: seq<Path>, t0: Tree, t: Tree)
  {
    && (outcome.Synced? && Truthful(job, t0) ==> UpToDate(job, t))
    && (outcome.Synced? && candid ==> StaleGone(job, m, t))
    && (outcome.CollideFailed? || outcome.UploadFailed? || outcome.DeleteFailed? ==>
          Recorded(job, ext, reliable, m, uploaded, deleted, t0, t))
    && (outcome.DirsInTheWay? ==> Recorded(job, ext, reliable, m, [], [], t0, t) && (Roomy(job, m, t0) ==> Roomy(job, m, t)))
    && (outcome.CollideFailed? && candid && Roomy(job, m, t0) && AllCovered(job, m, t0) ==>
          Roomy(job, Without(m, deleted), t))
  }

  /** The manifest without some entries. */
  function Without(m: Manifest, rels: seq<Path>): Manifest {
    m - set r | r in rels
  }

  // ---- The last phases ----

  /** Deletes the other stale files; what was delivered stays. */
  method DropTheRest(s: Server, job: Job, m: Manifest, ghost preDeleted: seq<Path>, rest: seq<Path>, ghost t0: Tree)
    returns (gone: seq<Path>, ok: bool)
    requires s.Valid() && AtWork(job, s.ext, m, t0, s.tree) && RestList(job, m, rest)
    requires Delivered(job, s.candid, m, preDeleted, t0, s.tree) && PreCleared(job, m, preDeleted)
    modifies s`tree, s`trace
    ensures s.Valid() && GoodSince(job, s.ext, s.candid, m, t0, old(s.trace), s.trace)
    ensures AtWork(job, s.ext, m, t0, s.tree) && Delivered(job, s.candid, m, preDeleted, t0, s.tree)
    ensures |gone| <= |rest| && (s.candid ==> forall r :: r in gone ==> Key(job, r) !in s.tree)
    ensures ok ==> forall r :: r in gone <==> r in rest
    ensures forall k :: (forall r :: r in rest ==> k != Key(job, r)) ==> Same(old(s.tree), s.tree, k)
    ensures s.reliable && EndReady(job, m, old(s.tree)) ==> ok && SlotsFree(job, s.tree)
    ensures m == map[] && Rehoused(job, t0, old(s.tree)) ==> Rehoused(job, t0, s.tree)
  {
    ghost var t, tr := s.tree, s.trace;
    gone, ok := DropRest(s, job, m, rest, t0);
    KeptIsGood(job, s.ext, s.candid, m, t0, tr, s.trace);
    StillDelivered(job, s.candid, m, rest, preDeleted, t0, t, s.tree);
    if m == map[] {
      NothingRest(job, rest, t0, t, s.tree);
    }
  }

  /** The last phases: delete the other stale files, prune, write the manifest.
      `gone` is what was deleted here. */
  method Finish(s: Server, job: Job, m: Manifest, upload: seq<Path>, completed: seq<bool>, ghost uploaded: seq<Path>,
                preDeleted: seq<Path>, rest: seq<Path>, budget: DeleteBudget, ghost t0: Tree)
    returns (outcome: Outcome, gone: seq<Path>, dirs: nat)
    requires s.Valid() && budget.Valid() && AtWork(job, s.ext, m, t0, s.tree) && RestList(job, m, rest)
    requires Delivered(job, s.candid, m, preDeleted, t0, s.tree) && PreCleared(job, m, preDeleted)
    requires InPlace(job, upload, completed, s.tree) && PickedBy(upload, completed, uploaded)
    requires forall p :: p in upload ==> p in job.local
    modifies s`tree, s`trace, budget
    ensures s.Valid() && GoodSince(job, s.ext, s.candid, m, t0, old(s.trace), s.trace)
    ensures budget.Valid() && budget.reserved == old(budget.reserved)
    ensures |gone| <= |rest| && budget.taken == old(budget.taken) + dirs && dirs <= PrunesNeeded(job, m)
    ensures outcome in {Synced, DeleteFailed, ManifestFailed}
    ensures outcome.Synced? ==> forall r :: r in gone <==> r in rest
    ensures RunResult(job, s.ext, s.candid, s.reliable, m, outcome, uploaded, preDeleted + gone, t0, s.tree)
    ensures outcome.Synced? && s.reliable && old(budget.Affords(PrunesNeeded(job, m))) ==> Tidy(job, rest, s.tree)
    ensures s.reliable && EndReady(job, m, old(s.tree)) ==> outcome.Synced?
    ensures outcome.Synced? && m == map[] && Rehoused(job, t0, old(s.tree)) ==> Rehoused(job, t0, s.tree)
  {
    ghost var t, tr := s.tree, s.trace;
    var ok;
    gone, ok := DropTheRest(s, job, m, preDeleted, rest, t0);
    ghost var mid := s.trace;
    if ok {
      outcome, dirs := FinishDone(s, job, m, uploaded, preDeleted, rest, gone, budget, t0);
    } else {
      dirs := 0;
      outcome := FinishFailed(s, job, m, upload, completed, uploaded, preDeleted, rest, gone, t0, t);
    }
    GoodThen(job, s.ext, s.candid, m, t0, tr, mid, s.trace);
  }

  lemma NothingRest(job: Job, rest: seq<Path>, t0: Tree, t: Tree, t': Tree)
    requires RestList(job, map[], rest) && forall k :: (forall r :: r in rest ==> k != Key(job, r)) ==> Same(t, t', k)
    ensures Rehoused(job, t0, t) ==> Rehoused(job, t0, t')
  {
    forall k ensures FileAt(t', k) == FileAt(t, k) {
      assert forall r :: r !in rest;
      assert Same(t, t', k);
    }
  }

  method FinishDone(s: Server, job: Job, m: Manifest, ghost uploaded: seq<Path>, ghost preDeleted: seq<Path>,
                    ghost rest: seq<Path>, gone: seq<Path>, budget: DeleteBudget, ghost t0: Tree)
    returns (outcome: Outcome, dirs: nat)
    requires s.Valid() && budget.Valid() && AtWork(job, s.ext, m, t0, s.tree) && RestList(job, m, rest)
    requires Delivered(job, s.candid, m, preDeleted, t0, s.tree) && PreCleared(job, m, preDeleted)
    requires (forall r :: r in gone <==> r in rest) && (s.candid ==> forall r :: r in gone ==> Key(job, r) !in s.tree)
    modifies s`tree, s`trace, budget
    ensures s.Valid() && GoodSince(job, s.ext, s.candid, m, t0, old(s.trace), s.trace)
    ensures budget.Valid() && budget.reserved == old(budget.reserved) && budget.taken == old(budget.taken) + dirs
    ensures outcome in {Synced, ManifestFailed} && dirs <= PrunesNeeded(job, m)
    ensures RunResult(job, s.ext, s.candid, s.reliable, m, outcome, uploaded, preDeleted + gone, t0, s.tree)
    ensures s.reliable && old(budget.Affords(PrunesNeeded(job, m))) ==> Tidy(job, rest, s.tree)
    ensures s.reliable && SlotsFree(job, old(s.tree)) ==> outcome.Synced?
    ensures Rehoused(job, t0, old(s.tree)) ==> Rehoused(job, t0, s.tree)
  {
    ghost var t := s.tree;
    if s.candid {
      AllGone(job, m, rest, preDeleted, t0, t);
    }
    var ok;
    ok, dirs := PruneAndConclude(s, job, m, rest, gone, budget, t0);
    outcome := if ok then Synced else ManifestFailed;
    StillConverged(job, m, t, s.tree);
  }

  lemma StillConverged(job: Job, m: Manifest, t: Tree, t': Tree)
    requires forall p :: p in job.local || p in m ==> FileAt(t', Key(job, p)) == FileAt(t, Key(job, p))
    ensures StaleGone(job, m, t) ==> StaleGone(job, m, t')
    ensures (forall p :: p in job.local ==> Holds(job, t, p)) ==> forall p :: p in job.local ==> Holds(job, t', p)
  {
  }

  method FinishFailed(s: Server, job: Job, m: Manifest, upload: seq<Path>, completed: seq<bool>, ghost uploaded: seq<Path>,
                      preDeleted: seq<Path>, ghost rest: seq<Path>, gone: seq<Path>, ghost t0: Tree, ghost t: Tree)
    returns (outcome: Outcome)
    requires s.Valid() && AtWork(job, s.ext, m, t0, s.tree) && RestList(job, m, rest)
    requires Delivered(job, s.candid, m, preDeleted, t0, s.tree) && PreCleared(job, m, preDeleted)
    requires InPlace(job, upload, completed, t) && PickedBy(upload, completed, uploaded)
    requires forall p :: p in upload ==> p in job.local
    requires forall k :: (forall r :: r in rest ==> k != Key(job, r)) ==> Same(t, s.tree, k)
    requires s.candid ==> forall r :: r in gone ==> Key(job, r) !in s.tree
    modifies s`tree, s`trace
    ensures s.Valid() && GoodSince(job, s.ext, s.candid, m, t0, old(s.trace), s.trace)
    ensures outcome == DeleteFailed
    ensures RunResult(job, s.ext, s.candid, s.reliable, m, outcome, uploaded, preDeleted + gone, t0, s.tree)
  {
    outcome := DeleteFailed;
    HeldAfterRest(job, upload, completed, m, rest, t, s.tree);
    DoneSoFar(job, s.candid, m, upload, completed, uploaded, preDeleted, gone, t0, s.tree);
    Recover(s, job, m, upload, completed, uploaded, preDeleted + gone, t0);
  }

  lemma DoneSoFar(job: Job, candid: bool, m: Manifest, upload: seq<Path>, completed: seq<bool>, uploaded: seq<Path>,
                  preDeleted: seq<Path>, gone: seq<Path>, t0: Tree, t: Tree)
    requires Sound(job) && InPlace(job, upload, completed, t) && PickedBy(upload, completed, uploaded)
    requires (forall p :: p in upload ==> p in job.local) && PreCleared(job, m, preDeleted)
    requires Delivered(job, candid, m, preDeleted, t0, t) && (candid ==> forall r :: r in gone ==> Key(job, r) !in t)
    ensures Achievements(job, candid, m, upload, completed, uploaded, preDeleted + gone, t)
  {
    assert forall p :: p in uploaded ==> p in upload;
    MeetingEntriesCollide(job, m, uploaded, preDeleted);
  }

  /** Prunes above the files that were deleted last. */
  method PruneRest(s: Server, job: Job, m: Manifest, ghost rest: seq<Path>, gone: seq<Path>, budget: DeleteBudget, ghost t0: Tree)
    returns (dirs: nat)
    requires s.Valid() && budget.Valid() && AtWork(job, s.ext, m, t0, s.tree)
    requires RestList(job, m, rest) && forall r :: r in gone <==> r in rest
    modifies s`tree, s`trace, budget
    ensures s.Valid() && GoodSince(job, s.ext, s.candid, m, t0, old(s.trace), s.trace)
    ensures AtWork(job, s.ext, m, t0, s.tree)
    ensures budget.Valid() && budget.reserved == old(budget.reserved) && budget.taken == old(budget.taken) + dirs
    ensures dirs <= PrunesNeeded(job, m)
    ensures KnownSame(job, m, t0, old(s.tree), s.tree)
    ensures SlotsFree(job, old(s.tree)) ==> SlotsFree(job, s.tree)
    ensures s.reliable && old(budget.Affords(PrunesNeeded(job, m))) ==> Tidy(job, rest, s.tree)
  {
    ghost var t, tr := s.tree, s.trace;
    assert (set r | r in gone) == RestSet(job, m);
    dirs := Prune(s, job, m, gone, budget, t0);
    KeptIsGood(job, s.ext, s.candid, m, t0, tr, s.trace);
    PrunedIsAsWas(job, m, t0, t, s.tree);
  }

  method PruneAndConclude(s: Server, job: Job, m: Manifest, ghost rest: seq<Path>, gone: seq<Path>, budget: DeleteBudget,
                          ghost t0: Tree)
    returns (ok: bool, dirs: nat)
    requires s.Valid() && budget.Valid() && AtWork(job, s.ext, m, t0, s.tree)
    requires (Truthful(job, t0) ==> Promised(job, job.local, s.tree)) && RestList(job, m, rest)
    requires (forall r :: r in gone <==> r in rest) && (s.candid ==> StaleGone(job, m, s.tree))
    modifies s`tree, s`trace, budget
    ensures s.Valid() && GoodSince(job, s.ext, s.candid, m, t0, old(s.trace), s.trace)
    ensures budget.Valid() && budget.reserved == old(budget.reserved) && budget.taken == old(budget.taken) + dirs
    ensures dirs <= PrunesNeeded(job, m)
    ensures forall p :: p in job.local || p in m ==> FileAt(s.tree, Key(job, p)) == FileAt(old(s.tree), Key(job, p))
    ensures ok ==> FileAt(s.tree, ManifestKey(job)) == Some(Listing(job.local))
    ensures s.reliable && old(budget.Affords(PrunesNeeded(job, m))) ==> Tidy(job, rest, s.tree)
    ensures s.reliable && SlotsFree(job, old(s.tree)) ==> ok
    ensures Rehoused(job, t0, old(s.tree)) ==> Rehoused(job, t0, s.tree)
  {
    ghost var tr := s.trace;
    dirs := PruneRest(s, job, m, rest, gone, budget, t0);
    ghost var mid := s.trace;
    ok := Conclude(s, job, m, rest, t0);
    GoodThen(job, s.ext, s.candid, m, t0, tr, mid, s.trace);
  }

  /** What is known of files stays known. */
  ghost predicate KnownSame(job: Job, m: Manifest, t0: Tree, t: Tree, t': Tree) {
    && (forall p :: p in job.local || p in m ==> FileAt(t', Key(job, p)) == FileAt(t, Key(job, p)))
    && (StaleGone(job, m, t) ==> StaleGone(job, m, t'))
    && (Promised(job, job.local, t) ==> Promised(job, job.local, t'))
    && (Rehoused(job, t0, t) ==> Rehoused(job, t0, t'))
  }

  /** Pruning changes no file. */
  lemma PrunedIsAsWas(job: Job, m: Manifest, t0: Tree, t: Tree, t': Tree)
    requires forall k :: FileAt(t', k) == FileAt(t, k)
    ensures KnownSame(job, m, t0, t, t')
  {
  }

  lemma HeldAfterRest(job: Job, upload: seq<Path>, completed: seq<bool>, m: Manifest, rest: seq<Path>, t: Tree, t': Tree)
    requires Sound(job) && RestList(job, m, rest) && InPlace(job, upload, completed, t)
    requires forall k :: (forall r :: r in rest ==> k != Key(job, r)) ==> Same(t, t', k)
    ensures InPlace(job, upload, completed, t')
  {
    forall p | p in job.local ensures Same(t, t', Key(job, p)) {
      RestSparesThePlan(job, m, rest, p);
    }
  }

  lemma AllGone(job: Job, m: Manifest, rest: seq<Path>, preDeleted: seq<Path>, t0: Tree, t: Tree)
    requires RestList(job, m, rest) && Delivered(job, true, m, preDeleted, t0, t) && PreCleared(job, m, preDeleted)
    requires forall r :: r in rest ==> Key(job, r) !in t
    ensures StaleGone(job, m, t)
  {
    forall r | Stale(job, m, r) ensures Cleared(job, t, r) {
      if !Collides(job.fold, job.files, r) {
        assert r in rest;
      }
    }
  }

  // ---- Delivering, with the failure path ----

  lemma DeliveredAfter(job: Job, ext: bool, candid: bool, m: Manifest, upload: seq<Path>, preDeleted: seq<Path>, t0: Tree, t1: Tree, t2: Tree)
    requires Sound(job) && SoundManifest(job, m) && (m == ManifestAt(job, t0) || m == map[])
    requires DataFrame(job, ext, m, t0, t2) && WellFormed(t2) && UploadList(job, m, upload) && PreCleared(job, m, preDeleted)
    requires forall p :: p in upload && p in job.local ==> Holds(job, t2, p)
    requires candid ==> forall r :: r in preDeleted ==> FileAt(t1, Key(job, r)) == None
    requires forall k :: !TempKey(job.id, k) && !UploadArea(job, ext, upload, k) ==> FileAt(t2, k) == FileAt(t1, k)
    requires forall k :: BelowPlan(job, k) ==> FileAt(t2, k) in {None, FileAt(t1, k)}
    ensures Delivered(job, candid, m, preDeleted, t0, t2)
  {
    if Truthful(job, t0) {
      forall p | p in job.local ensures Holds(job, t2, p) {
        if Current(job, m, p) {
          CurrentIsKept(job, ext, m, p);
        }
      }
    }
    if candid {
      GoneAfterUpload(job, ext, m, upload, preDeleted, t1, t2);
    }
  }

  /** What was deleted before the upload is still gone after it, failed or not. */
  lemma GoneAfterUpload(job: Job, ext: bool, m: Manifest, upload: seq<Path>, preDeleted: seq<Path>, t1: Tree, t2: Tree)
    requires SoundManifest(job, m) && forall p :: p in upload ==> p in job.local
    requires forall r :: r in preDeleted ==> r in m && FileAt(t1, Key(job, r)) == None
    requires forall k :: !TempKey(job.id, k) && !UploadArea(job, ext, upload, k) ==> FileAt(t2, k) == FileAt(t1, k)
    requires forall k :: BelowPlan(job, k) ==> FileAt(t2, k) in {None, FileAt(t1, k)}
    ensures forall r :: r in preDeleted ==> Cleared(job, t2, r)
  {
    forall r | r in preDeleted ensures Cleared(job, t2, r) {
      PlainIsNotTemp(job, r);
      if p :| p in upload && Strictly(Key(job, p), Key(job, r)) {
        assert BelowPlan(job, Key(job, r));
      }
    }
  }

  ghost predicate UploadList(job: Job, m: Manifest, upload: seq<Path>) {
    Distinct(upload) && forall p :: p in upload <==> p in job.local && !Current(job, m, p)
  }

  /** Delivers the changed files; when that fails, records what was done. */
  method DeliverOrRecover(s: Server, job: Job, m: Manifest, upload: seq<Path>, preDeleted: seq<Path>, dirMode: bool, ghost t0: Tree)
    returns (ok: bool, completed: seq<bool>, uploaded: seq<Path>)
    requires s.Valid() && AtWork(job, s.ext, m, t0, s.tree) && UploadList(job, m, upload) && PreCleared(job, m, preDeleted)
    requires s.candid ==> forall r :: r in preDeleted ==> FileAt(s.tree, Key(job, r)) == None
    modifies s`tree, s`trace
    ensures s.Valid() && GoodSince(job, s.ext, s.candid, m, t0, old(s.trace), s.trace)
    ensures |completed| == |upload| && PickedBy(upload, completed, uploaded) && forall p :: p in uploaded ==> p in job.local
    ensures ok ==> AtWork(job, s.ext, m, t0, s.tree) && Delivered(job, s.candid, m, preDeleted, t0, s.tree)
    ensures ok ==> InPlace(job, upload, completed, s.tree) && Rehoused(job, old(s.tree), s.tree)
    ensures !ok ==> Recorded(job, s.ext, s.reliable, m, uploaded, preDeleted, t0, s.tree)
    ensures s.reliable && MadeRoom(job, m, old(s.tree)) ==> ok && EndReady(job, m, s.tree)
  {
    ghost var t1, tr := s.tree, s.trace;
    completed, ok := Deliver(s, job, m, upload, dirMode, t0);
    uploaded := Picked(upload, completed);
    assert forall p :: p in uploaded ==> p in upload;
    ghost var t2, mid := s.tree, s.trace;
    KeptIsGood(job, s.ext, s.candid, m, t0, tr, mid);
    if ok {
      AllHeld(job, upload, completed, t2);
      DeliveredAfter(job, s.ext, s.candid, m, upload, preDeleted, t0, t1, t2);
    } else {
      RecoverUploads(s, job, m, upload, completed, uploaded, preDeleted, t0, t1);
      GoodThen(job, s.ext, s.candid, m, t0, tr, mid, s.trace);
    }
  }

  method RecoverUploads(s: Server, job: Job, m: Manifest, upload: seq<Path>, completed: seq<bool>, ghost uploaded: seq<Path>,
                        preDeleted: seq<Path>, ghost t0: Tree, ghost t1: Tree)
    requires s.Valid() && AtWork(job, s.ext, m, t0, s.tree) && UploadList(job, m, upload) && PreCleared(job, m, preDeleted)
    requires InPlace(job, upload, completed, s.tree) && PickedBy(upload, completed, uploaded)
    requires s.candid ==> forall r :: r in preDeleted ==> FileAt(t1, Key(job, r)) == None
    requires forall k :: !TempKey(job.id, k) && !UploadArea(job, s.ext, upload, k) ==> FileAt(s.tree, k) == FileAt(t1, k)
    requires forall k :: BelowPlan(job, k) ==> FileAt(s.tree, k) in {None, FileAt(t1, k)}
    modifies s`tree, s`trace
    ensures s.Valid() && GoodSince(job, s.ext, s.candid, m, t0, old(s.trace), s.trace)
    ensures Recorded(job, s.ext, s.reliable, m, uploaded, preDeleted, t0, s.tree)
  {
    if s.candid {
      GoneAfterUpload(job, s.ext, m, upload, preDeleted, t1, s.tree);
    }
    assert forall p :: p in uploaded ==> p in upload;
    MeetingEntriesCollide(job, m, uploaded, preDeleted);
    Recover(s, job, m, upload, completed, uploaded, preDeleted, t0);
  }

  /** Everything after the pre-pass. */
  method DeliverAndFinish(s: Server, job: Job, m: Manifest, upload: seq<Path>, preDeleted: seq<Path>, rest: seq<Path>,
                          budget: DeleteBudget, dirMode: bool, ghost t0: Tree)
    returns (outcome: Outcome, uploaded: seq<Path>, gone: seq<Path>, dirs: nat)
    requires s.Valid() && budget.Valid() && AtWork(job, s.ext, m, t0, s.tree)
    requires UploadList(job, m, upload) && RestList(job, m, rest) && PreCleared(job, m, preDeleted)
    requires s.candid ==> forall r :: r in preDeleted ==> FileAt(s.tree, Key(job, r)) == None
    modifies s`tree, s`trace, budget
    ensures s.Valid() && GoodSince(job, s.ext, s.candid, m, t0, old(s.trace), s.trace)
    ensures budget.Valid() && budget.reserved == old(budget.reserved)
    ensures |gone| <= |rest| && budget.taken == old(budget.taken) + dirs && dirs <= PrunesNeeded(job, m)
    ensures outcome in {Synced, UploadFailed, DeleteFailed, ManifestFailed}
    ensures outcome.Synced? ==> forall r :: r in gone <==> r in rest
    ensures forall p :: p in uploaded ==> p in job.local
    ensures RunResult(job, s.ext, s.candid, s.reliable, m, outcome, uploaded, preDeleted + gone, t0, s.tree)
    ensures outcome.Synced? && s.reliable && old(budget.Affords(PrunesNeeded(job, m))) ==> Tidy(job, rest, s.tree)
    ensures s.reliable && MadeRoom(job, m, old(s.tree)) ==> outcome.Synced?
    ensures outcome.Synced? && m == map[] && old(s.tree) == t0 ==> Rehoused(job, t0, s.tree)
  {
    ghost var tr := s.trace;
    var ok, completed;
    ok, completed, uploaded := DeliverOrRecover(s, job, m, upload, preDeleted, dirMode, t0);
    if !ok {
      assert preDeleted + [] == preDeleted;
      return UploadFailed, uploaded, [], 0;
    }
    ghost var mid := s.trace;
    outcome, gone, dirs := Finish(s, job, m, upload, completed, uploaded, preDeleted, rest, budget, t0);
    GoodThen(job, s.ext, s.candid, m, t0, tr, mid, s.trace);
  }

  lemma AllHeld(job: Job, upload: seq<Path>, completed: seq<bool>, t: Tree)
    requires InPlace(job, upload, completed, t) && forall i :: 0 <= i < |upload| ==> completed[i]
    ensures forall p :: p in upload && p in job.local ==> Holds(job, t, p)
  {
  }

  // ---- The run ----

  /** No empty directory is left above a stale file that was deleted last. */
  ghost predicate AllTidy(job: Job, m: Manifest, t: Tree) {
    forall r, d :: Stale(job, m, r) && !Collides(job.fold, job.files, r) && d != [] && Strictly(d, r) ==>
                     !EmptyDir(t, Key(job, d))
  }

  /** A recovery before anything was uploaded. */
  method RecoverEarly(s: Server, job: Job, m: Manifest, upload: seq<Path>, deleted: seq<Path>, ghost t0: Tree)
    requires s.Valid() && AtWork(job, s.ext, m, t0, s.tree) && UploadList(job, m, upload)
    requires s.candid ==> forall r :: r in deleted ==> FileAt(s.tree, Key(job, r)) == None
    modifies s`tree, s`trace
    ensures s.Valid() && GoodSince(job, s.ext, s.candid, m, t0, old(s.trace), s.trace)
    ensures Recorded(job, s.ext, s.reliable, m, [], deleted, t0, s.tree)
    ensures Roomy(job, m, old(s.tree)) ==> Roomy(job, m, s.tree)
    ensures Roomy(job, Without(m, deleted), old(s.tree)) ==> Roomy(job, Without(m, deleted), s.tree)
  {
    Recover(s, job, m, upload, seq(|upload|, i => false), [], deleted, t0);
    assert IsMerged(job, m, [], deleted, Without(m, deleted));
  }

  /** The pre-pass, when something collides. */
  method PrePass(s: Server, job: Job, m: Manifest, upload: seq<Path>, colliding: seq<Path>, budget: DeleteBudget, ghost t0: Tree)
    returns (outcome: Outcome, preDeleted: seq<Path>, dirs: nat)
    requires s.Valid() && budget.Valid() && AtWork(job, s.ext, m, t0, s.tree)
    requires s.tree == t0 && UploadList(job, m, upload) && CollidingList(job, m, colliding)
    modifies s`tree, s`trace, budget
    ensures s.Valid() && GoodSince(job, s.ext, s.candid, m, t0, old(s.trace), s.trace)
    ensures budget.Valid() && budget.reserved == old(budget.reserved)
    ensures old(budget.taken) + dirs <= budget.taken <= old(budget.taken) + |DirsToClear(job, colliding)|
    ensures outcome.Synced? ==> budget.taken == old(budget.taken) + dirs
    ensures |preDeleted| <= |colliding| && outcome in {Synced, CollideFailed, DirsInTheWay}
    ensures !outcome.Synced? ==> RunResult(job, s.ext, s.candid, s.reliable, m, outcome, [], preDeleted, t0, s.tree)
    ensures outcome.Synced? ==> AtWork(job, s.ext, m, t0, s.tree) && PreCleared(job, m, preDeleted)
    ensures outcome.Synced? && s.candid ==> forall r :: r in preDeleted ==> FileAt(s.tree, Key(job, r)) == None
    ensures outcome.Synced? && s.candid && Roomy(job, m, t0) ==> MadeRoom(job, m, s.tree)
    ensures s.reliable && Roomy(job, m, t0) && old(budget.Affords(|DirsToClear(job, colliding)|)) ==> outcome.Synced?
  {
    ghost var tr := s.trace;
    var room;
    room, preDeleted, dirs := MakeRoom(s, job, m, colliding, budget, t0);
    ghost var mid := s.trace;
    KeptIsGood(job, s.ext, s.candid, m, t0, tr, mid);
    if room.Made? {
      outcome := Synced;
    } else {
      outcome := GiveUp(s, job, m, upload, room, preDeleted, t0);
      GoodThen(job, s.ext, s.candid, m, t0, tr, mid, s.trace);
    }
  }

  /** Ends a run whose pre-pass failed, with the manifest that fits the failure. */
  method GiveUp(s: Server, job: Job, m: Manifest, upload: seq<Path>, room: Room, preDeleted: seq<Path>, ghost t0: Tree)
    returns (outcome: Outcome)
    requires s.Valid() && AtWork(job, s.ext, m, t0, s.tree) && UploadList(job, m, upload) && !room.Made?
    requires s.candid ==> forall r :: r in preDeleted ==> FileAt(s.tree, Key(job, r)) == None
    requires room.DirsStay? && Roomy(job, m, t0) ==> Roomy(job, m, s.tree)
    requires s.candid && room.FilesStay? && Roomy(job, m, t0) ==>
               PartlyCleared(CollidingSet(job, m), t0, (set r | r in preDeleted), s.tree)
    modifies s`tree, s`trace
    ensures s.Valid() && GoodSince(job, s.ext, s.candid, m, t0, old(s.trace), s.trace)
    ensures outcome == (if room.FilesStay? then CollideFailed else DirsInTheWay)
    ensures RunResult(job, s.ext, s.candid, s.reliable, m, outcome, [], preDeleted, t0, s.tree)
  {
    if room.FilesStay? {
      outcome := CollideFailed;
      if s.candid && Roomy(job, m, t0) && AllCovered(job, m, t0) {
        CoveredKeepsRoom(job, m, t0, (set r | r in preDeleted), s.tree);
      }
      RecoverEarly(s, job, m, upload, preDeleted, t0);
    } else {
      // The colliding entries stay listed, so that the retry finds the
      // directories again.
      outcome := DirsInTheWay;
      RecoverEarly(s, job, m, upload, [], t0);
    }
  }

  /** The directory removals a run has to charge before it can succeed, and those
      it charges while the budget lasts. */
  ghost function DirsNeeded(job: Job, m: Manifest): nat {
    |AllInTheWay(job.files, CollidingSet(job, m))|
  }

  ghost function PrunesNeeded(job: Job, m: Manifest): nat {
    |Above(RestSet(job, m))|
  }

  ghost function StaleSet(job: Job, m: Manifest): set<Path> {
    set r | r in m && r !in job.local
  }

  /** Which runs are stopped before they change anything: with something to delete,
      those whose target is too broad, and then those that would go over the limit. */
  ghost predicate Admitted(job: Job, m: Manifest, remote: string, limit: nat, spent: nat, outcome: Outcome) {
    var n := |StaleSet(job, m)|;
    !outcome.ReadFailed? ==>
      && (outcome.RootRefused? <==> n > 0 && !CheckRemoteRoot(remote))
      && (outcome.OverBudget? <==> n > 0 && CheckRemoteRoot(remote) && limit > 0 && spent + n > limit)
  }

  /** What the budget is charged, next to what the run reports: nothing when it was
      stopped; at least the removals it reports and at most all it may need; and
      when it succeeds every stale entry and the directories removed, exactly. */
  ghost predicate Charged(job: Job, m: Manifest, outcome: Outcome, deleted: seq<Path>, dirs: nat, before: nat, after: nat) {
    var n := |StaleSet(job, m)|;
    && (outcome in {ReadFailed, RootRefused, OverBudget} ==> after == before && deleted == [] && dirs == 0)
    && before + |deleted| + dirs <= after <= before + n + DirsNeeded(job, m) + PrunesNeeded(job, m)
    && (outcome.Synced? ==> after == before + n + dirs && |deleted| == n && forall r :: r in deleted <==> Stale(job, m, r))
  }

  /** The pre-pass, or nothing when no stale entry is in the way. */
  method ClearTheWay(s: Server, job: Job, m: Manifest, upload: seq<Path>, colliding: seq<Path>, budget: DeleteBudget, ghost t0: Tree)
    returns (outcome: Outcome, preDeleted: seq<Path>, dirs: nat)
    requires s.Valid() && budget.Valid() && AtWork(job, s.ext, m, t0, s.tree)
    requires s.tree == t0 && UploadList(job, m, upload) && CollidingList(job, m, colliding)
    modifies s`tree, s`trace, budget
    ensures s.Valid() && GoodSince(job, s.ext, s.candid, m, t0, old(s.trace), s.trace)
    ensures budget.Valid() && budget.reserved == old(budget.reserved)
    ensures old(budget.taken) + dirs <= budget.taken <= old(budget.taken) + DirsNeeded(job, m)
    ensures outcome.Synced? ==> budget.taken == old(budget.taken) + dirs
    ensures |preDeleted| <= |colliding| && outcome in {Synced, CollideFailed, DirsInTheWay}
    ensures !outcome.Synced? ==> RunResult(job, s.ext, s.candid, s.reliable, m, outcome, [], preDeleted, t0, s.tree)
    ensures outcome.Synced? ==> AtWork(job, s.ext, m, t0, s.tree) && PreCleared(job, m, preDeleted)
    ensures outcome.Synced? && s.candid ==> forall r :: r in preDeleted ==> FileAt(s.tree, Key(job, r)) == None
    ensures outcome.Synced? && s.candid && Roomy(job, m, t0) ==> MadeRoom(job, m, s.tree)
    ensures s.reliable && Roomy(job, m, t0) && old(budget.Affords(DirsNeeded(job, m))) ==> outcome.Synced?
    ensures m == map[] ==> s.tree == t0
  {
    if colliding != [] {
      assert colliding[0] in colliding;
      assert (set r | r in colliding) == CollidingSet(job, m);
      outcome, preDeleted, dirs := PrePass(s, job, m, upload, colliding, budget, t0);
    } else {
      outcome, preDeleted, dirs := Synced, [], 0;
      if Roomy(job, m, t0) {
        NothingCollides(job, m, t0);
      }
    }
  }

  lemma RestIsTidy(job: Job, m: Manifest, rest: seq<Path>, t: Tree)
    requires RestList(job, m, rest) && Tidy(job, rest, t)
    ensures AllTidy(job, m, t)
  {
  }

  lemma NothingCollides(job: Job, m: Manifest, t: Tree)
    requires Sound(job) && SoundManifest(job, m) && Roomy(job, m, t) && CollidingList(job, m, [])
    ensures MadeRoom(job, m, t)
  {
    assert PrePassed(job, m, t, t, []);
    RoomMade(job, m, t, t, []);
  }

  lemma Partitioned(job: Job, m: Manifest, toDelete: seq<Path>)
    requires StaleList(job, m, toDelete)
    ensures CollidingList(job, m, Part(job.fold, job.files, toDelete, true))
    ensures RestList(job, m, Part(job.fold, job.files, toDelete, false))
    ensures |Part(job.fold, job.files, toDelete, true)| + |Part(job.fold, job.files, toDelete, false)| == |toDelete|
  {
    PartDistinct(job.fold, job.files, toDelete, true);
    PartDistinct(job.fold, job.files, toDelete, false);
    PartSizes(job.fold, job.files, toDelete);
  }

  method SplitStale(job: Job, m: Manifest, toDelete: seq<Path>) returns (colliding: seq<Path>, rest: seq<Path>)
    requires Sound(job) && SoundManifest(job, m) && StaleList(job, m, toDelete)
    ensures CollidingList(job, m, colliding) && RestList(job, m, rest) && |colliding| + |rest| == |toDelete|
  {
    EmptyIsNotPlanned(job);
    assert [] !in toDelete by { assert [] in toDelete ==> [] in m; }
    colliding, rest := CollidingDeletes(job.fold, toDelete, job.files);
    Partitioned(job, m, toDelete);
  }

  lemma StartsAtWork(job: Job, ext: bool, m: Manifest, t0: Tree)
    requires Sound(job) && SoundManifest(job, m) && (m == ManifestAt(job, t0) || m == map[])
    ensures AtWork(job, ext, m, t0, t0)
  {
  }

  /** Reconciles the server with the plan, once the deletions are charged. */
  method Reconcile(s: Server, job: Job, m: Manifest, upload: seq<Path>, toDelete: seq<Path>, budget: DeleteBudget, dirMode: bool,
                   ghost t0: Tree)
    returns (outcome: Outcome, uploaded: seq<Path>, deleted: seq<Path>, dirs: nat)
    requires s.Valid() && budget.Valid() && s.tree == t0 && AtWork(job, s.ext, m, t0, t0)
    requires UploadList(job, m, upload) && StaleList(job, m, toDelete)
    modifies s`tree, s`trace, budget
    ensures s.Valid() && GoodSince(job, s.ext, s.candid, m, t0, old(s.trace), s.trace)
    ensures budget.Valid() && budget.reserved == old(budget.reserved)
    ensures |deleted| <= |toDelete|
    ensures old(budget.taken) + dirs <= budget.taken <= old(budget.taken) + DirsNeeded(job, m) + PrunesNeeded(job, m)
    ensures outcome.Synced? ==> budget.taken == old(budget.taken) + dirs && forall r :: r in deleted <==> r in toDelete
    ensures outcome !in {ReadFailed, RootRefused, OverBudget}
    ensures forall p :: p in uploaded ==> p in job.local
    ensures RunResult(job, s.ext, s.candid, s.reliable, m, outcome, uploaded, deleted, t0, s.tree)
    ensures outcome.Synced? && s.reliable && old(budget.Affords(DirsNeeded(job, m) + PrunesNeeded(job, m))) ==>
              AllTidy(job, m, s.tree)
    ensures s.reliable && Roomy(job, m, t0) && old(budget.Affords(DirsNeeded(job, m))) ==> outcome.Synced?
    ensures outcome.Synced? && m == map[] ==> Rehoused(job, t0, s.tree)
  {
    ghost var tr := s.trace;
    var colliding, rest := SplitStale(job, m, toDelete);
    uploaded := [];
    outcome, deleted, dirs := ClearTheWay(s, job, m, upload, colliding, budget, t0);
    if !outcome.Synced? {
      return;
    }
    ghost var mid := s.trace;
    var gone, d;
    outcome, uploaded, gone, d := DeliverAndFinish(s, job, m, upload, deleted, rest, budget, dirMode, t0);
    GoodThen(job, s.ext, s.candid, m, t0, tr, mid, s.trace);
    deleted, dirs := deleted + gone, dirs + d;
    if Tidy(job, rest, s.tree) {
      RestIsTidy(job, m, rest, s.tree);
    }
  }

  /**
  One sync run. `m` is the manifest the run worked from (the one that is there,
  when it could not read it at all), `uploaded` and `deleted` are what it reports
  as done, `dirs` the directories it removed.

  Whatever fails and whichever replies are lost, every step leaves all other
  files alone, keeps the manifest truthful, and still lists every stale file that
  is there; a successful run converges; a failed one records what it did; the
  removals reported are charged to the budget; and on a reliable server that
  meets the pre-pass hypothesis the run succeeds and leaves no directory it
  emptied. A run with something to delete whose target is too broad is refused
  before it changes anything, and one that reports a removal has an accepted target.
  */
  method ExecuteSync(s: Server, job: Job, budget: DeleteBudget, dirMode: bool, remote: string)
    returns (outcome: Outcome, uploaded: seq<Path>, deleted: seq<Path>, dirs: nat, ghost m: Manifest)
    requires s.Valid() && budget.Valid() && Sound(job) && SoundManifest(job, ManifestAt(job, s.tree))
    modifies s`tree, s`trace, budget
    ensures s.Valid() && GoodSince(job, s.ext, s.candid, m, old(s.tree), old(s.trace), s.trace)
    ensures m == ManifestAt(job, old(s.tree)) || m == map[]
    ensures s.legible || outcome.ReadFailed? ==> m == ManifestAt(job, old(s.tree))
    ensures budget.Valid() && Charged(job, m, outcome, deleted, dirs, old(budget.spent), budget.spent)
    ensures Admitted(job, m, remote, budget.limit, old(budget.spent), outcome)
    ensures outcome in {ReadFailed, RootRefused, OverBudget} ==> s.tree == old(s.tree) && uploaded == []
    ensures deleted != [] || dirs > 0 ==> CheckRemoteRoot(remote)
    ensures forall p :: p in uploaded ==> p in job.local
    ensures RunResult(job, s.ext, s.candid, s.reliable, m, outcome, uploaded, deleted, old(s.tree), s.tree)
    ensures outcome.Synced? && m == map[] ==> Rehoused(job, old(s.tree), s.tree)
    ensures outcome.Synced? && s.reliable
            && old(budget.Affords(|StaleSet(job, m)| + DirsNeeded(job, m) + PrunesNeeded(job, m))) ==>
              AllTidy(job, m, s.tree)
    ensures s.reliable && CheckRemoteRoot(remote) && Roomy(job, ManifestAt(job, old(s.tree)), old(s.tree))
            && old(budget.Affords(|StaleSet(job, m)| + DirsNeeded(job, m))) ==>
              outcome.Synced?
  {
    ghost var t0, tr := s.tree, s.trace;
    uploaded, deleted, dirs := [], [], 0;
    var ok, found;
    ghost var last;
    ok, found, last := ReadManifest(s, job);
    ghost var mid := s.trace;
    m := if ok then found else ManifestAt(job, t0);
    ReadIsGood(job, s.ext, s.candid, m, t0, tr, mid);
    if !ok {
      return ReadFailed, uploaded, deleted, dirs, m;
    }
    outcome, uploaded, deleted, dirs := ChargeAndReconcile(s, job, found, budget, dirMode, remote, t0);
    GoodThen(job, s.ext, s.candid, m, t0, tr, mid, s.trace);
  }

  /** Compares, charges the deletions, and reconciles. */
  method ChargeAndReconcile(s: Server, job: Job, m: Manifest, budget: DeleteBudget, dirMode: bool, remote: string,
                            ghost t0: Tree)
    returns (outcome: Outcome, uploaded: seq<Path>, deleted: seq<Path>, dirs: nat)
    requires s.Valid() && budget.Valid() && s.tree == t0 && Sound(job) && SoundManifest(job, m)
    requires m == ManifestAt(job, t0) || m == map[]
    modifies s`tree, s`trace, budget
    ensures s.Valid() && GoodSince(job, s.ext, s.candid, m, t0, old(s.trace), s.trace)
    ensures budget.Valid() && Charged(job, m, outcome, deleted, dirs, old(budget.spent), budget.spent)
    ensures Admitted(job, m, remote, budget.limit, old(budget.spent), outcome)
    ensures outcome in {RootRefused, OverBudget} ==> s.tree == t0 && uploaded == []
    ensures deleted != [] || dirs > 0 ==> CheckRemoteRoot(remote)
    ensures !outcome.ReadFailed? && forall p :: p in uploaded ==> p in job.local
    ensures RunResult(job, s.ext, s.candid, s.reliable, m, outcome, uploaded, deleted, t0, s.tree)
    ensures outcome.Synced? && m == map[] ==> Rehoused(job, t0, s.tree)
    ensures outcome.Synced? && s.reliable
            && old(budget.Affords(|StaleSet(job, m)| + DirsNeeded(job, m) + PrunesNeeded(job, m))) ==>
              AllTidy(job, m, s.tree)
    ensures s.reliable && CheckRemoteRoot(remote) && Roomy(job, m, t0) && old(budget.Affords(|StaleSet(job, m)| + DirsNeeded(job, m))) ==>
              outcome.Synced?
  {
    uploaded, deleted, dirs := [], [], 0;
    var upload := ChangedFiles(job, m);
    var toDelete := StaleEntries(job, m);
    DistinctSize(toDelete, StaleSet(job, m));
    if |toDelete| > 0 {
      if !CheckRemoteRoot(remote) {
        return RootRefused, uploaded, deleted, dirs;
      }
      var charged := budget.Reserve(|toDelete|);
      if !charged {
        return OverBudget, uploaded, deleted, dirs;
      }
    } else {
      NothingStale(job, m);
    }
    StartsAtWork(job, s.ext, m, t0);
    outcome, uploaded, deleted, dirs := Reconcile(s, job, m, upload, toDelete, budget, dirMode, t0);
    ReportsAll(job, m, toDelete, deleted);
  }

  /** Without a stale entry there is nothing to charge. */
  lemma NothingStale(job: Job, m: Manifest)
    requires |StaleSet(job, m)| == 0
    ensures DirsNeeded(job, m) == 0 && PrunesNeeded(job, m) == 0
  {
    assert CollidingSet(job, m) == {} && RestSet(job, m) == {} by {
      assert CollidingSet(job, m) <= StaleSet(job, m) && RestSet(job, m) <= StaleSet(job, m);
    }
    assert AllInTheWay(job.files, {}) == {} && Above({}) == {};
  }

  /** A report that names every stale entry, and no more, has their number. */
  lemma ReportsAll(job: Job, m: Manifest, toDelete: seq<Path>, deleted: seq<Path>)
    requires StaleList(job, m, toDelete) && |toDelete| == |StaleSet(job, m)| && |deleted| <= |toDelete|
    ensures (forall r :: r in deleted <==> r in toDelete) ==>
              |deleted| == |StaleSet(job, m)| && forall r :: r in deleted <==> Stale(job, m, r)
  {
    if forall r :: r in deleted <==> r in toDelete {
      NamesAtMost(deleted);
      assert (set r | r in deleted) == StaleSet(job, m);
    }
  }

  lemma {:induction false} NamesAtMost(s: seq<Path>)
    ensures |set r | r in s| <= |s|
  {
    if s != [] {
      NamesAtMost(s[1..]);
      assert (set r | r in s) == {s[0]} + set r | r in s[1..];
    }
  }

  lemma RereadIsGood(job: Job, ext: bool, candid: bool, m: Manifest, t: Tree)
    ensures Good(job, ext, candid, m, t, t)
  {
  }

  /** Reading changes nothing. */
  lemma ReadIsGood(job: Job, ext: bool, candid: bool, m: Manifest, t0: Tree, tr0: seq<Tree>, tr: seq<Tree>)
    requires tr0 <= tr && forall j :: |tr0| <= j < |tr| ==> tr[j] == t0
    ensures GoodSince(job, ext, candid, m, t0, tr0, tr)
  {
    RereadIsGood(job, ext, candid, m, t0);
  }

  ghost predicate EndsAt(tr: seq<Tree>, t: Tree) {
    tr != [] && tr[|tr| - 1] == t
  }

  /** The claim on the steps of a run is one on the tree it leaves. */
  lemma LastIsGood(job: Job, ext: bool, candid: bool, m: Manifest, t0: Tree, tr0: seq<Tree>, tr: seq<Tree>, t: Tree)
    requires EndsAt(tr0, t0) && GoodSince(job, ext, candid, m, t0, tr0, tr) && EndsAt(tr, t)
    ensures Good(job, ext, candid, m, t0, t)
  {
    RereadIsGood(job, ext, candid, m, t0);
    if |tr| > |tr0| {
      assert Good(job, ext, candid, m, t0, tr[|tr| - 1]);
    } else {
      assert tr == tr0;
    }
  }
}
