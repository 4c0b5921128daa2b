/** The steps of a sync run: the pre-pass, the recovery manifest and the
    delivery of the changed files. */
module SyncSteps {
  import opened Options
  import opened RemoteTree
  import opened Publish
  import opened WorkerPool
  import opened TempNames
  import opened PathLists
  import opened DeleteBudgets
  import opened DirRemoval
  import opened Collide
  import opened SyncJob
  import opened SyncPhases
  import opened SyncManifest
  import opened SyncRoom
  import opened SyncFrame

  // ---- The pre-pass ----

  datatype Room = Made | FilesStay | DirsStay

  /** Nothing of the wrong type is in the way of the plan. */
  ghost predicate MadeRoom(job: Job, m: Manifest, t: Tree) {
    && Roomy(job, m, t)
    && (forall f :: f in job.local && f in t ==> t[f].File?)
    && (forall f, a :: f in job.local && Strictly(a, f) ==> FileAt(t, a) == None)
  }

  ghost predicate CollidingList(job: Job, m: Manifest, colliding: seq<Path>) {
    Distinct(colliding) && forall r :: r in colliding <==> Stale(job, m, r) && Collides(job.fold, job.files, r)
  }

  lemma ListedAreFiles(job: Job, m: Manifest, t: Tree, r: Path)
    requires Roomy(job, m, t) && r in m && Key(job, r) in t
    ensures t[Key(job, r)].File?
  {
    KeysExact(job, r);
  }

  /** Deletes the colliding entries' files, and keeps the room. */
  method DropColliding(s: Server, job: Job, m: Manifest, colliding: seq<Path>, ghost t0: Tree)
    returns (preDeleted: seq<Path>, ok: bool)
    requires s.Valid() && Sound(job) && SoundManifest(job, m) && CollidingList(job, m, colliding)
    requires DataFrame(job, s.ext, m, t0, s.tree)
    modifies s`tree, s`trace
    ensures s.Valid() && Kept(job, s.ext, m, t0, old(s.trace), s.trace)
    ensures DataFrame(job, s.ext, m, t0, s.tree)
    ensures |preDeleted| <= |colliding| && forall r :: r in preDeleted ==> r in colliding
    ensures s.candid ==> forall r :: r in preDeleted ==> Key(job, r) !in s.tree
    ensures ok <==> forall r :: r in colliding ==> r in preDeleted
    ensures forall k :: k in s.tree ==> k in old(s.tree) && s.tree[k] == old(s.tree)[k]
    ensures ok && s.candid ==> forall r :: r in colliding ==> Key(job, r) !in s.tree
    ensures ok && s.candid && Roomy(job, m, old(s.tree)) ==> PrePassed(job, m, old(s.tree), s.tree, colliding)
    ensures s.candid && Roomy(job, m, old(s.tree)) && !ok ==>
              PartlyCleared(CollidingSet(job, m), old(s.tree), (set r | r in preDeleted), s.tree)
    ensures s.reliable && Roomy(job, m, old(s.tree)) ==> ok
    ensures SlotsFree(job, old(s.tree)) ==> SlotsFree(job, s.tree)
  {
    ghost var t := s.tree;
    if Roomy(job, m, t) {
      forall r | r in colliding && Key(job, r) in t ensures t[Key(job, r)].File? {
        ListedAreFiles(job, m, t, r);
      }
    }
    var done;
    done, ok := DropFiles(s, job, m, colliding, t0);
    preDeleted := Picked(colliding, done);
    StaleKeepsSlots(job, m, colliding, t, s.tree);
    assert ok ==> forall r :: r in colliding ==> r in preDeleted;
    if !ok {
      UnflaggedIsLeft(colliding, done, preDeleted);
      if s.candid && Roomy(job, m, t) {
        DroppedInPart(job, m, t, s.tree, colliding, preDeleted);
      }
    }
    if ok && s.candid && Roomy(job, m, t) {
      DroppedIsPrePassed(job, m, t, s.tree, colliding);
    }
  }

  lemma DroppedInPart(job: Job, m: Manifest, t: Tree, t': Tree, colliding: seq<Path>, preDeleted: seq<Path>)
    requires Roomy(job, m, t) && CollidingList(job, m, colliding)
    requires (forall r :: r in preDeleted ==> r in colliding && Key(job, r) !in t') && exists r :: r in colliding && r !in preDeleted
    requires forall k :: k in t' ==> k in t && t'[k] == t[k]
    requires forall k :: (forall r :: r in colliding ==> k != Key(job, r)) ==> Same(t, t', k)
    ensures PartlyCleared(CollidingSet(job, m), t, (set r | r in preDeleted), t')
  {
    KeysExact(job, []);
    var left :| left in colliding && left !in preDeleted;
    assert left in CollidingSet(job, m);
    forall k | k in t && k !in t' ensures k in CollidingSet(job, m) && t[k].File? {
      assert k in colliding by {
        assert k !in colliding ==> Same(t, t', k);
      }
      ListedAreFiles(job, m, t, k);
    }
  }

  lemma UnflaggedIsLeft(rels: seq<Path>, done: seq<bool>, picked: seq<Path>)
    requires |done| == |rels| && Distinct(rels) && PickedBy(rels, done, picked) && exists i :: 0 <= i < |done| && !done[i]
    ensures exists r :: r in rels && r !in picked
  {
    var i :| 0 <= i < |done| && !done[i];
    assert rels[i] in rels;
  }

  /** The manifest's three names are no directories. */
  ghost predicate SlotsFree(job: Job, t: Tree) {
    NoDirs(ManifestSlots(job), t)
  }

  lemma StaleKeepsSlots(job: Job, m: Manifest, rels: seq<Path>, t: Tree, t': Tree)
    requires Sound(job) && SoundManifest(job, m) && forall r :: r in rels ==> r in m
    requires forall k :: (forall r :: r in rels ==> k != Key(job, r)) ==> Same(t, t', k)
    ensures SlotsFree(job, t) ==> SlotsFree(job, t')
  {
    ManifestShape(job, Blob(0));
    if SlotsFree(job, t) {
      DropsKeepSlots(job, ManifestSlots(job), m, rels, t, t');
    }
  }

  lemma DroppedIsPrePassed(job: Job, m: Manifest, t: Tree, t': Tree, colliding: seq<Path>)
    requires Roomy(job, m, t) && CollidingList(job, m, colliding)
    requires forall r :: r in colliding ==> Key(job, r) !in t'
    requires forall k :: (forall r :: r in colliding ==> k != Key(job, r)) ==> Same(t, t', k)
    ensures PrePassed(job, m, t, t', colliding)
  {
    KeysExact(job, []);
    forall k | k in t' ensures k in t && t'[k] == t[k] {
      assert k !in colliding;
      assert Same(t, t', k);
    }
  }

  /**
  The whole pre-pass: the colliding files first, then the directories the plan
  turns into files. A failed directory removal leaves the hypothesis intact.
  */
  method MakeRoom(s: Server, job: Job, m: Manifest, colliding: seq<Path>, budget: DeleteBudget, ghost t0: Tree)
    returns (room: Room, preDeleted: seq<Path>, dirs: nat)
    requires s.Valid() && budget.Valid() && Sound(job) && SoundManifest(job, m) && CollidingList(job, m, colliding)
    requires DataFrame(job, s.ext, m, t0, s.tree)
    modifies s`tree, s`trace, budget
    ensures s.Valid() && Kept(job, s.ext, m, t0, old(s.trace), s.trace)
    ensures DataFrame(job, s.ext, m, t0, s.tree)
    ensures budget.Valid() && budget.reserved == old(budget.reserved)
    ensures old(budget.taken) + dirs <= budget.taken <= old(budget.taken) + |DirsToClear(job, colliding)|
    ensures room.Made? ==> budget.taken == old(budget.taken) + dirs
    ensures |preDeleted| <= |colliding| && forall r :: r in preDeleted ==> r in colliding
    ensures s.candid ==> forall r :: r in preDeleted ==> FileAt(s.tree, Key(job, r)) == None
    ensures !room.FilesStay? <==> forall r :: r in colliding ==> r in preDeleted
    ensures s.candid && room.FilesStay? && Roomy(job, m, old(s.tree)) ==>
              PartlyCleared(CollidingSet(job, m), old(s.tree), (set r | r in preDeleted), s.tree)
    ensures room.DirsStay? && Roomy(job, m, old(s.tree)) ==> Roomy(job, m, s.tree)
    ensures s.candid && room.Made? && Roomy(job, m, old(s.tree)) ==> MadeRoom(job, m, s.tree)
    ensures s.reliable && Roomy(job, m, old(s.tree)) && old(budget.Affords(|DirsToClear(job, colliding)|)) ==> room.Made?
    ensures SlotsFree(job, old(s.tree)) ==> SlotsFree(job, s.tree)
  {
    ghost var t := s.tree;
    var ok;
    preDeleted, ok := DropColliding(s, job, m, colliding, t0);
    dirs := 0;
    if !ok {
      return FilesStay, preDeleted, 0;
    }
    room, dirs := ClearDropped(s, job, m, colliding, budget, t0, t);
  }

  /** The second half: the directories, once the colliding files are gone. `t` is
      the tree the pre-pass started from. */
  method ClearDropped(s: Server, job: Job, m: Manifest, colliding: seq<Path>, budget: DeleteBudget, ghost t0: Tree, ghost t: Tree)
    returns (room: Room, dirs: nat)
    requires s.Valid() && budget.Valid() && Sound(job) && SoundManifest(job, m) && DataFrame(job, s.ext, m, t0, s.tree)
    requires forall k :: k in s.tree ==> k in t && s.tree[k] == t[k]
    requires s.candid ==> forall r :: r in colliding ==> Key(job, r) !in s.tree
    requires s.candid && Roomy(job, m, t) ==> PrePassed(job, m, t, s.tree, colliding)
    modifies s`tree, s`trace, budget
    ensures s.Valid() && Kept(job, s.ext, m, t0, old(s.trace), s.trace)
    ensures DataFrame(job, s.ext, m, t0, s.tree)
    ensures budget.Valid() && budget.reserved == old(budget.reserved)
    ensures old(budget.taken) + dirs <= budget.taken <= old(budget.taken) + |DirsToClear(job, colliding)|
    ensures room.Made? ==> budget.taken == old(budget.taken) + dirs
    ensures s.candid ==> forall r :: r in colliding ==> FileAt(s.tree, Key(job, r)) == None
    ensures room in {Made, DirsStay}
    ensures room.DirsStay? && Roomy(job, m, t) ==> Roomy(job, m, s.tree)
    ensures s.candid && room.Made? && Roomy(job, m, t) ==> MadeRoom(job, m, s.tree)
    ensures s.reliable && Roomy(job, m, t) && old(budget.Affords(|DirsToClear(job, colliding)|)) ==> room.Made?
    ensures SlotsFree(job, old(s.tree)) ==> SlotsFree(job, s.tree)
  {
    ghost var t1, tr := s.tree, s.trace;
    EmptyIsNotPlanned(job);
    if s.candid && Roomy(job, m, t) {
      forall dirs: seq<Path> | forall d :: d in dirs <==> InTheWay(job.files, colliding, d) ensures Closed(dirs, t1) {
        CollisionsClosed(job, m, t, t1, colliding, dirs);
      }
    }
    var ok;
    dirs, ok := ClearCollideParents(s, job, colliding, budget);
    forall j | |tr| <= j < |s.trace| ensures DataFrame(job, s.ext, m, t0, s.trace[j]) {
      DirsGoneFrame(job, s.ext, m, t0, t1, s.trace[j]);
    }
    DirsGoneFrame(job, s.ext, m, t0, t1, s.tree);
    if SlotsFree(job, t1) {
      SmallerKeepsSlots(ManifestSlots(job), t1, s.tree);
    }
    room := if ok then Made else DirsStay;
    if Roomy(job, m, t) {
      RoomySmaller(job, m, t, s.tree);
      if s.candid {
        RoomAfterDirs(job, m, t, t1, s.tree, colliding, ok);
      }
    }
  }

  lemma EmptyIsNotPlanned(job: Job)
    requires Sound(job)
    ensures [] !in job.files
  {
    assert [] in job.files ==> [] in job.local;
  }

  lemma DirsGoneFrame(job: Job, ext: bool, m: Manifest, t0: Tree, t1: Tree, t2: Tree)
    requires DataFrame(job, ext, m, t0, t1) && OnlySomeDirsGone(t1, t2)
    ensures DataFrame(job, ext, m, t0, t2)
  {
    SameFilesFrame(job, ext, m, t0, t1, t2);
  }

  lemma RoomAfterDirs(job: Job, m: Manifest, t: Tree, t1: Tree, t2: Tree, colliding: seq<Path>, ok: bool)
    requires Sound(job) && SoundManifest(job, m) && Roomy(job, m, t)
    requires PrePassed(job, m, t, t1, colliding) && OnlySomeDirsGone(t1, t2)
    requires ok ==> forall d :: InTheWay(job.files, colliding, d) ==> Key(job, d) !in t2
    ensures Roomy(job, m, t2) && (ok ==> MadeRoom(job, m, t2))
  {
    KeysExact(job, []);
    RoomySmaller(job, m, t, t2);
    assert PrePassed(job, m, t, t2, colliding);
    if ok {
      RoomMade(job, m, t, t2, colliding);
    }
  }

  // ---- The recovery manifest ----

  /**
  What a recovery leaves under the manifest's name: the merged manifest, or what
  was there before, or nothing (never with posix-rename); on a reliable server
  the merged manifest.
  */
  ghost predicate Recorded(job: Job, ext: bool, reliable: bool, m: Manifest, uploaded: seq<Path>, deleted: seq<Path>,
                           t0: Tree, t: Tree)
  {
    exists files :: IsMerged(job, m, uploaded, deleted, files) && Written(job, ext, reliable, files, t0, t)
  }

  ghost predicate Written(job: Job, ext: bool, reliable: bool, files: Manifest, t0: Tree, t: Tree) {
    var was, now := FileAt(t0, ManifestKey(job)), FileAt(t, ManifestKey(job));
    && now in {was, None, Some(Listing(files))}
    && (ext && was != None ==> now != None)
    && (reliable && SlotsFree(job, t0) ==> now == Some(Listing(files)))
  }

  /** What holds between the phases of a run that started at `t0` and works from
      `m`. */
  ghost predicate AtWork(job: Job, ext: bool, m: Manifest, t0: Tree, t: Tree) {
    && Sound(job) && SoundManifest(job, m) && (m == ManifestAt(job, t0) || m == map[])
    && DataFrame(job, ext, m, t0, t)
    && (SlotsFree(job, t0) ==> SlotsFree(job, t))
  }

  /** What the uploads reported as complete is in place. */
  ghost predicate InPlace(job: Job, upload: seq<Path>, completed: seq<bool>, t: Tree) {
    && |completed| == |upload|
    && forall i :: 0 <= i < |upload| && completed[i] && upload[i] in job.local ==> Holds(job, t, upload[i])
  }

  /** What a recovery may take for done: `uploaded` is what completed, and `deleted`
      is cleared and holds every stale entry the server takes for an uploaded one. */
  ghost predicate Achievements(job: Job, candid: bool, m: Manifest, upload: seq<Path>, completed: seq<bool>,
                               uploaded: seq<Path>, deleted: seq<Path>, t: Tree)
  {
    && InPlace(job, upload, completed, t) && PickedBy(upload, completed, uploaded)
    && (forall p :: p in upload ==> p in job.local)
    && (candid ==> forall r :: r in deleted ==> Cleared(job, t, r))
    && (forall r, p :: Stale(job, m, r) && p in uploaded && Key(job, r) == Key(job, p) ==> r in deleted)
  }

  lemma MergedIsReady(job: Job, ext: bool, candid: bool, m: Manifest, upload: seq<Path>, completed: seq<bool>,
                      uploaded: seq<Path>, deleted: seq<Path>, files: Manifest, t0: Tree, t: Tree)
    requires AtWork(job, ext, m, t0, t) && Achievements(job, candid, m, upload, completed, uploaded, deleted, t)
    requires forall p :: p in files <==> (p in m || CompletedIn(upload, completed, p)) && p !in deleted
    requires forall p :: p in files ==> files[p] == if CompletedIn(upload, completed, p) then job.local[p] else m[p]
    ensures IsMerged(job, m, uploaded, deleted, files) && (forall p :: p in uploaded ==> p in job.local)
    ensures SoundManifest(job, files) && forall r :: r in files ==> r in m || r in job.local
    ensures (Truthful(job, t0) ==> Promised(job, files, t)) && (candid ==> Accounted(job, m, files, t))
  {
    PickedIsCompleted(upload, completed, uploaded);
    if Truthful(job, t0) {
      OldPromised(job, ext, m, t0, t);
      MergedPromised(job, m, upload, completed, deleted, files, t);
    }
    MergedIsSound(job, m, uploaded, deleted, files);
  }

  /** Writes what a failing run achieved into the manifest, as far as the
      connection still allows. */
  method Recover(s: Server, job: Job, m: Manifest, upload: seq<Path>, completed: seq<bool>, ghost uploaded: seq<Path>,
                 deleted: seq<Path>, ghost t0: Tree)
    requires s.Valid() && AtWork(job, s.ext, m, t0, s.tree)
    requires Achievements(job, s.candid, m, upload, completed, uploaded, deleted, s.tree)
    modifies s`tree, s`trace
    ensures s.Valid() && GoodSince(job, s.ext, s.candid, m, t0, old(s.trace), s.trace)
    ensures forall p :: p in uploaded ==> p in job.local
    ensures Recorded(job, s.ext, s.reliable, m, uploaded, deleted, t0, s.tree)
    ensures Roomy(job, m, old(s.tree)) ==> Roomy(job, m, s.tree)
    ensures forall files :: IsMerged(job, m, uploaded, deleted, files) && Roomy(job, files, old(s.tree)) ==> Roomy(job, files, s.tree)
  {
    var files := MergedManifest(job, m, upload, completed, deleted);
    MergedIsReady(job, s.ext, s.candid, m, upload, completed, uploaded, deleted, files, t0, s.tree);
    WriteRecovery(s, job, m, files, t0);
    forall other | IsMerged(job, m, uploaded, deleted, other) ensures other == files {
      MergedIsOne(job, m, uploaded, deleted, files, other);
    }
  }

  /** There is one merged manifest. */
  lemma MergedIsOne(job: Job, m: Manifest, uploaded: seq<Path>, deleted: seq<Path>, files: Manifest, other: Manifest)
    requires forall p :: p in uploaded ==> p in job.local
    requires IsMerged(job, m, uploaded, deleted, files) && IsMerged(job, m, uploaded, deleted, other)
    ensures files == other
  {
  }

  method WriteRecovery(s: Server, job: Job, m: Manifest, files: Manifest, ghost t0: Tree)
    requires s.Valid() && AtWork(job, s.ext, m, t0, s.tree)
    requires (Truthful(job, t0) ==> Promised(job, files, s.tree)) && (s.candid ==> Accounted(job, m, files, s.tree))
    requires SoundManifest(job, files) && forall r :: r in files ==> r in m || r in job.local
    modifies s`tree, s`trace
    ensures s.Valid() && GoodSince(job, s.ext, s.candid, m, t0, old(s.trace), s.trace)
    ensures Written(job, s.ext, s.reliable, files, t0, s.tree)
    ensures Roomy(job, m, old(s.tree)) ==> Roomy(job, m, s.tree)
    ensures Roomy(job, files, old(s.tree)) ==> Roomy(job, files, s.tree)
  {
    ghost var t1, tr := s.tree, s.trace;
    var n := ManifestSlots(job);
    ManifestShape(job, Listing(files));
    if NoDirs(n, t1) {
      SlotsReady(n, Listing(files), t1);
    }
    var ok := WriteManifest(s, n, Listing(files));
    WritesAreGood(job, s.ext, s.candid, n, m, files, t0, t1, tr, s.trace);
    ManifestUnchanged(job, s.ext, m, t0, t1);
    RoomAfterWrite(job, s.ext, n, m, files, t1, s.tree);
  }

  lemma RoomAfterWrite(job: Job, ext: bool, n: Slots, m: Manifest, files: Manifest, t1: Tree, t: Tree)
    requires Sound(job) && Shaped(job, n) && SoundManifest(job, m) && SoundManifest(job, files)
    requires WellFormed(t) && WriteFrame(ext, n, Listing(files), t1, t)
    ensures RoomyBut(job, n, m, t1) ==> RoomyBut(job, n, m, t)
    ensures RoomyBut(job, n, files, t1) ==> RoomyBut(job, n, files, t)
  {
    if RoomyBut(job, n, m, t1) {
      RoomyAfterWrite(job, ext, n, m, Listing(files), t1, t);
    }
    if RoomyBut(job, n, files, t1) {
      RoomyAfterWrite(job, ext, n, files, Listing(files), t1, t);
    }
  }

  lemma SlotsReady(n: Slots, d: Data, t: Tree)
    requires |n.final| == 1 && NoDirs(n, t)
    ensures Ready(Upload(n, d), t)
  {
    assert Parent(n.final) == [];
  }
}
