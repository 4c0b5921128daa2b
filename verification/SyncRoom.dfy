/** The collision pre-pass: making room for what the plan uploads. */
module SyncRoom {
  import opened Options
  import opened RemoteTree
  import opened Publish
  import opened WorkerPool
  import opened TempNames
  import opened PathLists
  import opened DeleteBudgets
  import opened DirRemoval
  import opened ByteOrder
  import opened Collide
  import opened SyncJob
  import opened SyncPhases
  import opened SyncManifest

  /** The stale entries of a manifest, each once. */
  ghost predicate StaleList(job: Job, m: Manifest, toDelete: seq<Path>) {
    Distinct(toDelete) && forall r :: r in toDelete <==> Stale(job, m, r)
  }

  /** At, above or below a planned file. */
  predicate InReach(job: Job, k: Path) {
    exists f :: f in job.local && (k <= f || f <= k)
  }

  predicate AtOrBelowPlan(job: Job, k: Path) {
    exists f :: f in job.local && f <= k
  }

  /** A planned file stands above it already. */
  predicate BelowPlannedFile(job: Job, t: Tree, k: Path) {
    exists f :: f in job.local && f in t && t[f].File? && Strictly(f, k)
  }

  /** A name an upload may take for its temporary files. */
  ghost predicate TempBeside(job: Job, k: Path) {
    k != [] && IsTempFileName(Last(k)) && exists f :: f in job.local && f != [] && Parent(f) == Parent(k)
  }

  /**
  The hypothesis of the pre-pass, on a server that compares names exactly. Above
  and below planned files there are listed files only; a directory at or below a
  planned file has a listed entry below it; no listed entry is a directory, or is
  below a planned file that stands there as a file; and the temporary names of the
  run and the three names of the manifest are no directories.
  */
  ghost predicate Roomy(job: Job, m: Manifest, t: Tree) {
    RoomyBut(job, ManifestSlots(job), m, t)
  }

  /** The same for any three names in place of the manifest's. */
  ghost predicate RoomyBut(job: Job, n: Slots, m: Manifest, t: Tree) {
    && (forall s :: job.id(s) == s)
    && (forall k :: k in t && t[k].File? && InReach(job, k) && k !in job.local ==> k in m)
    && (forall k :: k in t && t[k].Dir? && AtOrBelowPlan(job, k) ==> exists r :: r in m && Strictly(k, r))
    && (forall r :: r in m && r in t ==> t[r].File?)
    && (forall r :: r in m ==> !BelowPlannedFile(job, t, r))
    && (forall k :: k in t && t[k].Dir? ==> !TempBeside(job, k))
    && NoDirs(n, t)
  }

  /** It holds where every file but the manifest is listed, every directory has a
      listed entry below it, and the names of the run are free. */
  lemma FullyListedIsRoomy(job: Job, n: Slots, m: Manifest, t: Tree)
    requires (forall s :: job.id(s) == s) && NoDirs(n, t)
    requires forall k :: k in t && t[k].File? ==> k in m || !InReach(job, k)
    requires forall k :: k in t && t[k].Dir? ==> !TempBeside(job, k) && exists r :: r in m && Strictly(k, r)
    requires forall r :: r in m ==> r in t && t[r].File? && !BelowPlannedFile(job, t, r)
    ensures RoomyBut(job, n, m, t)
  {
  }

  predicate OneOf(n: Slots, k: Path) {
    k == n.final || k == n.tmp || k == n.backup
  }

  predicate ManifestName(job: Job, k: Path) {
    OneOf(ManifestSlots(job), k)
  }

  /** Nothing the pre-pass removes can break the hypothesis: a retry that finds
      the same manifest finds it again. */
  lemma RoomySmaller(job: Job, m: Manifest, t: Tree, t': Tree)
    requires Roomy(job, m, t) && forall k :: k in t' ==> k in t && t'[k] == t[k]
    ensures Roomy(job, m, t')
  {
  }

  lemma PlainIsNotSlot(job: Job, n: Slots, p: Path, k: Path)
    requires Shaped(job, n) && OffManifest(job, p) && k <= Key(job, p)
    ensures !OneOf(n, k)
  {
    PlainIsNotTemp(job, p);
  }

  ghost predicate PrePassed(job: Job, m: Manifest, t0: Tree, t: Tree, colliding: seq<Path>) {
    && (forall k :: k in t ==> k in t0 && t[k] == t0[k])
    && (forall r :: r in colliding <==> Stale(job, m, r) && Collides(job.fold, job.files, r))
    && (forall r :: r in colliding ==> r !in t)
  }

  /** Once the colliding files are gone, whatever is left at or below a
      collected directory is a collected directory: each one is empty when the
      deeper ones are gone. */
  lemma CollisionsClosed(job: Job, m: Manifest, t0: Tree, t: Tree, colliding: seq<Path>, dirs: seq<Path>)
    requires Sound(job) && SoundManifest(job, m) && Roomy(job, m, t0) && PrePassed(job, m, t0, t, colliding)
    requires forall d :: d in dirs <==> InTheWay(job.files, colliding, d)
    ensures Closed(dirs, t)
  {
    forall d, k | d in dirs && k in t && d <= k ensures k in dirs && t[k].Dir? {
      BelowCollided(job, m, t0, t, colliding, d, k);
    }
  }

  lemma BelowCollided(job: Job, m: Manifest, t0: Tree, t: Tree, colliding: seq<Path>, d: Path, k: Path)
    requires Sound(job) && SoundManifest(job, m) && Roomy(job, m, t0) && PrePassed(job, m, t0, t, colliding)
    requires InTheWay(job.files, colliding, d) && k in t && d <= k
    ensures InTheWay(job.files, colliding, k) && t[k].Dir?
  {
    var r, f :| r in colliding && f in job.files && Strictly(d, r) && f <= d;
    assert r in m && f in job.local;
    assert k in t0 && t0[k] == t[k];
    if t0[k].File? {
      FileIsCollided(job, m, t0, f, k, d, r);
      assert false;
    } else {
      DirBelowPlanned(job, m, t0, f, k, colliding);
    }
  }

  /** A file there is listed, and would have been deleted. */
  lemma FileIsCollided(job: Job, m: Manifest, t0: Tree, f: Path, k: Path, d: Path, r: Path)
    requires Sound(job) && Roomy(job, m, t0) && f in job.local && r in m && Strictly(d, r) && f <= d && d <= k
    requires k in t0 && t0[k].File?
    ensures Stale(job, m, k) && Collides(job.fold, job.files, k)
  {
    assert f <= k;
    if k == f {
      assert k == d && Strictly(f, r);
      assert BelowPlannedFile(job, t0, r);
      assert false;
    }
    NothingPlannedBelow(job, f, k);
    assert InReach(job, k) && k in m;
    BelowPlanned(job, m, f, k);
  }

  /** The plan is flat. */
  lemma NothingPlannedBelow(job: Job, f: Path, k: Path)
    requires Sound(job) && f in job.local && Strictly(f, k)
    ensures k !in job.local
  {
    assert f in job.files && (k in job.local ==> k in job.files);
  }

  lemma DirBelowPlanned(job: Job, m: Manifest, t0: Tree, f: Path, k: Path, colliding: seq<Path>)
    requires Sound(job) && Roomy(job, m, t0) && f in job.local && f <= k && k in t0 && t0[k].Dir?
    requires forall r :: r in colliding <==> Stale(job, m, r) && Collides(job.fold, job.files, r)
    ensures InTheWay(job.files, colliding, k)
  {
    var e :| e in m && Strictly(k, e);
    BelowPlanned(job, m, f, e);
    assert e in colliding && f in job.files;
  }

  /** What is listed strictly below a planned file is stale and in the way. */
  lemma BelowPlanned(job: Job, m: Manifest, f: Path, r: Path)
    requires Sound(job) && f in job.local && r in m && Strictly(f, r)
    ensures Stale(job, m, r) && Collides(job.fold, job.files, r)
  {
    assert f in job.files;
  }

  /** After a pre-pass that succeeded no planned path is a directory, and no
      directory of the plan is a file. */
  lemma RoomMade(job: Job, m: Manifest, t0: Tree, t: Tree, colliding: seq<Path>)
    requires Sound(job) && SoundManifest(job, m) && Roomy(job, m, t0) && PrePassed(job, m, t0, t, colliding)
    requires forall d :: InTheWay(job.files, colliding, d) ==> d !in t
    ensures forall f :: f in job.local && f in t ==> t[f].File?
    ensures forall f, a :: f in job.local && Strictly(a, f) ==> FileAt(t, a) == None
  {
    forall f | f in job.local && f in t ensures t[f].File? {
      if t[f].Dir? {
        DirBelowPlanned(job, m, t0, f, f, colliding);
      }
    }
    forall f, a | f in job.local && Strictly(a, f) ensures FileAt(t, a) == None {
      if a in t && t[a].File? {
        FileAbovePlanCollides(job, m, t0, f, a);
      }
    }
  }

  lemma FileAbovePlanCollides(job: Job, m: Manifest, t0: Tree, f: Path, a: Path)
    requires Sound(job) && Roomy(job, m, t0)
    requires f in job.local && Strictly(a, f) && a in t0 && t0[a].File?
    ensures Stale(job, m, a) && Collides(job.fold, job.files, a)
  {
    assert f in job.files && (a in job.local ==> a in job.files);
    assert InReach(job, a) && a in m;
  }

  /** Some directories are gone; nothing else changed. */
  ghost predicate OnlySomeDirsGone(t0: Tree, t: Tree) {
    && (forall k :: k in t ==> k in t0 && t[k] == t0[k])
    && (forall k :: k in t0 && k !in t ==> t0[k].Dir?)
  }

  /** Removes one directory, or finds that it is already gone. */
  method RmdirOnce(s: Server, key: Path, ghost t0: Tree) returns (gone: bool, absent: bool)
    requires s.Valid() && OnlySomeDirsGone(t0, s.tree)
    modifies s`tree, s`trace
    ensures s.Valid() && s.trace == old(s.trace) + [s.tree] && OnlySomeDirsGone(t0, s.tree)
    ensures forall k :: k in s.tree ==> k in old(s.tree)
    ensures gone || absent ==> key !in s.tree
    ensures s.reliable && Removable(old(s.tree), key) ==> gone || absent
  {
    var r := s.Execute(Rmdir(key));
    gone, absent := r.Ok?, r.NotExist?;
  }

  ghost function DirsToClear(job: Job, colliding: seq<Path>): set<Path> {
    AllInTheWay(job.files, set r | r in colliding)
  }

  /** The stale entries that must go before the upload, and the others. */
  ghost function CollidingSet(job: Job, m: Manifest): set<Path> {
    set r | r in m && r !in job.local && Collides(job.fold, job.files, r)
  }

  ghost function RestSet(job: Job, m: Manifest): set<Path> {
    set r | r in m && r !in job.local && !Collides(job.fold, job.files, r)
  }

  /**
  Removes the directories the plan turns into files, deepest first. One that is
  not empty fails the run; listing what is left in it only words the error.
  */
  method ClearCollideParents(s: Server, job: Job, colliding: seq<Path>, budget: DeleteBudget)
    returns (removed: nat, ok: bool)
    requires s.Valid() && budget.Valid() && PrefixFree(job.files) && [] !in job.files
    modifies s`tree, s`trace, budget
    ensures s.Valid() && budget.Valid() && budget.reserved == old(budget.reserved)
    ensures old(budget.taken) + removed <= budget.taken <= old(budget.taken) + |DirsToClear(job, colliding)|
    ensures ok ==> budget.taken == old(budget.taken) + removed
    ensures old(s.trace) <= s.trace
    ensures OnlySomeDirsGone(old(s.tree), s.tree)
    ensures forall j :: |old(s.trace)| <= j < |s.trace| ==> OnlySomeDirsGone(old(s.tree), s.trace[j])
    ensures ok ==> forall d :: InTheWay(job.files, colliding, d) ==> Key(job, d) !in s.tree
    ensures s.reliable && (forall n :: job.id(n) == n)
            && (forall dirs :: (forall d :: d in dirs <==> InTheWay(job.files, colliding, d)) ==> Closed(dirs, old(s.tree)))
            && old(budget.Affords(|DirsToClear(job, colliding)|))
            ==> ok
  {
    var found := CollectCollideDirs(colliding, job.files);
    var dirs := SortDescending(found);
    SortedDescending(found);
    forall d ensures d in found <==> d in DirsToClear(job, colliding) {
      AllInTheWayExactly(job.files, colliding, d);
    }
    DistinctSize(found, DirsToClear(job, colliding));
    var keys := seq(|dirs|, i requires 0 <= i < |dirs| => Key(job, dirs[i]));
    if forall n :: job.id(n) == n {
      KeysExact(job, []);
      assert keys == dirs;
    }
    removed, ok := ClearDirs(s, keys, budget);
    if ok {
      forall d | InTheWay(job.files, colliding, d) ensures Key(job, d) !in s.tree {
        var i :| 0 <= i < |dirs| && dirs[i] == d;
        assert keys[i] in keys;
      }
    }
  }

  ghost predicate SomeDirsGoneSince(t0: Tree, tr: seq<Tree>, from: nat) {
    forall j :: from <= j < |tr| ==> OnlySomeDirsGone(t0, tr[j])
  }

  /** On a reliable server these directories can be removed in this order. */
  ghost predicate InOrder(keys: seq<Path>, t: Tree) {
    Descending(keys) && [] !in keys && Closed(keys, t)
  }

  /** Removes the directories in order, until one stays. */
  method ClearDirs(s: Server, keys: seq<Path>, budget: DeleteBudget) returns (removed: nat, ok: bool)
    requires s.Valid() && budget.Valid()
    modifies s`tree, s`trace, budget
    ensures s.Valid() && budget.Valid() && budget.reserved == old(budget.reserved)
    ensures old(budget.taken) + removed <= budget.taken <= old(budget.taken) + |keys|
    ensures ok ==> budget.taken == old(budget.taken) + removed
    ensures old(s.trace) <= s.trace
    ensures OnlySomeDirsGone(old(s.tree), s.tree) && SomeDirsGoneSince(old(s.tree), s.trace, |old(s.trace)|)
    ensures ok ==> forall k :: k in keys ==> k !in s.tree
    ensures s.reliable && InOrder(keys, old(s.tree)) && old(budget.Affords(|keys|)) ==> ok
  {
    ghost var t0 := s.tree;
    removed, ok := 0, true;
    for i := 0 to |keys|
      invariant s.Valid() && budget.Valid() && budget.reserved == old(budget.reserved)
      invariant removed <= i && budget.taken == old(budget.taken) + removed
      invariant old(s.trace) <= s.trace && OnlySomeDirsGone(t0, s.tree)
      invariant SomeDirsGoneSince(t0, s.trace, |old(s.trace)|)
      invariant ok && forall j :: 0 <= j < i ==> keys[j] !in s.tree
    {
      NextIsRemovable(keys, i, t0, s.tree);
      var n;
      n, ok := ClearOne(s, keys[i], budget, t0);
      removed := removed + n;
      if !ok {
        return;
      }
    }
  }

  /** Charges and removes one directory; one that is already gone gives its
      charge back. */
  method ClearOne(s: Server, key: Path, budget: DeleteBudget, ghost t0: Tree) returns (removed: nat, ok: bool)
    requires s.Valid() && budget.Valid() && OnlySomeDirsGone(t0, s.tree)
    modifies s`tree, s`trace, budget
    ensures s.Valid() && budget.Valid() && budget.reserved == old(budget.reserved)
    ensures old(budget.taken) + removed <= budget.taken <= old(budget.taken) + 1
    ensures ok ==> budget.taken == old(budget.taken) + removed
    ensures old(s.trace) <= s.trace && OnlySomeDirsGone(t0, s.tree)
    ensures s.trace == old(s.trace) || s.trace == old(s.trace) + [s.tree]
    ensures forall k :: k in s.tree ==> k in old(s.tree)
    ensures ok ==> key !in s.tree
    ensures s.reliable && Removable(old(s.tree), key) && old(budget.Affords(1)) ==> ok
  {
    removed, ok := 0, false;
    var admitted := budget.Take();
    if !admitted {
      return;
    }
    var gone, absent := RmdirOnce(s, key, t0);
    ok := gone || absent;
    if gone {
      removed := 1;
    } else if absent {
      budget.Refund();
    }
  }

  lemma NextIsRemovable(dirs: seq<Path>, i: nat, t0: Tree, t: Tree)
    requires i < |dirs| && OnlySomeDirsGone(t0, t) && forall j :: 0 <= j < i ==> dirs[j] !in t
    ensures InOrder(dirs, t0) ==> Removable(t, dirs[i])
  {
    if InOrder(dirs, t0) {
      DeepestIsRemovable(dirs, i, t0, t);
    }
  }

  lemma DeepestIsRemovable(dirs: seq<Path>, i: nat, t0: Tree, t: Tree)
    requires InOrder(dirs, t0) && i < |dirs|
    requires forall k :: k in t ==> k in t0 && t[k] == t0[k]
    requires forall j :: 0 <= j < i ==> dirs[j] !in t
    ensures Removable(t, dirs[i])
  {
    var d := dirs[i];
    assert d in dirs;
    forall k | k in t && d <= k ensures k == d {
      assert k in dirs;
      var j :| 0 <= j < |dirs| && dirs[j] == k;
      if k != d {
        BelowComesFirst(dirs, i, j);
      }
    }
  }

  // ---- File deletions that failed in part ----

  /** What a pre-pass whose file deletions failed can leave: `deleted` is what it
      reports as gone and drops from the manifest, not all that collides; of the
      rest some may be gone too; nothing else changed. */
  ghost predicate PartlyCleared(colliding: set<Path>, t: Tree, deleted: set<Path>, t': Tree) {
    && deleted < colliding && (forall r :: r in deleted ==> r !in t')
    && (forall k :: k in t' ==> k in t && t'[k] == t[k])
    && (forall k :: k in t && k !in t' ==> k in colliding && t[k].File?)
  }

  /** A directory the manifest written after such a failure covers in every case:
      an entry below it stays, or all that collides is below it. */
  ghost predicate AlwaysCovered(m: Manifest, colliding: set<Path>, d: Path) {
    || (exists r :: r in m && r !in colliding && Strictly(d, r))
    || (forall r :: r in colliding ==> Strictly(d, r))
  }

  ghost predicate AllCovered(job: Job, m: Manifest, t: Tree) {
    forall d :: d in t && t[d].Dir? && AtOrBelowPlan(job, d) ==> AlwaysCovered(m, CollidingSet(job, m), d)
  }

  lemma CoveredAfter(m: Manifest, colliding: set<Path>, deleted: set<Path>, d: Path)
    requires AlwaysCovered(m, colliding, d) && deleted < colliding && colliding <= m.Keys
    ensures exists r :: r in m - deleted && Strictly(d, r)
  {
    if r :| r in m && r !in colliding && Strictly(d, r) {
      assert r in m - deleted;
    } else {
      var c :| c in colliding && c !in deleted;
      assert c in m - deleted && Strictly(d, c);
    }
  }

  lemma CoveredKeepsRoom(job: Job, m: Manifest, t: Tree, deleted: set<Path>, t': Tree)
    requires Roomy(job, m, t) && PartlyCleared(CollidingSet(job, m), t, deleted, t')
    requires AllCovered(job, m, t)
    ensures Roomy(job, m - deleted, t')
  {
    forall d | d in t' && t'[d].Dir? && AtOrBelowPlan(job, d) ensures exists r :: r in m - deleted && Strictly(d, r) {
      CoveredAfter(m, CollidingSet(job, m), deleted, d);
    }
  }
}
