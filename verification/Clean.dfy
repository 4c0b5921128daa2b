/** Listing everything below the target, level by level (listRemoteContents). */
module RemoteScan {
  import opened Options
  import opened RemoteTree
  import opened PathLists
  import opened SyncPhases

  predicate ChildOf(t: Tree, d: Path, k: Path) {
    k in t && k != [] && Parent(k) == d
  }

  /** Entries of `d`, each once; with `all`, all of them. */
  ghost predicate Entries(t: Tree, d: Path, entries: seq<Path>, all: bool) {
    && Distinct(entries)
    && (forall k :: k in entries ==> ChildOf(t, d, k))
    && (all ==> forall k :: ChildOf(t, d, k) ==> k in entries)
  }

  /** Lists one directory. One that is not there has nothing to list; that it is
      not there is certain on a candid server only. */
  method ReadDir(s: Server, d: Path) returns (ok: bool, entries: seq<Path>)
    requires s.Valid()
    modifies s`tree, s`trace
    ensures s.Valid() && s.tree == old(s.tree) && old(s.trace) <= s.trace
    ensures forall j :: |old(s.trace)| <= j < |s.trace| ==> s.trace[j] == s.tree
    ensures ok ==> Entries(s.tree, d, entries, s.candid)
    ensures s.reliable ==> ok
  {
    var lives: nat := *;
    var r := s.Execute(Stat(d));
    while r.Lost? && lives > 0
      invariant s.Valid() && s.tree == old(s.tree) && old(s.trace) <= s.trace
      invariant forall j :: |old(s.trace)| <= j < |s.trace| ==> s.trace[j] == s.tree
      invariant s.reliable ==> r.Ok? || r.NotExist?
      invariant s.candid && !r.Ok? && !r.Lost? && !r.Denied? ==> d != [] && d !in s.tree
    {
      lives := lives - 1;
      r := s.Execute(Stat(d));
    }
    ok := !r.Lost? && !r.Denied?;
    entries := [];
    if r.Ok? {
      entries := Children(s.tree, d);
    }
  }

  /** The entries of one directory, in any order. */
  method Children(t: Tree, d: Path) returns (entries: seq<Path>)
    ensures Entries(t, d, entries, true)
  {
    entries := [];
    var keys := t.Keys;
    while keys != {}
      invariant keys <= t.Keys && Distinct(entries)
      invariant forall k :: k in entries <==> ChildOf(t, d, k) && k !in keys
      decreases keys
    {
      var k :| k in keys;
      keys := keys - {k};
      if k != [] && Parent(k) == d {
        entries := entries + [k];
      }
    }
  }

  /** What is known after the levels above `n` were listed; with `all`, nothing
      was missed. */
  ghost predicate Scanned(t: Tree, n: nat, files: seq<Path>, dirs: seq<Path>, all: bool) {
    && Distinct(files) && Distinct(dirs) && ParentsFirst(dirs)
    && (forall k :: k in files ==> k in t && t[k].File? && |k| <= n)
    && (forall k :: k in dirs ==> k in t && t[k].Dir? && |k| <= n)
    && (all ==> forall k :: k in t && |k| <= n ==> if t[k].File? then k in files else k in dirs)
  }

  ghost predicate ParentsFirst(dirs: seq<Path>) {
    forall i, j :: 0 <= i < j < |dirs| ==> |dirs[i]| <= |dirs[j]|
  }

  /** `level` is directories at depth `n`; the target itself is depth 0. */
  ghost predicate IsLevel(t: Tree, n: nat, level: seq<Path>, all: bool) {
    && Distinct(level)
    && (forall d :: d in level ==> |d| == n && IsDir(t, d))
    && (all ==> forall d :: |d| == n && IsDir(t, d) ==> d in level)
  }

  /** What a level has added once its first `i` directories were listed. */
  ghost predicate LevelScanned(t: Tree, level: seq<Path>, i: nat, files: seq<Path>, dirs: seq<Path>, all: bool)
    requires i <= |level|
  {
    && Distinct(files) && Distinct(dirs)
    && (forall k :: k in files ==> k in t && t[k].File? && k != [] && Parent(k) in level[..i])
    && (forall k :: k in dirs ==> k in t && t[k].Dir? && k != [] && Parent(k) in level[..i])
    && (all ==> forall k :: k in t && k != [] && Parent(k) in level[..i] ==> if t[k].File? then k in files else k in dirs)
  }

  /** Sorts the entries of one directory into files and directories. */
  method SplitEntries(t: Tree, d: Path, entries: seq<Path>, files0: seq<Path>, dirs0: seq<Path>)
    returns (files: seq<Path>, dirs: seq<Path>)
    requires Entries(t, d, entries, false) && Distinct(files0) && Distinct(dirs0)
    requires forall k :: k in files0 || k in dirs0 ==> !ChildOf(t, d, k)
    ensures Distinct(files) && Distinct(dirs)
    ensures forall k :: k in files <==> k in files0 || (k in entries && ChildOf(t, d, k) && t[k].File?)
    ensures forall k :: k in dirs <==> k in dirs0 || (k in entries && ChildOf(t, d, k) && t[k].Dir?)
  {
    files, dirs := files0, dirs0;
    for i := 0 to |entries|
      invariant Distinct(files) && Distinct(dirs)
      invariant forall k :: k in files <==> k in files0 || (k in entries[..i] && ChildOf(t, d, k) && t[k].File?)
      invariant forall k :: k in dirs <==> k in dirs0 || (k in entries[..i] && ChildOf(t, d, k) && t[k].Dir?)
    {
      var e := entries[i];
      assert e in entries && e !in entries[..i];
      assert entries[..i + 1] == entries[..i] + [e];
      if t[e].Dir? {
        dirs := dirs + [e];
      } else {
        files := files + [e];
      }
    }
    assert entries[..|entries|] == entries;
  }

  /** Lists every directory of one level. */
  method ScanLevel(s: Server, level: seq<Path>) returns (ok: bool, files: seq<Path>, dirs: seq<Path>)
    requires s.Valid() && Distinct(level)
    modifies s`tree, s`trace
    ensures s.Valid() && s.tree == old(s.tree) && old(s.trace) <= s.trace
    ensures forall j :: |old(s.trace)| <= j < |s.trace| ==> s.trace[j] == s.tree
    ensures ok ==> LevelScanned(s.tree, level, |level|, files, dirs, s.candid)
    ensures s.reliable ==> ok
  {
    ok, files, dirs := true, [], [];
    for i := 0 to |level|
      invariant s.Valid() && s.tree == old(s.tree) && old(s.trace) <= s.trace
      invariant forall j :: |old(s.trace)| <= j < |s.trace| ==> s.trace[j] == s.tree
      invariant LevelScanned(s.tree, level, i, files, dirs, s.candid)
    {
      var entries;
      ok, entries := ReadDir(s, level[i]);
      if !ok {
        return false, [], [];
      }
      assert level[i] !in level[..i] && level[..i + 1] == level[..i] + [level[i]];
      files, dirs := SplitEntries(s.tree, level[i], entries, files, dirs);
    }
  }

  lemma NextLevel(t: Tree, n: nat, level: seq<Path>, files1: seq<Path>, dirs1: seq<Path>, all: bool)
    requires WellFormed(t) && IsLevel(t, n, level, all) && LevelScanned(t, level, |level|, files1, dirs1, all)
    ensures IsLevel(t, n + 1, dirs1, all)
    ensures forall k :: k in files1 ==> |k| == n + 1
    ensures all ==> forall k :: k in t && |k| == n + 1 ==> if t[k].File? then k in files1 else k in dirs1
  {
    assert level[..|level|] == level;
    forall k | all && k in t && |k| == n + 1 ensures if t[k].File? then k in files1 else k in dirs1 {
      assert IsDir(t, Parent(k)) && Parent(k) in level;
    }
  }

  lemma LevelDone(t: Tree, n: nat, level: seq<Path>, files: seq<Path>, dirs: seq<Path>, files1: seq<Path>, dirs1: seq<Path>, all: bool)
    requires WellFormed(t) && IsLevel(t, n, level, all) && Scanned(t, n, files, dirs, all)
    requires LevelScanned(t, level, |level|, files1, dirs1, all)
    ensures Scanned(t, n + 1, files + files1, dirs + dirs1, all) && IsLevel(t, n + 1, dirs1, all)
  {
    NextLevel(t, n, level, files1, dirs1, all);
    DistinctSum(files, files1);
    DistinctSum(dirs, dirs1);
    LaterIsDeeper(dirs, dirs1, n);
  }

  lemma DistinctSum(a: seq<Path>, b: seq<Path>)
    requires Distinct(a) && Distinct(b) && forall k :: k in a ==> k !in b
    ensures Distinct(a + b)
  {
    forall i, j | 0 <= i < j < |a + b| ensures (a + b)[i] != (a + b)[j] {
      if i < |a| <= j {
        assert (a + b)[i] in a && (a + b)[j] in b;
      }
    }
  }

  lemma LaterIsDeeper(dirs: seq<Path>, dirs1: seq<Path>, n: nat)
    requires ParentsFirst(dirs) && (forall k :: k in dirs ==> |k| <= n) && forall k :: k in dirs1 ==> |k| == n + 1
    ensures ParentsFirst(dirs + dirs1)
  {
    forall i, j | 0 <= i < j < |dirs + dirs1| ensures |(dirs + dirs1)[i]| <= |(dirs + dirs1)[j]| {
      if j < |dirs| {
        assert (dirs + dirs1)[i] == dirs[i] && (dirs + dirs1)[j] == dirs[j];
      } else {
        assert (dirs + dirs1)[j] in dirs1;
        assert i < |dirs| ==> (dirs + dirs1)[i] in dirs;
        assert i >= |dirs| ==> (dirs + dirs1)[i] in dirs1;
      }
    }
  }

  /** A listing: descendants, each once, parents before children. */
  ghost predicate Listed(t: Tree, files: seq<Path>, dirs: seq<Path>) {
    && Distinct(files) && Distinct(dirs) && ParentsFirst(dirs)
    && (forall k :: k in files ==> k in t && t[k].File?)
    && (forall k :: k in dirs ==> k in t && t[k].Dir?)
  }

  /** A complete one: every descendant. */
  ghost predicate Complete(t: Tree, files: seq<Path>, dirs: seq<Path>) {
    && Listed(t, files, dirs)
    && (forall k :: k in t ==> if t[k].File? then k in files else k in dirs)
  }

  /** It is as long as the tree has entries. */
  lemma CompleteSize(t: Tree, files: seq<Path>, dirs: seq<Path>)
    requires Complete(t, files, dirs)
    ensures |files| + |dirs| == |t|
  {
    DistinctSum(files, dirs);
    DistinctSize(files + dirs, t.Keys);
  }

  lemma {:induction false} DeeperIsEmpty(t: Tree, n: nat, k: Path)
    requires WellFormed(t) && k in t && |k| > n && forall d :: IsDir(t, d) ==> |d| != n
    ensures false
    decreases |k|
  {
    var p := Parent(k);
    assert IsDir(t, p);
    if |p| > n {
      DeeperIsEmpty(t, n, p);
    }
  }

  /** Lists the remote tree. A listing that succeeds names nothing twice and
      nothing that is not there; on a candid server it is complete. */
  method ListRemoteContents(s: Server) returns (ok: bool, files: seq<Path>, dirs: seq<Path>)
    requires s.Valid()
    modifies s`tree, s`trace
    ensures s.Valid() && s.tree == old(s.tree) && old(s.trace) <= s.trace
    ensures forall j :: |old(s.trace)| <= j < |s.trace| ==> s.trace[j] == s.tree
    ensures ok ==> Listed(s.tree, files, dirs) && (s.candid ==> Complete(s.tree, files, dirs))
    ensures s.reliable ==> ok
  {
    ghost var bound := LengthBound(s.tree.Keys);
    var level: seq<Path> := [[]];
    ghost var n: nat := 0;
    ok, files, dirs := true, [], [];
    while |level| > 0
      invariant s.Valid() && s.tree == old(s.tree) && old(s.trace) <= s.trace
      invariant forall j :: |old(s.trace)| <= j < |s.trace| ==> s.trace[j] == s.tree
      invariant IsLevel(s.tree, n, level, s.candid) && Scanned(s.tree, n, files, dirs, s.candid)
      decreases bound + 1 - n
    {
      assert level[0] in level;
      var levelFiles, next;
      ok, levelFiles, next := ScanLevel(s, level);
      if !ok {
        return false, [], [];
      }
      LevelDone(s.tree, n, level, files, dirs, levelFiles, next, s.candid);
      files, dirs := files + levelFiles, dirs + next;
      level, n := next, n + 1;
    }
    if s.candid {
      NothingDeeper(s.tree, n, level);
    }
  }

  lemma NothingDeeper(t: Tree, n: nat, level: seq<Path>)
    requires WellFormed(t) && IsLevel(t, n, level, true) && level == []
    ensures forall k :: k in t ==> |k| <= n
  {
    forall k | k in t ensures |k| <= n {
      if |k| > n {
        DeeperIsEmpty(t, n, k);
      }
    }
  }
}

/** The clean and overlay modes (executeOverlayOrClean). */
module Clean {
  import opened Options
  import opened RemoteTree
  import opened Publish
  import opened WorkerPool
  import opened TempNames
  import opened PathLists
  import opened DeleteBudgets
  import opened DirRemoval
  import opened SyncJob
  import opened SyncPhases
  import opened SyncManifest
  import opened SyncRoom
  import opened SyncFrame
  import opened SyncSteps
  import opened SyncDeliver
  import opened RemoteScan
  import opened Confinement

  datatype Outcome = Deployed | RootRefused | ScanFailed | OverBudget | DeleteFailed | UploadFailed

  function DropTasksAt(keys: seq<Path>): (tasks: seq<Task>)
    ensures |tasks| == |keys|
  {
    seq(|keys|, i requires 0 <= i < |keys| => Drop(keys[i]))
  }

  function Count(done: seq<bool>): (n: nat)
    ensures n <= |done|
  {
    if done == [] then 0 else (if done[0] then 1 else 0) + Count(done[1..])
  }

  lemma {:induction false} AllCounted(done: seq<bool>)
    ensures (forall i :: 0 <= i < |done| ==> done[i]) ==> Count(done) == |done|
  {
    if done != [] && forall i :: 0 <= i < |done| ==> done[i] {
      AllCounted(done[1..]);
    }
  }

  /** Deletes the listed files through the pool. */
  method DropListed(s: Server, files: seq<Path>) returns (deleted: nat, ok: bool)
    requires s.Valid() && Distinct(files)
    modifies s`tree, s`trace
    ensures s.Valid() && old(s.trace) <= s.trace
    ensures forall k :: k !in files ==> Same(old(s.tree), s.tree, k)
    ensures ok && s.candid ==> forall k :: k in files ==> k !in s.tree
    ensures deleted <= |files| && (ok ==> deleted == |files|)
    ensures s.reliable && (forall k :: k in files && k in old(s.tree) ==> old(s.tree)[k].File?) ==> ok
    ensures OnlyGone(old(s.tree), s.tree)
  {
    ghost var t := s.tree;
    var tasks := DropTasksAt(files);
    var done;
    done, ok := RunPool(s, tasks);
    deleted := Count(done);
    AllCounted(done);
    forall k | k !in files ensures Same(t, s.tree, k) {
      assert !OwnedBySome(s.ext, tasks, k);
    }
    assert forall i :: 0 <= i < |files| ==> tasks[i] == Drop(files[i]) && (s.candid && done[i] ==> Achieved(tasks[i], s.tree));
    DroppedOnly(s.ext, files, t, s.tree);
  }

  /** No file is new, and none has other contents. */
  ghost predicate OnlyGone(t0: Tree, t: Tree) {
    forall k :: FileAt(t, k) in {None, FileAt(t0, k)}
  }

  lemma DroppedOnly(ext: bool, files: seq<Path>, t0: Tree, t: Tree)
    requires PoolFrame(ext, DropTasksAt(files), t0, t)
    ensures OnlyGone(t0, t)
  {
    var tasks := DropTasksAt(files);
    forall k | k in t ensures Same(t0, t, k) {
      if OwnedBySome(ext, tasks, k) {
        var i :| 0 <= i < |tasks| && Owned(ext, tasks[i], k);
        assert Steady(ext, tasks[i], t0, t);
      }
    }
  }

  /** So the manifest is the one that was there, or gone. */
  lemma ManifestStaysOrGoes(job: Job, t0: Tree, t: Tree)
    requires OnlyGone(t0, t)
    ensures ManifestAt(job, t) == ManifestAt(job, t0) || ManifestAt(job, t) == map[]
  {
  }

  lemma WipedIsEmpty(t0: Tree, t1: Tree, t2: Tree, files: seq<Path>, dirs: seq<Path>)
    requires WellFormed(t0) && Complete(t0, files, dirs) && OnlyDirsGone(t1, t2, dirs)
    requires (forall k :: k in files ==> k !in t1) && forall k :: k !in files ==> Same(t0, t1, k)
    ensures Closed(dirs, t1)
    ensures forall k :: FileAt(t2, k) == None
    ensures (forall d | d in dirs :: d !in t2) ==> t2 == map[]
    ensures |t1| == |dirs|
  {
    assert t1.Keys == set d | d in dirs;
    DistinctSize(dirs, t1.Keys);
    assert forall k :: k in t1 ==> k in t0 && t1[k] == t0[k] && t1[k].Dir?;
    assert forall k :: k in t2 ==> k in t1 && k in dirs;
  }

  /**
  Removes everything below the target: all of it is charged first, then the
  files go, then the directories, deepest first. A wipe that succeeds leaves no
  file on a candid server, and nothing at all on a reliable one, where it succeeds
  when the budget has room for everything that is there.
  */
  method Wipe(s: Server, budget: DeleteBudget) returns (outcome: Outcome, files: nat, dirs: nat)
    requires s.Valid() && budget.Valid()
    modifies s`tree, s`trace, budget
    ensures s.Valid() && budget.Valid() && old(s.trace) <= s.trace
    ensures budget.spent >= old(budget.spent) + files + dirs
    ensures outcome in {Deployed, ScanFailed, OverBudget, DeleteFailed}
    ensures outcome in {ScanFailed, OverBudget} ==>
              s.tree == old(s.tree) && files == dirs == 0 && budget.spent == old(budget.spent)
    ensures outcome.Deployed? && s.reliable ==>
              files + dirs == |old(s.tree)| && budget.spent == old(budget.spent) + |old(s.tree)|
    ensures outcome.Deployed? && s.candid ==> forall k :: FileAt(s.tree, k) == None
    ensures s.reliable && old(budget.Affords(|s.tree|)) ==> outcome.Deployed?
    ensures s.reliable && outcome.Deployed? ==> s.tree == map[]
    ensures OnlyGone(old(s.tree), s.tree)
  {
    ghost var t0 := s.tree;
    files, dirs := 0, 0;
    var ok, listed, below := ListRemoteContents(s);
    if !ok {
      return ScanFailed, 0, 0;
    }
    if s.candid {
      CompleteSize(t0, listed, below);
    }
    ok := budget.Reserve(|listed| + |below|);
    if !ok {
      return OverBudget, 0, 0;
    }
    files, dirs, ok := RemoveListed(s, listed, below);
    outcome := if ok then Deployed else DeleteFailed;
  }

  /** Removes what was listed: the files, then the directories. */
  method RemoveListed(s: Server, listed: seq<Path>, below: seq<Path>) returns (files: nat, dirs: nat, ok: bool)
    requires s.Valid() && Listed(s.tree, listed, below) && (s.candid ==> Complete(s.tree, listed, below))
    modifies s`tree, s`trace
    ensures s.Valid() && old(s.trace) <= s.trace && files + dirs <= |listed| + |below|
    ensures s.candid && ok ==> forall k :: FileAt(s.tree, k) == None
    ensures s.reliable ==> ok && s.tree == map[] && files + dirs == |listed| + |below|
    ensures OnlyGone(old(s.tree), s.tree)
  {
    ghost var t0 := s.tree;
    dirs := 0;
    files, ok := DropListed(s, listed);
    if !ok {
      return;
    }
    ghost var t1 := s.tree;
    dirs := RemoveRemoteDirs(s, below, null);
    if s.candid {
      WipedIsEmpty(t0, t1, s.tree, listed, below);
    }
    OnlyDirsGoneFiles(t1, s.tree, below);
  }

  ghost predicate AllPlanned(job: Job, t: Tree) {
    forall p :: p in job.local ==> Holds(job, t, p)
  }

  /** What an upload of the whole plan leaves on a server that held no file: the
      plan's files, and nothing but temporary files beside them. */
  lemma OnlyThePlan(job: Job, ext: bool, upload: seq<Path>, t1: Tree, t2: Tree)
    requires Sound(job) && WellFormed(t2) && AllPlanned(job, t2) && forall p :: p in upload ==> p in job.local
    requires forall k :: FileAt(t1, k) == None
    requires forall k :: !TempKey(job.id, k) && !UploadArea(job, ext, upload, k) ==> FileAt(t2, k) == FileAt(t1, k)
    ensures forall k :: FileAt(t2, k) != None ==> PlannedKey(job, k) || TempKey(job.id, k)
  {
    forall k | FileAt(t2, k) != None ensures PlannedKey(job, k) || TempKey(job.id, k) {
      if UploadArea(job, ext, upload, k) {
        var p :| p in upload && if ext then k == Key(job, p) else Key(job, p) <= k;
        assert Holds(job, t2, p);
        NothingBelow(t2, Key(job, p), k);
      }
    }
  }

  /** On a reliable server the temporary files are gone too. */
  lemma NothingElse(job: Job, ext: bool, upload: seq<Path>, t1: Tree, t2: Tree)
    requires Sound(job) && WellFormed(t2) && AllPlanned(job, t2) && forall p :: p in upload ==> p in job.local
    requires (forall k :: FileAt(t1, k) == None) && PoolFrame(ext, UploadTasks(job, upload), t1, t2)
    requires forall i :: 0 <= i < |upload| ==> TempsGone(ext, UploadTasks(job, upload)[i], t2)
    ensures forall k :: FileAt(t2, k) != None ==> PlannedKey(job, k)
  {
    var tasks := UploadTasks(job, upload);
    forall k | FileAt(t2, k) != None ensures PlannedKey(job, k) {
      assert FileAt(t1, k) == None;
      assert !OwnedBySome(ext, tasks, k) ==> Same(t1, t2, k);
      if OwnedBySome(ext, tasks, k) {
        var i :| 0 <= i < |tasks| && Owned(ext, tasks[i], k);
        var p := upload[i];
        assert p in upload && Holds(job, t2, p);
        KeySplit(job.id, p);
        assert tasks[i].slots.final == Key(job, p);
        OwnedIsFinal(ext, tasks[i], t2, k);
      }
    }
  }

  lemma OwnedIsFinal(ext: bool, task: Task, t: Tree, k: Path)
    requires task.Upload? && WellFormed(t) && Owned(ext, task, k) && TempsGone(ext, task, t) && k in t
    requires FileAt(t, task.slots.final) != None
    requires task.slots.final != [] && task.slots.tmp != [] && task.slots.backup != []
    ensures k == task.slots.final
  {
    var n := task.slots;
    NothingBelow(t, n.final, k);
    NothingBelow(t, n.tmp, k);
    if !ext {
      NothingBelow(t, n.backup, k);
    }
  }

  /** Uploads the whole plan onto whatever is there. */
  method UploadPlan(s: Server, job: Job) returns (ok: bool)
    requires s.Valid() && Sound(job)
    modifies s`tree, s`trace
    ensures s.Valid() && old(s.trace) <= s.trace
    ensures ok ==> AllPlanned(job, s.tree)
    ensures forall j :: |old(s.trace)| <= j < |s.trace| ==> DataFrame(job, s.ext, map[], old(s.tree), s.trace[j])
    ensures ManifestAt(job, s.tree) == ManifestAt(job, old(s.tree)) && DataFrame(job, s.ext, map[], old(s.tree), s.tree)
    ensures ok && (forall k :: FileAt(old(s.tree), k) == None) ==>
              forall k :: FileAt(s.tree, k) != None ==> PlannedKey(job, k) || TempKey(job.id, k)
    ensures s.reliable && old(s.tree) == map[] ==>
              ok && forall k :: FileAt(s.tree, k) != None ==> PlannedKey(job, k)
  {
    ghost var t := s.tree;
    assert SoundManifest(job, map[]);
    ok := Prepare(s, job, map[], job.files, false, t);
    ghost var t1 := s.tree;
    ManifestUnchanged(job, s.ext, map[], t, t1);
    if !ok {
      return;
    }
    ghost var easy := s.reliable && t == map[];
    if easy {
      FreshUploadsReady(job, job.files, t1);
    }
    var done;
    done, ok := UploadAll(s, job, map[], job.files, t);
    ManifestUnchanged(job, s.ext, map[], t, s.tree);
    if ok {
      AfterUpload(job, s.ext, t, t1, s.tree, done);
    }
    if easy {
      assert forall k :: FileAt(t1, k) == None;
      NothingElse(job, s.ext, job.files, t1, s.tree);
    }
  }

  lemma AfterUpload(job: Job, ext: bool, t: Tree, t1: Tree, t2: Tree, done: seq<bool>)
    requires Sound(job) && WellFormed(t2) && |done| == |job.files| && forall i :: 0 <= i < |done| ==> done[i]
    requires forall i :: 0 <= i < |job.files| && done[i] && job.files[i] in job.local ==> Holds(job, t2, job.files[i])
    requires forall k :: !TempKey(job.id, k) ==> FileAt(t1, k) == FileAt(t, k)
    requires forall k :: !TempKey(job.id, k) && !UploadArea(job, ext, job.files, k) ==> Same(t1, t2, k)
    ensures AllPlanned(job, t2)
    ensures (forall k :: FileAt(t, k) == None) ==>
              forall k :: FileAt(t2, k) != None ==> PlannedKey(job, k) || TempKey(job.id, k)
  {
    forall p | p in job.local ensures Holds(job, t2, p) {
      assert p in job.files;
    }
    if forall k :: FileAt(t, k) == None {
      OnlyThePlan(job, ext, job.files, t, t2);
    }
  }

  /**
  One overlay or clean deployment. A clean that succeeds leaves, on a candid
  server, the plan's files and at most temporary files beside them; on a reliable
  one it leaves exactly the plan's files, and it does succeed when the budget has
  room for everything that is there. An overlay leaves all files alone but the
  planned ones and temporary ones.
  */
  method ExecuteOverlayOrClean(s: Server, job: Job, clean: bool, budget: DeleteBudget, remote: string)
    returns (outcome: Outcome, files: nat, dirs: nat)
    requires s.Valid() && budget.Valid() && Sound(job)
    modifies s`tree, s`trace, budget
    ensures s.Valid() && budget.Valid() && old(s.trace) <= s.trace
    ensures budget.spent >= old(budget.spent) + files + dirs
    ensures outcome in {RootRefused, ScanFailed, OverBudget} ==>
              s.tree == old(s.tree) && files == dirs == 0 && budget.spent == old(budget.spent)
    ensures outcome.RootRefused? <==> clean && !CheckRemoteRoot(remote)
    ensures outcome.Deployed? ==> AllPlanned(job, s.tree)
    ensures outcome.Deployed? && s.reliable && clean ==>
              files + dirs == |old(s.tree)| && budget.spent == old(budget.spent) + |old(s.tree)|
    ensures outcome.Deployed? && clean && s.candid ==>
              forall k :: FileAt(s.tree, k) != None ==> PlannedKey(job, k) || TempKey(job.id, k)
    ensures outcome.Deployed? && clean && s.reliable ==> forall k :: FileAt(s.tree, k) != None ==> PlannedKey(job, k)
    ensures s.reliable && clean && CheckRemoteRoot(remote) && old(budget.Affords(|s.tree|)) ==> outcome.Deployed?
    ensures !clean ==> outcome in {Deployed, UploadFailed} && files == dirs == 0 && budget.spent == old(budget.spent)
    ensures !clean ==> forall j :: |old(s.trace)| <= j < |s.trace| ==> DataFrame(job, s.ext, map[], old(s.tree), s.trace[j])
    ensures !clean ==> DataFrame(job, s.ext, map[], old(s.tree), s.tree)
    ensures ManifestAt(job, s.tree) == ManifestAt(job, old(s.tree)) || (clean && ManifestAt(job, s.tree) == map[])
  {
    ghost var t0 := s.tree;
    outcome, files, dirs := Deployed, 0, 0;
    if clean {
      if !CheckRemoteRoot(remote) {
        return RootRefused, 0, 0;
      }
      outcome, files, dirs := Wipe(s, budget);
      ManifestStaysOrGoes(job, t0, s.tree);
      if !outcome.Deployed? {
        return;
      }
    }
    var ok := UploadPlan(s, job);
    outcome := if ok then Deployed else UploadFailed;
  }
}

/** All deployments of one run (Run). */
module Deployments {
  import opened RemoteTree
  import opened DeleteBudgets
  import opened SyncJob
  import opened Confinement
  import Clean
  import Sync

  datatype Mode = OverlayMode | CleanMode | SyncMode

  /** `server` is the remote tree at the deployment's target, `remote` the target as
      it is written. */
  datatype Deployment = Deployment(server: Server, mode: Mode, job: Job, dirMode: bool, remote: string)

  ghost predicate Startable(d: Deployment, t: Tree) {
    Sound(d.job) && (d.mode.SyncMode? ==> SoundManifest(d.job, ManifestAt(d.job, t)))
  }

  /** What a successful deployment leaves: the planned files as they are locally; a
      sync also the manifest that says so. */
  ghost predicate Landed(d: Deployment, t: Tree) {
    if d.mode.SyncMode? then Sync.UpToDate(d.job, t) else Clean.AllPlanned(d.job, t)
  }

  /** A sync needs a true manifest to land. */
  ghost predicate StartsTrue(d: Deployment, t: Tree) {
    d.mode.SyncMode? ==> Truthful(d.job, t)
  }

  /** No other deployment has its target. */
  ghost predicate Alone(ds: seq<Deployment>, i: nat)
    requires i < |ds|
  {
    forall j :: 0 <= j < |ds| && j != i ==> ds[j].server != ds[i].server
  }

  ghost function Servers(ds: seq<Deployment>): set<Server> {
    set d | d in ds :: d.server
  }

  /** What is at each deployment's target. */
  ghost function Trees(ds: seq<Deployment>): (ts: seq<Tree>)
    reads Servers(ds)
    ensures |ts| == |ds| && forall i :: 0 <= i < |ds| ==> ts[i] == ds[i].server.tree
  {
    seq(|ds|, i requires 0 <= i < |ds| reads Servers(ds) => assert ds[i] in ds; ds[i].server.tree)
  }

  /** A clean whose target is too broad fails and changes nothing. */
  method ExecutePlan(d: Deployment, budget: DeleteBudget) returns (ok: bool, files: nat, dirs: nat)
    requires d.server.Valid() && Startable(d, d.server.tree) && budget.Valid()
    modifies d.server`tree, d.server`trace, budget
    ensures d.server.Valid() && budget.Valid() && budget.spent >= old(budget.spent) + files + dirs
    ensures ok && (d.mode.CleanMode? ==> d.server.reliable) ==> budget.spent == old(budget.spent) + files + dirs
    ensures d.mode.CleanMode? && !CheckRemoteRoot(d.remote) ==>
              !ok && d.server.tree == old(d.server.tree) && budget.spent == old(budget.spent)
    ensures ok && StartsTrue(d, old(d.server.tree)) ==> Landed(d, d.server.tree)
    ensures !d.mode.SyncMode? ==>
              ManifestAt(d.job, d.server.tree) == ManifestAt(d.job, old(d.server.tree)) || ManifestAt(d.job, d.server.tree) == map[]
  {
    if d.mode.SyncMode? {
      var outcome, _, deleted, g, _ := Sync.ExecuteSync(d.server, d.job, budget, d.dirMode, d.remote);
      ok, files, dirs := outcome.Synced?, |deleted|, g;
    } else {
      var outcome, f, g := Clean.ExecuteOverlayOrClean(d.server, d.job, d.mode.CleanMode?, budget, d.remote);
      ok, files, dirs := outcome.Deployed?, f, g;
    }
  }

  /** Two deployments into one target find its manifest at one place. */
  predicate SameManifestKey(a: Job, b: Job) {
    ManifestKey(a) == ManifestKey(b)
  }

  /** Two syncs do not share a target, and what runs before a sync on its target finds
      the manifest where the sync does. */
  ghost predicate Legal(ds: seq<Deployment>) {
    forall i, j :: 0 <= i < j < |ds| && ds[j].mode.SyncMode? && ds[i].server == ds[j].server ==>
      !ds[i].mode.SyncMode? && SameManifestKey(ds[i].job, ds[j].job)
  }

  /** Deployment `i` changed its own target only, and left a sync that follows on it
      the manifest that was there, or none. */
  ghost predicate Changed(ds: seq<Deployment>, i: nat, t: seq<Tree>, t': seq<Tree>)
    requires i < |ds| == |t| == |t'|
  {
    && (forall j :: 0 <= j < |ds| && ds[j].server != ds[i].server ==> t'[j] == t[j])
    && (forall j :: 0 <= j < |ds| && ds[j].server == ds[i].server ==> t[j] == t[i] && t'[j] == t'[i])
    && (!ds[i].mode.SyncMode? ==>
          ManifestAt(ds[i].job, t'[i]) == ManifestAt(ds[i].job, t[i]) || ManifestAt(ds[i].job, t'[i]) == map[])
  }

  /** One deployment of the run. */
  method RunOne(ds: seq<Deployment>, i: nat, budget: DeleteBudget) returns (ok: bool, files: nat, dirs: nat)
    requires i < |ds| && budget.Valid() && (forall d :: d in ds ==> d.server.Valid()) && Startable(ds[i], Trees(ds)[i])
    modifies ds[i].server`tree, ds[i].server`trace, budget
    ensures budget.Valid() && budget.spent >= old(budget.spent) + files + dirs
    ensures ok && (ds[i].mode.CleanMode? ==> ds[i].server.reliable) ==> budget.spent == old(budget.spent) + files + dirs
    ensures forall d :: d in ds ==> d.server.Valid()
    ensures Changed(ds, i, old(Trees(ds)), Trees(ds))
    ensures ok && ds[i].mode.CleanMode? ==> CheckRemoteRoot(ds[i].remote)
    ensures ok && StartsTrue(ds[i], old(Trees(ds))[i]) ==> Landed(ds[i], Trees(ds)[i])
  {
    assert ds[i] in ds;
    ok, files, dirs := ExecutePlan(ds[i], budget);
  }

  ghost predicate CleansReliable(ds: seq<Deployment>) {
    forall d :: d in ds && d.mode.CleanMode? ==> d.server.reliable
  }

  /** How many deployments succeeded, when the run stops at the first that fails. */
  function Succeeded(ok: bool, ran: nat): int {
    if ok then ran else ran - 1
  }

  /**
  The claim on a run that has started `ran` deployments, `t0` being the targets
  before it and `t` now. Every deployment that succeeded and has its target to
  itself has landed, a sync if its manifest was true; a clean that succeeded has an
  accepted target; a target of which no deployment was started is as it was.
  */
  ghost predicate Progress(ds: seq<Deployment>, ran: nat, ok: bool, t0: seq<Tree>, t: seq<Tree>) {
    && ran <= |ds| == |t0| == |t| && (!ok ==> ran > 0)
    && AllLanded(ds, Succeeded(ok, ran), t0, t) && CleansAccepted(ds, Succeeded(ok, ran)) && Untouched(ds, ran, t0, t)
  }

  ghost predicate AllLanded(ds: seq<Deployment>, n: int, t0: seq<Tree>, t: seq<Tree>)
    requires n <= |ds| == |t0| == |t|
  {
    forall j :: 0 <= j < n && Alone(ds, j) && StartsTrue(ds[j], t0[j]) ==> Landed(ds[j], t[j])
  }

  ghost predicate CleansAccepted(ds: seq<Deployment>, n: int)
    requires n <= |ds|
  {
    forall j :: 0 <= j < n && ds[j].mode.CleanMode? ==> CheckRemoteRoot(ds[j].remote)
  }

  ghost predicate Untouched(ds: seq<Deployment>, n: nat, t0: seq<Tree>, t: seq<Tree>)
    requires |ds| == |t0| == |t|
  {
    forall j :: n <= j < |ds| && Alone(ds, j) ==> t[j] == t0[j]
  }

  ghost predicate CanGoOn(ds: seq<Deployment>, ran: nat, t: seq<Tree>)
    requires |t| == |ds|
  {
    forall j :: ran <= j < |ds| ==> Startable(ds[j], t[j])
  }

  lemma ProgressNext(ds: seq<Deployment>, i: nat, j: nat, ok: bool, t0: seq<Tree>, t: seq<Tree>, t': seq<Tree>)
    requires Progress(ds, i, true, t0, t) && j == i + 1 <= |ds| == |t'| && Changed(ds, i, t, t')
    requires ok && StartsTrue(ds[i], t[i]) ==> Landed(ds[i], t'[i])
    requires ok && ds[i].mode.CleanMode? ==> CheckRemoteRoot(ds[i].remote)
    ensures Progress(ds, j, ok, t0, t')
  {
    StayAlone(ds, i, t, t');
    LandedNext(ds, i, if ok then j else i, t0, t, t');
    UntouchedNext(ds, i, j, t0, t, t');
  }

  /** A deployment that has its target to itself does not notice the others. */
  lemma StayAlone(ds: seq<Deployment>, i: nat, t: seq<Tree>, t': seq<Tree>)
    requires i < |ds| == |t| == |t'| && Changed(ds, i, t, t')
    ensures forall k :: 0 <= k < |ds| && k != i && Alone(ds, k) ==> t'[k] == t[k]
  {
    forall k | 0 <= k < |ds| && k != i && Alone(ds, k) ensures t'[k] == t[k] {
      assert ds[i].server != ds[k].server;
    }
  }

  lemma LandedNext(ds: seq<Deployment>, i: nat, n: nat, t0: seq<Tree>, t: seq<Tree>, t': seq<Tree>)
    requires i < |ds| == |t0| == |t| == |t'| && i <= n <= i + 1
    requires AllLanded(ds, i, t0, t) && Untouched(ds, i, t0, t)
    requires forall k :: 0 <= k < |ds| && k != i && Alone(ds, k) ==> t'[k] == t[k]
    requires n > i && StartsTrue(ds[i], t[i]) ==> Landed(ds[i], t'[i])
    ensures AllLanded(ds, n, t0, t')
  {
    forall k | 0 <= k < n && Alone(ds, k) && StartsTrue(ds[k], t0[k]) ensures Landed(ds[k], t'[k]) {
      if k == i {
        assert t[i] == t0[i];
      } else {
        assert t'[k] == t[k];
      }
    }
  }

  lemma UntouchedNext(ds: seq<Deployment>, i: nat, j: nat, t0: seq<Tree>, t: seq<Tree>, t': seq<Tree>)
    requires j == i + 1 <= |ds| == |t0| == |t| == |t'| && Untouched(ds, i, t0, t)
    requires forall k :: 0 <= k < |ds| && k != i && Alone(ds, k) ==> t'[k] == t[k]
    ensures Untouched(ds, j, t0, t')
  {
    forall k | j <= k < |ds| && Alone(ds, k) ensures t'[k] == t0[k] {
      assert t'[k] == t[k];
    }
  }

  lemma CanStillGoOn(ds: seq<Deployment>, i: nat, j: nat, t: seq<Tree>, t': seq<Tree>)
    requires Legal(ds) && j == i + 1 <= |ds| == |t| == |t'| && CanGoOn(ds, i, t) && Changed(ds, i, t, t')
    ensures CanGoOn(ds, j, t')
  {
    forall k | j <= k < |ds| ensures Startable(ds[k], t'[k]) {
      assert Startable(ds[k], t[k]);
      if ds[k].server == ds[i].server && ds[k].mode.SyncMode? {
        assert SameManifestKey(ds[i].job, ds[k].job);
        NextIsStartable(ds[i], ds[k], t[i], t'[i]);
      }
    }
  }

  lemma NextIsStartable(a: Deployment, b: Deployment, t0: Tree, t: Tree)
    requires b.mode.SyncMode? && Startable(b, t0) && SameManifestKey(a.job, b.job)
    requires ManifestAt(a.job, t) == ManifestAt(a.job, t0) || ManifestAt(a.job, t) == map[]
    ensures Startable(b, t)
  {
  }

  /**
  Runs the deployments in order with one budget, stopping at the first that
  fails; `ran` is how many it started. The removals the whole run reports never
  exceed what was charged, and what was charged never exceeds the limit the user
  set; a run that succeeds, with reliable servers behind its cleans, reports exactly
  what was charged. Deployments may share a target, only two syncs may not
  (checkSyncTargets); a clean or an overlay before a sync leaves it the manifest that
  was there, or none.
  */
  method Run(ds: seq<Deployment>, maxDeletes: nat) returns (ok: bool, files: nat, dirs: nat, ghost spent: nat, ghost ran: nat)
    requires (forall d :: d in ds ==> d.server.Valid()) && CanGoOn(ds, 0, Trees(ds)) && Legal(ds)
    modifies Servers(ds)
    ensures files + dirs <= spent
    ensures maxDeletes > 0 ==> spent <= maxDeletes
    ensures ok && CleansReliable(ds) ==> files + dirs == spent
    ensures forall d :: d in ds ==> d.server.Valid()
    ensures Progress(ds, ran, ok, old(Trees(ds)), Trees(ds)) && (ok ==> ran == |ds|)
  {
    var budget := new DeleteBudget(maxDeletes);
    ghost var t0 := Trees(ds);
    ok, files, dirs := true, 0, 0;
    var i := 0;
    while i < |ds| && ok
      invariant 0 <= i <= |ds| && fresh(budget) && budget.Valid() && budget.limit == maxDeletes
      invariant files + dirs <= budget.spent && (ok && CleansReliable(ds) ==> files + dirs == budget.spent)
      invariant forall d :: d in ds ==> d.server.Valid()
      invariant CanGoOn(ds, i, Trees(ds)) && Progress(ds, i, ok, t0, Trees(ds))
    {
      ghost var t := Trees(ds);
      assert ds[i] in ds;
      var f, g;
      ok, f, g := RunOne(ds, i, budget);
      ProgressNext(ds, i, i + 1, ok, t0, t, Trees(ds));
      CanStillGoOn(ds, i, i + 1, t, Trees(ds));
      files, dirs, i := files + f, dirs + g, i + 1;
    }
    spent, ran := budget.spent, i;
  }
}
