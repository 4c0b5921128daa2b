/** The manifest a run writes, after a success and after a failure. */
module SyncManifest {
  import opened Options
  import opened RemoteTree
  import opened Publish
  import opened WorkerPool
  import opened TempNames
  import opened PathLists
  import opened SyncJob

  /** Did transfer of `p` complete? */
  predicate CompletedIn(upload: seq<Path>, completed: seq<bool>, p: Path)
    requires |completed| == |upload|
  {
    exists i :: 0 <= i < |upload| && upload[i] == p && completed[i]
  }

  /** The manifest a partially failed run leaves behind: what did upload gets
      its new entry, what was deleted drops out, the rest keeps its old entry. */
  method MergedManifest(job: Job, old_: Manifest, upload: seq<Path>, completed: seq<bool>, deleted: seq<Path>)
    returns (m: Manifest)
    requires |completed| == |upload| && forall p :: p in upload ==> p in job.local
    ensures forall p :: p in m <==> (p in old_ || CompletedIn(upload, completed, p)) && p !in deleted
    ensures forall p :: p in m ==> m[p] == if CompletedIn(upload, completed, p) then job.local[p] else old_[p]
  {
    m := old_;
    for i := 0 to |upload|
      invariant forall p :: p in m <==> p in old_ || CompletedIn(upload[..i], completed[..i], p)
      invariant forall p :: p in m ==> m[p] == if CompletedIn(upload[..i], completed[..i], p) then job.local[p] else old_[p]
    {
      assert upload[i] in upload;
      CompletedSnoc(upload, completed, i);
      if completed[i] {
        m := m[upload[i] := job.local[upload[i]]];
      }
    }
    assert upload[..|upload|] == upload && completed[..|upload|] == completed;
    ghost var full := m;
    for i := 0 to |deleted|
      invariant forall p :: p in m <==> p in full && p !in deleted[..i]
      invariant forall p :: p in m ==> m[p] == full[p]
    {
      m := m - {deleted[i]};
      assert deleted[..i + 1] == deleted[..i] + [deleted[i]];
    }
    assert deleted[..|deleted|] == deleted;
  }

  lemma CompletedSnoc(upload: seq<Path>, completed: seq<bool>, i: nat)
    requires |completed| == |upload| && i < |upload|
    ensures forall p :: CompletedIn(upload[..i + 1], completed[..i + 1], p) <==>
                        CompletedIn(upload[..i], completed[..i], p) || (p == upload[i] && completed[i])
  {
    var u, c := upload[..i + 1], completed[..i + 1];
    forall p | CompletedIn(upload[..i], completed[..i], p) ensures CompletedIn(u, c, p) {
      var j :| 0 <= j < i && upload[..i][j] == p && completed[..i][j];
      assert u[j] == p && c[j];
    }
    if completed[i] {
      assert u[i] == upload[i] && c[i];
    }
    forall p | CompletedIn(u, c, p) && !(p == upload[i] && completed[i]) ensures CompletedIn(upload[..i], completed[..i], p) {
      var j :| 0 <= j < |u| && u[j] == p && c[j];
      assert upload[..i][j] == p && completed[..i][j];
    }
  }

  /** `files` is the old manifest with the uploaded files' new entries and without
      the deleted ones. */
  ghost predicate IsMerged(job: Job, m: Manifest, uploaded: seq<Path>, deleted: seq<Path>, files: Manifest) {
    && (forall p :: p in files <==> (p in m || p in uploaded) && p !in deleted)
    && (forall p :: p in files && p in uploaded && p in job.local ==> files[p] == job.local[p])
    && (forall p :: p in files && p !in uploaded ==> files[p] == m[p])
  }

  /** The entries whose flag is set. */
  ghost predicate PickedBy(rels: seq<Path>, done: seq<bool>, out: seq<Path>)
    requires |done| == |rels|
  {
    && (forall r :: r in out ==> exists i :: 0 <= i < |rels| && done[i] && rels[i] == r)
    && (forall i :: 0 <= i < |rels| && done[i] ==> rels[i] in out)
  }

  lemma PickedIsCompleted(upload: seq<Path>, completed: seq<bool>, uploaded: seq<Path>)
    requires |completed| == |upload| && PickedBy(upload, completed, uploaded)
    ensures forall p :: p in uploaded <==> CompletedIn(upload, completed, p)
  {
    forall p ensures p in uploaded <==> CompletedIn(upload, completed, p) {
      if CompletedIn(upload, completed, p) {
        var i :| 0 <= i < |upload| && upload[i] == p && completed[i];
      }
    }
  }

  /** Everything this manifest calls current is on the server. */
  ghost predicate Promised(job: Job, m: Manifest, t: Tree) {
    forall p :: Current(job, m, p) ==> Holds(job, t, p)
  }

  lemma MergedPromised(job: Job, old_: Manifest, upload: seq<Path>, completed: seq<bool>, deleted: seq<Path>, m: Manifest, t: Tree)
    requires |completed| == |upload| && (forall p :: p in upload ==> p in job.local) && Promised(job, old_, t)
    requires forall i :: 0 <= i < |upload| && completed[i] && upload[i] in job.local ==> Holds(job, t, upload[i])
    requires forall p :: p in m <==> (p in old_ || CompletedIn(upload, completed, p)) && p !in deleted
    requires forall p :: p in m ==> m[p] == if CompletedIn(upload, completed, p) then job.local[p] else old_[p]
    ensures Promised(job, m, t)
  {
    forall p | Current(job, m, p) ensures Holds(job, t, p) {
      if CompletedIn(upload, completed, p) {
        var i :| 0 <= i < |upload| && upload[i] == p && completed[i];
      } else {
        assert Current(job, old_, p);
      }
    }
  }

  // ---- Writing one file beside its target and publishing it ----

  /** What the target holds during a write: what it held, nothing, or the new
      content; and whatever was parked is one of these too. */
  ghost predicate TargetValue(n: Slots, was: Option<Data>, d: Data, pc: Pc, t: Tree) {
    && FileAt(t, n.final) in {was, None, Some(d)}
    && (pc == Pub(Place(true)) || pc == Pub(Restore) ==> FileAt(t, n.backup) in {was, None, Some(d)})
  }

  lemma TargetValueStep(ext: bool, announced: bool, n: Slots, was: Option<Data>, d: Data, g: Stage, t: Tree, r: Reply, t': Tree)
    requires WellShaped(Upload(n, d)) && (ext ==> announced) && !Finished(g)
    requires LocalInv(ext, Upload(n, d), Pub(g), t) && TargetValue(n, was, d, Pub(g), t)
    requires Step(ext, t, Request(g, n), r, t')
    ensures TargetValue(n, was, d, Pub(Advance(g, r, announced)), t')
  {
    match g
    case TryPosix => assert t' == t || t' == (t - {n.tmp})[n.final := t[n.tmp]];
    case Park => RenameOutcome(ext, n, t, n.final, n.backup, n.tmp, r, t');
    case Place(_) => RenameOutcome(ext, n, t, n.tmp, n.final, n.backup, r, t');
    case Restore => RenameOutcome(ext, n, t, n.backup, n.final, n.tmp, r, t');
    case DropOldBackup => StepFrame(ext, t, Remove(n.backup), r, t', n.final);
    case DropBackup => StepFrame(ext, t, Remove(n.backup), r, t', n.final);
    case AskAbsent => assert t' == t;
  }

  /** None of the three names is a directory. */
  predicate NoDirs(n: Slots, t: Tree) {
    && (n.final in t ==> t[n.final].File?)
    && (n.tmp in t ==> t[n.tmp].File?)
    && (n.backup in t ==> t[n.backup].File?)
  }

  lemma NoDirsStep(ext: bool, n: Slots, g: Stage, t: Tree, r: Reply, t': Tree)
    requires Apart(n) && !Finished(g) && NoDirs(n, t) && Step(ext, t, Request(g, n), r, t')
    ensures NoDirs(n, t')
  {
    match g
    case TryPosix => PosixKeepsNoDirs(ext, n, t, r, t');
    case Park => RenameKeepsNoDirs(ext, n, t, n.final, n.backup, n.tmp, r, t');
    case Place(_) => RenameKeepsNoDirs(ext, n, t, n.tmp, n.final, n.backup, r, t');
    case Restore => RenameKeepsNoDirs(ext, n, t, n.backup, n.final, n.tmp, r, t');
    case DropOldBackup => DropKeepsNoDirs(ext, n, t, r, t');
    case DropBackup => DropKeepsNoDirs(ext, n, t, r, t');
    case AskAbsent => assert t' == t;
  }

  lemma RenameKeepsNoDirs(ext: bool, n: Slots, t: Tree, a: Path, b: Path, c: Path, r: Reply, t': Tree)
    requires Apart(n) && NoDirs(n, t) && Step(ext, t, Rename(a, b), r, t')
    requires (a, b, c) in {(n.final, n.backup, n.tmp), (n.tmp, n.final, n.backup), (n.backup, n.final, n.tmp)}
    ensures NoDirs(n, t')
  {
    RenameOutcome(ext, n, t, a, b, c, r, t');
  }

  lemma PosixKeepsNoDirs(ext: bool, n: Slots, t: Tree, r: Reply, t': Tree)
    requires Apart(n) && NoDirs(n, t) && Step(ext, t, PosixRename(n.tmp, n.final), r, t')
    ensures NoDirs(n, t')
  {
    assert t' == t || t' == (t - {n.tmp})[n.final := t[n.tmp]];
  }

  lemma DropKeepsNoDirs(ext: bool, n: Slots, t: Tree, r: Reply, t': Tree)
    requires Apart(n) && NoDirs(n, t) && Step(ext, t, Remove(n.backup), r, t')
    ensures NoDirs(n, t')
  {
    assert t' == t || t' == t - {n.backup};
  }

  /** A write touches its own names only, leaves the target as it was, missing
      (never with the extension), or new, and makes none of its names a
      directory. */
  ghost predicate WriteFrame(ext: bool, n: Slots, d: Data, t0: Tree, t: Tree) {
    && (forall k :: !Owned(ext, Upload(n, d), k) ==> Same(t0, t, k))
    && FileAt(t, n.final) in {FileAt(t0, n.final), None, Some(d)}
    && (ext && FileAt(t0, n.final) != None ==> FileAt(t, n.final) != None)
    && (NoDirs(n, t0) ==> NoDirs(n, t))
  }

  ghost predicate TurnInv(ext: bool, n: Slots, d: Data, g: Stage, t0: Tree, t: Tree) {
    && WriteFrame(ext, n, d, t0, t)
    && TargetValue(n, FileAt(t0, n.final), d, Pub(g), t)
    && (g.Published? ==> FileAt(t, n.final) == Some(d))
    && (Finished(g) || LocalInv(ext, Upload(n, d), Pub(g), t))
  }

  lemma TurnStep(ext: bool, announced: bool, n: Slots, d: Data, g: Stage, t0: Tree, t: Tree, r: Reply, t': Tree)
    requires WellShaped(Upload(n, d)) && (ext ==> announced) && !Finished(g)
    requires TurnInv(ext, n, d, g, t0, t) && Step(ext, t, Request(g, n), r, t')
    ensures TurnInv(ext, n, d, Advance(g, r, announced), t0, t')
  {
    var task := Upload(n, d);
    assert NextOp(task, Pub(g)) == Request(g, n);
    OwnPublishStep(ext, announced, task, Pub(g), t, r, t');
    OwnStepFrame(ext, task, Pub(g), t, r, t');
    TargetValueStep(ext, announced, n, FileAt(t0, n.final), d, g, t, r, t');
    if NoDirs(n, t) {
      NoDirsStep(ext, n, g, t, r, t');
    }
  }

  lemma TurnThriving(ext: bool, announced: bool, n: Slots, d: Data, g: Stage, t: Tree, r: Reply, t': Tree)
    requires WellShaped(Upload(n, d)) && (ext ==> announced) && !Finished(g) && WellFormed(t)
    requires LocalInv(ext, Upload(n, d), Pub(g), t) && Thriving(ext, Upload(n, d), Pub(g), t)
    requires Step(ext, t, Request(g, n), r, t') && Prompt(ext, t, Request(g, n), r, t')
    ensures var g' := Advance(g, r, announced);
            g'.Published? || (!Finished(g') && Thriving(ext, Upload(n, d), Pub(g'), t'))
  {
    assert NextOp(Upload(n, d), Pub(g)) == Request(g, n);
    ThrivingStep(ext, announced, Upload(n, d), Pub(g), t, r, t');
  }

  lemma AdvanceRank(g: Stage, r: Reply, announced: bool)
    requires !Finished(g)
    ensures var g' := Advance(g, r, announced); Finished(g') || Rank(Pub(g')) < Rank(Pub(g))
  {
  }

  /** One request of the publish. */
  method PublishTurn(s: Server, n: Slots, d: Data, g: Stage, ghost t0: Tree) returns (g': Stage, r: Reply)
    requires s.Valid() && WellShaped(Upload(n, d)) && TurnInv(s.ext, n, d, g, t0, s.tree) && !Finished(g)
    modifies s`tree, s`trace
    ensures s.Valid() && s.trace == old(s.trace) + [s.tree] && TurnInv(s.ext, n, d, g', t0, s.tree)
    ensures Finished(g') || Rank(Pub(g')) < Rank(Pub(g))
    ensures s.reliable && Thriving(s.ext, Upload(n, d), Pub(g), old(s.tree)) ==>
              g'.Published? || (!Finished(g') && Thriving(s.ext, Upload(n, d), Pub(g'), s.tree))
  {
    ghost var t := s.tree;
    r := s.Execute(Request(g, n));
    g' := Advance(g, r, s.announced);
    TurnStep(s.ext, s.announced, n, d, g, t0, t, r, s.tree);
    AdvanceRank(g, r, s.announced);
    if s.reliable && Thriving(s.ext, Upload(n, d), Pub(g), t) {
      TurnThriving(s.ext, s.announced, n, d, g, t, r, s.tree);
    }
  }

  /** Publishes the written temporary file over its target (renameReplace). */
  method RenameReplace(s: Server, n: Slots, d: Data, ghost t0: Tree) returns (ok: bool, lost: bool)
    requires s.Valid() && WellShaped(Upload(n, d)) && WriteFrame(s.ext, n, d, t0, s.tree)
    requires FileAt(s.tree, n.tmp) == Some(d)
    modifies s`tree, s`trace
    ensures s.Valid() && old(s.trace) <= s.trace && WriteFrame(s.ext, n, d, t0, s.tree)
    ensures forall j :: |old(s.trace)| <= j < |s.trace| ==> WriteFrame(s.ext, n, d, t0, s.trace[j])
    ensures ok ==> FileAt(s.tree, n.final) == Some(d)
    ensures s.reliable && Ready(Upload(n, d), old(s.tree)) ==> ok
  {
    ghost var easy := s.reliable && Ready(Upload(n, d), s.tree);
    var g := TryPosix;
    lost := false;
    while !Finished(g)
      invariant s.Valid() && old(s.trace) <= s.trace && TurnInv(s.ext, n, d, g, t0, s.tree)
      invariant forall j :: |old(s.trace)| <= j < |s.trace| ==> WriteFrame(s.ext, n, d, t0, s.trace[j])
      invariant easy ==> g.Published? || (!Finished(g) && Thriving(s.ext, Upload(n, d), Pub(g), s.tree))
      decreases if Finished(g) then 0 else Rank(Pub(g))
    {
      var r;
      g, r := PublishTurn(s, n, d, g, t0);
      lost := lost || r.Lost?;
    }
    ok := g.Published?;
  }

  method WriteOnce(s: Server, n: Slots, d: Data, ghost t0: Tree) returns (ok: bool, lost: bool)
    requires s.Valid() && WellShaped(Upload(n, d)) && WriteFrame(s.ext, n, d, t0, s.tree)
    modifies s`tree, s`trace
    ensures s.Valid() && old(s.trace) <= s.trace && WriteFrame(s.ext, n, d, t0, s.tree)
    ensures forall j :: |old(s.trace)| <= j < |s.trace| ==> WriteFrame(s.ext, n, d, t0, s.trace[j])
    ensures ok ==> FileAt(s.tree, n.final) == Some(d)
    ensures s.reliable && Ready(Upload(n, d), old(s.tree)) ==> ok
  {
    var r := SendOnce(s, n, d, t0);
    lost := r.Lost?;
    ok := r.Ok?;
    if ok {
      ok, lost := RenameReplace(s, n, d, t0);
    }
  }

  /** Writes the temporary file. */
  method SendOnce(s: Server, n: Slots, d: Data, ghost t0: Tree) returns (r: Reply)
    requires s.Valid() && WellShaped(Upload(n, d)) && WriteFrame(s.ext, n, d, t0, s.tree)
    modifies s`tree, s`trace
    ensures s.Valid() && s.trace == old(s.trace) + [s.tree] && WriteFrame(s.ext, n, d, t0, s.tree)
    ensures r.Ok? ==> FileAt(s.tree, n.tmp) == Some(d)
    ensures s.reliable && Ready(Upload(n, d), old(s.tree)) ==> r.Ok? && Ready(Upload(n, d), s.tree)
  {
    ghost var t := s.tree;
    r := s.Execute(Write(n.tmp, d));
    SendKeepsFrame(s.ext, n, d, t0, t, r, s.tree);
  }

  lemma SendKeepsFrame(ext: bool, n: Slots, d: Data, t0: Tree, t: Tree, r: Reply, t': Tree)
    requires WellShaped(Upload(n, d)) && WriteFrame(ext, n, d, t0, t) && Step(ext, t, Write(n.tmp, d), r, t')
    ensures WriteFrame(ext, n, d, t0, t')
  {
    assert NextOp(Upload(n, d), Send) == Write(n.tmp, d);
    OwnStepFrame(ext, Upload(n, d), Send, t, r, t');
    StepFrame(ext, t, Write(n.tmp, d), r, t', n.final);
  }

  /** Writes the manifest beside its target and publishes it; a connection
      failure reruns the whole write while the budget lasts (writeManifest). */
  method WriteManifest(s: Server, n: Slots, d: Data) returns (ok: bool)
    requires s.Valid() && WellShaped(Upload(n, d))
    modifies s`tree, s`trace
    ensures s.Valid() && old(s.trace) <= s.trace && WriteFrame(s.ext, n, d, old(s.tree), s.tree)
    ensures forall j :: |old(s.trace)| <= j < |s.trace| ==> WriteFrame(s.ext, n, d, old(s.tree), s.trace[j])
    ensures ok ==> FileAt(s.tree, n.final) == Some(d)
    ensures s.reliable && Ready(Upload(n, d), old(s.tree)) ==> ok
  {
    ghost var t0 := s.tree;
    var lives: nat := *;
    var lost;
    ok, lost := WriteOnce(s, n, d, t0);
    while !ok && lost && lives > 0
      invariant s.Valid() && old(s.trace) <= s.trace && WriteFrame(s.ext, n, d, t0, s.tree)
      invariant forall j :: |old(s.trace)| <= j < |s.trace| ==> WriteFrame(s.ext, n, d, t0, s.trace[j])
      invariant ok ==> FileAt(s.tree, n.final) == Some(d)
      invariant s.reliable && Ready(Upload(n, d), t0) ==> ok
      decreases lives
    {
      lives := lives - 1;
      ok, lost := WriteOnce(s, n, d, t0);
    }
  }

  // ---- What a manifest write means for the deployment ----

  /** What the three names of the manifest have to be for its write to be no
      concern of anything else. */
  ghost predicate Shaped(job: Job, n: Slots) {
    && n.final == ManifestKey(job) && |n.tmp| == |n.backup| == 1
    && (forall k :: n.tmp <= k || n.backup <= k ==> TempKey(job.id, k))
  }

  lemma ManifestShape(job: Job, d: Data)
    requires Sound(job)
    ensures WellShaped(Upload(ManifestSlots(job), d)) && Shaped(job, ManifestSlots(job))
  {
    TempNamesAreRecognised(job.name, 0);
    var n := Trio(job.id(job.name), job.id(ManifestTemp(job.name)), job.id(Backup(job.name)));
    SlotsShaped([], n, d);
    assert [] + [n.name] == [n.name] && [] + [n.tmp] == [n.tmp] && [] + [n.bak] == [n.bak];
    forall k | [n.tmp] <= k || [n.bak] <= k ensures TempKey(job.id, k) {
      assert k[0] == n.tmp || k[0] == n.bak;
    }
  }

  /** A plain path that is not at or below the manifest. */
  ghost predicate OffManifest(job: Job, p: Path) {
    PlainPath(job.id, p) && !(ManifestKey(job) <= Key(job, p))
  }

  lemma OffTheSlots(job: Job, ext: bool, n: Slots, d: Data, p: Path)
    requires Shaped(job, n) && OffManifest(job, p)
    ensures !Owned(ext, Upload(n, d), Key(job, p))
  {
    PlainIsNotTemp(job, p);
  }

  /** Such a path is no concern of the manifest's write. */
  lemma WriteKeepsPlain(job: Job, ext: bool, n: Slots, d: Data, t0: Tree, t: Tree, p: Path)
    requires Shaped(job, n) && WriteFrame(ext, n, d, t0, t) && OffManifest(job, p)
    ensures Same(t0, t, Key(job, p))
  {
    OffTheSlots(job, ext, n, d, p);
  }

  /** A manifest whose every promise is kept may be written at any moment: each
      step of the write leaves a truthful server. */
  lemma WriteKeepsTruth(job: Job, ext: bool, n: Slots, files: Manifest, t0: Tree, t: Tree)
    requires Shaped(job, n) && WriteFrame(ext, n, Listing(files), t0, t) && forall p :: p in job.local ==> OffManifest(job, p)
    requires Truthful(job, t0) && Promised(job, files, t0)
    ensures Truthful(job, t)
  {
    forall p | Current(job, ManifestAt(job, t), p) ensures Holds(job, t, p) {
      assert Current(job, files, p) || Current(job, ManifestAt(job, t0), p);
      WriteKeepsPlain(job, ext, n, Listing(files), t0, t, p);
    }
  }

  lemma PlanIsOff(job: Job)
    requires Sound(job)
    ensures forall p :: p in job.local ==> OffManifest(job, p)
  {
  }

  lemma ListedIsOff(job: Job, m: Manifest)
    requires SoundManifest(job, m)
    ensures forall p :: p in m ==> OffManifest(job, p)
  {
  }

  /** Merging keeps the entries apart on the server: an old entry that meets an
      uploaded one was deleted. */
  lemma MergedIsSound(job: Job, m: Manifest, uploaded: seq<Path>, deleted: seq<Path>, files: Manifest)
    requires Sound(job) && SoundManifest(job, m) && (forall p :: p in uploaded ==> p in job.local)
    requires IsMerged(job, m, uploaded, deleted, files)
    requires forall r, p :: r in m && r !in job.local && p in uploaded && Key(job, r) == Key(job, p) ==> r in deleted
    ensures SoundManifest(job, files) && forall r :: r in files ==> r in m || r in job.local
  {
    PlanIsOff(job);
    ListedIsOff(job, m);
  }

  lemma LocalIsSound(job: Job)
    requires Sound(job)
    ensures SoundManifest(job, job.local)
  {
  }

  // ---- The three names of the manifest stay free of directories ----

  lemma DropsKeepSlots(job: Job, n: Slots, m: Manifest, rels: seq<Path>, t: Tree, t': Tree)
    requires Shaped(job, n) && SoundManifest(job, m) && NoDirs(n, t) && forall r :: r in rels ==> r in m
    requires forall k :: (forall r :: r in rels ==> k != Key(job, r)) ==> Same(t, t', k)
    ensures NoDirs(n, t')
  {
    ListedIsOff(job, m);
    forall r | r in rels ensures Key(job, r) != n.final && Key(job, r) != n.tmp && Key(job, r) != n.backup {
      PlainIsNotTemp(job, r);
    }
    assert Same(t, t', n.final) && Same(t, t', n.tmp) && Same(t, t', n.backup);
  }

  lemma SmallerKeepsSlots(n: Slots, t: Tree, t': Tree)
    requires NoDirs(n, t) && forall k :: k in t' ==> k in t && t'[k] == t[k]
    ensures NoDirs(n, t')
  {
  }

  /** Nothing at or above a plain path is temp-shaped, or the manifest. */
  lemma AbovePlain(job: Job, k: Path, p: Path)
    requires OffManifest(job, p) && k <= Key(job, p)
    ensures !TempKey(job.id, k) && k != ManifestKey(job)
  {
    forall i, t | 0 <= i < |k| && IsTempFileName(t) ensures k[i] != job.id(t) {
      assert Key(job, p)[i] == k[i];
      KeyNames(job, p, i, t);
    }
  }

  // ---- An empty directory is left empty, and no other one becomes empty ----

  ghost predicate EmptyDir(t: Tree, k: Path) {
    k in t && t[k].Dir? && Vacant(t, k)
  }

  lemma WriteEmptiesNothing(job: Job, ext: bool, n: Slots, d: Data, t: Tree, t': Tree, k: Path, r: Path)
    requires Shaped(job, n) && WriteFrame(ext, n, d, t, t') && OffManifest(job, r) && k <= Key(job, r) && k != []
    requires EmptyDir(t', k)
    ensures EmptyDir(t, k)
  {
    forall x | k <= x ensures Same(t, t', x) {
      NotInSlots(job, n, k, r, x);
      assert !Owned(ext, Upload(n, d), x);
    }
    forall x | x in t && k <= x ensures x == k {
      assert Same(t, t', x) && x in t';
    }
    assert Same(t, t', k);
  }

  lemma NotInSlots(job: Job, n: Slots, k: Path, r: Path, x: Path)
    requires Shaped(job, n) && OffManifest(job, r) && k <= Key(job, r) && k != [] && k <= x
    ensures !(n.final <= x) && !(n.tmp <= x) && !(n.backup <= x)
  {
    AbovePlain(job, k, r);
    assert k[0] == Key(job, r)[0] == x[0];
    assert n.tmp <= x ==> n.tmp <= k;
    assert n.backup <= x ==> n.backup <= k;
    assert n.final <= x ==> n.final <= Key(job, r);
  }
}
