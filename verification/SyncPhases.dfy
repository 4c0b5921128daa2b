/** The phases of one sync run, each with what it leaves alone. */
module SyncPhases {
  import opened Options
  import opened RemoteTree
  import opened Publish
  import opened WorkerPool
  import opened TempNames
  import opened PathLists
  import opened DeleteBudgets
  import opened DirRemoval
  import opened ByteOrder
  import opened Collide
  import opened SyncJob

  /** Every tree the run went through since the trace was `tr0` keeps the frame. */
  ghost predicate Kept(job: Job, ext: bool, m: Manifest, t0: Tree, tr0: seq<Tree>, tr: seq<Tree>) {
    && tr0 <= tr
    && forall j {:trigger DataFrame(job, ext, m, t0, tr[j])} :: |tr0| <= j < |tr| ==> DataFrame(job, ext, m, t0, tr[j])
  }

  lemma KeptThen(job: Job, ext: bool, m: Manifest, t0: Tree, tr0: seq<Tree>, tr1: seq<Tree>, tr2: seq<Tree>)
    requires Kept(job, ext, m, t0, tr0, tr1) && Kept(job, ext, m, t0, tr1, tr2)
    ensures Kept(job, ext, m, t0, tr0, tr2)
  {
    forall j | |tr0| <= j < |tr2| ensures DataFrame(job, ext, m, t0, tr2[j]) {
      if j < |tr1| {
        assert DataFrame(job, ext, m, t0, tr1[j]);
      }
    }
  }

  // ---- Deleting and uploading through the pool ----

  lemma DropFrame(job: Job, ext: bool, m: Manifest, rels: seq<Path>, t0: Tree, t: Tree)
    requires forall r :: r in rels ==> Stale(job, m, r)
    requires PoolFrame(ext, DropTasks(job, rels), t0, t)
    ensures DataFrame(job, ext, m, t0, t)
    ensures forall k :: (forall r :: r in rels ==> k != Key(job, r)) ==> Same(t0, t, k)
    ensures forall k :: k in t ==> k in t0 && t[k] == t0[k]
  {
    var tasks := DropTasks(job, rels);
    DropsOnlyRemove(job, ext, rels, t0, t);
    forall k | forall r :: r in rels ==> k != Key(job, r) ensures Same(t0, t, k) {
      assert !OwnedBySome(ext, tasks, k);
    }
    forall k | !MayChange(job, ext, m, k) ensures FileAt(t, k) == FileAt(t0, k) {
      assert forall r :: r in rels ==> k != Key(job, r);
      assert Same(t0, t, k);
    }
    if m == map[] {
      assert forall i :: 0 <= i < |rels| ==> rels[i] in rels;
      forall p | p in job.local && Holds(job, t0, p) ensures Holds(job, t, p) {
        assert !OwnedBySome(ext, tasks, Key(job, p));
        assert Same(t0, t, Key(job, p));
      }
    }
  }

  lemma DropsOnlyRemove(job: Job, ext: bool, rels: seq<Path>, t0: Tree, t: Tree)
    requires PoolFrame(ext, DropTasks(job, rels), t0, t)
    ensures forall k :: k in t ==> k in t0 && t[k] == t0[k]
  {
    var tasks := DropTasks(job, rels);
    forall k | k in t ensures Same(t0, t, k) {
      if OwnedBySome(ext, tasks, k) {
        var i :| 0 <= i < |tasks| && Owned(ext, tasks[i], k);
        assert Steady(ext, tasks[i], t0, t);
      }
    }
  }

  method DropFiles(s: Server, job: Job, m: Manifest, rels: seq<Path>, ghost t0: Tree) returns (done: seq<bool>, ok: bool)
    requires s.Valid() && SoundManifest(job, m) && Distinct(rels)
    requires (forall r :: r in rels ==> Stale(job, m, r)) && DataFrame(job, s.ext, m, t0, s.tree)
    modifies s`tree, s`trace
    ensures s.Valid() && |done| == |rels|
    ensures Kept(job, s.ext, m, t0, old(s.trace), s.trace)
    ensures DataFrame(job, s.ext, m, t0, s.tree)
    ensures forall k :: (forall r :: r in rels ==> k != Key(job, r)) ==> Same(old(s.tree), s.tree, k)
    ensures forall k :: k in s.tree ==> k in old(s.tree) && s.tree[k] == old(s.tree)[k]
    ensures s.candid ==> forall i :: 0 <= i < |rels| && done[i] ==> Key(job, rels[i]) !in s.tree
    ensures ok <==> forall i :: 0 <= i < |rels| ==> done[i]
    ensures s.reliable && (forall r :: r in rels && Key(job, r) in old(s.tree) ==> old(s.tree)[Key(job, r)].File?) ==> ok
  {
    ghost var t, tr := s.tree, s.trace;
    var tasks := DropTasks(job, rels);
    DropsIndependent(job, s.ext, m, rels);
    done, ok := RunPool(s, tasks);
    forall j | |tr| <= j < |s.trace| ensures DataFrame(job, s.ext, m, t0, s.trace[j]) {
      DropFrame(job, s.ext, m, rels, t, s.trace[j]);
      DataFrameTrans(job, s.ext, m, t0, t, s.trace[j]);
    }
    DropFrame(job, s.ext, m, rels, t, s.tree);
    DataFrameTrans(job, s.ext, m, t0, t, s.tree);
    assert s.candid ==> forall i :: 0 <= i < |rels| && done[i] ==> Achieved(tasks[i], s.tree);
  }

  lemma UploadOwned(job: Job, ext: bool, m: Manifest, p: Path, i: nat, d: Data, k: Path)
    requires PlainPath(job.id, p) && p in job.local && !Current(job, m, p)
    requires Owned(ext, Upload(UploadSlots(job.id, p, i), d), k)
    ensures MayChange(job, ext, m, k)
    ensures TempKey(job.id, k) || (if ext then k == Key(job, p) else Key(job, p) <= k)
  {
    var id, P := job.id, KeyOf(job.id, Parent(p));
    KeySplit(id, p);
    assert PlainName(id, p[|p| - 1]);
    TempNamesAreRecognised(Last(p), i);
    TempBelow(id, P, UploadTemp(Last(p), i), k);
    TempBelow(id, P, Backup(Last(p)), k);
  }

  lemma TempBelow(id: string -> string, P: Path, t: string, k: Path)
    requires IsTempFileName(t)
    ensures P + [id(t)] <= k ==> TempKey(id, k)
  {
    if P + [id(t)] <= k {
      assert k[|P|] == (P + [id(t)])[|P|];
    }
  }

  /** The names uploads change beside temporary ones: their targets; without the
      extension also what lies below one. */
  predicate UploadArea(job: Job, ext: bool, upload: seq<Path>, k: Path) {
    exists p :: p in upload && if ext then k == Key(job, p) else Key(job, p) <= k
  }

  /** Uploads bring nothing below a planned file. */
  lemma BelowUploads(job: Job, ext: bool, m: Manifest, upload: seq<Path>, t0: Tree, t: Tree, k: Path)
    requires Sound(job) && forall p :: p in upload ==> p in job.local && !Current(job, m, p)
    requires PoolFrame(ext, UploadTasks(job, upload), t0, t) && BelowPlan(job, k)
    ensures FileAt(t, k) in {None, FileAt(t0, k)}
  {
    var tasks := UploadTasks(job, upload);
    var p :| p in job.local && Strictly(Key(job, p), k);
    if OwnedBySome(ext, tasks, k) {
      var i := OwnerIsTheOne(job, ext, m, upload, p, k);
      KeySplit(job.id, p);
      assert Housed(ext, tasks[i], t0, t) && HousedAt(tasks[i].slots, t0, t, k);
    }
  }

  /** The parked name of a planned file. */
  function BackupKey(job: Job, p: Path): Path
    requires p != []
  {
    KeyOf(job.id, Parent(p)) + [job.id(Backup(Last(p)))]
  }

  /** Where `k`, below the planned file, is once its directory is parked. */
  function ParkedKey(job: Job, p: Path, k: Path): Path
    requires p != [] && |p| <= |k|
  {
    BackupKey(job, p) + k[|p|..]
  }

  /** A file below a planned one is still there, or at the same place below the
      parked name. */
  ghost predicate Rehoused(job: Job, t0: Tree, t: Tree) {
    forall p, k :: p in job.local && p != [] && Strictly(Key(job, p), k) && !TempKey(job.id, k) && FileAt(t0, k) != None ==>
                     FileAt(t0, k) in {FileAt(t, k), FileAt(t, ParkedKey(job, p, k))}
  }

  lemma UploadsRehouse(job: Job, ext: bool, m: Manifest, upload: seq<Path>, t0: Tree, t: Tree)
    requires Sound(job) && forall p :: p in upload ==> p in job.local && !Current(job, m, p)
    requires PoolFrame(ext, UploadTasks(job, upload), t0, t)
    ensures Rehoused(job, t0, t)
  {
    forall p, k | p in job.local && p != [] && Strictly(Key(job, p), k) && !TempKey(job.id, k) && FileAt(t0, k) != None
      ensures FileAt(t0, k) in {FileAt(t, k), FileAt(t, ParkedKey(job, p, k))}
    {
      UploadRehouses(job, ext, m, upload, t0, t, p, k);
    }
  }

  lemma UploadRehouses(job: Job, ext: bool, m: Manifest, upload: seq<Path>, t0: Tree, t: Tree, p: Path, k: Path)
    requires Sound(job) && forall q :: q in upload ==> q in job.local && !Current(job, m, q)
    requires PoolFrame(ext, UploadTasks(job, upload), t0, t)
    requires p in job.local && p != [] && Strictly(Key(job, p), k) && !TempKey(job.id, k) && FileAt(t0, k) != None
    ensures FileAt(t0, k) in {FileAt(t, k), FileAt(t, ParkedKey(job, p, k))}
  {
    var tasks := UploadTasks(job, upload);
    if OwnedBySome(ext, tasks, k) {
      var i := OwnerIsTheOne(job, ext, m, upload, p, k);
      KeySplit(job.id, p);
      assert Housed(ext, tasks[i], t0, t) && HousedAt(tasks[i].slots, t0, t, k);
      assert Beside(tasks[i].slots, k) == ParkedKey(job, p, k);
    }
  }

  /** Only the upload of `p` owns a name below it. */
  lemma OwnerIsTheOne(job: Job, ext: bool, m: Manifest, upload: seq<Path>, p: Path, k: Path) returns (i: nat)
    requires Sound(job) && forall q :: q in upload ==> q in job.local && !Current(job, m, q)
    requires p in job.local && p != [] && Strictly(Key(job, p), k) && !TempKey(job.id, k)
    requires OwnedBySome(ext, UploadTasks(job, upload), k)
    ensures i < |upload| && upload[i] == p && !ext
  {
    var tasks := UploadTasks(job, upload);
    i :| 0 <= i < |tasks| && Owned(ext, tasks[i], k);
    assert upload[i] in upload;
    UploadOwned(job, ext, m, upload[i], i, tasks[i].data, k);
    PrefixesCompare(Key(job, p), Key(job, upload[i]), k);
  }

  lemma UploadFrame(job: Job, ext: bool, m: Manifest, upload: seq<Path>, t0: Tree, t: Tree)
    requires Sound(job) && forall p :: p in upload <==> p in job.local && !Current(job, m, p)
    requires PoolFrame(ext, UploadTasks(job, upload), t0, t)
    ensures DataFrame(job, ext, m, t0, t)
    ensures forall k :: !TempKey(job.id, k) && !UploadArea(job, ext, upload, k) ==> Same(t0, t, k)
  {
    var tasks := UploadTasks(job, upload);
    forall k | OwnedBySome(ext, tasks, k)
      ensures MayChange(job, ext, m, k)
      ensures TempKey(job.id, k) || UploadArea(job, ext, upload, k)
    {
      var i :| 0 <= i < |tasks| && Owned(ext, tasks[i], k);
      assert upload[i] in upload;
      UploadOwned(job, ext, m, upload[i], i, tasks[i].data, k);
    }
    forall k | BelowPlan(job, k) ensures FileAt(t, k) in {None, FileAt(t0, k)} {
      BelowUploads(job, ext, m, upload, t0, t, k);
    }
    if ext && m == map[] {
      forall p | p in job.local && Holds(job, t0, p) ensures Holds(job, t, p) {
        assert p in upload;
        var i :| 0 <= i < |upload| && upload[i] == p;
        assert Steady(ext, tasks[i], t0, t);
        KeySplit(job.id, p);
      }
    }
  }

  method UploadAll(s: Server, job: Job, m: Manifest, upload: seq<Path>, ghost t0: Tree) returns (done: seq<bool>, ok: bool)
    requires s.Valid() && Sound(job) && Distinct(upload) && DataFrame(job, s.ext, m, t0, s.tree)
    requires forall p :: p in upload <==> p in job.local && !Current(job, m, p)
    modifies s`tree, s`trace
    ensures s.Valid() && |done| == |upload|
    ensures Kept(job, s.ext, m, t0, old(s.trace), s.trace)
    ensures DataFrame(job, s.ext, m, t0, s.tree)
    ensures forall k :: !TempKey(job.id, k) && !UploadArea(job, s.ext, upload, k) ==> Same(old(s.tree), s.tree, k)
    ensures forall i :: 0 <= i < |upload| && done[i] && upload[i] in job.local ==> Holds(job, s.tree, upload[i])
    ensures ok <==> forall i :: 0 <= i < |upload| ==> done[i]
    ensures s.reliable && AllReady(UploadTasks(job, upload), old(s.tree)) ==>
              ok && forall i :: 0 <= i < |upload| ==> TempsGone(s.ext, UploadTasks(job, upload)[i], s.tree)
    ensures PoolFrame(s.ext, UploadTasks(job, upload), old(s.tree), s.tree) && Rehoused(job, old(s.tree), s.tree)
    ensures forall k :: BelowPlan(job, k) ==> FileAt(s.tree, k) in {None, FileAt(old(s.tree), k)}
  {
    ghost var t, tr := s.tree, s.trace;
    var tasks := UploadTasks(job, upload);
    assert forall p :: p in upload ==> p in job.local;
    UploadsIndependent(job, s.ext, upload);
    done, ok := RunPool(s, tasks);
    forall j | |tr| <= j < |s.trace| ensures DataFrame(job, s.ext, m, t0, s.trace[j]) {
      UploadFrame(job, s.ext, m, upload, t, s.trace[j]);
      DataFrameTrans(job, s.ext, m, t0, t, s.trace[j]);
    }
    UploadFrame(job, s.ext, m, upload, t, s.tree);
    UploadsRehouse(job, s.ext, m, upload, t, s.tree);
    DataFrameTrans(job, s.ext, m, t0, t, s.tree);
    forall i | 0 <= i < |upload| && done[i] && upload[i] in job.local ensures Holds(job, s.tree, upload[i]) {
      assert Achieved(tasks[i], s.tree);
      KeySplit(job.id, upload[i]);
    }
  }

  // ---- Directories ----

  predicate IsLeaf(dirs: set<Path>, d: Path) {
    d in dirs && forall e | e in dirs :: e == [] || Parent(e) != d
  }

  /** Every directory of the set lies at or above a leaf of it, so creating the
      leaves with their parents creates them all. */
  lemma {:induction false} LeavesCover(dirs: set<Path>, d: Path, bound: nat) returns (leaf: Path)
    requires d in dirs && forall e :: e in dirs ==> |e| <= bound
    ensures IsLeaf(dirs, leaf) && d <= leaf
    decreases bound - |d|
  {
    if IsLeaf(dirs, d) {
      leaf := d;
    } else {
      var e :| e in dirs && e != [] && Parent(e) == d;
      assert |d| < |e|;
      leaf := LeavesCover(dirs, e, bound);
      assert d <= e;
    }
  }

  lemma {:induction false} LengthBound(dirs: set<Path>) returns (n: nat)
    ensures forall e :: e in dirs ==> |e| <= n
    decreases dirs
  {
    if dirs == {} {
      n := 0;
    } else {
      var d :| d in dirs;
      var k := LengthBound(dirs - {d});
      n := if |d| > k then |d| else k;
    }
  }

  ghost predicate DirsAdded(t0: Tree, t: Tree, dirs: set<Path>) {
    && (forall k :: k in t0 ==> k in t && t[k] == t0[k])
    && (forall k :: k in t && k !in t0 ==> t[k].Dir? && exists d :: d in dirs && k <= d)
  }

  /** The members that are the parent of no other one; see leafDirs. */
  method LeafDirs(dirs: set<Path>) returns (leaves: seq<Path>)
    ensures forall d :: d in leaves <==> IsLeaf(dirs, d)
  {
    leaves := [];
    var left := dirs;
    while left != {}
      invariant left <= dirs && forall d :: d in leaves <==> IsLeaf(dirs, d) && d !in left
      decreases left
    {
      var d :| d in left;
      left := left - {d};
      if IsLeaf(dirs, d) {
        leaves := leaves + [d];
      }
    }
  }

  /** A worker that creates one leaf: the first `made` names of it are there;
      `asking` says that the next request looks whether the next one is too. */
  datatype Maker = Maker(made: nat, asking: bool, failed: bool)

  predicate Busy(leaf: Path, w: Maker) {
    !w.failed && w.made < |leaf|
  }

  function Work(leaf: Path, w: Maker): nat {
    if Busy(leaf, w) then 2 * (|leaf| - w.made) - (if w.asking then 1 else 0) else 0
  }

  ghost predicate MakerInv(leaf: Path, w: Maker, t: Tree) {
    w.made <= |leaf| && IsDir(t, leaf[..w.made])
  }

  /** On a reliable server a worker asks only about what is there. */
  ghost predicate Smooth(leaf: Path, w: Maker, t: Tree) {
    !w.failed && (w.asking && w.made < |leaf| ==> IsDir(t, leaf[..w.made + 1]))
  }

  lemma MkdirAdds(ext: bool, t0: Tree, t: Tree, dirs: set<Path>, leaf: Path, dir: Path, r: Reply, t': Tree)
    requires DirsAdded(t0, t, dirs) && leaf in dirs && dir <= leaf && Step(ext, t, Mkdir(dir), r, t')
    ensures DirsAdded(t0, t', dirs) && (r.Ok? ==> IsDir(t', dir))
    ensures forall k :: k in t ==> k in t' && t'[k] == t[k]
  {
    assert t' == t || (dir !in t && t' == t[dir := Dir]);
  }

  /** On a reliable server mkdir fails only where a directory stands already. */
  lemma MkdirFindsDir(ext: bool, t0: Tree, t: Tree, dirs: set<Path>, dir: Path, r: Reply, t': Tree)
    requires DirsAdded(t0, t, dirs) && dir != [] && IsDir(t, Parent(dir)) && FileAt(t0, dir) == None
    requires Step(ext, t, Mkdir(dir), r, t') && Prompt(ext, t, Mkdir(dir), r, t')
    ensures IsDir(t', dir)
  {
    assert dir in t ==> t[dir].Dir?;
  }

  /** One request of a worker: mkdir, and a look at what stands there when that
      fails. A connection failure starts the leaf again while the budget lasts. */
  method MakerTurn(s: Server, leaf: Path, w: Maker, lives: nat, ghost dirs: set<Path>, ghost t0: Tree)
    returns (w': Maker, left: nat)
    requires s.Valid() && Busy(leaf, w) && MakerInv(leaf, w, s.tree) && leaf in dirs && DirsAdded(t0, s.tree, dirs)
    modifies s`tree, s`trace
    ensures s.Valid() && MakerInv(leaf, w', s.tree) && DirsAdded(t0, s.tree, dirs)
    ensures s.trace == old(s.trace) + [s.tree]
    ensures forall k :: k in old(s.tree) ==> k in s.tree && s.tree[k] == old(s.tree)[k]
    ensures left < lives || (left == lives && Work(leaf, w') < Work(leaf, w))
    ensures s.reliable && Smooth(leaf, w, old(s.tree)) && FileAt(t0, leaf[..w.made + 1]) == None ==> Smooth(leaf, w', s.tree)
  {
    left := lives;
    if w.asking {
      w', left := LookTurn(s, leaf, w, lives);
    } else {
      assert Parent(leaf[..w.made + 1]) == leaf[..w.made];
      var ok := MkdirTurn(s, leaf, leaf[..w.made + 1], dirs, t0);
      w' := if ok then Maker(w.made + 1, false, false) else w.(asking := true);
    }
  }

  method MkdirTurn(s: Server, leaf: Path, dir: Path, ghost dirs: set<Path>, ghost t0: Tree) returns (ok: bool)
    requires s.Valid() && leaf in dirs && dir != [] && dir <= leaf && IsDir(s.tree, Parent(dir)) && DirsAdded(t0, s.tree, dirs)
    modifies s`tree, s`trace
    ensures s.Valid() && s.trace == old(s.trace) + [s.tree] && DirsAdded(t0, s.tree, dirs)
    ensures forall k :: k in old(s.tree) ==> k in s.tree && s.tree[k] == old(s.tree)[k]
    ensures ok || (s.reliable && FileAt(t0, dir) == None) ==> IsDir(s.tree, dir)
  {
    ghost var t := s.tree;
    var r := s.Execute(Mkdir(dir));
    MkdirAdds(s.ext, t0, t, dirs, leaf, dir, r, s.tree);
    if s.reliable && FileAt(t0, dir) == None {
      MkdirFindsDir(s.ext, t0, t, dirs, dir, r, s.tree);
    }
    ok := r.Ok?;
  }

  method LookTurn(s: Server, leaf: Path, w: Maker, lives: nat) returns (w': Maker, left: nat)
    requires s.Valid() && Busy(leaf, w) && w.asking && MakerInv(leaf, w, s.tree)
    modifies s`tree, s`trace
    ensures s.Valid() && s.tree == old(s.tree) && s.trace == old(s.trace) + [s.tree] && MakerInv(leaf, w', s.tree)
    ensures left < lives || (left == lives && Work(leaf, w') < Work(leaf, w))
    ensures s.reliable && Smooth(leaf, w, s.tree) ==> Smooth(leaf, w', s.tree)
  {
    var r := s.Execute(Stat(leaf[..w.made + 1]));
    w', left := Looked(leaf, w, r.Ok? && IsDir(s.tree, leaf[..w.made + 1]), r.Lost?, lives);
  }

  /** What a worker makes of the answer. */
  method Looked(leaf: Path, w: Maker, there: bool, lost: bool, lives: nat) returns (w': Maker, left: nat)
    requires Busy(leaf, w) && w.asking
    ensures left < lives || (left == lives && Work(leaf, w') < Work(leaf, w))
    ensures w' == (if there then Maker(w.made + 1, false, false)
                   else if lost && lives > 0 then Maker(0, false, false) else w.(failed := true))
  {
    left := lives;
    if there {
      w' := Maker(w.made + 1, false, false);
    } else if lost && lives > 0 {
      w', left := Maker(0, false, false), lives - 1;
    } else {
      w' := w.(failed := true);
    }
  }

  function TotalWork(leaves: seq<Path>, ws: seq<Maker>): nat
    requires |ws| == |leaves|
  {
    if ws == [] then 0 else Work(leaves[0], ws[0]) + TotalWork(leaves[1..], ws[1..])
  }

  lemma {:induction false} TotalWorkUpdate(leaves: seq<Path>, ws: seq<Maker>, i: nat, w: Maker)
    requires |ws| == |leaves| && i < |ws|
    ensures TotalWork(leaves, ws[i := w]) == TotalWork(leaves, ws) - Work(leaves[i], ws[i]) + Work(leaves[i], w)
  {
    if i == 0 {
      assert ws[i := w][1..] == ws[1..];
    } else {
      assert ws[i := w][1..] == ws[1..][i - 1 := w];
      TotalWorkUpdate(leaves[1..], ws[1..], i - 1, w);
    }
  }

  ghost predicate MakersInv(leaves: seq<Path>, ws: seq<Maker>, t: Tree) {
    |ws| == |leaves| && forall i :: 0 <= i < |ws| ==> MakerInv(leaves[i], ws[i], t)
  }

  ghost predicate AllSmooth(leaves: seq<Path>, ws: seq<Maker>, t: Tree) {
    |ws| == |leaves| && forall i :: 0 <= i < |ws| ==> Smooth(leaves[i], ws[i], t)
  }

  /** The workers of different leaves share parents, and only ever help each
      other: no directory goes. */
  lemma MakersStep(leaves: seq<Path>, ws: seq<Maker>, i: nat, w: Maker, t: Tree, t': Tree)
    requires MakersInv(leaves, ws, t) && i < |ws| && MakerInv(leaves[i], w, t')
    requires forall k :: k in t ==> k in t' && t'[k] == t[k]
    ensures MakersInv(leaves, ws[i := w], t')
    ensures AllSmooth(leaves, ws, t) && Smooth(leaves[i], w, t') ==> AllSmooth(leaves, ws[i := w], t')
  {
  }

  /** No file stands where one of the directories has to be. */
  ghost predicate Unblocked(dirs: set<Path>, t: Tree) {
    forall d, e :: e in dirs && d <= e ==> FileAt(t, d) == None
  }

  ghost predicate DirsAddedSince(dirs: set<Path>, t0: Tree, tr: seq<Tree>, from: nat) {
    forall j :: from <= j < |tr| ==> DirsAdded(t0, tr[j], dirs)
  }

  /** One turn of the scheduler. */
  method SomeMakerTurn(s: Server, leaves: seq<Path>, ws: seq<Maker>, i: nat, lives: nat, ghost dirs: set<Path>, ghost t0: Tree)
    returns (ws': seq<Maker>, left: nat)
    requires s.Valid() && MakersInv(leaves, ws, s.tree) && i < |ws| && Busy(leaves[i], ws[i])
    requires leaves[i] in dirs && DirsAdded(t0, s.tree, dirs)
    modifies s`tree, s`trace
    ensures s.Valid() && MakersInv(leaves, ws', s.tree) && DirsAdded(t0, s.tree, dirs)
    ensures s.trace == old(s.trace) + [s.tree]
    ensures left < lives || (left == lives && TotalWork(leaves, ws') < TotalWork(leaves, ws))
    ensures s.reliable && Unblocked(dirs, t0) && AllSmooth(leaves, ws, old(s.tree)) ==> AllSmooth(leaves, ws', s.tree)
  {
    ghost var t := s.tree;
    var w;
    w, left := MakerTurn(s, leaves[i], ws[i], lives, dirs, t0);
    ws' := ws[i := w];
    TotalWorkUpdate(leaves, ws, i, w);
    MakersStep(leaves, ws, i, w, t, s.tree);
    assert leaves[i][..ws[i].made + 1] <= leaves[i];
  }

  method RunMakers(s: Server, leaves: seq<Path>, ghost dirs: set<Path>) returns (ok: bool)
    requires s.Valid() && forall d :: d in leaves ==> d in dirs
    modifies s`tree, s`trace
    ensures s.Valid() && old(s.trace) <= s.trace && DirsAdded(old(s.tree), s.tree, dirs)
    ensures DirsAddedSince(dirs, old(s.tree), s.trace, |old(s.trace)|)
    ensures ok ==> forall d :: d in leaves ==> IsDir(s.tree, d)
    ensures s.reliable && Unblocked(dirs, old(s.tree)) ==> ok
  {
    var ws := RunWorkers(s, leaves, dirs);
    ok := forall i :: 0 <= i < |leaves| ==> !ws[i].failed;
    if ok {
      AllMade(leaves, ws, s.tree);
    }
  }

  /** Runs the workers, in any order, until each is through or has failed. */
  method RunWorkers(s: Server, leaves: seq<Path>, ghost dirs: set<Path>) returns (ws: seq<Maker>)
    requires s.Valid() && forall d :: d in leaves ==> d in dirs
    modifies s`tree, s`trace
    ensures s.Valid() && old(s.trace) <= s.trace && DirsAdded(old(s.tree), s.tree, dirs)
    ensures DirsAddedSince(dirs, old(s.tree), s.trace, |old(s.trace)|)
    ensures MakersInv(leaves, ws, s.tree) && forall i :: 0 <= i < |ws| ==> !Busy(leaves[i], ws[i])
    ensures s.reliable && Unblocked(dirs, old(s.tree)) ==> forall i :: 0 <= i < |ws| ==> !ws[i].failed
  {
    ghost var t0 := s.tree;
    ghost var easy := s.reliable && Unblocked(dirs, t0);
    var n := |leaves|;
    ws := seq(n, i => Maker(0, false, false));
    var lives: nat := *;
    NothingMade(leaves, ws, s.tree);
    while exists i :: 0 <= i < n && Busy(leaves[i], ws[i])
      invariant s.Valid() && old(s.trace) <= s.trace && DirsAdded(t0, s.tree, dirs)
      invariant DirsAddedSince(dirs, t0, s.trace, |old(s.trace)|)
      invariant MakersInv(leaves, ws, s.tree) && (easy ==> AllSmooth(leaves, ws, s.tree))
      decreases lives, TotalWork(leaves, ws)
    {
      var i :| 0 <= i < n && Busy(leaves[i], ws[i]);
      assert leaves[i] in leaves;
      ws, lives := SomeMakerTurn(s, leaves, ws, i, lives, dirs, t0);
    }
  }

  lemma NothingMade(leaves: seq<Path>, ws: seq<Maker>, t: Tree)
    requires |ws| == |leaves| && forall i :: 0 <= i < |ws| ==> ws[i] == Maker(0, false, false)
    ensures MakersInv(leaves, ws, t) && AllSmooth(leaves, ws, t)
  {
    forall i | 0 <= i < |ws| ensures MakerInv(leaves[i], ws[i], t) {
      assert leaves[i][..0] == [];
    }
  }

  lemma AllMade(leaves: seq<Path>, ws: seq<Maker>, t: Tree)
    requires MakersInv(leaves, ws, t) && forall i :: 0 <= i < |ws| ==> !ws[i].failed && !Busy(leaves[i], ws[i])
    ensures forall d :: d in leaves ==> IsDir(t, d)
  {
    forall d | d in leaves ensures IsDir(t, d) {
      var i :| 0 <= i < |leaves| && leaves[i] == d;
      assert leaves[i][..ws[i].made] == leaves[i];
    }
  }

  lemma LeavesMakeAll(dirs: set<Path>, leaves: seq<Path>, t: Tree)
    requires WellFormed(t) && (forall d :: d in leaves <==> IsLeaf(dirs, d)) && forall d :: d in leaves ==> IsDir(t, d)
    ensures forall d :: d in dirs ==> IsDir(t, d)
  {
    var n := LengthBound(dirs);
    forall d | d in dirs ensures IsDir(t, d) {
      var leaf := LeavesCover(dirs, d, n);
      assert leaf in leaves;
      if d != leaf && leaf != [] {
        AncestorsExist(t, leaf, d);
      }
    }
  }

  /** Creates every directory of the set through its leaves, one worker a leaf,
      their requests in any order (createRemoteDirs). */
  method CreateRemoteDirs(s: Server, dirs: set<Path>) returns (ok: bool)
    requires s.Valid()
    modifies s`tree, s`trace
    ensures s.Valid() && old(s.trace) <= s.trace && DirsAdded(old(s.tree), s.tree, dirs)
    ensures DirsAddedSince(dirs, old(s.tree), s.trace, |old(s.trace)|)
    ensures ok ==> forall d :: d in dirs ==> IsDir(s.tree, d)
    ensures s.reliable && Unblocked(dirs, old(s.tree)) ==> ok
  {
    var leaves := LeafDirs(dirs);
    ok := RunMakers(s, leaves, dirs);
    if ok {
      LeavesMakeAll(dirs, leaves, s.tree);
    }
  }

  /** The directories above one path; see parentDirs. */
  method ParentDirs(k: Path) returns (dirs: set<Path>)
    requires k != []
    ensures forall d :: d in dirs <==> d != [] && Strictly(d, k)
  {
    dirs := {};
    var dir := Parent(k);
    while dir != []
      invariant Strictly(dir, k)
      invariant forall d :: d in dirs <==> d != [] && Strictly(d, k) && |d| > |dir|
      decreases |dir|
    {
      dirs := dirs + {dir};
      assert forall d :: Strictly(d, k) && |d| == |dir| ==> d == dir;
      dir := Parent(dir);
    }
  }

  /** The directories of the given files; see dirsForFiles. */
  method DirsForFiles(job: Job, files: seq<Path>) returns (dirs: set<Path>)
    requires [] !in files
    ensures forall d :: d in dirs <==> d != [] && exists p :: p in files && Strictly(d, Key(job, p))
  {
    dirs := {};
    for i := 0 to |files|
      invariant forall d :: d in dirs <==> d != [] && exists p :: p in files[..i] && Strictly(d, Key(job, p))
    {
      var above := ParentDirs(Key(job, files[i]));
      assert files[..i + 1] == files[..i] + [files[i]];
      dirs := dirs + above;
    }
    assert files[..|files|] == files;
  }

  /** Only temp-shaped names went, and no planned target. */
  ghost predicate SweptTo(job: Job, t0: Tree, t: Tree) {
    && (forall k :: k in t ==> k in t0 && t[k] == t0[k])
    && (forall k :: !TempKey(job.id, k) ==> Same(t0, t, k))
    && ((forall n :: job.id(n) == n) ==> forall p :: p in job.files ==> Same(t0, t, Key(job, p)))
  }

  /** Removes temporary files an earlier run left behind. Which entries a
      listing shows, and how old they are, is not known here: any temp-shaped
      name that is no planned target may go. */
  method SweepStaleTemps(s: Server, job: Job)
    requires s.Valid()
    modifies s`tree, s`trace
    ensures s.Valid() && old(s.trace) <= s.trace && SweptTo(job, old(s.tree), s.tree)
    ensures forall j :: |old(s.trace)| <= j < |s.trace| ==> SweptTo(job, old(s.tree), s.trace[j])
  {
    ghost var t0 := s.tree;
    var n: nat := *;
    while n > 0
      invariant s.Valid() && old(s.trace) <= s.trace && SweptTo(job, t0, s.tree)
      invariant forall j :: |old(s.trace)| <= j < |s.trace| ==> SweptTo(job, t0, s.trace[j])
    {
      var entry: Path := *;
      if entry != [] && IsTempFileName(Last(entry)) && entry !in job.files {
        ghost var t := s.tree;
        var _ := s.Execute(Remove(Key(job, entry)));
        SweepOne(job, entry, t0, t, s.tree);
      }
      n := n - 1;
    }
  }

  lemma SweepOne(job: Job, entry: Path, t0: Tree, t: Tree, t': Tree)
    requires entry != [] && IsTempFileName(Last(entry)) && entry !in job.files && SweptTo(job, t0, t)
    requires t' == t || (Key(job, entry) in t && t' == t - {Key(job, entry)})
    ensures SweptTo(job, t0, t')
  {
    var k := Key(job, entry);
    assert k[|k| - 1] == job.id(Last(entry)) && TempKey(job.id, k);
    if forall n :: job.id(n) == n {
      KeysExact(job, entry);
    }
  }

  lemma KeysExact(job: Job, entry: Path)
    requires forall n :: job.id(n) == n
    ensures Key(job, entry) == entry && forall p :: Key(job, p) == p
  {
    forall p ensures Key(job, p) == p {
      KeyOfExact(job.id, p);
    }
  }
}
