/** One sync deployment: the plan, the names it uses on the server, and the
    claims that every step of a run keeps. */
module SyncJob {
  import opened Options
  import opened RemoteTree
  import opened Publish
  import opened WorkerPool
  import opened TempNames
  import opened PathLists
  import SlashPaths

  /**
  `files` is the plan and `local` its content digests. `name` is the manifest's
  file name. `id` is what the server takes a name for: the name itself on a
  case-sensitive server, a folded one elsewhere. `fold` is the client's own
  comparison key.
  */
  datatype Job = Job(files: seq<Path>, local: map<Path, Digest>, name: string,
                     id: string -> string, fold: string -> string)

  type Manifest = map<Path, Digest>

  function Last(p: Path): string
    requires p != []
  {
    p[|p| - 1]
  }

  /** The name of an entry that no temporary file is taken for. */
  ghost predicate PlainName(id: string -> string, s: string) {
    SlashPaths.IsName(s) && forall t {:trigger IsTempFileName(t)} :: IsTempFileName(t) ==> id(t) != id(s)
  }

  ghost predicate PlainPath(id: string -> string, p: Path) {
    p != [] && forall i :: 0 <= i < |p| ==> PlainName(id, p[i])
  }

  /** Some component of the key is the key of a temporary name. */
  ghost predicate TempKey(id: string -> string, k: Path) {
    exists i, t :: 0 <= i < |k| && IsTempFileName(t) && k[i] == id(t)
  }

  function Key(job: Job, p: Path): Path {
    KeyOf(job.id, p)
  }

  function ManifestKey(job: Job): Path {
    [job.id(job.name)]
  }

  function ManifestSlots(job: Job): Slots {
    SlotsIn([], Trio(job.id(job.name), job.id(ManifestTemp(job.name)), job.id(Backup(job.name))))
  }

  /** What the server takes a file's name, its temporary name and its backup
      name for. */
  datatype Trio = Trio(name: string, tmp: string, bak: string)

  function TrioOf(id: string -> string, s: string, i: nat): Trio {
    Trio(id(s), id(UploadTemp(s, i)), id(Backup(s)))
  }

  function SlotsIn(dir: Path, n: Trio): Slots {
    Slots(dir + [n.name], dir + [n.tmp], dir + [n.bak])
  }

  /** The names transfer `i`, of the planned file `p`, works with. */
  function UploadSlots(id: string -> string, p: Path, i: nat): Slots
    requires p != []
  {
    SlotsIn(KeyOf(id, Parent(p)), TrioOf(id, Last(p), i))
  }

  /**
  The hypotheses on a deployment: the plan comes from one directory tree, no
  two planned paths meet on the server, no name is temp-shaped, and none is at
  or below the manifest. `fold` is at least as coarse as the server's own identification.
  */
  ghost predicate Sound(job: Job) {
    && Distinct(job.files) && PrefixFree(job.files)
    && (forall p :: p in job.files <==> p in job.local)
    && (forall p :: p in job.local ==> PlainPath(job.id, p) && !(ManifestKey(job) <= Key(job, p)))
    && (forall p, q :: p in job.local && q in job.local && Key(job, p) <= Key(job, q) ==> p == q)
    && PlainName(job.id, job.name)
    && KeepsTempsApart(job.id)
    && (forall a, b :: job.id(a) == job.id(b) ==> job.fold(a) == job.fold(b))
  }

  /** The hypotheses on the entries of a manifest easySFTP wrote. */
  ghost predicate SoundManifest(job: Job, m: Manifest) {
    && (forall p :: p in m ==> PlainPath(job.id, p) && !(ManifestKey(job) <= Key(job, p)))
    && (forall p, q :: p in m && q in m && Key(job, p) == Key(job, q) ==> p == q)
  }

  /** The manifest a run that reads it faithfully finds. */
  function ManifestAt(job: Job, t: Tree): Manifest {
    match FileAt(t, ManifestKey(job))
    case Some(Listing(m)) => m
    case _ => map[]
  }

  /** Does the manifest say that the server already holds `p` as it is locally? */
  predicate Current(job: Job, m: Manifest, p: Path) {
    p in job.local && p in m && m[p] == job.local[p]
  }

  ghost predicate Holds(job: Job, t: Tree, p: Path)
    requires p in job.local
  {
    FileAt(t, Key(job, p)) == Some(Blob(job.local[p]))
  }

  /** Whatever the manifest on the server says is current really is there. */
  ghost predicate Truthful(job: Job, t: Tree) {
    forall p :: Current(job, ManifestAt(job, t), p) ==> Holds(job, t, p)
  }

  ghost predicate Stale(job: Job, m: Manifest, p: Path) {
    p in m && p !in job.local
  }

  /** The names a run working from manifest `m` may change, the manifest's own
      name apart: changed planned files (without the extension also what lies
      below one), stale entries, and temporary names. */
  ghost predicate MayChange(job: Job, ext: bool, m: Manifest, k: Path) {
    || (exists p :: p in job.local && !Current(job, m, p) && (if ext then k == Key(job, p) else Key(job, p) <= k))
    || (exists r :: Stale(job, m, r) && k == Key(job, r))
    || TempKey(job.id, k)
  }

  /** Below a planned file, and not temp-shaped. */
  ghost predicate BelowPlan(job: Job, k: Path) {
    !TempKey(job.id, k) && exists p :: p in job.local && Strictly(Key(job, p), k)
  }

  /** No file outside MayChange changed, none came to lie below a planned one; and
      when the manifest read as empty on a server with the extension, planned files
      that were right still are. */
  ghost predicate DataFrame(job: Job, ext: bool, m: Manifest, t0: Tree, t: Tree) {
    && (forall k :: !MayChange(job, ext, m, k) ==> FileAt(t, k) == FileAt(t0, k))
    && (forall k :: BelowPlan(job, k) ==> FileAt(t, k) in {None, FileAt(t0, k)})
    && (ext && m == map[] ==> forall p :: p in job.local && Holds(job, t0, p) ==> Holds(job, t, p))
  }

  lemma DataFrameTrans(job: Job, ext: bool, m: Manifest, t0: Tree, t1: Tree, t2: Tree)
    requires DataFrame(job, ext, m, t0, t1) && DataFrame(job, ext, m, t1, t2)
    ensures DataFrame(job, ext, m, t0, t2)
  {
  }

  lemma KeyNames(job: Job, p: Path, i: nat, t: string)
    requires PlainPath(job.id, p) && i < |p| && IsTempFileName(t)
    ensures Key(job, p)[i] != job.id(t)
  {
    assert PlainName(job.id, p[i]);
  }

  /** Plain paths are never taken for temporary ones. */
  lemma PlainIsNotTemp(job: Job, p: Path)
    requires PlainPath(job.id, p)
    ensures !TempKey(job.id, Key(job, p))
  {
    forall i, t | 0 <= i < |p| && IsTempFileName(t) ensures Key(job, p)[i] != job.id(t) {
      KeyNames(job, p, i, t);
    }
  }

  lemma ManifestIsNotTemp(job: Job)
    requires Sound(job)
    ensures !TempKey(job.id, ManifestKey(job))
  {
  }

  lemma NotAboveManifest(job: Job, p: Path)
    requires p != [] && !(ManifestKey(job) <= Key(job, p))
    ensures !(Key(job, p) <= ManifestKey(job))
  {
    var k := Key(job, p);
    assert k <= ManifestKey(job) ==> |k| == |ManifestKey(job)|;
  }

  lemma ManifestMayNotChange(job: Job, ext: bool, m: Manifest)
    requires Sound(job) && SoundManifest(job, m)
    ensures !MayChange(job, ext, m, ManifestKey(job))
  {
    ManifestIsNotTemp(job);
    forall p | p in job.local || p in m ensures !(Key(job, p) <= ManifestKey(job)) {
      NotAboveManifest(job, p);
    }
  }

  lemma ManifestUnchanged(job: Job, ext: bool, m: Manifest, t0: Tree, t: Tree)
    requires Sound(job) && SoundManifest(job, m) && DataFrame(job, ext, m, t0, t)
    ensures ManifestAt(job, t) == ManifestAt(job, t0)
    ensures FileAt(t, ManifestKey(job)) == FileAt(t0, ManifestKey(job))
  {
    ManifestMayNotChange(job, ext, m);
  }

  /** A planned file the manifest calls current is not among the names a run may
      change: neither its uploads nor its deletes can hit it. */
  lemma CurrentIsKept(job: Job, ext: bool, m: Manifest, p: Path)
    requires Sound(job) && SoundManifest(job, m) && Current(job, m, p)
    ensures !MayChange(job, ext, m, Key(job, p))
  {
    PlainIsNotTemp(job, p);
  }

  /** No planned file is one the manifest calls current. */
  ghost predicate NoneCurrent(job: Job, m: Manifest) {
    forall p :: !Current(job, m, p)
  }

  /** Every step keeps the manifest truthful, provided the run works from the
      manifest that is there; one that takes it for missing does too when the
      server has the extension or nothing is current anyway. */
  lemma FrameKeepsTruth(job: Job, ext: bool, m: Manifest, t0: Tree, t: Tree)
    requires Sound(job) && SoundManifest(job, m) && DataFrame(job, ext, m, t0, t) && Truthful(job, t0)
    requires m == ManifestAt(job, t0) || (m == map[] && (ext || NoneCurrent(job, ManifestAt(job, t0))))
    ensures Truthful(job, t)
  {
    ManifestUnchanged(job, ext, m, t0, t);
    forall p | Current(job, ManifestAt(job, t), p) ensures Holds(job, t, p) {
      assert Holds(job, t0, p);
      if m == ManifestAt(job, t0) {
        CurrentIsKept(job, ext, m, p);
      }
    }
  }

  // ---- Upload names ----

  lemma KeySplit(id: string -> string, p: Path)
    requires p != []
    ensures KeyOf(id, p) == KeyOf(id, Parent(p)) + [id(Last(p))]
  {
  }

  lemma NotBelow(P: Path, a: string, Q: Path, b: string)
    requires |Q| < |P| && Q <= P ==> b != P[|Q|]
    requires Q == P ==> a != b
    ensures !(Q + [b] <= P + [a])
  {
    assert (Q + [b])[..|Q|] == Q && (Q + [b])[|Q|] == b;
    assert (P + [a])[..|P|] == P && (P + [a])[|P|] == a;
    assert |Q| < |P| ==> (P + [a])[..|Q|] == P[..|Q|] && (P + [a])[|Q|] == P[|Q|];
  }

  /** The server tells the names of transfer `o` from those of transfer `n`. */
  predicate Told(n: Trio, o: Trio) {
    && n.name != o.tmp && n.name != o.bak
    && n.tmp != o.name && n.tmp != o.tmp && n.tmp != o.bak
    && n.bak != o.name && n.bak != o.tmp && (n.bak == o.bak ==> n.name == o.name)
  }

  lemma NamesTold(id: string -> string, s: string, i: nat, t: string, j: nat)
    requires PlainName(id, s) && PlainName(id, t) && KeepsTempsApart(id) && i != j
    ensures Told(TrioOf(id, s, i), TrioOf(id, t, j))
  {
    TempNamesAreRecognised(s, i);
    TempNamesAreRecognised(t, j);
  }

  /** The names of two different transfers do not lie at or below one another. */
  lemma TransfersApart(P: Path, n: Trio, Q: Path, o: Trio, x: Path)
    requires Told(n, o) && !(Q + [o.name] <= P + [n.name])
    requires |Q| < |P| ==> P[|Q|] != o.tmp && P[|Q|] != o.bak
    requires x in {P, P + [n.name], P + [n.tmp], P + [n.bak]}
    ensures !(Q + [o.name] <= x) && !(Q + [o.tmp] <= x) && !(Q + [o.bak] <= x)
  {
    assert |Q| < |P| && Q <= P && o.name == P[|Q|] ==> Q + [o.name] <= P + [n.name];
    forall a, b | a in {n.name, n.tmp, n.bak} && b in {o.name, o.tmp, o.bak} ensures !(Q + [b] <= P + [a]) {
      NotBelow(P, a, Q, b);
    }
    forall b | b in {o.name, o.tmp, o.bak} ensures !(Q + [b] <= P) {
      assert Q + [b] <= P ==> Q + [b] <= P + [n.name];
    }
  }

  lemma SlotsShaped(P: Path, n: Trio, d: Data)
    requires n.name != n.tmp && n.name != n.bak && n.tmp != n.bak
    ensures WellShaped(Upload(SlotsIn(P, n), d))
  {
    NotBelow(P, n.name, P, n.tmp);
    NotBelow(P, n.tmp, P, n.name);
    NotBelow(P, n.name, P, n.bak);
    NotBelow(P, n.bak, P, n.name);
    NotBelow(P, n.bak, P, n.tmp);
    NotBelow(P, n.tmp, P, n.bak);
    assert forall a :: Parent(P + [a]) == P;
  }

  lemma SlotsIndependent(ext: bool, P: Path, n: Trio, d: Data, Q: Path, o: Trio, e: Data, k: Path)
    requires Told(n, o) && !(Q + [o.name] <= P + [n.name])
    requires |Q| < |P| ==> P[|Q|] != o.tmp && P[|Q|] != o.bak
    requires Cell(Upload(SlotsIn(P, n), d), k)
    ensures !Owned(ext, Upload(SlotsIn(Q, o), e), k)
  {
    assert Parent(P + [n.name]) == P;
    TransfersApart(P, n, Q, o, k);
  }

  function UploadTasks(job: Job, upload: seq<Path>): (tasks: seq<Task>)
    requires forall p :: p in upload ==> p in job.local && p != []
    ensures |tasks| == |upload|
  {
    seq(|upload|, i requires 0 <= i < |upload| =>
      var p := upload[i];
      assert p in upload;
      Upload(UploadSlots(job.id, p, i), Blob(job.local[p])))
  }

  /** A directory a plain path lies in is taken for no temporary name. */
  lemma DirIsNotTemp(id: string -> string, p: Path, n: nat, t: string)
    requires PlainPath(id, p) && n < |p| - 1 && IsTempFileName(t)
    ensures KeyOf(id, Parent(p))[n] != id(t)
  {
    assert PlainName(id, p[n]) && Parent(p)[n] == p[n];
  }

  lemma LastIsPlain(id: string -> string, p: Path)
    requires PlainPath(id, p)
    ensures PlainName(id, Last(p))
  {
    assert PlainName(id, p[|p| - 1]);
  }

  lemma PlainPairTold(id: string -> string, p: Path, i: nat, q: Path, j: nat)
    requires PlainPath(id, p) && PlainPath(id, q) && KeepsTempsApart(id) && i != j
    ensures Told(TrioOf(id, Last(p), i), TrioOf(id, Last(q), j))
  {
    LastIsPlain(id, p);
    LastIsPlain(id, q);
    NamesTold(id, Last(p), i, Last(q), j);
  }

  lemma PlainPairApart(id: string -> string, p: Path, q: Path)
    requires p != [] && q != [] && !(KeyOf(id, q) <= KeyOf(id, p))
    ensures !(KeyOf(id, Parent(q)) + [id(Last(q))] <= KeyOf(id, Parent(p)) + [id(Last(p))])
  {
    KeySplit(id, p);
    KeySplit(id, q);
  }

  lemma PlainPairDirs(id: string -> string, p: Path, q: Path, j: nat)
    requires PlainPath(id, p) && PlainPath(id, q) && |q| < |p|
    ensures KeyOf(id, Parent(p))[|q| - 1] != id(UploadTemp(Last(q), j))
    ensures KeyOf(id, Parent(p))[|q| - 1] != id(Backup(Last(q)))
  {
    LastIsPlain(id, q);
    TempNamesAreRecognised(Last(q), j);
    DirIsNotTemp(id, p, |q| - 1, UploadTemp(Last(q), j));
    DirIsNotTemp(id, p, |q| - 1, Backup(Last(q)));
  }

  lemma UploadPairIndependent(job: Job, ext: bool, p: Path, i: nat, q: Path, j: nat, k: Path, d: Data, e: Data)
    requires Sound(job) && p in job.local && q in job.local && p != q && i != j
    requires Cell(Upload(UploadSlots(job.id, p, i), d), k)
    ensures !Owned(ext, Upload(UploadSlots(job.id, q, j), e), k)
  {
    PlannedAreApart(job, q, p);
    PlainPairIndependent(job.id, ext, p, i, q, j, k, d, e);
  }

  lemma PlannedAreApart(job: Job, p: Path, q: Path)
    requires Sound(job) && p in job.local && q in job.local && p != q
    ensures !(Key(job, p) <= Key(job, q)) && PlainPath(job.id, p) && PlainPath(job.id, q) && KeepsTempsApart(job.id)
  {
  }

  lemma PlainPairIndependent(id: string -> string, ext: bool, p: Path, i: nat, q: Path, j: nat, k: Path, d: Data, e: Data)
    requires PlainPath(id, p) && PlainPath(id, q) && KeepsTempsApart(id) && i != j && !(KeyOf(id, q) <= KeyOf(id, p))
    requires Cell(Upload(UploadSlots(id, p, i), d), k)
    ensures !Owned(ext, Upload(UploadSlots(id, q, j), e), k)
  {
    PlainPairTold(id, p, i, q, j);
    PlainPairApart(id, p, q);
    if |q| < |p| {
      PlainPairDirs(id, p, q, j);
    }
    ToldIsIndependent(id, ext, p, i, q, j, k, d, e);
  }

  lemma ToldIsIndependent(id: string -> string, ext: bool, p: Path, i: nat, q: Path, j: nat, k: Path, d: Data, e: Data)
    requires p != [] && q != [] && Told(TrioOf(id, Last(p), i), TrioOf(id, Last(q), j))
    requires !(KeyOf(id, Parent(q)) + [id(Last(q))] <= KeyOf(id, Parent(p)) + [id(Last(p))])
    requires |q| < |p| ==> KeyOf(id, Parent(p))[|q| - 1] != id(UploadTemp(Last(q), j))
    requires |q| < |p| ==> KeyOf(id, Parent(p))[|q| - 1] != id(Backup(Last(q)))
    requires Cell(Upload(UploadSlots(id, p, i), d), k)
    ensures !Owned(ext, Upload(UploadSlots(id, q, j), e), k)
  {
    SlotsIndependent(ext, KeyOf(id, Parent(p)), TrioOf(id, Last(p), i), d, KeyOf(id, Parent(q)), TrioOf(id, Last(q), j), e, k);
  }

  lemma UploadWellShaped(job: Job, p: Path, i: nat, d: Data)
    requires PlainPath(job.id, p) && KeepsTempsApart(job.id)
    ensures WellShaped(Upload(UploadSlots(job.id, p, i), d))
  {
    assert PlainName(job.id, p[|p| - 1]);
    TempNamesAreRecognised(Last(p), i);
    SlotsShaped(KeyOf(job.id, Parent(p)), TrioOf(job.id, Last(p), i), d);
  }

  lemma UploadsIndependent(job: Job, ext: bool, upload: seq<Path>)
    requires Sound(job) && Distinct(upload) && forall p :: p in upload ==> p in job.local
    ensures Independent(ext, UploadTasks(job, upload))
  {
    var tasks := UploadTasks(job, upload);
    forall i | 0 <= i < |tasks| ensures WellShaped(tasks[i]) {
      UploadWellShaped(job, upload[i], i, tasks[i].data);
    }
    forall i, j, k {:trigger Cell(tasks[i], k), Owned(ext, tasks[j], k)}
      | 0 <= i < |tasks| && 0 <= j < |tasks| && i != j && Cell(tasks[i], k)
      ensures !Owned(ext, tasks[j], k)
    {
      UploadPairIndependent(job, ext, upload[i], i, upload[j], j, k, tasks[i].data, tasks[j].data);
    }
  }

  function DropTasks(job: Job, rels: seq<Path>): (tasks: seq<Task>)
    ensures |tasks| == |rels|
  {
    seq(|rels|, i requires 0 <= i < |rels| => Drop(Key(job, rels[i])))
  }

  lemma DropsIndependent(job: Job, ext: bool, m: Manifest, rels: seq<Path>)
    requires SoundManifest(job, m) && Distinct(rels) && forall r :: r in rels ==> r in m
    ensures Independent(ext, DropTasks(job, rels))
  {
    var tasks := DropTasks(job, rels);
    forall i, j, k | 0 <= i < |tasks| && 0 <= j < |tasks| && i != j && Cell(tasks[i], k)
      ensures !Owned(ext, tasks[j], k)
    {
      assert rels[i] in m && rels[j] in m && rels[i] != rels[j];
    }
  }
}
