/**
The bounded worker pool that deletes and uploads files (runBounded with the
worker bodies of deleteRemoteFiles and uploadFiles). A worker is a task and a
program counter; one turn of the scheduler sends one request of one worker, so
the requests of all workers interleave in every possible way.
*/
module WorkerPool {
  import opened Options
  import opened RemoteTree
  import opened Publish
  import opened PathLists

  /** An opened temporary file is empty; which digest that is does not matter. */
  const EMPTY := Blob(0)

  datatype Task =
    | Drop(path: Path)
    | Upload(slots: Slots, data: Data)

  datatype Pc =
    | Idle
    | DropTry | DropAsk(lost: bool)            // Remove, then Lstat when it failed
    | Clear | Open | Send | Pub(stage: Stage) | Tidy  // one attempt of an upload
    | Again                                    // failed, may be retried
    | Done | Bad

  predicate Stopped(pc: Pc) {
    pc.Done? || pc.Bad?
  }

  /** Waiting for a reply: the counters at which the next turn is a request. */
  predicate Asking(task: Task, pc: Pc) {
    if task.Drop? then pc.DropTry? || pc.DropAsk?
    else pc.Clear? || pc.Open? || pc.Send? || pc.Tidy? || (pc.Pub? && !Finished(pc.stage))
  }

  predicate Fits(task: Task, pc: Pc) {
    pc.Idle? || pc.Again? || Stopped(pc) || Asking(task, pc)
  }

  function NextOp(task: Task, pc: Pc): Op
    requires Asking(task, pc)
  {
    match pc
    case DropTry => Remove(task.path)
    case DropAsk(_) => Stat(task.path)
    case Clear => Remove(task.slots.tmp)
    case Open => Write(task.slots.tmp, EMPTY)
    case Send => Write(task.slots.tmp, task.data)
    case Pub(g) => Request(g, task.slots)
    case Tidy => Remove(task.slots.tmp)
  }

  function After(task: Task, pc: Pc, r: Reply, announced: bool): Pc
    requires Asking(task, pc)
  {
    match pc
    case DropTry => if r.Ok? || r.NotExist? then Done else DropAsk(r.Lost?)
    case DropAsk(lost) =>
      // A connection-class failure reruns the idempotent request.
      if r.Lost? then Again
      else if r.Ok? || r.Denied? then (if lost then Again else Bad)
      else Done
    case Clear => Open
    case Open => if r.Ok? then Send else Again  // nothing to clean up yet
    case Send => if r.Ok? then Pub(TryPosix) else Tidy
    case Pub(g) =>
      var g' := Advance(g, r, announced);
      if g'.Published? then Done else if g'.GaveUp? then Tidy else Pub(g')
    case Tidy => Again
  }

  function FirstPc(task: Task, retry: bool): Pc {
    if task.Drop? then DropTry else if retry then Clear else Open
  }

  function Rank(pc: Pc): nat {
    match pc
    case Idle => 17
    case DropTry => 3
    case DropAsk(_) => 2
    case Clear => 16
    case Open => 15
    case Send => 14
    case Pub(g) => (match g
      case TryPosix => 13
      case DropOldBackup => 12
      case Park => 11
      case AskAbsent => 10
      case Place(_) => 9
      case _ => 8)
    case Tidy => 2
    case Again => 1
    case _ => 0
  }

  function TotalRank(pcs: seq<Pc>): nat {
    if pcs == [] then 0 else Rank(pcs[0]) + TotalRank(pcs[1..])
  }

  lemma {:induction false} TotalRankUpdate(pcs: seq<Pc>, i: nat, pc: Pc)
    requires i < |pcs|
    ensures TotalRank(pcs[i := pc]) == TotalRank(pcs) - Rank(pcs[i]) + Rank(pc)
  {
    if i == 0 {
      assert pcs[i := pc][1..] == pcs[1..];
    } else {
      assert pcs[i := pc][1..] == pcs[1..][i - 1 := pc];
      TotalRankUpdate(pcs[1..], i - 1, pc);
    }
  }

  // ---- What one worker may change, needs and achieves ----

  /** With the extension only the upload and its target change. Without it the
      park renames whatever is at the target, a directory included. */
  predicate Owned(ext: bool, task: Task, k: Path) {
    match task
    case Drop(p) => k == p
    case Upload(n, _) =>
      if ext then k == n.final || k == n.tmp
      else n.final <= k || n.tmp <= k || n.backup <= k
  }

  predicate OwnedBySome(ext: bool, tasks: seq<Task>, k: Path) {
    exists i :: 0 <= i < |tasks| && Owned(ext, tasks[i], k)
  }

  /** The names a worker relies on. */
  predicate Cell(task: Task, k: Path) {
    match task
    case Drop(p) => k == p
    case Upload(n, _) => k == n.final || k == n.tmp || k == n.backup || (n.final != [] && k == Parent(n.final))
  }

  predicate WellShaped(task: Task) {
    task.Upload? ==>
      var n := task.slots;
      && Apart(n) && n.final != [] && n.tmp != [] && n.backup != []
      && Parent(n.tmp) == Parent(n.final) && Parent(n.backup) == Parent(n.final)
  }

  ghost predicate Independent(ext: bool, tasks: seq<Task>) {
    && (forall i :: 0 <= i < |tasks| ==> WellShaped(tasks[i]))
    && (forall i, j, k {:trigger Cell(tasks[i], k), Owned(ext, tasks[j], k)} ::
          0 <= i < |tasks| && 0 <= j < |tasks| && i != j && Cell(tasks[i], k) ==> !Owned(ext, tasks[j], k))
  }

  /** The outcome a finished worker reports. */
  ghost predicate Achieved(task: Task, t: Tree) {
    match task
    case Drop(p) => p !in t
    case Upload(n, d) => FileAt(t, n.final) == Some(d)
  }

  ghost predicate LocalInv(ext: bool, task: Task, pc: Pc, t: Tree) {
    && Fits(task, pc)
    && (pc.Done? && task.Upload? ==> Achieved(task, t))
    && (pc.Pub? ==>
          && (ext ==> pc.stage.TryPosix?)
          && (pc.stage.DropBackup? ==> FileAt(t, task.slots.final) == Some(task.data))
          && (!pc.stage.DropBackup? && !pc.stage.Restore? ==> FileAt(t, task.slots.tmp) == Some(task.data)))
  }

  /** A deletion reported as done is one. */
  ghost predicate Gone(task: Task, pc: Pc, t: Tree) {
    task.Drop? && pc.Done? ==> Achieved(task, t)
  }

  /** Nothing of the wrong kind is in this worker's way. */
  ghost predicate Ready(task: Task, t: Tree) {
    match task
    case Drop(p) => p in t ==> t[p].File?
    case Upload(n, _) =>
      && n.final != [] && IsDir(t, Parent(n.final))
      && (n.final in t ==> t[n.final].File?)
      && (n.tmp in t ==> t[n.tmp].File?)
      && (n.backup in t ==> t[n.backup].File?)
  }

  /** The worker's temporary names are gone. (With the extension it never uses
      a backup.) */
  ghost predicate TempsGone(ext: bool, task: Task, t: Tree) {
    task.Upload? ==> task.slots.tmp !in t && (!ext ==> task.slots.backup !in t)
  }

  /** On a reliable server a ready worker never leaves the successful path. */
  ghost predicate Thriving(ext: bool, task: Task, pc: Pc, t: Tree) {
    && Ready(task, t)
    && !pc.DropAsk? && !pc.Clear? && !pc.Tidy? && !pc.Again? && !pc.Bad?
    && (pc.Pub? && task.Upload? ==> !pc.stage.Restore?)
    && (pc.Pub? && task.Upload? && pc.stage.Park? ==> task.slots.backup !in t)
    && (pc.Pub? && task.Upload? && (pc.stage.AskAbsent? || pc.stage.Place?) ==> task.slots.final !in t)
    && (pc.Pub? && task.Upload? && pc.stage.DropBackup? ==> task.slots.tmp !in t)
    && (pc.Done? ==> TempsGone(ext, task, t))
  }

  /** With the extension, a target that already holds the upload's content
      holds it throughout. A deletion leaves its file as it was, or removes it. */
  ghost predicate Steady(ext: bool, task: Task, t0: Tree, t: Tree) {
    && (task.Drop? ==> task.path !in t || Same(t0, t, task.path))
    && ((ext && task.Upload? && FileAt(t0, task.slots.final) == Some(task.data)) ==>
      FileAt(t, task.slots.final) == Some(task.data))
  }

  /** Where `k`, below the target, is when the target is parked. */
  function Beside(n: Slots, k: Path): Path
    requires n.final <= k
  {
    n.backup + k[|n.final|..]
  }

  predicate HousedAt(n: Slots, t0: Tree, t: Tree, k: Path)
    requires n.final <= k
  {
    && FileAt(t, k) in {None, FileAt(t0, k)}
    && (FileAt(t0, k) != None ==> FileAt(t0, k) in {FileAt(t, k), FileAt(t, Beside(n, k))})
  }

  /** Without the extension the park takes a directory at the target along with all
      that is below it. No file comes to lie below the target that was not there,
      and a file that was is still there or at the same place below the backup. */
  ghost predicate Housed(ext: bool, task: Task, t0: Tree, t: Tree) {
    !ext && task.Upload? ==> forall k :: Strictly(task.slots.final, k) ==> HousedAt(task.slots, t0, t, k)
  }

  predicate AsideAt(n: Slots, t0: Tree, t: Tree, k: Path)
    requires n.final <= k
  {
    FileAt(t, Beside(n, k)) in {None, FileAt(t0, k)}
  }

  predicate MovesBack(pc: Pc) {
    pc == Pub(Restore) || pc == Pub(Place(true))
  }

  ghost predicate AllAside(n: Slots, t0: Tree, t: Tree) {
    forall k :: Strictly(n.final, k) ==> AsideAt(n, t0, t, k)
  }

  /** What may yet be moved back was below the target. */
  ghost predicate SetAside(ext: bool, task: Task, pc: Pc, t0: Tree, t: Tree) {
    !ext && task.Upload? && MovesBack(pc) ==> AllAside(task.slots, t0, t)
  }

  /** Everything no worker owns is as it was, and steady targets are steady. */
  ghost predicate PoolFrame(ext: bool, tasks: seq<Task>, t0: Tree, t: Tree) {
    && (forall k :: !OwnedBySome(ext, tasks, k) ==> Same(t0, t, k))
    && (forall i :: 0 <= i < |tasks| ==> Steady(ext, tasks[i], t0, t) && Housed(ext, tasks[i], t0, t))
  }

  // ---- One request ----

  lemma TouchesOwned(ext: bool, task: Task, pc: Pc, k: Path)
    requires Asking(task, pc) && (ext && pc.Pub? ==> pc.stage.TryPosix?)
    requires Touches(NextOp(task, pc), k)
    ensures Owned(ext, task, k)
  {
  }

  lemma OwnDropStep(ext: bool, announced: bool, task: Task, pc: Pc, t: Tree, r: Reply, t': Tree)
    requires task.Drop? && LocalInv(ext, task, pc, t) && Asking(task, pc)
    requires Step(ext, t, NextOp(task, pc), r, t')
    ensures LocalInv(ext, task, After(task, pc, r, announced), t')
    ensures Candid(ext, t, NextOp(task, pc), r) ==> Gone(task, After(task, pc, r, announced), t')
  {
  }

  lemma OwnRenameStep(ext: bool, announced: bool, task: Task, pc: Pc, t: Tree, r: Reply, t': Tree)
    requires task.Upload? && WellShaped(task) && pc.Pub? && (pc.stage.Park? || pc.stage.Place?)
    requires LocalInv(ext, task, pc, t) && Asking(task, pc) && Step(ext, t, NextOp(task, pc), r, t')
    ensures LocalInv(ext, task, After(task, pc, r, announced), t')
  {
    var n := task.slots;
    if pc.stage.Park? {
      RenameOutcome(ext, n, t, n.final, n.backup, n.tmp, r, t');
    } else {
      RenameOutcome(ext, n, t, n.tmp, n.final, n.backup, r, t');
    }
  }

  lemma OwnPublishStep(ext: bool, announced: bool, task: Task, pc: Pc, t: Tree, r: Reply, t': Tree)
    requires task.Upload? && WellShaped(task) && (ext ==> announced)
    requires LocalInv(ext, task, pc, t) && Asking(task, pc) && pc.Pub?
    requires Step(ext, t, NextOp(task, pc), r, t')
    ensures LocalInv(ext, task, After(task, pc, r, announced), t')
  {
    var n := task.slots;
    match pc.stage
    case Park => OwnRenameStep(ext, announced, task, pc, t, r, t');
    case Place(_) => OwnRenameStep(ext, announced, task, pc, t, r, t');
    case Restore =>
    case TryPosix =>
      assert t' == t || t' == (t - {n.tmp})[n.final := t[n.tmp]];
    case DropOldBackup => StepFrame(ext, t, Remove(n.backup), r, t', n.tmp);
    case AskAbsent => assert t' == t;
    case DropBackup => StepFrame(ext, t, Remove(n.backup), r, t', n.final);
  }

  lemma OwnStep(ext: bool, announced: bool, task: Task, pc: Pc, t: Tree, r: Reply, t': Tree)
    requires WellShaped(task) && (ext ==> announced)
    requires LocalInv(ext, task, pc, t) && Asking(task, pc)
    requires Step(ext, t, NextOp(task, pc), r, t')
    ensures LocalInv(ext, task, After(task, pc, r, announced), t')
    ensures Candid(ext, t, NextOp(task, pc), r) ==> Gone(task, After(task, pc, r, announced), t')
  {
    if task.Drop? {
      OwnDropStep(ext, announced, task, pc, t, r, t');
    } else if pc.Pub? {
      OwnPublishStep(ext, announced, task, pc, t, r, t');
    }
  }

  lemma OtherStep(ext: bool, task: Task, pc: Pc, t: Tree, t': Tree)
    requires LocalInv(ext, task, pc, t)
    requires forall k :: Cell(task, k) ==> Same(t, t', k)
    ensures LocalInv(ext, task, pc, t')
    ensures Gone(task, pc, t) ==> Gone(task, pc, t')
    ensures Ready(task, t) ==> Ready(task, t')
    ensures Thriving(ext, task, pc, t) ==> Thriving(ext, task, pc, t')
  {
    if task.Drop? {
      assert Cell(task, task.path);
    } else {
      var n := task.slots;
      assert Cell(task, n.final) && Cell(task, n.tmp) && Cell(task, n.backup);
      assert n.final != [] ==> Cell(task, Parent(n.final));
    }
  }

  lemma SteadyStep(ext: bool, task: Task, pc: Pc, t0: Tree, t: Tree, r: Reply, t': Tree)
    requires WellShaped(task) && LocalInv(ext, task, pc, t) && Asking(task, pc)
    requires Step(ext, t, NextOp(task, pc), r, t') && Steady(ext, task, t0, t)
    ensures Steady(ext, task, t0, t')
  {
    if ext && task.Upload? {
      var n := task.slots;
      if pc.Pub? {
        assert t' == t || t' == (t - {n.tmp})[n.final := t[n.tmp]];
      } else {
        StepFrame(ext, t, NextOp(task, pc), r, t', n.final);
      }
    }
  }

  // ---- What lies below the target of an upload ----

  /** A node below the target, or below its place aside, is neither a slot nor
      below the temporary file. */
  lemma BelowIsApart(n: Slots, k: Path)
    requires Apart(n) && Strictly(n.final, k)
    ensures !(n.tmp <= k) && !(n.backup <= k) && !(n.tmp <= Beside(n, k)) && !(n.final <= Beside(n, k))
    ensures Strictly(n.backup, Beside(n, k)) && Beside(n, k)[|n.backup|..] == k[|n.final|..]
    ensures n.final + Beside(n, k)[|n.backup|..] == k
  {
    var b := Beside(n, k);
    if n.tmp <= k { PrefixesCompare(n.tmp, n.final, k); }
    if n.backup <= k { PrefixesCompare(n.backup, n.final, k); }
    if n.tmp <= b { PrefixesCompare(n.tmp, n.backup, b); }
    if n.final <= b { PrefixesCompare(n.final, n.backup, b); }
    assert |b| > |n.backup|;
  }

  lemma NothingBelowFile(t: Tree, a: Path, k: Path)
    requires WellFormed(t) && a != [] && (a in t ==> t[a].File?) && Strictly(a, k)
    ensures k !in t
  {
    if k in t {
      AncestorsExist(t, k, a);
    }
  }

  /** The park: what lay below the target lies below the backup. */
  lemma ParkHouses(n: Slots, t0: Tree, t: Tree, k: Path)
    requires Apart(n) && WellFormed(t) && n.backup != [] && Strictly(n.final, k)
    requires Enabled(false, t, Rename(n.final, n.backup)) && HousedAt(n, t0, t, k)
    ensures HousedAt(n, t0, Move(t, n.final, n.backup), k) && AsideAt(n, t0, Move(t, n.final, n.backup), k)
  {
    BelowIsApart(n, k);
    NothingBelowFile(t, n.backup, Beside(n, k));
    MovedTo(t, n.final, n.backup, k);
    MovedTo(t, n.final, n.backup, Beside(n, k));
  }

  /** Moving the upload into place touches neither. */
  lemma PlaceHouses(n: Slots, t0: Tree, t: Tree, k: Path)
    requires Apart(n) && WellFormed(t) && n.tmp != [] && n.final != [] && Strictly(n.final, k)
    requires Enabled(false, t, Rename(n.tmp, n.final)) && t[n.tmp].File? && HousedAt(n, t0, t, k)
    ensures HousedAt(n, t0, Move(t, n.tmp, n.final), k)
    ensures AsideAt(n, t0, t, k) ==> AsideAt(n, t0, Move(t, n.tmp, n.final), k)
  {
    BelowIsApart(n, k);
    NothingBelowFile(t, n.final, k);
    assert Strictly(n.tmp, n.tmp + k[|n.final|..]);
    NothingBelowFile(t, n.tmp, n.tmp + k[|n.final|..]);
    MovedTo(t, n.tmp, n.final, k);
    MovedTo(t, n.tmp, n.final, Beside(n, k));
  }

  /** Moving the old one back brings back what lay below it. */
  lemma RestoreHouses(n: Slots, t0: Tree, t: Tree, k: Path)
    requires Apart(n) && WellFormed(t) && n.final != [] && Strictly(n.final, k)
    requires Enabled(false, t, Rename(n.backup, n.final)) && HousedAt(n, t0, t, k) && AsideAt(n, t0, t, k)
    ensures HousedAt(n, t0, Move(t, n.backup, n.final), k)
  {
    BelowIsApart(n, k);
    NothingBelowFile(t, n.final, k);
    MovedTo(t, n.backup, n.final, k);
    assert n.backup + k[|n.final|..] == Beside(n, k);
  }

  lemma RenameMoves(t: Tree, a: Path, b: Path, r: Reply, t': Tree)
    requires Step(false, t, Rename(a, b), r, t')
    ensures (t' == t && !r.Ok?) || (Enabled(false, t, Rename(a, b)) && t' == Move(t, a, b))
  {
  }

  lemma HousedPark(task: Task, t0: Tree, t: Tree, r: Reply, t': Tree)
    requires task.Upload? && WellShaped(task) && WellFormed(t) && Housed(false, task, t0, t)
    requires Step(false, t, Rename(task.slots.final, task.slots.backup), r, t')
    ensures Housed(false, task, t0, t') && (r.Ok? ==> AllAside(task.slots, t0, t'))
  {
    var n := task.slots;
    RenameMoves(t, n.final, n.backup, r, t');
    if t' != t || r.Ok? {
      forall k | Strictly(n.final, k) ensures HousedAt(n, t0, t', k) && AsideAt(n, t0, t', k) {
        ParkHouses(n, t0, t, k);
      }
    }
  }

  lemma HousedPlace(task: Task, t0: Tree, t: Tree, r: Reply, t': Tree)
    requires task.Upload? && WellShaped(task) && WellFormed(t) && Housed(false, task, t0, t)
    requires FileAt(t, task.slots.tmp) == Some(task.data)
    requires Step(false, t, Rename(task.slots.tmp, task.slots.final), r, t')
    ensures Housed(false, task, t0, t')
    ensures AllAside(task.slots, t0, t) ==> AllAside(task.slots, t0, t')
  {
    var n := task.slots;
    RenameMoves(t, n.tmp, n.final, r, t');
    if t' != t {
      forall k | Strictly(n.final, k)
        ensures HousedAt(n, t0, t', k) && (AsideAt(n, t0, t, k) ==> AsideAt(n, t0, t', k))
      {
        PlaceHouses(n, t0, t, k);
      }
    }
  }

  lemma HousedRestore(task: Task, t0: Tree, t: Tree, r: Reply, t': Tree)
    requires task.Upload? && WellShaped(task) && WellFormed(t) && Housed(false, task, t0, t)
    requires AllAside(task.slots, t0, t)
    requires Step(false, t, Rename(task.slots.backup, task.slots.final), r, t')
    ensures Housed(false, task, t0, t')
  {
    var n := task.slots;
    RenameMoves(t, n.backup, n.final, r, t');
    if t' != t {
      forall k | Strictly(n.final, k) ensures HousedAt(n, t0, t', k) {
        RestoreHouses(n, t0, t, k);
      }
    }
  }

  /** Any other request leaves alone what lies below the target or the backup. */
  lemma HousedOther(task: Task, pc: Pc, t0: Tree, t: Tree, r: Reply, t': Tree)
    requires task.Upload? && WellShaped(task) && Housed(false, task, t0, t)
    requires Asking(task, pc) && !NextOp(task, pc).Rename? && Step(false, t, NextOp(task, pc), r, t')
    ensures Housed(false, task, t0, t')
  {
    var n := task.slots;
    forall k | Strictly(n.final, k) ensures HousedAt(n, t0, t', k) {
      assert HousedAt(n, t0, t, k);
      BelowIsApart(n, k);
      OffSlotsSame(n, NextOp(task, pc), t, r, t', k);
      OffSlotsSame(n, NextOp(task, pc), t, r, t', Beside(n, k));
    }
  }

  lemma OffSlotsSame(n: Slots, op: Op, t: Tree, r: Reply, t': Tree, k: Path)
    requires k != n.tmp && k != n.backup && Step(false, t, op, r, t')
    requires op.PosixRename? || op.Stat? || ((op.Remove? || op.Write?) && op.path in {n.tmp, n.backup})
    ensures Same(t, t', k)
  {
    if op.Remove? || op.Write? {
      StepFrame(false, t, op, r, t', k);
    }
  }

  lemma MovesBackAfter(task: Task, pc: Pc, r: Reply, announced: bool)
    requires Asking(task, pc) && MovesBack(After(task, pc, r, announced))
    ensures (pc == Pub(Park) && r.Ok?) || pc == Pub(Place(true))
  {
  }

  lemma HousedPublish(task: Task, g: Stage, t0: Tree, t: Tree, r: Reply, t': Tree)
    requires task.Upload? && WellShaped(task) && WellFormed(t) && LocalInv(false, task, Pub(g), t)
    requires g.Park? || g.Place? || g.Restore?
    requires Step(false, t, Request(g, task.slots), r, t')
    requires Housed(false, task, t0, t) && (g.Restore? ==> AllAside(task.slots, t0, t))
    ensures Housed(false, task, t0, t')
    ensures (g.Park? && r.Ok?) || (g.Place? && AllAside(task.slots, t0, t)) ==> AllAside(task.slots, t0, t')
  {
    if g.Park? {
      HousedPark(task, t0, t, r, t');
    } else if g.Place? {
      HousedPlace(task, t0, t, r, t');
    } else {
      HousedRestore(task, t0, t, r, t');
    }
  }

  lemma HousedStep(ext: bool, announced: bool, task: Task, pc: Pc, t0: Tree, t: Tree, r: Reply, t': Tree)
    requires WellShaped(task) && WellFormed(t) && LocalInv(ext, task, pc, t) && Asking(task, pc)
    requires Step(ext, t, NextOp(task, pc), r, t') && Housed(ext, task, t0, t) && SetAside(ext, task, pc, t0, t)
    ensures Housed(ext, task, t0, t') && SetAside(ext, task, After(task, pc, r, announced), t0, t')
  {
    if !ext && task.Upload? {
      if MovesBack(After(task, pc, r, announced)) {
        MovesBackAfter(task, pc, r, announced);
      }
      if pc.Pub? && (pc.stage.Park? || pc.stage.Place? || pc.stage.Restore?) {
        HousedPublish(task, pc.stage, t0, t, r, t');
      } else {
        HousedOther(task, pc, t0, t, r, t');
      }
    }
  }

  /** No other worker owns anything below the target or the backup. */
  lemma BelowIsOwn(tasks: seq<Task>, i: nat, j: nat, k: Path)
    requires Independent(false, tasks) && i < |tasks| && j < |tasks| && i != j && tasks[j].Upload?
    requires tasks[j].slots.final <= k || tasks[j].slots.backup <= k
    ensures !Owned(false, tasks[i], k)
  {
    var n := tasks[j].slots;
    if Owned(false, tasks[i], k) {
      var a := if n.final <= k then n.final else n.backup;
      assert Cell(tasks[j], a);
      if tasks[i].Drop? {
        assert Cell(tasks[i], k) && Owned(false, tasks[j], k);
      } else {
        var o := tasks[i].slots;
        var b := if o.final <= k then o.final else if o.tmp <= k then o.tmp else o.backup;
        assert Cell(tasks[i], b);
        assert !Owned(false, tasks[i], a) && !Owned(false, tasks[j], b);
        PrefixesCompare(a, b, k);
      }
    }
  }

  lemma OtherHoused(ext: bool, tasks: seq<Task>, i: nat, j: nat, pc: Pc, t0: Tree, t: Tree, t': Tree)
    requires Independent(ext, tasks) && i < |tasks| && j < |tasks| && i != j
    requires forall k :: !Owned(ext, tasks[i], k) ==> Same(t, t', k)
    ensures Housed(ext, tasks[j], t0, t) ==> Housed(ext, tasks[j], t0, t')
    ensures SetAside(ext, tasks[j], pc, t0, t) ==> SetAside(ext, tasks[j], pc, t0, t')
  {
    if !ext && tasks[j].Upload? {
      var n := tasks[j].slots;
      forall k | Strictly(n.final, k)
        ensures HousedAt(n, t0, t, k) ==> HousedAt(n, t0, t', k)
        ensures AsideAt(n, t0, t, k) ==> AsideAt(n, t0, t', k)
      {
        BelowIsOwn(tasks, i, j, k);
        BelowIsOwn(tasks, i, j, Beside(n, k));
      }
    }
  }

  lemma ThrivingPark(ext: bool, announced: bool, task: Task, t: Tree, r: Reply, t': Tree)
    requires task.Upload? && WellShaped(task) && WellFormed(t)
    requires LocalInv(ext, task, Pub(Park), t) && Thriving(ext, task, Pub(Park), t)
    requires Step(ext, t, NextOp(task, Pub(Park)), r, t') && Prompt(ext, t, NextOp(task, Pub(Park)), r, t')
    ensures Thriving(ext, task, After(task, Pub(Park), r, announced), t')
  {
    var n := task.slots;
    assert !(n.final <= Parent(n.final)) && !(n.backup <= Parent(n.final));
    StepFrame(ext, t, Rename(n.final, n.backup), r, t', Parent(n.final));
    RenameOutcome(ext, n, t, n.final, n.backup, n.tmp, r, t');
  }

  lemma ThrivingRename(ext: bool, announced: bool, task: Task, pc: Pc, t: Tree, r: Reply, t': Tree)
    requires task.Upload? && WellShaped(task) && WellFormed(t) && pc.Pub? && (pc.stage.Park? || pc.stage.Place?)
    requires LocalInv(ext, task, pc, t) && Thriving(ext, task, pc, t)
    requires Step(ext, t, NextOp(task, pc), r, t') && Prompt(ext, t, NextOp(task, pc), r, t')
    ensures Thriving(ext, task, After(task, pc, r, announced), t')
  {
    if pc.stage.Park? {
      ThrivingPark(ext, announced, task, t, r, t');
    } else {
      ThrivingPlace(ext, announced, task, pc, t, r, t');
    }
  }

  lemma ThrivingPlace(ext: bool, announced: bool, task: Task, pc: Pc, t: Tree, r: Reply, t': Tree)
    requires task.Upload? && WellShaped(task) && WellFormed(t) && pc.Pub? && pc.stage.Place?
    requires LocalInv(ext, task, pc, t) && Thriving(ext, task, pc, t)
    requires Step(ext, t, NextOp(task, pc), r, t') && Prompt(ext, t, NextOp(task, pc), r, t')
    ensures Thriving(ext, task, After(task, pc, r, announced), t')
  {
    var n := task.slots;
    ParentKept(ext, n, n.tmp, n.final, t, r, t');
    RenameOutcome(ext, n, t, n.tmp, n.final, n.backup, r, t');
  }

  /** Renaming one of the three names to another leaves their directory. */
  lemma ParentKept(ext: bool, n: Slots, a: Path, b: Path, t: Tree, r: Reply, t': Tree)
    requires Apart(n) && n.final != [] && Step(ext, t, Rename(a, b), r, t') && !(a <= Parent(n.final)) && !(b <= Parent(n.final))
    ensures Same(t, t', Parent(n.final))
  {
    StepFrame(ext, t, Rename(a, b), r, t', Parent(n.final));
  }

  lemma ThrivingOther(ext: bool, announced: bool, task: Task, pc: Pc, t: Tree, r: Reply, t': Tree)
    requires task.Upload? && WellShaped(task) && (ext ==> announced)
    requires pc.Pub? && (pc.stage.TryPosix? || pc.stage.DropOldBackup? || pc.stage.AskAbsent? || pc.stage.DropBackup?)
    requires LocalInv(ext, task, pc, t) && Thriving(ext, task, pc, t)
    requires Step(ext, t, NextOp(task, pc), r, t') && Prompt(ext, t, NextOp(task, pc), r, t')
    ensures Thriving(ext, task, After(task, pc, r, announced), t')
  {
    var n := task.slots;
    match pc.stage
    case TryPosix => assert t' == if ext then (t - {n.tmp})[n.final := t[n.tmp]] else t;
    case AskAbsent => assert t' == t;
    case DropOldBackup => assert t' == t - {n.backup};
    case DropBackup => assert t' == t - {n.backup};
  }

  lemma ThrivingStep(ext: bool, announced: bool, task: Task, pc: Pc, t: Tree, r: Reply, t': Tree)
    requires WellShaped(task) && (ext ==> announced) && WellFormed(t)
    requires LocalInv(ext, task, pc, t) && Asking(task, pc) && Thriving(ext, task, pc, t)
    requires Step(ext, t, NextOp(task, pc), r, t') && Prompt(ext, t, NextOp(task, pc), r, t')
    ensures Thriving(ext, task, After(task, pc, r, announced), t')
  {
    if task.Upload? {
      if pc.Pub? {
        if pc.stage.Park? || pc.stage.Place? {
          ThrivingRename(ext, announced, task, pc, t, r, t');
        } else {
          ThrivingOther(ext, announced, task, pc, t, r, t');
        }
      } else {
        StepFrame(ext, t, NextOp(task, pc), r, t', Parent(task.slots.final));
      }
    }
  }

  // ---- The pool ----

  ghost predicate PoolInv(ext: bool, tasks: seq<Task>, pcs: seq<Pc>, t0: Tree, t: Tree) {
    && |pcs| == |tasks|
    && (forall i :: 0 <= i < |tasks| ==> LocalInv(ext, tasks[i], pcs[i], t) && SetAside(ext, tasks[i], pcs[i], t0, t))
    && PoolFrame(ext, tasks, t0, t)
  }

  ghost predicate AllGone(tasks: seq<Task>, pcs: seq<Pc>, t: Tree) {
    |pcs| == |tasks| && forall i :: 0 <= i < |tasks| ==> Gone(tasks[i], pcs[i], t)
  }

  ghost predicate AllThriving(ext: bool, tasks: seq<Task>, pcs: seq<Pc>, t: Tree) {
    |pcs| == |tasks| && forall i :: 0 <= i < |tasks| ==> Thriving(ext, tasks[i], pcs[i], t)
  }

  ghost predicate AllReady(tasks: seq<Task>, t: Tree) {
    forall i :: 0 <= i < |tasks| ==> Ready(tasks[i], t)
  }

  lemma OwnStepFrame(ext: bool, task: Task, pc: Pc, t: Tree, r: Reply, t': Tree)
    requires LocalInv(ext, task, pc, t) && Asking(task, pc) && Step(ext, t, NextOp(task, pc), r, t')
    ensures forall k :: !Owned(ext, task, k) ==> Same(t, t', k)
  {
    forall k | !Owned(ext, task, k) ensures Same(t, t', k) {
      if Touches(NextOp(task, pc), k) {
        TouchesOwned(ext, task, pc, k);
      }
      StepFrame(ext, t, NextOp(task, pc), r, t', k);
    }
  }

  lemma OthersKept(ext: bool, tasks: seq<Task>, i: nat, j: nat, t: Tree, t': Tree)
    requires Independent(ext, tasks) && i < |tasks| && j < |tasks| && i != j
    requires forall k :: !Owned(ext, tasks[i], k) ==> Same(t, t', k)
    ensures forall k :: Cell(tasks[j], k) ==> Same(t, t', k)
  {
    forall k | Cell(tasks[j], k) ensures Same(t, t', k) {
      assert !Owned(ext, tasks[i], k);
    }
  }

  /** A change confined to worker `i` keeps the invariant of the whole pool: the
      other workers do not notice. */
  lemma PoolTurn(ext: bool, tasks: seq<Task>, pcs: seq<Pc>, t0: Tree, i: nat, pc: Pc, t: Tree, t': Tree)
    requires Independent(ext, tasks) && PoolInv(ext, tasks, pcs, t0, t) && i < |tasks|
    requires forall k :: !Owned(ext, tasks[i], k) ==> Same(t, t', k)
    requires LocalInv(ext, tasks[i], pc, t') && Steady(ext, tasks[i], t0, t')
    requires Housed(ext, tasks[i], t0, t') && SetAside(ext, tasks[i], pc, t0, t')
    ensures PoolInv(ext, tasks, pcs[i := pc], t0, t')
    ensures AllGone(tasks, pcs, t) && Gone(tasks[i], pc, t') ==> AllGone(tasks, pcs[i := pc], t')
    ensures AllThriving(ext, tasks, pcs, t) && Thriving(ext, tasks[i], pc, t') ==> AllThriving(ext, tasks, pcs[i := pc], t')
  {
    forall j | 0 <= j < |tasks| && j != i
      ensures LocalInv(ext, tasks[j], pcs[j], t')
      ensures Gone(tasks[j], pcs[j], t) ==> Gone(tasks[j], pcs[j], t')
      ensures Thriving(ext, tasks[j], pcs[j], t) ==> Thriving(ext, tasks[j], pcs[j], t')
      ensures Steady(ext, tasks[j], t0, t') && Housed(ext, tasks[j], t0, t') && SetAside(ext, tasks[j], pcs[j], t0, t')
    {
      OtherHoused(ext, tasks, i, j, pcs[j], t0, t, t');
      OthersKept(ext, tasks, i, j, t, t');
      OtherStep(ext, tasks[j], pcs[j], t, t');
      assert Steady(ext, tasks[j], t0, t);
      assert if tasks[j].Upload? then Cell(tasks[j], tasks[j].slots.final) else Cell(tasks[j], tasks[j].path);
    }
    forall k | !OwnedBySome(ext, tasks, k) ensures Same(t0, t', k) {
      assert !Owned(ext, tasks[i], k);
      assert Same(t0, t, k);
    }
  }

  lemma AfterRank(task: Task, pc: Pc, r: Reply, announced: bool)
    requires Asking(task, pc)
    ensures Rank(After(task, pc, r, announced)) < Rank(pc)
  {
  }

  /** Sends the next request of one worker. */
  method SendNext(s: Server, task: Task, pc: Pc, ghost t0: Tree) returns (pc': Pc)
    requires s.Valid() && WellShaped(task) && Asking(task, pc)
    requires LocalInv(s.ext, task, pc, s.tree) && Steady(s.ext, task, t0, s.tree)
    requires Housed(s.ext, task, t0, s.tree) && SetAside(s.ext, task, pc, t0, s.tree)
    modifies s`tree, s`trace
    ensures s.Valid() && s.trace == old(s.trace) + [s.tree]
    ensures LocalInv(s.ext, task, pc', s.tree) && Steady(s.ext, task, t0, s.tree)
    ensures Housed(s.ext, task, t0, s.tree) && SetAside(s.ext, task, pc', t0, s.tree)
    ensures forall k :: !Owned(s.ext, task, k) ==> Same(old(s.tree), s.tree, k)
    ensures s.candid ==> Gone(task, pc', s.tree)
    ensures s.reliable && Thriving(s.ext, task, pc, old(s.tree)) ==> Thriving(s.ext, task, pc', s.tree)
    ensures Rank(pc') < Rank(pc)
  {
    ghost var t := s.tree;
    var r := s.Execute(NextOp(task, pc));
    pc' := After(task, pc, r, s.announced);
    AfterRank(task, pc, r, s.announced);
    OwnStep(s.ext, s.announced, task, pc, t, r, s.tree);
    OwnStepFrame(s.ext, task, pc, t, r, s.tree);
    SteadyStep(s.ext, task, pc, t0, t, r, s.tree);
    HousedStep(s.ext, s.announced, task, pc, t0, t, r, s.tree);
    if s.reliable && Thriving(s.ext, task, pc, t) {
      ThrivingStep(s.ext, s.announced, task, pc, t, r, s.tree);
    }
  }

  /** What holds of one worker, whatever the others do. */
  ghost predicate Working(ext: bool, task: Task, pc: Pc, t0: Tree, t: Tree) {
    && LocalInv(ext, task, pc, t) && Steady(ext, task, t0, t)
    && Housed(ext, task, t0, t) && SetAside(ext, task, pc, t0, t)
  }

  /** One step of one worker: it may be cancelled, start, start over, or send its
      next request. */
  method WorkerTurn(s: Server, task: Task, pc: Pc, lives: nat, ghost t0: Tree) returns (pc': Pc, left: nat)
    requires s.Valid() && WellShaped(task) && !Stopped(pc) && Working(s.ext, task, pc, t0, s.tree)
    modifies s`tree, s`trace
    ensures s.Valid() && Working(s.ext, task, pc', t0, s.tree)
    ensures s.trace == old(s.trace) || s.trace == old(s.trace) + [s.tree]
    ensures forall k :: !Owned(s.ext, task, k) ==> Same(old(s.tree), s.tree, k)
    ensures s.candid && Gone(task, pc, old(s.tree)) ==> Gone(task, pc', s.tree)
    ensures s.reliable && Thriving(s.ext, task, pc, old(s.tree)) ==> Thriving(s.ext, task, pc', s.tree)
    ensures left < lives || (left == lives && Rank(pc') < Rank(pc))
  {
    left := lives;
    var cancelled: bool := *;
    if cancelled && !s.reliable {
      pc' := Bad;
    } else if pc.Idle? {
      pc' := FirstPc(task, false);
    } else if pc.Again? {
      pc' := if lives > 0 then FirstPc(task, true) else Bad;
      left := if lives > 0 then lives - 1 else 0;
    } else {
      pc' := SendNext(s, task, pc, t0);
    }
  }

  /** One turn of the scheduler for worker `i`: it starts, restarts, sends its
      next request, or is cancelled. */
  method Turn(s: Server, tasks: seq<Task>, pcs: seq<Pc>, i: nat, lives: nat, ghost t0: Tree) returns (pc: Pc, left: nat)
    requires s.Valid() && Independent(s.ext, tasks) && PoolInv(s.ext, tasks, pcs, t0, s.tree)
    requires i < |tasks| && !Stopped(pcs[i])
    modifies s`tree, s`trace
    ensures s.Valid() && PoolInv(s.ext, tasks, pcs[i := pc], t0, s.tree)
    ensures s.trace == old(s.trace) || s.trace == old(s.trace) + [s.tree]
    ensures s.candid && AllGone(tasks, pcs, old(s.tree)) ==> AllGone(tasks, pcs[i := pc], s.tree)
    ensures s.reliable && AllThriving(s.ext, tasks, pcs, old(s.tree)) ==> AllThriving(s.ext, tasks, pcs[i := pc], s.tree)
    ensures left < lives || (left == lives && Rank(pc) < Rank(pcs[i]))
  {
    ghost var t := s.tree;
    OneWorks(s.ext, tasks, pcs, i, t0, t);
    pc, left := WorkerTurn(s, tasks[i], pcs[i], lives, t0);
    PoolTurn(s.ext, tasks, pcs, t0, i, pc, t, s.tree);
  }

  lemma OneWorks(ext: bool, tasks: seq<Task>, pcs: seq<Pc>, i: nat, t0: Tree, t: Tree)
    requires PoolInv(ext, tasks, pcs, t0, t) && i < |tasks|
    ensures Working(ext, tasks[i], pcs[i], t0, t)
  {
    assert Steady(ext, tasks[i], t0, t) && Housed(ext, tasks[i], t0, t);
  }

  /** Lets the workers run, in any order, until all have stopped. */
  method RunWorkers(s: Server, tasks: seq<Task>) returns (pcs: seq<Pc>)
    requires s.Valid() && Independent(s.ext, tasks)
    modifies s`tree, s`trace
    ensures s.Valid() && PoolInv(s.ext, tasks, pcs, old(s.tree), s.tree) && forall i :: 0 <= i < |tasks| ==> Stopped(pcs[i])
    ensures old(s.trace) <= s.trace
    ensures forall j :: |old(s.trace)| <= j < |s.trace| ==> PoolFrame(s.ext, tasks, old(s.tree), s.trace[j])
    ensures s.candid ==> AllGone(tasks, pcs, s.tree)
    ensures s.reliable && AllReady(tasks, old(s.tree)) ==> AllThriving(s.ext, tasks, pcs, s.tree)
  {
    ghost var t0 := s.tree;
    var n := |tasks|;
    pcs := seq(n, i => Idle);
    var lives: nat := *;
    while exists i :: 0 <= i < n && !Stopped(pcs[i])
      invariant s.Valid() && PoolInv(s.ext, tasks, pcs, t0, s.tree)
      invariant old(s.trace) <= s.trace
      invariant forall j :: |old(s.trace)| <= j < |s.trace| ==> PoolFrame(s.ext, tasks, t0, s.trace[j])
      invariant s.candid ==> AllGone(tasks, pcs, s.tree)
      invariant s.reliable && AllReady(tasks, t0) ==> AllThriving(s.ext, tasks, pcs, s.tree)
      decreases lives, TotalRank(pcs)
    {
      var i :| 0 <= i < n && !Stopped(pcs[i]);
      var pc, left := Turn(s, tasks, pcs, i, lives, t0);
      TotalRankUpdate(pcs, i, pc);
      pcs, lives := pcs[i := pc], left;
    }
  }

  /** Runs the tasks. `done[i]` says that task `i` completed; the run is
      successful when all of them did. Workers may be cancelled at any moment,
      and a failed attempt is retried while the budget lasts. A completed upload
      is in place; a completed deletion took effect if the server is candid. */
  method RunPool(s: Server, tasks: seq<Task>) returns (done: seq<bool>, ok: bool)
    requires s.Valid() && Independent(s.ext, tasks)
    modifies s`tree, s`trace
    ensures s.Valid() && |done| == |tasks|
    ensures ok <==> forall i :: 0 <= i < |tasks| ==> done[i]
    ensures forall i :: 0 <= i < |tasks| && done[i] && (tasks[i].Upload? || s.candid) ==> Achieved(tasks[i], s.tree)
    ensures old(s.trace) <= s.trace
    ensures forall j :: |old(s.trace)| <= j < |s.trace| ==> PoolFrame(s.ext, tasks, old(s.tree), s.trace[j])
    ensures PoolFrame(s.ext, tasks, old(s.tree), s.tree)
    ensures s.reliable && AllReady(tasks, old(s.tree)) ==>
              ok && forall i :: 0 <= i < |tasks| ==> TempsGone(s.ext, tasks[i], s.tree)
  {
    var pcs := RunWorkers(s, tasks);
    assert forall i :: 0 <= i < |tasks| ==> LocalInv(s.ext, tasks[i], pcs[i], s.tree);
    done := seq(|tasks|, i requires 0 <= i < |pcs| => pcs[i].Done?);
    ok := forall i :: 0 <= i < |tasks| ==> done[i];
  }
}

/** When a deletion reported as done really is one (remoteAbsent as the arbiter
    of a remove that failed without saying why). */
module DropFlags {
  import opened RemoteTree
  import opened WorkerPool

  /** The answers a server gives to Lstat: `habit(t, p, r)` says that asked for
      `p` on the tree `t` it may answer `r`. */
  type Habit = (Tree, Path, Reply) -> bool

  datatype Config = Config(pc: Pc, tree: Tree)

  /** One request of the worker that deletes `p`, or the start of a retry. */
  ghost predicate Next(ext: bool, habit: Habit, p: Path, c: Config, c': Config) {
    || (c.pc.Again? && c' == Config(DropTry, c.tree))
    || (Asking(Drop(p), c.pc) && exists r: Reply ::
          && Step(ext, c.tree, NextOp(Drop(p), c.pc), r, c'.tree)
          && (c.pc.DropAsk? ==> habit(c.tree, p, r))
          && c'.pc == After(Drop(p), c.pc, r, ext))
  }

  ghost predicate IsRun(ext: bool, habit: Habit, p: Path, run: seq<Config>) {
    && run != [] && run[0].pc.DropTry?
    && forall i :: 0 <= i < |run| - 1 ==> Next(ext, habit, p, run[i], run[i + 1])
  }

  /** The flag of the worker is true in all of its runs. */
  ghost predicate FlagIsTrue(ext: bool, habit: Habit) {
    forall p, run: seq<Config>, i: nat | IsRun(ext, habit, p, run) && i < |run| :: run[i].pc.Done? ==> p !in run[i].tree
  }

  /** It answers Lstat with a generic failure (within the fault model) only where
      nothing is. */
  ghost predicate GenericMeansAbsent(ext: bool, habit: Habit) {
    forall t, p, r :: habit(t, p, r) && Generic(r) && Step(ext, t, Stat(p), r, t) ==> p !in t
  }

  lemma DoneMeansGone(ext: bool, habit: Habit, p: Path, c: Config, c': Config)
    requires GenericMeansAbsent(ext, habit) && Next(ext, habit, p, c, c') && c'.pc.Done?
    ensures p !in c'.tree
  {
    var r: Reply :| Step(ext, c.tree, NextOp(Drop(p), c.pc), r, c'.tree) && (c.pc.DropAsk? ==> habit(c.tree, p, r))
                    && c'.pc == After(Drop(p), c.pc, r, ext);
  }

  /** A remove that fails with a generic status and an Lstat that does so too
      make a file that is still there count as deleted. */
  lemma ClaimedButThere(ext: bool, habit: Habit, t: Tree, p: Path, r: Reply) returns (run: seq<Config>)
    requires habit(t, p, r) && Generic(r) && Step(ext, t, Stat(p), r, t) && p in t
    ensures IsRun(ext, habit, p, run) && |run| == 3 && run[2] == Config(Done, t)
  {
    assert Step(ext, t, Remove(p), Failed, t);
    var c0, c1, c2 := Config(DropTry, t), Config(DropAsk(false), t), Config(Done, t);
    assert After(Drop(p), DropTry, Failed, ext) == DropAsk(false) && After(Drop(p), DropAsk(false), r, ext) == Done;
    assert Next(ext, habit, p, c0, c1) && Next(ext, habit, p, c1, c2);
    run := [c0, c1, c2];
  }

  /** The flag is true in every run exactly when the server answers Lstat with a
      generic failure for absent paths only. */
  lemma FlagIsTrueExactly(ext: bool, habit: Habit)
    ensures FlagIsTrue(ext, habit) <==> GenericMeansAbsent(ext, habit)
  {
    if GenericMeansAbsent(ext, habit) {
      forall p, run: seq<Config>, i: nat | IsRun(ext, habit, p, run) && i < |run| && run[i].pc.Done?
        ensures p !in run[i].tree
      {
        assert Next(ext, habit, p, run[i - 1], run[i - 1 + 1]);
        DoneMeansGone(ext, habit, p, run[i - 1], run[i]);
      }
    } else {
      var t, p, r :| habit(t, p, r) && Generic(r) && Step(ext, t, Stat(p), r, t) && p in t;
      var run := ClaimedButThere(ext, habit, t, p, r);
      assert run[2].pc.Done?;
    }
  }
}
