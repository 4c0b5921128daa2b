/**
Publishing an upload over a live file (renameReplace and
renameReplaceViaBackup). Each stage is one request; each arm of `Advance` is
one branch of the source, an early return being `Published` or `GaveUp`.
Keeping the stages explicit lets the requests of parallel workers interleave.
*/
module Publish {
  import opened Options
  import opened RemoteTree

  datatype Stage =
    | TryPosix              // posix-rename the upload over the target
    | DropOldBackup         // remove a backup an earlier run left behind
    | Park                  // move the live file aside
    | AskAbsent             // was the park refused, or was nothing there?
    | Place(parked: bool)   // move the upload into place
    | Restore               // move the live file back
    | DropBackup            // the upload is live, drop the backup
    | Published             // returned nil
    | GaveUp                // returned an error

  /** The three names one publish works with. */
  datatype Slots = Slots(final: Path, tmp: Path, backup: Path)

  predicate Finished(g: Stage) {
    g.Published? || g.GaveUp?
  }

  function Request(g: Stage, n: Slots): Op
    requires !Finished(g)
  {
    match g
    case TryPosix => PosixRename(n.tmp, n.final)
    case DropOldBackup => Remove(n.backup)
    case Park => Rename(n.final, n.backup)
    case AskAbsent => Stat(n.final)
    case Place(_) => Rename(n.tmp, n.final)
    case Restore => Rename(n.backup, n.final)
    case DropBackup => Remove(n.backup)
  }

  /** Does a failed posix-rename mean that the extension is missing? A generic
      failure only does when the server never announced it. */
  predicate PosixRenameUnsupported(r: Reply, announced: bool) {
    r.Unsupported? || (r.Failed? && !announced)
  }

  function Advance(g: Stage, r: Reply, announced: bool): Stage
    requires !Finished(g)
  {
    match g
    case TryPosix =>
      if r.Ok? then Published
      else if PosixRenameUnsupported(r, announced) then DropOldBackup
      else GaveUp
    case DropOldBackup => Park
    case Park => if r.Ok? then Place(true) else if r.NotExist? then Place(false) else AskAbsent
    case AskAbsent => if r.Ok? || r.Denied? || r.Lost? then GaveUp else Place(false)
    case Place(parked) => if r.Ok? then DropBackup else if parked then Restore else GaveUp
    case Restore => GaveUp
    case DropBackup => Published
  }

  /** No slot lies at or below another one. */
  predicate Apart(n: Slots) {
    && !(n.final <= n.tmp) && !(n.tmp <= n.final)
    && !(n.final <= n.backup) && !(n.backup <= n.final)
    && !(n.tmp <= n.backup) && !(n.backup <= n.tmp)
  }

  /** The live file is not lost: its old content is reachable under the target
      or the backup name, or the complete new content is at the target. */
  ghost predicate NotLost(n: Slots, old_: Data, new_: Data, t: Tree) {
    || FileAt(t, n.final) == Some(old_)
    || FileAt(t, n.backup) == Some(old_)
    || FileAt(t, n.final) == Some(new_)
  }

  ghost predicate Aside(n: Slots, old_: Data, t: Tree) {
    n.final !in t && FileAt(t, n.backup) == Some(old_)
  }

  /** What holds when a stage is about to run. */
  ghost predicate StageInv(n: Slots, old_: Data, new_: Data, g: Stage, t: Tree) {
    match g
    case TryPosix => FileAt(t, n.final) == Some(old_) && FileAt(t, n.tmp) == Some(new_)
    case DropOldBackup => FileAt(t, n.final) == Some(old_) && FileAt(t, n.tmp) == Some(new_)
    case Park => FileAt(t, n.final) == Some(old_) && FileAt(t, n.tmp) == Some(new_)
    case AskAbsent =>
      FileAt(t, n.tmp) == Some(new_) && (FileAt(t, n.final) == Some(old_) || Aside(n, old_, t))
    case Place(parked) =>
      && FileAt(t, n.tmp) == Some(new_)
      && (Aside(n, old_, t) || (!parked && FileAt(t, n.final) == Some(old_)))
    case Restore => Aside(n, old_, t) || FileAt(t, n.final) == Some(new_)
    case DropBackup => FileAt(t, n.final) == Some(new_)
    case Published => FileAt(t, n.final) == Some(new_)
    case GaveUp => NotLost(n, old_, new_, t)
  }

  lemma StageInvNotLost(n: Slots, old_: Data, new_: Data, g: Stage, t: Tree)
    requires StageInv(n, old_, new_, g, t)
    ensures NotLost(n, old_, new_, t)
  {
  }

  /** A rename between two slots either did nothing or moved the node, and it
      leaves the third slot alone. */
  lemma RenameOutcome(ext: bool, n: Slots, t: Tree, a: Path, b: Path, c: Path, r: Reply, t': Tree)
    requires Apart(n) && {a, b, c} == {n.final, n.tmp, n.backup} && a != b && a != c && b != c
    requires Step(ext, t, Rename(a, b), r, t')
    ensures Same(t, t', c)
    ensures (t' == t && !r.Ok?) || (a in t && b !in t && b in t' && t'[b] == t[a] && a !in t')
  {
    assert a in {a, b, c} && b in {a, b, c} && c in {a, b, c};
    assert !(a <= b) && !(b <= a) && !(a <= c) && !(b <= c);
    if t' != t || r.Ok? {
      assert t' == Move(t, a, b);
      RenameEffect(t, a, b);
      MovedTo(t, a, b, c);
    }
  }

  lemma StepTryPosix(ext: bool, announced: bool, n: Slots, old_: Data, new_: Data, t: Tree, r: Reply, t': Tree)
    requires Apart(n) && (ext ==> announced)
    requires StageInv(n, old_, new_, TryPosix, t) && Step(ext, t, PosixRename(n.tmp, n.final), r, t')
    ensures StageInv(n, old_, new_, Advance(TryPosix, r, announced), t')
  {
    assert t' == t || t' == (t - {n.tmp})[n.final := t[n.tmp]];
  }

  lemma StepRename(ext: bool, announced: bool, n: Slots, old_: Data, new_: Data, g: Stage, t: Tree, r: Reply, t': Tree)
    requires Apart(n) && (g.Park? || g.Place? || g.Restore?)
    requires StageInv(n, old_, new_, g, t) && Step(ext, t, Request(g, n), r, t')
    ensures StageInv(n, old_, new_, Advance(g, r, announced), t')
  {
    match g
    case Park => RenameOutcome(ext, n, t, n.final, n.backup, n.tmp, r, t');
    case Place(_) => RenameOutcome(ext, n, t, n.tmp, n.final, n.backup, r, t');
    case Restore => RenameOutcome(ext, n, t, n.backup, n.final, n.tmp, r, t');
  }

  lemma StepRemoveOrStat(ext: bool, announced: bool, n: Slots, old_: Data, new_: Data, g: Stage, t: Tree, r: Reply, t': Tree)
    requires Apart(n) && (g.DropOldBackup? || g.AskAbsent? || g.DropBackup?)
    requires StageInv(n, old_, new_, g, t) && Step(ext, t, Request(g, n), r, t')
    ensures StageInv(n, old_, new_, Advance(g, r, announced), t')
  {
    StepFrame(ext, t, Request(g, n), r, t', n.final);
    StepFrame(ext, t, Request(g, n), r, t', n.tmp);
    if g.AskAbsent? {
      assert t' == t;
    }
  }

  /** One request, whatever the server answers and whether or not an unanswered
      request took effect, leads from what one stage needs to what the next needs. */
  lemma StageStep(ext: bool, announced: bool, n: Slots, old_: Data, new_: Data, g: Stage, t: Tree, r: Reply, t': Tree)
    requires Apart(n) && (ext ==> announced) && !Finished(g)
    requires StageInv(n, old_, new_, g, t) && Step(ext, t, Request(g, n), r, t')
    ensures StageInv(n, old_, new_, Advance(g, r, announced), t')
  {
    if g.TryPosix? {
      StepTryPosix(ext, announced, n, old_, new_, t, r, t');
    } else if g.Park? || g.Place? || g.Restore? {
      StepRename(ext, announced, n, old_, new_, g, t, r, t');
    } else {
      StepRemoveOrStat(ext, announced, n, old_, new_, g, t, r, t');
    }
  }

  datatype Config = Config(stage: Stage, tree: Tree)

  ghost predicate Next(ext: bool, announced: bool, n: Slots, c: Config, c': Config) {
    !Finished(c.stage) && exists r: Reply ::
      Step(ext, c.tree, Request(c.stage, n), r, c'.tree) && c'.stage == Advance(c.stage, r, announced)
  }

  ghost predicate IsRun(ext: bool, announced: bool, n: Slots, run: seq<Config>) {
    run != [] && forall i :: 0 <= i < |run| - 1 ==> Next(ext, announced, n, run[i], run[i + 1])
  }

  /** Publishing never loses the live file: in every run that starts with the
      live file present and the upload complete, after every request, whatever
      failed and whichever replies were lost. A nil result means that the target
      holds the new content. */
  lemma {:induction false} PublishNeverLoses(ext: bool, announced: bool, n: Slots, old_: Data, new_: Data, run: seq<Config>, i: nat)
    requires Apart(n) && (ext ==> announced) && IsRun(ext, announced, n, run) && i < |run|
    requires run[0].stage.TryPosix? || run[0].stage.DropOldBackup?
    requires FileAt(run[0].tree, n.final) == Some(old_) && FileAt(run[0].tree, n.tmp) == Some(new_)
    ensures NotLost(n, old_, new_, run[i].tree)
    ensures run[i].stage.Published? ==> FileAt(run[i].tree, n.final) == Some(new_)
  {
    RunKeepsStageInv(ext, announced, n, old_, new_, run, i);
    StageInvNotLost(n, old_, new_, run[i].stage, run[i].tree);
  }

  lemma {:induction false} RunKeepsStageInv(ext: bool, announced: bool, n: Slots, old_: Data, new_: Data, run: seq<Config>, i: nat)
    requires Apart(n) && (ext ==> announced) && IsRun(ext, announced, n, run) && i < |run|
    requires StageInv(n, old_, new_, run[0].stage, run[0].tree)
    ensures StageInv(n, old_, new_, run[i].stage, run[i].tree)
  {
    if i > 0 {
      RunKeepsStageInv(ext, announced, n, old_, new_, run, i - 1);
      var c, c' := run[i - 1], run[i];
      assert Next(ext, announced, n, run[i - 1], run[i - 1 + 1]);
      var r: Reply :| Step(ext, c.tree, Request(c.stage, n), r, c'.tree) && c'.stage == Advance(c.stage, r, announced);
      StageStep(ext, announced, n, old_, new_, c.stage, c.tree, r, c'.tree);
    }
  }

  /** The claim is per call. A publish that takes over from an interrupted one,
      with the old content reachable in some way but not at the target, can lose
      it; so every backup publish is safe exactly when the live file is present. */
  lemma SafeExactlyWhenLivePresent(n: Slots, old_: Data, new_: Data, t: Tree)
    requires Apart(n) && old_ != new_ && WellFormed(t) && n.final != [] && n.backup != []
    requires Parent(n.final) == Parent(n.backup)
    requires n.backup in t ==> t[n.backup].File?
    requires NotLost(n, old_, new_, t) && FileAt(t, n.tmp) == Some(new_)
    ensures (forall run: seq<Config> | IsRun(false, false, n, run) && run[0] == Config(DropOldBackup, t) ::
              forall i | 0 <= i < |run| :: NotLost(n, old_, new_, run[i].tree))
            <==> FileAt(t, n.final) == Some(old_)
  {
    if FileAt(t, n.final) == Some(old_) {
      forall run: seq<Config>, i | IsRun(false, false, n, run) && run[0] == Config(DropOldBackup, t) && 0 <= i < |run|
        ensures NotLost(n, old_, new_, run[i].tree)
      {
        PublishNeverLoses(false, false, n, old_, new_, run, i);
      }
    } else {
      var run := LosingRun(n, old_, new_, t);
      assert !NotLost(n, old_, new_, run[|run| - 1].tree);
    }
  }

  lemma LosingRun(n: Slots, old_: Data, new_: Data, t: Tree) returns (run: seq<Config>)
    requires Apart(n) && old_ != new_ && WellFormed(t) && n.final != [] && n.backup != []
    requires Parent(n.final) == Parent(n.backup)
    requires n.backup in t ==> t[n.backup].File?
    requires NotLost(n, old_, new_, t) && FileAt(t, n.final) != Some(old_)
    ensures IsRun(false, false, n, run) && run[0] == Config(DropOldBackup, t)
    ensures !NotLost(n, old_, new_, run[|run| - 1].tree)
  {
    var t1 := t - {n.backup};
    var c0, c1 := Config(DropOldBackup, t), Config(Park, t1);
    DropsBackup(n, t);
    if FileAt(t, n.final) == Some(new_) {
      var c2 := ParkMovesNew(n, new_, t, t1);
      run := [c0, c1, c2];
    } else {
      run := [c0, c1];
    }
  }

  lemma DropsBackup(n: Slots, t: Tree)
    requires n.backup in t ==> t[n.backup].File?
    ensures Next(false, false, n, Config(DropOldBackup, t), Config(Park, t - {n.backup}))
  {
    var r0 := if n.backup in t then Ok else NotExist;
    assert Step(false, t, Request(DropOldBackup, n), r0, t - {n.backup});
  }

  lemma ParkMovesNew(n: Slots, new_: Data, t: Tree, t1: Tree) returns (c2: Config)
    requires Apart(n) && WellFormed(t) && n.final != [] && n.backup != []
    requires Parent(n.final) == Parent(n.backup) && t1 == t - {n.backup}
    requires n.backup in t ==> t[n.backup].File?
    requires FileAt(t, n.final) == Some(new_)
    ensures Next(false, false, n, Config(Park, t1), c2) && c2.stage == Place(true)
    ensures FileAt(c2.tree, n.final) == None && FileAt(c2.tree, n.backup) == Some(new_)
  {
    RemoveWellFormed(t, n.backup, t1);
    var t2 := Move(t1, n.final, n.backup);
    assert Step(false, t1, Request(Park, n), Ok, t2);
    RenameOutcome(false, n, t1, n.final, n.backup, n.tmp, Ok, t2);
    c2 := Config(Place(true), t2);
  }
}
