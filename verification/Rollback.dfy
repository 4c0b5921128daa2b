/**
What a publish that gives up leaves at the target (renameReplaceViaBackup):
the previous file, moved back, unless the upload got there after all.
*/
module Rollback {
  import opened Options
  import opened RemoteTree
  import opened Publish

  /** One request that is carried out and answered as on a server that never
      fails, unless it is the one that moves the upload onto the target. */
  ghost predicate PromptNext(ext: bool, announced: bool, n: Slots, c: Config, c': Config) {
    !Finished(c.stage) && exists r: Reply ::
      && Step(ext, c.tree, Request(c.stage, n), r, c'.tree) && c'.stage == Advance(c.stage, r, announced)
      && (!c.stage.Place? ==> Prompt(ext, c.tree, Request(c.stage, n), r, c'.tree))
  }

  ghost predicate IsPromptRun(ext: bool, announced: bool, n: Slots, run: seq<Config>) {
    run != [] && forall i :: 0 <= i < |run| - 1 ==> PromptNext(ext, announced, n, run[i], run[i + 1])
  }

  /** The node at `a` moved to `b`. */
  ghost predicate Moved(c: Config, c': Config, a: Path, b: Path) {
    a in c.tree && b !in c.tree && c'.tree == Move(c.tree, a, b)
  }

  /** Some request moved the upload onto the target. */
  ghost predicate Placed(n: Slots, run: seq<Config>, j: nat)
    requires j < |run|
  {
    exists i :: 0 <= i < j && run[i].stage.Place? && Moved(run[i], run[i + 1], n.tmp, n.final)
  }

  /** A publish starts, over a live file and with the upload complete. */
  ghost predicate Starts(n: Slots, old_: Data, new_: Data, c: Config) {
    && (c.stage.TryPosix? || c.stage.DropOldBackup?)
    && FileAt(c.tree, n.final) == Some(old_) && FileAt(c.tree, n.tmp) == Some(new_)
  }

  /** What holds before a stage when only the move onto the target can fail. */
  ghost predicate LiveInv(n: Slots, old_: Data, new_: Data, placed: bool, c: Config) {
    var t := c.tree;
    && n.final != [] && IsDir(t, Parent(n.final))
    && (placed ==> c.stage.DropBackup? || c.stage.Restore? || Finished(c.stage))
    && (match c.stage
        case TryPosix | DropOldBackup | Park | AskAbsent =>
          FileAt(t, n.final) == Some(old_) && FileAt(t, n.tmp) == Some(new_)
        case Place(true) => Aside(n, old_, t) && FileAt(t, n.tmp) == Some(new_)
        case Place(false) => FileAt(t, n.final) == Some(old_)
        case Restore => if placed then FileAt(t, n.final) == Some(new_) else Aside(n, old_, t)
        case GaveUp => FileAt(t, n.final) == Some(if placed then new_ else old_)
        case DropBackup | Published => FileAt(t, n.final) == Some(new_))
  }

  lemma LiveRename(ext: bool, announced: bool, n: Slots, old_: Data, new_: Data, placed: bool, c: Config, r: Reply, c': Config)
    requires Apart(n) && (c.stage.Park? || c.stage.Restore?) && LiveInv(n, old_, new_, placed, c)
    requires Step(ext, c.tree, Request(c.stage, n), r, c'.tree) && c'.stage == Advance(c.stage, r, announced)
    requires Prompt(ext, c.tree, Request(c.stage, n), r, c'.tree)
    ensures LiveInv(n, old_, new_, placed, c')
  {
    if c.stage.Park? {
      RenameOutcome(ext, n, c.tree, n.final, n.backup, n.tmp, r, c'.tree);
      MovedTo(c.tree, n.final, n.backup, Parent(n.final));
    } else {
      RenameOutcome(ext, n, c.tree, n.backup, n.final, n.tmp, r, c'.tree);
      MovedTo(c.tree, n.backup, n.final, Parent(n.final));
    }
  }

  lemma LivePlace(ext: bool, announced: bool, n: Slots, old_: Data, new_: Data, placed: bool, c: Config, r: Reply, c': Config)
    requires Apart(n) && c.stage.Place? && LiveInv(n, old_, new_, placed, c)
    requires Step(ext, c.tree, Request(c.stage, n), r, c'.tree) && c'.stage == Advance(c.stage, r, announced)
    ensures LiveInv(n, old_, new_, Moved(c, c', n.tmp, n.final), c')
  {
    RenameOutcome(ext, n, c.tree, n.tmp, n.final, n.backup, r, c'.tree);
    MovedTo(c.tree, n.tmp, n.final, Parent(n.final));
  }

  lemma LiveOther(ext: bool, announced: bool, n: Slots, old_: Data, new_: Data, placed: bool, c: Config, r: Reply, c': Config)
    requires Apart(n) && (ext ==> announced) && LiveInv(n, old_, new_, placed, c)
    requires c.stage.TryPosix? || c.stage.DropOldBackup? || c.stage.AskAbsent? || c.stage.DropBackup?
    requires Step(ext, c.tree, Request(c.stage, n), r, c'.tree) && c'.stage == Advance(c.stage, r, announced)
    requires Prompt(ext, c.tree, Request(c.stage, n), r, c'.tree)
    ensures LiveInv(n, old_, new_, placed, c')
  {
    var k := Parent(n.final);
    if c.stage.TryPosix? {
      assert ext ==> Enabled(ext, c.tree, Request(c.stage, n));
      assert k != n.final && k != n.tmp;
    } else {
      StepFrame(ext, c.tree, Request(c.stage, n), r, c'.tree, n.final);
      StepFrame(ext, c.tree, Request(c.stage, n), r, c'.tree, n.tmp);
      assert n.backup != k;
      StepFrame(ext, c.tree, Request(c.stage, n), r, c'.tree, k);
    }
  }

  lemma {:induction false} LiveRun(ext: bool, announced: bool, n: Slots, old_: Data, new_: Data, run: seq<Config>, i: nat)
    requires Apart(n) && (ext ==> announced) && IsPromptRun(ext, announced, n, run) && i < |run|
    requires Starts(n, old_, new_, run[0]) && WellFormed(run[0].tree)
    ensures LiveInv(n, old_, new_, Placed(n, run, i), run[i])
  {
    if i > 0 {
      LiveRun(ext, announced, n, old_, new_, run, i - 1);
      var c, c' := run[i - 1], run[i];
      assert PromptNext(ext, announced, n, run[i - 1], run[i - 1 + 1]);
      var r: Reply :| Step(ext, c.tree, Request(c.stage, n), r, c'.tree) && c'.stage == Advance(c.stage, r, announced)
                      && (!c.stage.Place? ==> Prompt(ext, c.tree, Request(c.stage, n), r, c'.tree));
      if c.stage.Place? {
        LivePlace(ext, announced, n, old_, new_, Placed(n, run, i - 1), c, r, c');
        PlacedNext(n, run, i - 1, i);
      } else {
        PlacedNext(n, run, i - 1, i);
        if c.stage.Park? || c.stage.Restore? {
          LiveRename(ext, announced, n, old_, new_, Placed(n, run, i - 1), c, r, c');
        } else {
          LiveOther(ext, announced, n, old_, new_, Placed(n, run, i - 1), c, r, c');
        }
      }
    }
  }

  lemma PlacedNext(n: Slots, run: seq<Config>, i: nat, j: nat)
    requires j == i + 1 < |run|
    ensures Placed(n, run, j) <==>
            Placed(n, run, i) || (run[i].stage.Place? && Moved(run[i], run[j], n.tmp, n.final))
  {
    if run[i].stage.Place? && Moved(run[i], run[j], n.tmp, n.final) {
      assert Moved(run[i], run[i + 1], n.tmp, n.final);
    }
  }

  /** A publish that gives up puts the live file back. In every run in which
      only the move onto the target can fail, however it fails, the target is
      missing at no time but between the park and that move or the move back,
      and a run that gives up leaves the old content at the target, or the new
      one when the upload got there after all. */
  lemma GivingUpPutsBack(ext: bool, announced: bool, n: Slots, old_: Data, new_: Data, run: seq<Config>, i: nat)
    requires Apart(n) && (ext ==> announced) && IsPromptRun(ext, announced, n, run) && i < |run|
    requires Starts(n, old_, new_, run[0]) && WellFormed(run[0].tree)
    ensures n.final !in run[i].tree ==> run[i].stage == Place(true) || run[i].stage == Restore
    ensures run[i].stage.GaveUp? ==>
              FileAt(run[i].tree, n.final) == Some(if Placed(n, run, i) then new_ else old_)
  {
    LiveRun(ext, announced, n, old_, new_, run, i);
  }

  lemma PlaceOutcome(ext: bool, announced: bool, n: Slots, old_: Data, new_: Data, c: Config, c': Config)
    requires Apart(n) && Next(ext, announced, n, c, c') && StageInv(n, old_, new_, c.stage, c.tree)
    requires c.stage == Place(true) && c'.stage != DropBackup
    ensures c'.stage == Restore
    ensures if Moved(c, c', n.tmp, n.final) then FileAt(c'.tree, n.final) == Some(new_) else Aside(n, old_, c'.tree)
  {
    var r: Reply :| Step(ext, c.tree, Request(c.stage, n), r, c'.tree) && c'.stage == Advance(c.stage, r, announced);
    RenameOutcome(ext, n, c.tree, n.tmp, n.final, n.backup, r, c'.tree);
  }

  lemma RestoreOutcome(ext: bool, announced: bool, n: Slots, c: Config, c': Config)
    requires Apart(n) && Next(ext, announced, n, c, c') && c.stage == Restore
    ensures n.final in c.tree ==> c'.tree == c.tree
    ensures n.final !in c.tree ==>
              if Moved(c, c', n.backup, n.final) then FileAt(c'.tree, n.final) == FileAt(c.tree, n.backup)
              else n.final !in c'.tree
  {
    var r: Reply :| Step(ext, c.tree, Request(c.stage, n), r, c'.tree) && c'.stage == Advance(c.stage, r, announced);
    RenameOutcome(ext, n, c.tree, n.backup, n.final, n.tmp, r, c'.tree);
  }

  /** Whatever fails: a run that gave up after a park leaves the target missing
      exactly when neither the move onto it nor the move back took effect. */
  lemma MissingExactly(ext: bool, announced: bool, n: Slots, old_: Data, new_: Data, run: seq<Config>, i: nat)
    requires Apart(n) && (ext ==> announced) && IsRun(ext, announced, n, run) && old_ != new_
    requires Starts(n, old_, new_, run[0])
    requires i + 2 < |run| && run[i].stage == Place(true) && run[i + 2].stage.GaveUp?
    ensures var there := Moved(run[i], run[i + 1], n.tmp, n.final);
            var back := Moved(run[i + 1], run[i + 2], n.backup, n.final);
            && (n.final !in run[i + 2].tree <==> !there && !back)
            && (FileAt(run[i + 2].tree, n.final) == Some(new_) <==> there)
            && (FileAt(run[i + 2].tree, n.final) == Some(old_) <==> !there && back)
  {
    RunKeepsStageInv(ext, announced, n, old_, new_, run, i);
    var c, c', d := run[i], run[i + 1], run[i + 1 + 1];
    assert Next(ext, announced, n, run[i], run[i + 1]) && Next(ext, announced, n, run[i + 1], run[i + 1 + 1]);
    assert c'.stage != DropBackup;
    PlaceOutcome(ext, announced, n, old_, new_, c, c');
    RestoreOutcome(ext, announced, n, c', d);
  }
}
