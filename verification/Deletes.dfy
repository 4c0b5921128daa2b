/** The run-wide delete budget (safety.max_deletes). */
module DeleteBudgets {
  /**
  `limit` 0 means unlimited. The ghost fields say what `spent` is made of:
  batches charged in advance, and single charges that were not given back.
  */
  class DeleteBudget {
    const limit: nat
    var spent: nat
    ghost var reserved: nat
    ghost var taken: nat

    ghost predicate Valid()
      reads this
    {
      && spent == reserved + taken
      && (limit > 0 ==> spent <= limit)
    }

    /** Is there room for `n` more removals? */
    predicate Affords(n: nat)
      reads this
    {
      limit == 0 || spent + n <= limit
    }

    constructor (max: nat)
      ensures Valid() && limit == max && spent == 0 && reserved == 0 && taken == 0
    {
      limit := max;
      spent, reserved, taken := 0, 0, 0;
    }

    /** Charges a batch whose size is known, or refuses all of it. */
    method Reserve(n: nat) returns (ok: bool)
      requires Valid()
      modifies this
      ensures Valid() && taken == old(taken)
      ensures ok <==> limit == 0 || old(spent) + n <= limit
      ensures reserved == old(reserved) + if ok then n else 0
      ensures spent == old(spent) + if ok then n else 0
    {
      if limit > 0 && spent + n > limit {
        return false;
      }
      spent := spent + n;
      reserved := reserved + n;
      return true;
    }

    /** Charges one removal that could not be counted in advance. */
    method Take() returns (ok: bool)
      requires Valid()
      modifies this
      ensures Valid() && reserved == old(reserved)
      ensures ok <==> limit == 0 || old(spent) < limit
      ensures taken == old(taken) + if ok then 1 else 0
      ensures spent == old(spent) + if ok then 1 else 0
    {
      if limit > 0 && spent >= limit {
        return false;
      }
      spent := spent + 1;
      taken := taken + 1;
      return true;
    }

    /** Gives one charge of Take back. Every caller holds one, so the clamp at
        zero never acts: exactly one unit comes back. */
    method Refund()
      requires Valid() && taken > 0
      modifies this
      ensures Valid() && reserved == old(reserved)
      ensures taken == old(taken) - 1 && spent == old(spent) - 1
    {
      if spent > 0 {
        spent := spent - 1;
      }
      taken := taken - 1;
    }
  }
}

/** Removing directories, deepest level first (removeRemoteDirs). */
module DirRemoval {
  import opened Options
  import opened RemoteTree
  import opened DeleteBudgets

  /** Some directories out of `dirs` are gone; nothing else changed. */
  ghost predicate OnlyDirsGone(t0: Tree, t: Tree, dirs: seq<Path>) {
    && (forall k :: k in t ==> k in t0 && t[k] == t0[k])
    && (forall k :: k in t0 && k !in t ==> k in dirs && t0[k].Dir?)
  }

  lemma OnlyDirsGoneFiles(t0: Tree, t: Tree, dirs: seq<Path>)
    requires OnlyDirsGone(t0, t, dirs)
    ensures forall k :: FileAt(t, k) == FileAt(t0, k)
  {
  }

  lemma OnlyDirsGoneTrans(t0: Tree, t1: Tree, t2: Tree, dirs: seq<Path>, some: seq<Path>)
    requires OnlyDirsGone(t0, t1, dirs) && OnlyDirsGone(t1, t2, some) && forall d :: d in some ==> d in dirs
    ensures OnlyDirsGone(t0, t2, dirs)
  {
  }

  /** Nothing below `d`, and `d` itself is no file. */
  ghost predicate Removable(t: Tree, d: Path) {
    Vacant(t, d) && FileAt(t, d) == None
  }

  function Indices(n: nat): (s: set<nat>)
    ensures forall i: nat :: i in s <==> i < n
    ensures |s| == n
  {
    if n == 0 then {} else Indices(n - 1) + {n - 1}
  }

  lemma OneLess(t: Tree, d: Path)
    requires d in t
    ensures |t - {d}| + 1 == |t|
  {
    assert t == (t - {d})[d := t[d]];
  }

  /** One rmdir request. */
  method Rmdir1(s: Server, d: Path, ghost t0: Tree, ghost dirs: seq<Path>) returns (r: Reply)
    requires s.Valid() && d in dirs && OnlyDirsGone(t0, s.tree, dirs)
    modifies s`tree, s`trace
    ensures s.Valid() && s.trace == old(s.trace) + [s.tree]
    ensures OnlyDirsGone(t0, s.tree, dirs)
    ensures forall k :: k in s.tree ==> k in old(s.tree)
    ensures s.reliable ==> !r.Lost?
    ensures r.Ok? ==> |s.tree| + 1 == |old(s.tree)|
    ensures |s.tree| <= |old(s.tree)| && (s.reliable && !r.Ok? ==> |s.tree| == |old(s.tree)|)
    ensures s.reliable && Removable(t0, d) ==> d !in s.tree
  {
    ghost var t := s.tree;
    r := s.Execute(Rmdir(d));
    if s.tree != t {
      OneLess(t, d);
    }
    assert OnlyDirsGone(t, s.tree, [d]);
    OnlyDirsGoneTrans(t0, t, s.tree, dirs, [d]);
  }

  /** A removal reported took an entry away, and on a reliable server nothing else
      did. */
  ghost predicate Counted(reliable: bool, t0: Tree, t: Tree, removed: int) {
    |t| + removed <= |t0| && (reliable ==> |t| + removed == |t0|)
  }

  lemma CountedThen(reliable: bool, t0: Tree, t1: Tree, t2: Tree, n: int, m: int)
    requires Counted(reliable, t0, t1, n) && Counted(reliable, t1, t2, m)
    ensures Counted(reliable, t0, t2, n + m)
  {
  }

  /** Everything at or below one of `dirs` is a directory out of `dirs`. */
  ghost predicate Closed(dirs: seq<Path>, t: Tree) {
    forall d, k | d in dirs && k in t :: d <= k ==> k in dirs && t[k].Dir?
  }

  function AtDepth(dirs: seq<Path>, n: nat): (r: seq<Path>)
    ensures forall d :: d in r <==> d in dirs && |d| == n
  {
    if dirs == [] then []
    else if |dirs[0]| == n then [dirs[0]] + AtDepth(dirs[1..], n)
    else AtDepth(dirs[1..], n)
  }

  function MaxDepth(dirs: seq<Path>): (n: nat)
    ensures forall d :: d in dirs ==> |d| <= n
  {
    if dirs == [] then 0
    else
      var n := MaxDepth(dirs[1..]);
      if |dirs[0]| > n then |dirs[0]| else n
  }

  /** At every step only listed directories were gone. */
  ghost predicate GoneSince(t0: Tree, tr0: seq<Tree>, tr: seq<Tree>, dirs: seq<Path>) {
    tr0 <= tr && forall j {:trigger OnlyDirsGone(t0, tr[j], dirs)} :: |tr0| <= j < |tr| ==> OnlyDirsGone(t0, tr[j], dirs)
  }

  lemma GoneThen(t0: Tree, tr0: seq<Tree>, mid: seq<Tree>, tr: seq<Tree>, dirs: seq<Path>)
    requires GoneSince(t0, tr0, mid, dirs) && GoneSince(t0, mid, tr, dirs)
    ensures GoneSince(t0, tr0, tr, dirs)
  {
    forall j | |tr0| <= j < |tr| ensures OnlyDirsGone(t0, tr[j], dirs) {
      if j < |mid| {
        assert OnlyDirsGone(t0, mid[j], dirs);
      }
    }
  }

  lemma GoneStep(t0: Tree, tr0: seq<Tree>, mid: seq<Tree>, tr: seq<Tree>, t: Tree, dirs: seq<Path>)
    requires GoneSince(t0, tr0, mid, dirs) && OnlyDirsGone(t0, t, dirs) && (tr == mid || tr == mid + [t])
    ensures GoneSince(t0, tr0, tr, dirs)
  {
    forall j | |tr0| <= j < |tr| ensures OnlyDirsGone(t0, tr[j], dirs) {
      if j < |mid| {
        assert OnlyDirsGone(t0, mid[j], dirs);
      }
    }
  }

  /**
  The workers of one level. A worker is waiting, has charged the budget, or is
  finished; one turn of the scheduler charges one worker or sends one request,
  so charges, removals and refunds interleave freely. In every interleaving the
  charges that stay are exactly the directories reported as removed.
  */
  method RemoveLevel(s: Server, level: seq<Path>, budget: DeleteBudget?) returns (removed: nat)
    requires s.Valid() && (budget != null ==> budget.Valid())
    modifies s`tree, s`trace, budget
    ensures s.Valid() && (budget != null ==> budget.Valid())
    ensures budget != null ==> budget.reserved == old(budget.reserved) && budget.taken == old(budget.taken) + removed
    ensures removed <= |level|
    ensures Counted(s.reliable, old(s.tree), s.tree, removed)
    ensures OnlyDirsGone(old(s.tree), s.tree, level)
    ensures GoneSince(old(s.tree), old(s.trace), s.trace, level)
    ensures s.reliable && old(Affords(budget, |level|)) ==> forall d | d in level && Removable(old(s.tree), d) :: d !in s.tree
  {
    ghost var t0, tr := s.tree, s.trace;
    var lives: nat := *;
    var w := Level(Indices(|level|), {}, 0, lives);
    ghost var reserved, taken := if budget == null then 0 else budget.reserved, if budget == null then 0 else budget.taken;
    while w.waiting + w.charged != {}
      invariant s.Valid() && LevelInv(s.reliable, level, w, t0, s.tree)
      invariant BudgetInv(budget, w, reserved, taken)
      invariant GoneSince(t0, tr, s.trace, level)
      invariant old(Affords(budget, |level|)) ==> Affords(budget, |w.waiting|)
      invariant s.reliable && old(Affords(budget, |level|)) ==> SettledGone(level, w, t0, s.tree)
      decreases w.lives, 2 * |w.waiting| + |w.charged|
    {
      ghost var mid := s.trace;
      w := LevelTurn(s, level, w, budget, t0);
      GoneStep(t0, tr, mid, s.trace, s.tree, level);
    }
    removed := w.removed;
    if s.reliable && old(Affords(budget, |level|)) {
      AllSettled(level, w, t0, s.tree);
    }
  }

  lemma AllSettled(level: seq<Path>, w: Level, t0: Tree, t: Tree)
    requires SettledGone(level, w, t0, t) && w.waiting == w.charged == {}
    ensures forall d | d in level && Removable(t0, d) :: d !in t
  {
    forall d | d in level && Removable(t0, d) ensures d !in t {
      var i :| 0 <= i < |level| && level[i] == d;
    }
  }

  /** Without a budget everything was charged beforehand. */
  predicate Affords(budget: DeleteBudget?, n: nat)
    reads budget
  {
    budget != null ==> budget.Affords(n)
  }

  /** The workers of one level and what they have removed so far. */
  datatype Level = Level(waiting: set<nat>, charged: set<nat>, removed: nat, lives: nat)

  ghost predicate LevelInv(reliable: bool, level: seq<Path>, w: Level, t0: Tree, t: Tree) {
    && w.waiting !! w.charged && (forall i: nat :: i in w.waiting + w.charged ==> i < |level|)
    && w.removed + |w.waiting| + |w.charged| <= |level|
    && OnlyDirsGone(t0, t, level) && Counted(reliable, t0, t, w.removed)
  }

  ghost predicate BudgetInv(budget: DeleteBudget?, w: Level, reserved: nat, taken: nat)
    reads budget
  {
    budget != null ==>
      budget.Valid() && budget.reserved == reserved && budget.taken == taken + w.removed + |w.charged|
  }

  ghost predicate SettledGone(level: seq<Path>, w: Level, t0: Tree, t: Tree) {
    forall i: nat :: i < |level| && i !in w.waiting && i !in w.charged && Removable(t0, level[i]) ==> level[i] !in t
  }

  method LevelTurn(s: Server, level: seq<Path>, w: Level, budget: DeleteBudget?, ghost t0: Tree) returns (w': Level)
    requires s.Valid() && LevelInv(s.reliable, level, w, t0, s.tree) && w.waiting + w.charged != {}
    requires budget != null ==> budget.Valid() && budget.taken >= |w.charged|
    modifies s`tree, s`trace, budget
    ensures s.Valid() && LevelInv(s.reliable, level, w', t0, s.tree)
    ensures s.trace == old(s.trace) || s.trace == old(s.trace) + [s.tree]
    ensures budget != null ==> budget.Valid() && budget.reserved == old(budget.reserved)
    ensures budget != null ==>
              budget.taken - w'.removed - |w'.charged| == old(budget.taken) - w.removed - |w.charged|
    ensures old(Affords(budget, |w.waiting|)) ==> Affords(budget, |w'.waiting|)
    ensures s.reliable && old(Affords(budget, |w.waiting|)) && SettledGone(level, w, t0, old(s.tree)) ==>
              SettledGone(level, w', t0, s.tree)
    ensures w'.lives < w.lives
            || (w'.lives == w.lives && 2 * |w'.waiting| + |w'.charged| < 2 * |w.waiting| + |w.charged|)
  {
    var i :| i in w.waiting + w.charged;
    if i in w.waiting {
      var admitted := Admit(budget);
      w' := AfterAdmit(w, i, admitted);
      AdmitTurn(s.reliable, level, w, i, admitted, t0, s.tree);
    } else {
      ghost var t := s.tree;
      var settled, gone := Settle(s, level[i], budget, w.lives, t0, level);
      w' := AfterSettle(w, i, settled, gone);
      SettleTurn(s.reliable, level, w, i, settled, gone, t0, t, s.tree);
    }
  }

  function AfterAdmit(w: Level, i: nat, admitted: bool): Level {
    w.(waiting := w.waiting - {i}, charged := if admitted then w.charged + {i} else w.charged)
  }

  function AfterSettle(w: Level, i: nat, settled: bool, gone: nat): Level
    requires settled || w.lives > 0
  {
    if settled then w.(charged := w.charged - {i}, removed := w.removed + gone) else w.(lives := w.lives - 1)
  }

  lemma AdmitTurn(reliable: bool, level: seq<Path>, w: Level, i: nat, admitted: bool, t0: Tree, t: Tree)
    requires LevelInv(reliable, level, w, t0, t) && i in w.waiting
    ensures LevelInv(reliable, level, AfterAdmit(w, i, admitted), t0, t)
    ensures |AfterAdmit(w, i, admitted).waiting| == |w.waiting| - 1
    ensures |AfterAdmit(w, i, admitted).charged| == |w.charged| + if admitted then 1 else 0
  {
    var a := AfterAdmit(w, i, admitted);
    OneOut(w.waiting, i);
    assert i !in w.charged && a.waiting !! a.charged;
    assert a.waiting + a.charged <= w.waiting + w.charged;
    assert |a.charged| == |w.charged| + if admitted then 1 else 0;
  }

  lemma OneOut(s: set<nat>, i: nat)
    requires i in s
    ensures |s - {i}| == |s| - 1
  {
    assert s == (s - {i}) + {i};
  }

  lemma SettleTurn(reliable: bool, level: seq<Path>, w: Level, i: nat, settled: bool, gone: nat, t0: Tree, t: Tree, t': Tree)
    requires LevelInv(reliable, level, w, t0, t) && i in w.charged && gone <= 1 && (!settled ==> w.lives > 0)
    requires OnlyDirsGone(t0, t', level) && Counted(reliable, t, t', if settled then gone else 0)
    ensures LevelInv(reliable, level, AfterSettle(w, i, settled, gone), t0, t')
    ensures |AfterSettle(w, i, settled, gone).charged| == |w.charged| - if settled then 1 else 0
  {
    var a := AfterSettle(w, i, settled, gone);
    OneOut(w.charged, i);
    assert a.waiting + a.charged <= w.waiting + w.charged && a.waiting !! a.charged;
    CountedThen(reliable, t0, t, t', w.removed, if settled then gone else 0);
  }

  /** One request of a charged worker: it is rerun after a connection failure
      while the budget of reconnects lasts, counts a removal that was confirmed,
      and otherwise gives its charge back. */
  method Settle(s: Server, d: Path, budget: DeleteBudget?, lives: nat, ghost t0: Tree, ghost dirs: seq<Path>)
    returns (settled: bool, gone: nat)
    requires s.Valid() && d in dirs && OnlyDirsGone(t0, s.tree, dirs)
    requires budget != null ==> budget.Valid() && budget.taken > 0
    modifies s`tree, s`trace, budget
    ensures s.Valid() && s.trace == old(s.trace) + [s.tree] && OnlyDirsGone(t0, s.tree, dirs)
    ensures forall k :: k in s.tree ==> k in old(s.tree)
    ensures budget != null ==> budget.Valid() && budget.reserved == old(budget.reserved)
                               && budget.taken == old(budget.taken) - (if settled then 1 - gone else 0)
    ensures gone <= 1 && (!settled ==> lives > 0)
    ensures Counted(s.reliable, old(s.tree), s.tree, if settled then gone else 0)
    ensures settled && s.reliable && Removable(t0, d) ==> d !in s.tree
  {
    var r := Rmdir1(s, d, t0, dirs);
    settled := !(r.Lost? && lives > 0);
    gone := if r.Ok? then 1 else 0;
    if settled && gone == 0 && budget != null {
      budget.Refund();
    }
  }

  method Admit(budget: DeleteBudget?) returns (ok: bool)
    requires budget != null ==> budget.Valid()
    modifies budget
    ensures budget != null ==> budget.Valid() && budget.reserved == old(budget.reserved)
                               && budget.taken == old(budget.taken) + if ok then 1 else 0
    ensures old(Affords(budget, 1)) ==> ok
  {
    ok := true;
    if budget != null {
      ok := budget.Take();
    }
  }

  method RemoveDepth(s: Server, dirs: seq<Path>, depth: nat, budget: DeleteBudget?, ghost t0: Tree) returns (removed: nat)
    requires s.Valid() && (budget != null ==> budget.Valid()) && OnlyDirsGone(t0, s.tree, dirs)
    modifies s`tree, s`trace, budget
    ensures s.Valid() && (budget != null ==> budget.Valid())
    ensures budget != null ==> budget.reserved == old(budget.reserved) && budget.taken == old(budget.taken) + removed
    ensures removed <= |AtDepth(dirs, depth)|
    ensures Counted(s.reliable, old(s.tree), s.tree, removed)
    ensures OnlyDirsGone(t0, s.tree, dirs)
    ensures forall k :: k in s.tree ==> k in old(s.tree)
    ensures old(s.trace) <= s.trace
    ensures forall j :: |old(s.trace)| <= j < |s.trace| ==> OnlyDirsGone(t0, s.trace[j], dirs)
    ensures s.reliable && old(Affords(budget, |AtDepth(dirs, depth)|)) && NoneVacant(dirs, old(s.tree), depth + 1) ==>
              NoneVacant(dirs, s.tree, depth)
  {
    ghost var t, tr := s.tree, s.trace;
    var level := AtDepth(dirs, depth);
    removed := RemoveLevel(s, level, budget);
    forall j | |tr| <= j < |s.trace| ensures OnlyDirsGone(t0, s.trace[j], dirs) {
      OnlyDirsGoneTrans(t0, t, s.trace[j], dirs, level);
    }
    OnlyDirsGoneTrans(t0, t, s.tree, dirs, level);
    if s.reliable && old(Affords(budget, |AtDepth(dirs, depth)|)) && NoneVacant(dirs, t, depth + 1) {
      LevelLeavesNoneVacant(dirs, level, depth, t, s.tree);
    }
  }

  /** No listed directory at this depth or deeper is left empty. */
  ghost predicate NoneVacant(dirs: seq<Path>, t: Tree, depth: nat) {
    forall d | d in dirs && |d| >= depth && d in t && t[d].Dir? :: !Vacant(t, d)
  }

  lemma LevelLeavesNoneVacant(dirs: seq<Path>, level: seq<Path>, depth: nat, t: Tree, t': Tree)
    requires forall d :: d in level <==> d in dirs && |d| == depth
    requires OnlyDirsGone(t, t', level) && NoneVacant(dirs, t, depth + 1)
    requires forall d | d in level && Removable(t, d) :: d !in t'
    ensures NoneVacant(dirs, t', depth)
  {
    forall d | d in dirs && |d| >= depth && d in t' && t'[d].Dir? ensures !Vacant(t', d) {
      assert !Vacant(t, d);
      var k :| k in t && d <= k && k != d;
      assert |k| > depth;
      assert k in t';
    }
  }

  /** When everything below the listed directories is listed too, none of them is
      left: the deepest one would be empty. */
  lemma {:induction false} ClosedAllGone(dirs: seq<Path>, t0: Tree, t: Tree, d: Path, bound: nat)
    requires Closed(dirs, t0) && OnlyDirsGone(t0, t, dirs) && NoneVacant(dirs, t, 0)
    requires d in dirs && forall e :: e in dirs ==> |e| <= bound
    ensures d !in t
    decreases bound - |d|
  {
    if d in t {
      assert t[d].Dir?;
      var k :| k in t && d <= k && k != d;
      assert k in dirs;
      ClosedAllGone(dirs, t0, t, k, bound);
    }
  }

  function Shallow(dirs: seq<Path>, n: nat): (r: seq<Path>) {
    if dirs == [] then []
    else if |dirs[0]| <= n then [dirs[0]] + Shallow(dirs[1..], n)
    else Shallow(dirs[1..], n)
  }

  /** How many of the directories lie at this depth or above it. */
  function HowMany(dirs: seq<Path>, depth: nat): nat {
    |Shallow(dirs, depth)|
  }

  /** What has been removed when the levels below `depth` are done. */
  ghost predicate LevelsInv(reliable: bool, dirs: seq<Path>, depth: nat, t0: Tree, t: Tree, removed: nat) {
    Removed(reliable, dirs, |dirs| - HowMany(dirs, depth), t0, t, removed)
  }

  /** At most `n` of the directories are gone, as reported, and nothing else. */
  ghost predicate Removed(reliable: bool, dirs: seq<Path>, n: int, t0: Tree, t: Tree, removed: int) {
    removed <= n && OnlyDirsGone(t0, t, dirs) && Counted(reliable, t0, t, removed)
  }

  lemma LevelsNext(reliable: bool, dirs: seq<Path>, depth: nat, t0: Tree, t: Tree, t': Tree, removed: nat, n: nat)
    requires depth > 0 && LevelsInv(reliable, dirs, depth, t0, t, removed)
    requires n <= |AtDepth(dirs, depth)| && Counted(reliable, t, t', n) && OnlyDirsGone(t0, t', dirs)
    ensures LevelsInv(reliable, dirs, depth - 1, t0, t', removed + n)
  {
    SplitDepth(dirs, depth);
    CountedThen(reliable, t0, t, t', removed, n);
  }

  /** The levels from `depth` up to the first, deepest first. */
  method RemoveLevels(s: Server, dirs: seq<Path>, top: nat, budget: DeleteBudget?) returns (removed: nat)
    requires s.Valid() && (budget != null ==> budget.Valid())
    requires HowMany(dirs, top) <= |dirs| && NoneVacant(dirs, s.tree, top + 1)
    modifies s`tree, s`trace, budget
    ensures s.Valid() && (budget != null ==> budget.Valid())
    ensures budget != null ==> budget.reserved == old(budget.reserved) && budget.taken == old(budget.taken) + removed
    ensures removed <= |dirs| && Counted(s.reliable, old(s.tree), s.tree, removed)
    ensures OnlyDirsGone(old(s.tree), s.tree, dirs)
    ensures GoneSince(old(s.tree), old(s.trace), s.trace, dirs)
    ensures s.reliable && old(Affords(budget, |dirs|)) ==> NoneVacant(dirs, s.tree, 1)
  {
    ghost var t0, tr := s.tree, s.trace;
    removed := 0;
    var depth := top;
    while depth > 0
      invariant s.Valid() && (budget != null ==> budget.Valid())
      invariant budget != null ==> budget.reserved == old(budget.reserved) && budget.taken == old(budget.taken) + removed
      invariant LevelsInv(s.reliable, dirs, depth, t0, s.tree, removed)
      invariant GoneSince(t0, tr, s.trace, dirs)
      invariant old(Affords(budget, |dirs|)) ==> Affords(budget, HowMany(dirs, depth))
      invariant s.reliable && old(Affords(budget, |dirs|)) ==> NoneVacant(dirs, s.tree, depth + 1)
    {
      ghost var mid := s.trace;
      removed := NextDepth(s, dirs, depth, budget, t0, removed);
      GoneThen(t0, tr, mid, s.trace, dirs);
      depth := depth - 1;
    }
  }

  /** One level more. */
  method NextDepth(s: Server, dirs: seq<Path>, depth: nat, budget: DeleteBudget?, ghost t0: Tree, before: nat)
    returns (removed: nat)
    requires s.Valid() && (budget != null ==> budget.Valid()) && depth > 0
    requires LevelsInv(s.reliable, dirs, depth, t0, s.tree, before)
    modifies s`tree, s`trace, budget
    ensures s.Valid() && (budget != null ==> budget.Valid()) && removed >= before
    ensures budget != null ==>
              budget.reserved == old(budget.reserved) && budget.taken == old(budget.taken) + removed - before
    ensures LevelsInv(s.reliable, dirs, depth - 1, t0, s.tree, removed)
    ensures GoneSince(t0, old(s.trace), s.trace, dirs)
    ensures old(Affords(budget, HowMany(dirs, depth))) ==> Affords(budget, HowMany(dirs, depth - 1))
    ensures s.reliable && old(Affords(budget, HowMany(dirs, depth))) && NoneVacant(dirs, old(s.tree), depth + 1) ==>
              NoneVacant(dirs, s.tree, depth)
  {
    ghost var t := s.tree;
    SplitDepth(dirs, depth);
    var n := RemoveDepth(s, dirs, depth, budget, t0);
    LevelsNext(s.reliable, dirs, depth, t0, t, s.tree, before, n);
    removed := before + n;
  }

  method RemoveRemoteDirs(s: Server, dirs: seq<Path>, budget: DeleteBudget?) returns (removed: nat)
    requires s.Valid() && (budget != null ==> budget.Valid())
    modifies s`tree, s`trace, budget
    ensures s.Valid() && (budget != null ==> budget.Valid())
    ensures budget != null ==> budget.reserved == old(budget.reserved) && budget.taken == old(budget.taken) + removed
    ensures removed <= |dirs| && Counted(s.reliable, old(s.tree), s.tree, removed)
    ensures OnlyDirsGone(old(s.tree), s.tree, dirs)
    ensures old(s.trace) <= s.trace
    ensures forall j :: |old(s.trace)| <= j < |s.trace| ==> OnlyDirsGone(old(s.tree), s.trace[j], dirs)
    ensures s.reliable && old(Affords(budget, |dirs|)) ==> NoneVacant(dirs, s.tree, 0)
    ensures s.reliable && old(Affords(budget, |dirs|)) && Closed(dirs, old(s.tree)) ==> forall d | d in dirs :: d !in s.tree
  {
    ghost var t0 := s.tree;
    var depth := MaxDepth(dirs);
    ShallowCount(dirs, depth);
    removed := RemoveLevels(s, dirs, depth, budget);
    if NoneVacant(dirs, s.tree, 1) {
      AllLevelsDone(dirs, t0, s.tree);
    }
  }

  /** The target itself is no entry, so the first level is the last. */
  lemma AllLevelsDone(dirs: seq<Path>, t0: Tree, t: Tree)
    requires WellFormed(t0) && WellFormed(t) && OnlyDirsGone(t0, t, dirs) && NoneVacant(dirs, t, 1)
    ensures NoneVacant(dirs, t, 0)
    ensures Closed(dirs, t0) ==> forall d | d in dirs :: d !in t
  {
    assert [] !in t;
    if Closed(dirs, t0) {
      forall d | d in dirs ensures d !in t {
        ClosedAllGone(dirs, t0, t, d, MaxDepth(dirs));
      }
    }
  }

  lemma {:induction false} ShallowCount(dirs: seq<Path>, n: nat)
    ensures HowMany(dirs, n) <= |dirs|
  {
    if dirs != [] { ShallowCount(dirs[1..], n); }
  }

  lemma {:induction false} SplitDepth(dirs: seq<Path>, n: nat)
    requires n > 0
    ensures HowMany(dirs, n) == HowMany(dirs, n - 1) + |AtDepth(dirs, n)|
  {
    if dirs != [] { SplitDepth(dirs[1..], n); }
  }
}
