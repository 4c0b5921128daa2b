/** Manifest keys as the strings they are: which of them are deleted before the
    upload (collidingDeletes), however they are spelled. */
module KeyStrings {
  import opened Options
  import opened SlashPaths
  import opened Confinement
  import opened PathLists
  import opened Collide
  import RemoteTree

  type Path = RemoteTree.Path

  /** Plain names, one or more of them. */
  predicate ProperNames(p: Path) {
    p != [] && forall i :: 0 <= i < |p| ==> IsName(p[i])
  }

  /** The files of a plan, by their names below the target. */
  ghost predicate ProperPlan(files: seq<Path>) {
    PrefixFree(files) && forall p :: p in files ==> ProperNames(p)
  }

  /** The place of a relative path below the target. */
  function At(p: Path): Location {
    Location(false, 0, p)
  }

  /** What safeJoin lets through below a target that is not ".". */
  predicate Inside(key: string) {
    Resolve(key) == At(Resolve(key).names) && Resolve(key).names != []
  }

  lemma AcceptedIsInside(base: string, key: string)
    requires Clean(base) != "." && SafeJoin(base, key).Some?
    ensures Inside(key)
    ensures Resolve(SafeJoin(base, key).value) == Resolve(base).(names := Resolve(base).names + Resolve(key).names)
  {
    SafeJoinExactly(base, key);
    JoinedIsBelow(base, key);
    RootedStart(key);
  }

  function LastElement(key: string): string {
    Split(key)[|Split(key)| - 1]
  }

  /** The key of a planned file is the joined names. */
  lemma TextResolves(p: Path)
    requires ProperNames(p)
    ensures Resolve(Join(p)) == At(p) && Clean(Join(p)) == Join(p) && Split(Join(p)) == p
  {
    var l := At(p);
    assert Segments(l) == p;
    assert Proper(l);
    ResolveRender(l);
    SplitJoin(p);
  }

  /** Where a path leads, from where its directory is. */
  lemma DirFollows(s: string)
    ensures Resolve(s) == Follow(Resolve(Dir(s)), LastElement(s)) && Clean(Dir(s)) == Dir(s)
    ensures '/' !in LastElement(s)
  {
    var i := LastSlash(s);
    CleanKeepsMeaning(s[..i + 1]);
    if i < 0 {
      DirOfOne(s);
    } else {
      assert s == s[..i] + "/" + s[i + 1..] && s[..i + 1] == s[..i] + "/" + "";
      DirOfTwo(s[..i], s[i + 1..]);
    }
  }

  lemma DirOfOne(s: string)
    requires '/' !in s
    ensures Resolve(s) == Follow(Resolve(""), s) && LastElement(s) == s && s[..LastSlash(s) + 1] == ""
  {
    SplitOne(s);
    SplitOne("");
    FollowOne(Start(s), s);
    FollowOne(Start(""), "");
  }

  lemma DirOfTwo(a: string, b: string)
    requires '/' !in b
    ensures Resolve(a + "/" + b) == Follow(Resolve(a + "/" + ""), b) && LastElement(a + "/" + b) == b
  {
    SplitAtSlash(a, b);
    SplitAtSlash(a, "");
    SplitOne(b);
    SplitOne("");
    var l := Start(a + "/" + b);
    assert (a + "/" + b)[0] == (a + "/" + "")[0];
    assert Start(a + "/" + "") == l;
    FollowAllAppend(l, Split(a), [b]);
    FollowAllAppend(l, Split(a), [""]);
    FollowOne(FollowAll(l, Split(a)), b);
    FollowOne(FollowAll(l, Split(a)), "");
  }

  lemma FollowOne(l: Location, seg: string)
    ensures FollowAll(l, [seg]) == Follow(l, seg)
  {
    assert FollowAll(Follow(l, seg), []) == Follow(l, seg);
  }

  /** The directory of a key inside the target: the key's own place when the key
      ends in nothing or ".", one level below when it ends in "..", one level above
      otherwise. */
  lemma DirOfKey(key: string)
    requires Inside(key)
    ensures var d, last := Resolve(Dir(key)), LastElement(key);
            && Proper(d) && d == At(d.names) && Dir(key) == Render(d)
            && (last == "" || last == "." ==> d.names == Resolve(key).names)
            && (last == ".." ==> Strictly(Resolve(key).names, d.names))
            && (IsName(last) ==> Resolve(key).names == d.names + [last])
            && (IsName(last) || last in {"", ".", ".."})
  {
    DirFollows(key);
    ResolveProper(Dir(key));
    var d, last := Resolve(Dir(key)), LastElement(key);
    assert last == ".." && d.names == [] ==> Follow(d, last).ups > 0 || Follow(d, last).names == [];
  }

  // ---- The walk up ----

  predicate AtTop(dir: string) {
    dir == "." || dir == "/" || dir == ""
  }

  predicate Names(p: Path) {
    forall i :: 0 <= i < |p| ==> IsName(p[i])
  }

  /** The walk has come to the directory `d`. */
  predicate WalkedTo(dir: string, d: Path) {
    Names(d) && dir == Render(At(d)) && (AtTop(dir) <==> d == []) && (d != [] ==> dir == Join(d))
  }

  lemma WalkOn(dir: string, d: Path)
    requires WalkedTo(dir, d) && d != []
    ensures WalkedTo(Dir(dir), RemoteTree.Parent(d))
  {
    WalkUpStep(d);
    WalkUpStep(RemoteTree.Parent(d));
  }

  lemma WalkUpStep(p: Path)
    requires Names(p)
    ensures WalkedTo(Render(At(p)), p)
    ensures p != [] ==> Dir(Render(At(p))) == Render(At(RemoteTree.Parent(p)))
  {
    var l := At(p);
    assert Proper(l);
    if p != [] {
      DirOfRendered(l);
      RenderNotEmpty(l);
      RenderDotNames(l);
      RootedExactly(l);
      assert Render(l) == "/" ==> "/" <= Render(l);
      assert Segments(l) == p;
    }
  }

  lemma TextIsOne(p: Path, q: Path)
    requires ProperNames(p) && ProperNames(q) && Join(p) == Join(q)
    ensures p == q
  {
    TextResolves(p);
    TextResolves(q);
  }

  /** A planned file is at or above the key's directory. */
  ghost predicate BelowPlanned(files: seq<Path>, key: string) {
    exists p :: p in files && p <= Resolve(Dir(key)).names
  }

  /** Is a planned file at or above the key's directory? */
  method PlannedDirAbove(plannedFile: set<string>, key: string, ghost files: seq<Path>) returns (found: bool)
    requires Inside(key) && (forall p :: p in files ==> ProperNames(p)) && plannedFile == set p | p in files :: Join(p)
    ensures found <==> BelowPlanned(files, key)
  {
    ghost var ns := Resolve(Dir(key)).names;
    KeyWalk(key);
    ghost var d := ns;
    var dir := Dir(key);
    found := false;
    while !AtTop(dir)
      invariant d <= ns && WalkedTo(dir, d) && NoneAbove(files, ns, d)
      decreases |d|
    {
      PlannedHere(files, plannedFile, dir, d);
      if dir in plannedFile {
        return true;
      }
      LessAbove(files, ns, d);
      WalkOn(dir, d);
      d := RemoteTree.Parent(d);
      dir := Dir(dir);
    }
  }

  lemma KeyWalk(key: string)
    requires Inside(key)
    ensures WalkedTo(Dir(key), Resolve(Dir(key)).names)
  {
    DirOfKey(key);
    WalkUpStep(Resolve(Dir(key)).names);
  }

  /** Planned files at or above the directory are at or above `d`. */
  ghost predicate NoneAbove(files: seq<Path>, ns: Path, d: Path) {
    forall p :: p in files && p <= ns ==> p <= d
  }

  lemma LessAbove(files: seq<Path>, ns: Path, d: Path)
    requires d != [] && d <= ns && d !in files && NoneAbove(files, ns, d)
    ensures NoneAbove(files, ns, RemoteTree.Parent(d))
  {
    forall p | p in files && p <= ns ensures p <= RemoteTree.Parent(d) {
      assert p <= d && p != d;
    }
  }

  lemma PlannedHere(files: seq<Path>, plannedFile: set<string>, dir: string, d: Path)
    requires (forall p :: p in files ==> ProperNames(p)) && plannedFile == set p | p in files :: Join(p)
    requires WalkedTo(dir, d) && d != []
    ensures dir in plannedFile <==> d in files
  {
    if dir in plannedFile {
      var p :| p in files && Join(p) == dir;
      TextIsOne(p, d);
    }
  }

  /** A stale key that names a directory the plan creates, or a planned file. */
  ghost predicate OnTheWay(files: seq<Path>, key: string) {
    exists p :: p in files && AncestorText(p, 0, key)
  }

  /** The stale keys on the way to one planned file. */
  method AddOnTheWay(stale: set<string>, p: Path) returns (hit: set<string>)
    requires ProperNames(p)
    ensures forall key :: key in hit <==> key in stale && AncestorText(p, 0, key)
  {
    hit := {};
    var dir := Join(p);
    ghost var d := p;
    WalkUpStep(p);
    while !AtTop(dir)
      invariant d <= p && WalkedTo(dir, d)
      invariant forall key :: key in hit <==> key in stale && AncestorText(p, |d|, key)
      decreases |d|
    {
      if dir in stale {
        hit := hit + {dir};
      }
      AncestorTextStep(p, d);
      WalkOn(dir, d);
      d := RemoteTree.Parent(d);
      dir := Dir(dir);
    }
  }

  /** The path itself or one above it, `n` names long or longer. */
  ghost predicate AncestorText(p: Path, above: nat, key: string) {
    exists n :: above < n <= |p| && key == Join(p[..n])
  }

  lemma AncestorTextStep(p: Path, d: Path)
    requires d != [] && d <= p
    ensures forall key :: AncestorText(p, |d| - 1, key) <==> AncestorText(p, |d|, key) || key == Join(d)
  {
    assert d == p[..|d|];
    forall key ensures AncestorText(p, |d| - 1, key) <==> AncestorText(p, |d|, key) || key == Join(d) {
      if AncestorText(p, |d| - 1, key) {
        var n :| |d| - 1 < n <= |p| && key == Join(p[..n]);
        assert n == |d| || AncestorText(p, |d|, key);
      }
      if AncestorText(p, |d|, key) {
        var n :| |d| < n <= |p| && key == Join(p[..n]);
        assert |d| - 1 < n;
      }
      if key == Join(d) {
        assert |d| - 1 < |d| <= |p| && key == Join(p[..|d|]);
      }
    }
  }

  // ---- Folding ----

  /** foldPath: every segment folded, however the path is spelled. */
  function FoldText(fold: string -> string, s: string): string {
    Join(FoldPath(fold, Split(s)))
  }

  ghost predicate FoldsToPlanned(fold: string -> string, files: seq<Path>, key: string) {
    exists p :: p in files && FoldText(fold, Join(p)) == FoldText(fold, key)
  }

  // ---- collidingDeletes ----

  /** Deleted before the upload. */
  ghost predicate Early(fold: string -> string, files: seq<Path>, key: string) {
    OnTheWay(files, key) || BelowPlanned(files, key) || FoldsToPlanned(fold, files, key)
  }

  ghost function KeyPart(fold: string -> string, files: seq<Path>, keys: seq<string>, want: bool): (r: seq<string>)
    ensures forall key :: key in r <==> key in keys && Early(fold, files, key) == want
  {
    if keys == [] then []
    else
      var n := |keys| - 1;
      assert forall key :: key in keys <==> key in keys[..n] || key == keys[n];
      KeyPart(fold, files, keys[..n], want) + if Early(fold, files, keys[n]) == want then [keys[n]] else []
  }

  method MarkOnTheWay(stale: set<string>, files: seq<Path>) returns (conflict: set<string>)
    requires forall p :: p in files ==> ProperNames(p)
    ensures forall key :: key in conflict <==> key in stale && OnTheWay(files, key)
  {
    conflict := {};
    for i := 0 to |files|
      invariant forall key :: key in conflict <==> key in stale && OnTheWay(files[..i], key)
    {
      assert files[..i + 1] == files[..i] + [files[i]] && files[i] in files;
      var hit := AddOnTheWay(stale, files[i]);
      OnTheWaySnoc(files[..i], files[i]);
      conflict := conflict + hit;
    }
    assert files[..|files|] == files;
  }

  lemma OnTheWaySnoc(files: seq<Path>, p: Path)
    ensures forall key :: OnTheWay(files + [p], key) <==> OnTheWay(files, key) || AncestorText(p, 0, key)
  {
    assert forall q :: q in files + [p] <==> q in files || q == p;
  }

  /** The stale keys below a planned file; a key that already met a test is not
      looked at again. */
  method MarkBelow(onTheWay: set<string>, toDelete: seq<string>, files: seq<Path>) returns (conflict: set<string>)
    requires (forall p :: p in files ==> ProperNames(p)) && forall key :: key in toDelete ==> Inside(key)
    ensures forall key :: key in toDelete ==> (key in conflict <==> key in onTheWay || BelowPlanned(files, key))
  {
    var plannedFile := set p | p in files :: Join(p);
    conflict := onTheWay;
    for i := 0 to |toDelete|
      invariant forall key :: key in conflict <==> key in onTheWay || (key in toDelete[..i] && BelowPlanned(files, key))
    {
      assert toDelete[..i + 1] == toDelete[..i] + [toDelete[i]];
      if toDelete[i] !in conflict {
        var found := PlannedDirAbove(plannedFile, toDelete[i], files);
        if found {
          conflict := conflict + {toDelete[i]};
        }
      }
    }
    assert toDelete[..|toDelete|] == toDelete;
  }

  /** And those that fold to a planned path. */
  method MarkFolding(fold: string -> string, marked: set<string>, toDelete: seq<string>, files: seq<Path>)
    returns (conflict: set<string>)
    ensures forall key :: key in toDelete ==> (key in conflict <==> key in marked || FoldsToPlanned(fold, files, key))
  {
    var plannedFold := set p | p in files :: FoldText(fold, Join(p));
    conflict := marked;
    for i := 0 to |toDelete|
      invariant marked <= conflict
      invariant forall key :: key in conflict ==> key in marked || FoldsToPlanned(fold, files, key)
      invariant forall k :: 0 <= k < i && FoldsToPlanned(fold, files, toDelete[k]) ==> toDelete[k] in conflict
    {
      assert FoldText(fold, toDelete[i]) in plannedFold <==> FoldsToPlanned(fold, files, toDelete[i]);
      if toDelete[i] !in conflict && FoldText(fold, toDelete[i]) in plannedFold {
        conflict := conflict + {toDelete[i]};
      }
    }
  }

  /** Splits the stale keys, in order, into those deleted before the upload and the
      rest. */
  method CollidingKeys(fold: string -> string, toDelete: seq<string>, files: seq<Path>)
    returns (colliding: seq<string>, rest: seq<string>)
    requires (forall p :: p in files ==> ProperNames(p)) && forall key :: key in toDelete ==> Inside(key)
    ensures colliding == KeyPart(fold, files, toDelete, true) && rest == KeyPart(fold, files, toDelete, false)
  {
    var conflict := MarkOnTheWay((set key | key in toDelete), files);
    conflict := MarkBelow(conflict, toDelete, files);
    conflict := MarkFolding(fold, conflict, toDelete, files);
    colliding, rest := [], [];
    for i := 0 to |toDelete|
      invariant colliding == KeyPart(fold, files, toDelete[..i], true)
      invariant rest == KeyPart(fold, files, toDelete[..i], false)
    {
      assert toDelete[..i + 1][..i] == toDelete[..i];
      if toDelete[i] in conflict {
        colliding := colliding + [toDelete[i]];
      } else {
        rest := rest + [toDelete[i]];
      }
    }
    assert toDelete[..|toDelete|] == toDelete;
  }

  // ---- Keys in clean form ----

  lemma FoldTextOf(fold: string -> string, p: Path)
    requires ProperNames(p)
    ensures FoldText(fold, Join(p)) == Join(FoldPath(fold, p))
  {
    TextResolves(p);
  }

  /** For keys in clean form the tests on strings are those on lists of names that
      the other claims about a sync work with. (Folded texts can also meet when
      folding brings a slash into a name; such a key only goes earlier.) */
  lemma CleanKeysCollideAsPaths(fold: string -> string, files: seq<Path>, r: Path)
    requires ProperPlan(files) && ProperNames(r)
    ensures Collides(fold, files, r) ==> Early(fold, files, Join(r))
    ensures (forall s: string :: '/' !in s ==> '/' !in fold(s)) && Early(fold, files, Join(r)) ==> Collides(fold, files, r)
  {
    BelowPlannedAsPaths(files, r);
    OnTheWayIsAbove(files, r);
    FoldsAsPaths(fold, files, r);
  }

  lemma BelowPlannedAsPaths(files: seq<Path>, r: Path)
    requires ProperPlan(files) && ProperNames(r)
    ensures BelowPlanned(files, Join(r)) <==> exists p :: p in files && Strictly(p, r)
  {
    var d := RemoteTree.Parent(r);
    WalkUpStep(r);
    assert Segments(At(r)) == r && Proper(At(d));
    ResolveRender(At(d));
    assert Resolve(Dir(Join(r))).names == d;
    forall p ensures Strictly(p, r) <==> p <= d {
      assert p <= d ==> p <= r;
    }
  }

  lemma OnTheWayIsAbove(files: seq<Path>, r: Path)
    requires ProperPlan(files) && ProperNames(r)
    ensures OnTheWay(files, Join(r)) <==> exists p :: p in files && r <= p
  {
    if p :| p in files && r <= p {
      assert p[..|r|] == r;
      assert AncestorText(p, 0, Join(r));
    }
    if p :| p in files && AncestorText(p, 0, Join(r)) {
      var n :| 0 < n <= |p| && Join(r) == Join(p[..n]);
      TextIsOne(r, p[..n]);
    }
  }

  lemma FoldsAsPaths(fold: string -> string, files: seq<Path>, r: Path)
    requires ProperPlan(files) && ProperNames(r)
    ensures (exists p :: p in files && FoldPath(fold, p) == FoldPath(fold, r)) ==> FoldsToPlanned(fold, files, Join(r))
    ensures (forall s: string :: '/' !in s ==> '/' !in fold(s)) && FoldsToPlanned(fold, files, Join(r)) ==>
              exists p :: p in files && FoldPath(fold, p) == FoldPath(fold, r)
  {
    FoldTextOf(fold, r);
    forall p | p in files ensures FoldText(fold, Join(p)) == Join(FoldPath(fold, p)) {
      FoldTextOf(fold, p);
    }
    if (forall s: string :: '/' !in s ==> '/' !in fold(s)) && FoldsToPlanned(fold, files, Join(r)) {
      var p :| p in files && FoldText(fold, Join(p)) == FoldText(fold, Join(r));
      SplitJoin(FoldPath(fold, p));
      SplitJoin(FoldPath(fold, r));
    }
  }

  // ---- Keys that are spelled differently ----

  /** The key does not end in a name. */
  predicate EndsOddly(key: string) {
    LastElement(key) in {"", ".", ".."}
  }

  /** A stale key that leads to a planned file under another spelling: it is deleted
      before the upload exactly when it does not end in a name, or folds to a planned
      path; otherwise after it. */
  lemma TwinIsEarlyExactly(fold: string -> string, files: seq<Path>, planned: Path, key: string)
    requires ProperPlan(files) && planned in files && key != Join(planned)
    requires Inside(key) && Clean(key) == Join(planned)
    ensures Early(fold, files, key) <==> EndsOddly(key) || FoldsToPlanned(fold, files, key)
  {
    TwinPlace(planned, key);
    DirOfKey(key);
    TwinNotOnTheWay(files, planned, key);
    var d := Resolve(Dir(key)).names;
    if EndsOddly(key) {
      assert planned <= d;
    } else {
      assert planned == d + [LastElement(key)];
      forall p | p in files ensures !(p <= d) {
        assert p <= d ==> p <= planned && p != planned;
      }
    }
  }

  lemma TwinPlace(planned: Path, key: string)
    requires ProperNames(planned) && Inside(key) && Clean(key) == Join(planned)
    ensures Resolve(key).names == planned
  {
    TextResolves(planned);
    CleanKeepsMeaning(key);
  }

  lemma TwinNotOnTheWay(files: seq<Path>, planned: Path, key: string)
    requires ProperPlan(files) && ProperNames(planned) && key != Join(planned) && Clean(key) == Join(planned)
    ensures !OnTheWay(files, key)
  {
    if p :| p in files && AncestorText(p, 0, key) {
      var n :| 0 < n <= |p| && key == Join(p[..n]);
      TextResolves(p[..n]);
    }
  }

  /** Two ways to spell "x": "./x" goes after the upload of "x", "x/" before it. */
  lemma TwinsOfBothKinds(base: string, name: string, fold: string -> string)
    requires Clean(base) != "." && IsName(name) && forall s :: fold(s) == s
    ensures SafeJoin(base, "./" + name) == SafeJoin(base, name + "/") == SafeJoin(base, name) && SafeJoin(base, name).Some?
    ensures "./" + name != name && name + "/" != name
    ensures !Early(fold, [[name]], "./" + name) && Early(fold, [[name]], name + "/")
  {
    SpelledWithDot(base, name);
    SpelledWithSlash(base, name);
    DotIsLate(fold, name);
    SlashIsEarly(fold, name);
  }

  lemma SpelledWithDot(base: string, name: string)
    requires Clean(base) != "." && IsName(name)
    ensures SafeJoin(base, "./" + name) == SafeJoin(base, name) && SafeJoin(base, name).Some?
    ensures Resolve("./" + name) == At([name]) && LastElement("./" + name) == name
  {
    var twin := "./" + name;
    ResolveName(name);
    assert twin == "." + "/" + name;
    SplitAtSlash(".", name);
    SplitOne(".");
    SplitOne(name);
    assert FollowAll(At([]), [".", name]) == FollowAll(At([]), [name]) by {
      assert [".", name][1..] == [name];
    }
    SafeJoinExactly(base, name);
    SafeJoinExactly(base, twin);
  }

  lemma SpelledWithSlash(base: string, name: string)
    requires Clean(base) != "." && IsName(name)
    ensures SafeJoin(base, name + "/") == SafeJoin(base, name) && SafeJoin(base, name).Some?
    ensures Resolve(name + "/") == At([name]) && LastElement(name + "/") == ""
  {
    var twin := name + "/";
    ResolveName(name);
    assert twin == name + "/" + "";
    JoinSlashEmpty(name);
    SplitAtSlash(name, "");
    SplitOne("");
    assert twin[0] == name[0];
    SafeJoinExactly(base, name);
    SafeJoinExactly(base, twin);
  }

  lemma NamedPlan(name: string)
    requires IsName(name)
    ensures ProperPlan([[name]]) && [name] in [[name]] && Join([name]) == name && Clean(name) == name && Split(name) == [name]
  {
    TextResolves([name]);
  }

  lemma DotIsLate(fold: string -> string, name: string)
    requires IsName(name) && forall s :: fold(s) == s
    ensures !Early(fold, [[name]], "./" + name)
  {
    NamedPlan(name);
    ResolveName("x");
    SpelledWithDot("x", name);
    ResolveName(name);
    TwinIsEarlyExactly(fold, [[name]], [name], "./" + name);
    DotFoldsToItself(fold, name);
  }

  lemma DotFoldsToItself(fold: string -> string, name: string)
    requires IsName(name) && forall s :: fold(s) == s
    ensures !FoldsToPlanned(fold, [[name]], "./" + name)
  {
    assert "./" + name == "." + "/" + name;
    SplitAtSlash(".", name);
    SplitOne(".");
    SplitOne(name);
    KeyOfExact(fold, [".", name]);
    assert [".", name][1..] == [name];
    assert [".", name] == ["."] + [name];
    JoinAppend(["."], [name]);
    assert FoldText(fold, "./" + name) == "." + "/" + name;
    NamedPlan(name);
    KeyOfExact(fold, [name]);
    assert FoldText(fold, Join([name])) == name;
  }

  lemma SlashIsEarly(fold: string -> string, name: string)
    requires IsName(name) && forall s :: fold(s) == s
    ensures Early(fold, [[name]], name + "/")
  {
    NamedPlan(name);
    SpelledWithSlash("x", name) by {
      ResolveName("x");
    }
    TwinIsEarlyExactly(fold, [[name]], [name], name + "/") by {
      ResolveName(name);
    }
  }
}

/** A sync run whose manifest holds keys of any spelling. */
module KeyRuns {
  import opened Options
  import opened RemoteTree
  import opened Publish
  import opened WorkerPool
  import opened PathLists
  import opened DeleteBudgets
  import opened DirRemoval
  import opened SyncJob
  import opened SyncPhases
  import opened SyncManifest
  import opened SyncRoom
  import opened SyncFrame
  import opened SyncSteps
  import opened SyncDeliver
  import opened KeyStrings
  import Clean
  import Confinement
  import SlashPaths

  type Listed = map<string, Digest>

  /** The name a key stands for on the server, below the target. */
  function Place(job: Job, key: string): Path {
    KeyOf(job.id, SlashPaths.Resolve(key).names)
  }

  /** The manifest, read under the keys of the plan. */
  function PlannedPart(job: Job, listed: Listed): Manifest {
    map p | p in job.local && SlashPaths.Join(p) in listed :: listed[SlashPaths.Join(p)]
  }

  ghost predicate PlannedText(job: Job, key: string) {
    exists p :: p in job.local && SlashPaths.Join(p) == key
  }

  ghost predicate StaleKey(job: Job, listed: Listed, base: string, key: string) {
    key in listed && !PlannedText(job, key) && Confinement.SafeJoin(base, key).Some?
  }

  /** A stale key that leads to `k` is deleted before the upload, or after it. */
  ghost predicate Hit(job: Job, listed: Listed, base: string, early: bool, k: Path) {
    exists key :: StaleKey(job, listed, base, key) && Place(job, key) == k && Early(job.fold, job.files, key) == early
  }

  /** What a successful run makes of a planned file: it loses it. */
  ghost predicate Lost(job: Job, listed: Listed, base: string, p: Path) {
    || Hit(job, listed, base, false, Key(job, p))
    || (Hit(job, listed, base, true, Key(job, p)) && Current(job, PlannedPart(job, listed), p))
  }

  lemma PlanIsProper(job: Job)
    requires Sound(job)
    ensures ProperPlan(job.files)
  {
    forall p | p in job.files ensures ProperNames(p) {
      assert PlainPath(job.id, p);
      assert forall i :: 0 <= i < |p| ==> PlainName(job.id, p[i]);
    }
  }

  lemma PlannedPartIsSound(job: Job, listed: Listed)
    requires Sound(job)
    ensures SoundManifest(job, PlannedPart(job, listed))
  {
  }

  /** The listed keys that are not planned and pass safeJoin. */
  method StaleKeys(job: Job, listed: Listed, base: string) returns (toDelete: seq<string>)
    ensures forall key :: key in toDelete <==> StaleKey(job, listed, base, key)
  {
    var planned := set p | p in job.local :: SlashPaths.Join(p);
    toDelete := [];
    var keys := listed.Keys;
    while keys != {}
      invariant keys <= listed.Keys
      invariant forall key :: key in toDelete <==> StaleKey(job, listed, base, key) && key !in keys
      decreases keys
    {
      var key :| key in keys;
      keys := keys - {key};
      assert key in planned <==> PlannedText(job, key);
      if key !in planned && Confinement.SafeJoin(base, key).Some? {
        toDelete := toDelete + [key];
      }
    }
  }

  ghost predicate Meets(job: Job, keys: seq<string>, k: Path) {
    exists key :: key in keys && Place(job, key) == k
  }

  lemma MeetsSnoc(job: Job, keys: seq<string>, key: string)
    ensures forall k :: Meets(job, keys + [key], k) <==> Meets(job, keys, k) || k == Place(job, key)
  {
    assert forall other :: other in keys + [key] <==> other in keys || other == key;
  }

  /** The names the keys stand for, each once. */
  method Places(job: Job, keys: seq<string>) returns (places: seq<Path>)
    ensures Distinct(places)
    ensures forall k :: k in places <==> Meets(job, keys, k)
  {
    places := [];
    for i := 0 to |keys|
      invariant Distinct(places)
      invariant forall k :: k in places <==> Meets(job, keys[..i], k)
    {
      assert keys[..i + 1] == keys[..i] + [keys[i]];
      var k := Place(job, keys[i]);
      MeetsSnoc(job, keys[..i], keys[i]);
      if k !in places {
        places := places + [k];
      }
    }
    assert keys[..|keys|] == keys;
  }

  /** What deleting what the keys stand for does to one file. */
  ghost predicate Dropped(job: Job, keys: seq<string>, k: Path, t0: Tree, t: Tree) {
    FileAt(t, k) == if Meets(job, keys, k) then None else FileAt(t0, k)
  }

  /** Deletes what the keys stand for. */
  method DropKeys(s: Server, job: Job, keys: seq<string>) returns (ok: bool)
    requires s.Valid()
    modifies s`tree, s`trace
    ensures s.Valid() && old(s.trace) <= s.trace
    ensures ok && s.candid ==> forall k :: Dropped(job, keys, k, old(s.tree), s.tree)
  {
    var places := Places(job, keys);
    ghost var t := s.tree;
    var n, done := Clean.DropListed(s, places);
    ok := done;
    if ok && s.candid {
      forall k ensures Dropped(job, keys, k, t, s.tree) {
        assert k !in places ==> Same(t, s.tree, k);
      }
    }
  }

  // ---- The run ----

  /** What the two deletions and the delivery do to one planned file. */
  ghost predicate Delivered(job: Job, m: Manifest, p: Path, t: Tree, t': Tree)
    requires p in job.local
  {
    if Current(job, m, p) then FileAt(t', Key(job, p)) == FileAt(t, Key(job, p)) else Holds(job, t', p)
  }

  lemma DeliveredFiles(job: Job, ext: bool, m: Manifest, upload: seq<Path>, completed: seq<bool>, p: Path, t: Tree, t': Tree)
    requires Sound(job) && p in job.local && |completed| == |upload| && forall i :: 0 <= i < |upload| ==> completed[i]
    requires forall q :: q in upload <==> q in job.local && !Current(job, m, q)
    requires forall i :: 0 <= i < |upload| && completed[i] && upload[i] in job.local ==> Holds(job, t', upload[i])
    requires forall k :: !TempKey(job.id, k) && !UploadArea(job, ext, upload, k) ==> FileAt(t', k) == FileAt(t, k)
    ensures Delivered(job, m, p, t, t')
  {
    PlainIsNotTemp(job, p);
    if !Current(job, m, p) {
      assert p in upload;
    }
  }

  /** Delivers what changed; the planned files the manifest calls current stay as
      they are. */
  method DeliverKeys(s: Server, job: Job, m: Manifest, dirMode: bool) returns (ok: bool)
    requires s.Valid() && Sound(job) && SoundManifest(job, m)
    modifies s`tree, s`trace
    ensures s.Valid() && old(s.trace) <= s.trace
    ensures ok ==> forall p :: p in job.local ==> Delivered(job, m, p, old(s.tree), s.tree)
  {
    ghost var t := s.tree;
    var upload := ChangedFiles(job, m);
    var completed;
    completed, ok := Deliver(s, job, m, upload, dirMode, t);
    if ok {
      forall p | p in job.local ensures Delivered(job, m, p, t, s.tree) {
        DeliveredFiles(job, s.ext, m, upload, completed, p, t, s.tree);
      }
    }
  }

  /** The end of a run: pruning, and the new manifest. Which directories it prunes
      does not matter here. */
  method ConcludeKeys(s: Server, job: Job, budget: DeleteBudget) returns (ok: bool)
    requires s.Valid() && budget.Valid() && Sound(job)
    modifies s`tree, s`trace, budget
    ensures s.Valid() && budget.Valid()
    ensures forall p :: p in job.local ==> FileAt(s.tree, Key(job, p)) == FileAt(old(s.tree), Key(job, p))
  {
    ghost var t := s.tree;
    var dirs: seq<Path> := *;
    var _ := RemoveRemoteDirs(s, dirs, budget);
    OnlyDirsGoneFiles(t, s.tree, dirs);
    ghost var t1 := s.tree;
    ManifestShape(job, Listing(job.local));
    PlanIsOff(job);
    ok := WriteManifest(s, ManifestSlots(job), Listing(job.local));
    forall p | p in job.local ensures FileAt(s.tree, Key(job, p)) == FileAt(t1, Key(job, p)) {
      WriteKeepsPlain(job, s.ext, ManifestSlots(job), Listing(job.local), t1, s.tree, p);
    }
  }

  /** The pre-pass: what collides goes, then the directories in the way. Which ones
      those are does not matter here. */
  method ClearKeys(s: Server, job: Job, colliding: seq<string>, budget: DeleteBudget) returns (ok: bool)
    requires s.Valid() && budget.Valid()
    modifies s`tree, s`trace, budget
    ensures s.Valid() && budget.Valid()
    ensures ok && s.candid ==> forall k :: Dropped(job, colliding, k, old(s.tree), s.tree)
  {
    ok := DropKeys(s, job, colliding);
    if ok {
      var dirs: seq<Path> := *;
      ghost var t0, t := old(s.tree), s.tree;
      var n, done := ClearDirs(s, dirs, budget);
      ok := done;
      forall k ensures FileAt(s.tree, k) == FileAt(t, k) {
      }
      if s.candid {
        forall k ensures Dropped(job, colliding, k, t0, s.tree) {
          assert Dropped(job, colliding, k, t0, t);
        }
      }
    }
  }

  /**
  A sync run on a manifest whose keys may be spelled in any way, as far as it
  concerns the planned files. When it succeeds, a planned file is there as it is
  locally unless it was lost: a key that leads to it was deleted after the upload,
  or before it although the manifest calls the file current. A lost file is missing.
  */
  method SyncByKeys(s: Server, job: Job, listed: Listed, remote: string, budget: DeleteBudget, dirMode: bool)
    returns (ok: bool)
    requires s.Valid() && budget.Valid() && Sound(job)
    requires forall p :: Current(job, PlannedPart(job, listed), p) ==> Holds(job, s.tree, p)
    modifies s`tree, s`trace, budget
    ensures s.Valid() && budget.Valid()
    ensures var base := Confinement.NormalizeRemote(remote);
            ok && s.candid ==> forall p :: p in job.local ==>
              (Holds(job, s.tree, p) <==> !Lost(job, listed, base, p))
              && (FileAt(s.tree, Key(job, p)) == None <==> Lost(job, listed, base, p))
    ensures (exists key :: StaleKey(job, listed, Confinement.NormalizeRemote(remote), key)) && !Confinement.CheckRemoteRoot(remote) ==>
              !ok && s.tree == old(s.tree) && budget.spent == old(budget.spent)
  {
    var base := Confinement.NormalizeRemote(remote);
    ghost var t0 := s.tree;
    var m := PlannedPart(job, listed);
    PlannedPartIsSound(job, listed);
    PlanIsProper(job);
    var toDelete := StaleKeys(job, listed, base);
    ok := Charge(toDelete, budget, remote);
    if !ok {
      return;
    }
    if toDelete != [] {
      AcceptedIsClean(remote);
    }
    forall key | key in toDelete ensures Inside(key) {
      AcceptedIsInside(base, key);
    }
    var colliding, rest := CollidingKeys(job.fold, toDelete, job.files);
    ok := ClearKeys(s, job, colliding, budget);
    if !ok {
      return;
    }
    ghost var t1 := s.tree;
    ok := DeliverKeys(s, job, m, dirMode);
    if !ok {
      return;
    }
    ghost var t2 := s.tree;
    ok := DropKeys(s, job, rest);
    if !ok {
      return;
    }
    ghost var t3 := s.tree;
    ok := ConcludeKeys(s, job, budget);
    if s.candid {
      forall p | p in job.local
        ensures Holds(job, s.tree, p) <==> !Lost(job, listed, base, p)
        ensures FileAt(s.tree, Key(job, p)) == None <==> Lost(job, listed, base, p)
      {
        FileOfTheRun(job, listed, base, toDelete, p, t0, t1, t2, t3);
      }
    }
  }

  /** An accepted target is none that cleans to the starting directory itself. */
  lemma AcceptedIsClean(remote: string)
    requires Confinement.CheckRemoteRoot(remote)
    ensures SlashPaths.Clean(Confinement.NormalizeRemote(remote)) != "."
  {
    SlashPaths.CleanKeepsMeaning(Confinement.ToSlash(remote));
  }

  /** Charges the deletions, behind the root check. */
  method Charge(toDelete: seq<string>, budget: DeleteBudget, remote: string) returns (ok: bool)
    requires budget.Valid()
    modifies budget
    ensures budget.Valid() && budget.spent == old(budget.spent) + if ok then |toDelete| else 0
    ensures ok <==> toDelete == [] || (Confinement.CheckRemoteRoot(remote) && old(budget.Affords(|toDelete|)))
  {
    ok := true;
    if |toDelete| > 0 {
      if !Confinement.CheckRemoteRoot(remote) {
        return false;
      }
      ok := budget.Reserve(|toDelete|);
    }
  }

  lemma FileOfTheRun(job: Job, listed: Listed, base: string, toDelete: seq<string>, p: Path,
                     t0: Tree, t1: Tree, t2: Tree, t3: Tree)
    requires p in job.local && (Current(job, PlannedPart(job, listed), p) ==> Holds(job, t0, p))
    requires forall key :: key in toDelete <==> StaleKey(job, listed, base, key)
    requires Dropped(job, KeyPart(job.fold, job.files, toDelete, true), Key(job, p), t0, t1)
    requires Delivered(job, PlannedPart(job, listed), p, t1, t2)
    requires Dropped(job, KeyPart(job.fold, job.files, toDelete, false), Key(job, p), t2, t3)
    ensures Holds(job, t3, p) <==> !Lost(job, listed, base, p)
    ensures FileAt(t3, Key(job, p)) == None <==> Lost(job, listed, base, p)
  {
    HitsAreMet(job, listed, base, toDelete, true, Key(job, p));
    HitsAreMet(job, listed, base, toDelete, false, Key(job, p));
  }

  lemma HitsAreMet(job: Job, listed: Listed, base: string, toDelete: seq<string>, early: bool, k: Path)
    requires forall key :: key in toDelete <==> StaleKey(job, listed, base, key)
    ensures Meets(job, KeyPart(job.fold, job.files, toDelete, early), k) <==> Hit(job, listed, base, early, k)
  {
    forall key ensures key in KeyPart(job.fold, job.files, toDelete, early) <==>
                         StaleKey(job, listed, base, key) && Early(job.fold, job.files, key) == early
    {
    }
  }

  /** On a server that tells all names apart, a key leads to a planned file exactly
      when it cleans to it. */
  lemma SamePlaceExactly(job: Job, p: Path, key: string)
    requires Sound(job) && p in job.local && (forall n :: job.id(n) == n) && Inside(key)
    ensures Place(job, key) == Key(job, p) <==> SlashPaths.Clean(key) == SlashPaths.Join(p)
  {
    PlanIsProper(job);
    KeysExact(job, p);
    KeyOfExact(job.id, SlashPaths.Resolve(key).names);
    TextResolves(p);
    SlashPaths.CleanKeepsMeaning(key);
    assert p in job.files;
  }

  /** A stale key that leads to the planned file under another spelling. */
  ghost predicate Twin(job: Job, listed: Listed, base: string, p: Path, key: string) {
    StaleKey(job, listed, base, key) && SlashPaths.Clean(key) == SlashPaths.Join(p)
  }

  /** It goes before the upload; see TwinIsEarlyExactly. */
  ghost predicate EarlyKind(job: Job, key: string) {
    EndsOddly(key) || FoldsToPlanned(job.fold, job.files, key)
  }

  /** On such a server a successful run loses a planned file exactly when it has a
      twin of the late kind, or one of the early kind and is current. */
  lemma LostExactly(job: Job, listed: Listed, base: string, p: Path)
    requires Sound(job) && p in job.local && (forall n :: job.id(n) == n) && SlashPaths.Clean(base) != "."
    ensures Lost(job, listed, base, p) <==>
              exists key :: Twin(job, listed, base, p, key)
                            && (!EarlyKind(job, key) || Current(job, PlannedPart(job, listed), p))
  {
    forall key | StaleKey(job, listed, base, key)
      ensures Place(job, key) == Key(job, p) <==> Twin(job, listed, base, p, key)
      ensures Twin(job, listed, base, p, key) ==> (Early(job.fold, job.files, key) <==> EarlyKind(job, key))
    {
      TwinOfTheRun(job, listed, base, p, key);
    }
  }

  lemma TwinOfTheRun(job: Job, listed: Listed, base: string, p: Path, key: string)
    requires Sound(job) && p in job.local && (forall n :: job.id(n) == n) && SlashPaths.Clean(base) != "."
    requires StaleKey(job, listed, base, key)
    ensures Place(job, key) == Key(job, p) <==> Twin(job, listed, base, p, key)
    ensures Twin(job, listed, base, p, key) ==> (Early(job.fold, job.files, key) <==> EarlyKind(job, key))
  {
    AcceptedIsInside(base, key);
    SamePlaceExactly(job, p, key);
    PlanIsProper(job);
    assert p in job.files;
    if Twin(job, listed, base, p, key) {
      TwinIsEarlyExactly(job.fold, job.files, p, key);
    }
  }
}
