/** The walk that builds a plan (buildPlan): pruning excluded directories, or
    looking into everything. */
module Planner {
  import opened Gitignore
  import opened SegmentGlob
  import Confinement
  import SlashPaths

  /** The local tree the walk sees, entries of a directory in the order they are
      visited. `regular` is false for symlinks, sockets and the like. */
  datatype Entry =
    | FileEntry(name: string, regular: bool)
    | DirEntry(name: string, below: seq<Entry>)

  /** What a walk found: the files to upload, in order, and how many non-regular
      ones it skipped. */
  datatype Found = Found(files: seq<seq<string>>, skipped: nat)

  function Plus(a: Found, b: Found): Found {
    Found(a.files + b.files, a.skipped + b.skipped)
  }

  const NOTHING := Found([], 0)

  /** What excludes a path; the flag says that the path is a directory. */
  type Rule = (seq<string>, bool) -> bool

  ghost function RuleOf(ps: seq<Pattern>): Rule {
    (path, isDir) => Excluded(ps, path, isDir)
  }

  /** Every file below an excluded directory is excluded. */
  ghost predicate Downward(ex: Rule) {
    forall dir, path :: dir != [] && dir <= path && dir != path && ex(dir, true) ==> ex(path, false)
  }

  lemma NoNegationIsDownward(ps: seq<Pattern>)
    requires forall i :: 0 <= i < |ps| ==> !ps[i].negate
    ensures Downward(RuleOf(ps))
  {
    forall dir, path | dir != [] && dir <= path && dir != path && RuleOf(ps)(dir, true)
      ensures RuleOf(ps)(path, false)
    {
      ExcludedBelow(ps, dir, path, false);
    }
  }

  ghost function VisitFile(ex: Rule, manifest: string, path: seq<string>, regular: bool): Found {
    if path == [manifest] then NOTHING
    else if ex(path, false) then NOTHING
    else if !regular then Found([], 1)
    else Found([path], 0)
  }

  ghost function WalkEntry(ex: Rule, manifest: string, prune: bool, dir: seq<string>, e: Entry): Found
    decreases e, 0
  {
    var path := dir + [e.name];
    match e
    case FileEntry(_, regular) => VisitFile(ex, manifest, path, regular)
    case DirEntry(_, below) =>
      if prune && ex(path, true) then NOTHING else WalkAll(ex, manifest, prune, path, below)
  }

  ghost function WalkAll(ex: Rule, manifest: string, prune: bool, dir: seq<string>, es: seq<Entry>): Found
    decreases es
  {
    if es == [] then NOTHING
    else Plus(WalkAll(ex, manifest, prune, dir, es[..|es| - 1]), WalkEntry(ex, manifest, prune, dir, es[|es| - 1]))
  }

  /** A full walk finds nothing below an excluded directory: no file, and no
      non-regular file to report. */
  lemma {:induction false} ExcludedIsEmpty(ex: Rule, manifest: string, top: seq<string>, dir: seq<string>, es: seq<Entry>)
    requires Downward(ex) && top != [] && top <= dir && ex(top, true)
    ensures WalkAll(ex, manifest, false, dir, es) == NOTHING
    decreases es
  {
    if es != [] {
      ExcludedIsEmpty(ex, manifest, top, dir, es[..|es| - 1]);
      ExcludedEntry(ex, manifest, top, dir, es[|es| - 1]);
      PlusNothing(NOTHING.files);
    }
  }

  lemma PlusNothing(none: seq<seq<string>>)
    requires none == []
    ensures none + none == none
  {
  }

  lemma {:induction false} ExcludedEntry(ex: Rule, manifest: string, top: seq<string>, dir: seq<string>, e: Entry)
    requires Downward(ex) && top != [] && top <= dir && ex(top, true)
    ensures WalkEntry(ex, manifest, false, dir, e) == NOTHING
    decreases e, 0
  {
    var path := dir + [e.name];
    assert top <= path && top != path;
    match e
    case FileEntry(_, _) => assert ex(path, false);
    case DirEntry(_, below) => ExcludedIsEmpty(ex, manifest, top, path, below);
  }

  lemma {:induction false} PrunedEntry(ex: Rule, manifest: string, dir: seq<string>, e: Entry)
    requires Downward(ex)
    ensures WalkEntry(ex, manifest, true, dir, e) == WalkEntry(ex, manifest, false, dir, e)
    decreases e, 0
  {
    if e.DirEntry? {
      var path := dir + [e.name];
      if ex(path, true) {
        ExcludedIsEmpty(ex, manifest, path, path, e.below);
      } else {
        PrunedAll(ex, manifest, path, e.below);
      }
    }
  }

  lemma {:induction false} PrunedAll(ex: Rule, manifest: string, dir: seq<string>, es: seq<Entry>)
    requires Downward(ex)
    ensures WalkAll(ex, manifest, true, dir, es) == WalkAll(ex, manifest, false, dir, es)
    decreases es
  {
    if es != [] {
      PrunedAll(ex, manifest, dir, es[..|es| - 1]);
      PrunedEntry(ex, manifest, dir, es[|es| - 1]);
    }
  }

  /** Pruning preserves meaning: when no exclude line starts with "!", the walk
      that skips excluded directories finds the same files, in the same order,
      and skips as many non-regular ones, for every tree and every list of lines. */
  lemma PruningPreservesMeaning(lines: seq<string>, manifest: string, es: seq<Entry>)
    requires !HasNegation(lines)
    ensures WalkAll(RuleOf(Parsed(lines)), manifest, true, [], es) == WalkAll(RuleOf(Parsed(lines)), manifest, false, [], es)
  {
    NoNegation(lines);
    NoNegationIsDownward(Parsed(lines));
    PrunedAll(RuleOf(Parsed(lines)), manifest, [], es);
  }

  // ---- When pruning is safe ----

  function Chain(path: seq<string>): Entry
    requires path != []
  {
    if |path| == 1 then FileEntry(path[0], true) else DirEntry(path[0], [Chain(path[1..])])
  }

  lemma WalkOne(ex: Rule, manifest: string, prune: bool, dir: seq<string>, e: Entry)
    ensures WalkAll(ex, manifest, prune, dir, [e]) == WalkEntry(ex, manifest, prune, dir, e)
  {
    assert [e][..0] == [];
    var f := WalkEntry(ex, manifest, prune, dir, e);
    assert [] + f.files == f.files;
  }

  lemma {:induction false} FullChain(ex: Rule, manifest: string, dir: seq<string>, path: seq<string>)
    requires path != []
    ensures WalkEntry(ex, manifest, false, dir, Chain(path)) == VisitFile(ex, manifest, dir + path, true)
    decreases |path|
  {
    if |path| == 1 {
      assert path == [path[0]];
    } else {
      assert dir + path == dir + [path[0]] + path[1..];
      FullChain(ex, manifest, dir + [path[0]], path[1..]);
      WalkOne(ex, manifest, false, dir + [path[0]], Chain(path[1..]));
    }
  }

  lemma {:induction false} PrunedChain(ex: Rule, manifest: string, dir: seq<string>, path: seq<string>, k: nat)
    requires 0 < k < |path| && ex(dir + path[..k], true)
    ensures WalkEntry(ex, manifest, true, dir, Chain(path)) == NOTHING
    decreases |path|
  {
    var next := dir + [path[0]];
    if k == 1 {
      assert path[..1] == [path[0]];
    } else {
      assert dir + path[..k] == next + path[1..][..k - 1];
      PrunedChain(ex, manifest, next, path[1..], k - 1);
      WalkOne(ex, manifest, true, next, Chain(path[1..]));
    }
  }

  /** Pruning is safe, for every tree, exactly when the rule never re-includes a
      file below an excluded directory. */
  lemma PruningIsSafeExactly(ex: Rule)
    ensures (forall manifest, es :: WalkAll(ex, manifest, true, [], es) == WalkAll(ex, manifest, false, [], es))
            <==> Downward(ex)
  {
    if Downward(ex) {
      forall manifest, es ensures WalkAll(ex, manifest, true, [], es) == WalkAll(ex, manifest, false, [], es) {
        PrunedAll(ex, manifest, [], es);
      }
    } else {
      var dir, path :| dir != [] && dir <= path && dir != path && ex(dir, true) && !ex(path, false);
      LosesAFile(ex, "", dir, path);
    }
  }

  lemma LosesAFile(ex: Rule, manifest: string, dir: seq<string>, path: seq<string>)
    requires dir != [] && dir <= path && dir != path && ex(dir, true) && !ex(path, false)
    ensures WalkAll(ex, manifest, true, [], [Chain(path)]) != WalkAll(ex, manifest, false, [], [Chain(path)])
  {
    FullFinds(ex, manifest, path);
    PrunedMisses(ex, manifest, dir, path);
  }

  lemma FullFinds(ex: Rule, manifest: string, path: seq<string>)
    requires |path| > 1 && !ex(path, false)
    ensures WalkAll(ex, manifest, false, [], [Chain(path)]) == Found([path], 0)
  {
    assert [] + path == path;
    FullChain(ex, manifest, [], path);
    WalkOne(ex, manifest, false, [], Chain(path));
  }

  lemma PrunedMisses(ex: Rule, manifest: string, dir: seq<string>, path: seq<string>)
    requires dir != [] && dir <= path && dir != path && ex(dir, true)
    ensures WalkAll(ex, manifest, true, [], [Chain(path)]) == NOTHING
  {
    assert [] + path[..|dir|] == dir;
    PrunedChain(ex, manifest, [], path, |dir|);
    WalkOne(ex, manifest, true, [], Chain(path));
  }

  lemma WalkSnoc(ex: Rule, manifest: string, prune: bool, dir: seq<string>, es: seq<Entry>, i: nat)
    requires i < |es|
    ensures WalkAll(ex, manifest, prune, dir, es[..i + 1]) ==
            Plus(WalkAll(ex, manifest, prune, dir, es[..i]), WalkEntry(ex, manifest, prune, dir, es[i]))
  {
    assert es[..i + 1][..i] == es[..i];
  }

  lemma PlusAssociates(a: Found, b: Found, c: Found)
    ensures Plus(Plus(a, b), c) == Plus(a, Plus(b, c))
  {
    assert a.files + b.files + c.files == a.files + (b.files + c.files);
  }

  method Decide(ps: seq<Pattern>, path: seq<string>, isDir: bool) returns (excluded: bool)
    ensures excluded == RuleOf(ps)(path, isDir)
  {
    excluded := MatchesHow(ps, path, isDir);
  }

  /** The plan under construction. */
  class Plan {
    var files: seq<seq<string>>
    var skippedNonRegular: nat
    const patterns: seq<Pattern>
    const pruneDirs: bool
    const manifestName: string

    ghost function State(): Found
      reads this
    {
      Found(files, skippedNonRegular)
    }

    constructor (ps: seq<Pattern>, prune: bool, manifest: string)
      ensures State() == NOTHING && patterns == ps && pruneDirs == prune && manifestName == manifest
    {
      files, skippedNonRegular := [], 0;
      patterns, pruneDirs, manifestName := ps, prune, manifest;
    }

    method AddFile(path: seq<string>, regular: bool)
      modifies this
      ensures State() == Plus(old(State()), VisitFile(RuleOf(patterns), manifestName, path, regular))
    {
      if path == [manifestName] {
        return;
      }
      var excluded := Decide(patterns, path, false);
      if excluded {
        return;
      }
      if !regular {
        skippedNonRegular := skippedNonRegular + 1;
        return;
      }
      files := files + [path];
    }

    method Visit(dir: seq<string>, e: Entry)
      modifies this
      ensures State() == Plus(old(State()), WalkEntry(RuleOf(patterns), manifestName, pruneDirs, dir, e))
      decreases e, 0
    {
      var path := dir + [e.name];
      match e
      case FileEntry(_, regular) => AddFile(path, regular);
      case DirEntry(_, below) =>
        if pruneDirs {
          var excluded := Decide(patterns, path, true);
          if excluded {
            return;
          }
        }
        Walk(path, below);
    }

    method Walk(dir: seq<string>, es: seq<Entry>)
      modifies this
      ensures State() == Plus(old(State()), WalkAll(RuleOf(patterns), manifestName, pruneDirs, dir, es))
      decreases es
    {
      ghost var before := State();
      for i := 0 to |es|
        invariant State() == Plus(before, WalkAll(RuleOf(patterns), manifestName, pruneDirs, dir, es[..i]))
      {
        WalkSnoc(RuleOf(patterns), manifestName, pruneDirs, dir, es, i);
        PlusAssociates(before, WalkAll(RuleOf(patterns), manifestName, pruneDirs, dir, es[..i]),
                       WalkEntry(RuleOf(patterns), manifestName, pruneDirs, dir, es[i]));
        Visit(dir, es[i]);
      }
      assert es[..|es|] == es;
    }
  }

  // ---- The plan ----

  datatype Strategy = Overlay | Cleaning | Syncing

  /** What the local path of a deployment is. */
  datatype Source = Single(name: string) | Directory(entries: seq<Entry>)

  /** One planned upload: its path below the source, and where it goes. */
  datatype Item = Item(rel: seq<string>, remote: string)

  datatype PlanResult = BadLine | NeedsDirectory | Planned(items: seq<Item>, skipped: nat)

  /** Does the target name a directory to put a single file into? Only a slash at its
      end says so; a backslash there does not, although the target is read as if it
      were one. */
  predicate IntoDirectory(remote: string) {
    (remote != "" && remote[|remote| - 1] == '/') || Confinement.NormalizeRemote(remote) == "."
  }

  function SingleTarget(remote: string, name: string): string {
    var base := Confinement.NormalizeRemote(remote);
    if IntoDirectory(remote) then SlashPaths.JoinPath(base, name) else base
  }

  function ItemOf(remote: string, rel: seq<string>): Item {
    Item(rel, SlashPaths.JoinPath(Confinement.NormalizeRemote(remote), SlashPaths.Join(rel)))
  }

  function Items(remote: string, rels: seq<seq<string>>): (items: seq<Item>)
    ensures |items| == |rels| && forall i :: 0 <= i < |rels| ==> items[i] == ItemOf(remote, rels[i])
  {
    seq(|rels|, i requires 0 <= i < |rels| => ItemOf(remote, rels[i]))
  }

  /** The plan, whatever the walk skips early. A single file is for overlay only. */
  ghost function PlanOf(ex: Rule, manifest: string, source: Source, remote: string, strategy: Strategy): PlanResult {
    match source
    case Single(name) =>
      if strategy != Overlay then NeedsDirectory
      else if ex([name], false) then Planned([], 0)
      else Planned([Item([name], SingleTarget(remote, name))], 0)
    case Directory(es) =>
      var found := WalkAll(ex, manifest, false, [], es);
      Planned(Items(remote, found.files), found.skipped)
  }

  /** Compiles the lines and plans a single file, or walks the tree, pruning when no
      line starts with "!". Whatever the lines are, the plan is that of the full walk. */
  method BuildPlan(lines: seq<string>, manifest: string, source: Source, remote: string, strategy: Strategy)
    returns (r: PlanResult)
    ensures r == if WellFormed(lines) then PlanOf(RuleOf(Parsed(lines)), manifest, source, remote, strategy) else BadLine
  {
    var compiled := CompileGitignore(lines);
    if compiled.BadPattern? {
      BadPrefix(lines, compiled.line);
      return BadLine;
    }
    if source.Single? {
      r := PlanSingle(compiled.value, source.name, remote, strategy);
    } else {
      var files, skipped := PlanTree(lines, compiled.value, manifest, source.entries);
      r := Planned(Items(remote, files), skipped);
    }
  }

  method PlanSingle(ps: seq<Pattern>, name: string, remote: string, strategy: Strategy) returns (r: PlanResult)
    ensures forall manifest :: r == PlanOf(RuleOf(ps), manifest, Single(name), remote, strategy)
  {
    if strategy != Overlay {
      return NeedsDirectory;
    }
    var excluded := Decide(ps, [name], false);
    r := if excluded then Planned([], 0) else Planned([Item([name], SingleTarget(remote, name))], 0);
  }

  method PlanTree(lines: seq<string>, ps: seq<Pattern>, manifest: string, es: seq<Entry>)
    returns (files: seq<seq<string>>, skipped: nat)
    requires ps == Parsed(lines)
    ensures Found(files, skipped) == WalkAll(RuleOf(Parsed(lines)), manifest, false, [], es)
  {
    var prune := !HasNegation(lines);
    files, skipped := WalkTree(ps, prune, manifest, es);
    if prune {
      PruningPreservesMeaning(lines, manifest, es);
    }
  }

  // ---- Where the files go ----

  predicate Named(e: Entry) {
    SlashPaths.IsName(e.name) && (e.DirEntry? ==> AllNamed(e.below))
  }

  predicate AllNamed(es: seq<Entry>) {
    forall e | e in es :: Named(e)
  }

  predicate NamedPath(rel: seq<string>) {
    rel != [] && forall i :: 0 <= i < |rel| ==> SlashPaths.IsName(rel[i])
  }

  lemma {:induction false} WalkFindsNames(ex: Rule, manifest: string, dir: seq<string>, es: seq<Entry>)
    requires AllNamed(es) && (dir == [] || NamedPath(dir))
    ensures forall rel :: rel in WalkAll(ex, manifest, false, dir, es).files ==> NamedPath(rel)
    decreases es
  {
    if es != [] {
      var e := es[|es| - 1];
      assert e in es;
      WalkFindsNames(ex, manifest, dir, es[..|es| - 1]);
      EntryFindsNames(ex, manifest, dir, e);
    }
  }

  lemma {:induction false} EntryFindsNames(ex: Rule, manifest: string, dir: seq<string>, e: Entry)
    requires Named(e) && (dir == [] || NamedPath(dir))
    ensures forall rel :: rel in WalkEntry(ex, manifest, false, dir, e).files ==> NamedPath(rel)
    decreases e, 0
  {
    assert NamedPath(dir + [e.name]);
    if e.DirEntry? {
      WalkFindsNames(ex, manifest, dir + [e.name], e.below);
    }
  }

  /** Joining names to a target goes down by exactly those names. */
  lemma JoinNamesLands(remote: string, rel: seq<string>)
    requires NamedPath(rel)
    ensures var b := SlashPaths.Resolve(Confinement.NormalizeRemote(remote));
            SlashPaths.Resolve(ItemOf(remote, rel).remote) == b.(names := b.names + rel)
  {
    var base, text := Confinement.NormalizeRemote(remote), SlashPaths.Join(rel);
    SlashPaths.ResolveProper(Confinement.ToSlash(remote));
    Confinement.RenderNotEmpty(SlashPaths.Resolve(Confinement.ToSlash(remote)));
    Confinement.JoinEndsInLast(rel);
    SlashPaths.SplitJoin(rel);
    SlashPaths.JoinResolves(base, text);
    SlashPaths.FollowNames(SlashPaths.Resolve(base), rel);
    SlashPaths.CleanKeepsMeaning(base + "/" + text);
  }

  /** Where a plan puts things: every file of a directory at its own path below the
      target; a single file below it, or at it. */
  lemma PlanLands(ex: Rule, manifest: string, source: Source, remote: string, strategy: Strategy, k: nat)
    requires if source.Single? then SlashPaths.IsName(source.name) else AllNamed(source.entries)
    requires PlanOf(ex, manifest, source, remote, strategy).Planned?
    requires k < |PlanOf(ex, manifest, source, remote, strategy).items|
    ensures var item := PlanOf(ex, manifest, source, remote, strategy).items[k];
            var b := SlashPaths.Resolve(Confinement.NormalizeRemote(remote));
            && !ex(item.rel, false)
            && SlashPaths.Resolve(item.remote) ==
               (if source.Single? && !IntoDirectory(remote) then b else b.(names := b.names + item.rel))
  {
    match source
    case Single(name) =>
      JoinNamesLands(remote, [name]);
    case Directory(es) =>
      var files := WalkAll(ex, manifest, false, [], es).files;
      WalkFindsNames(ex, manifest, [], es);
      assert files[k] in files;
      JoinNamesLands(remote, files[k]);
      WalkFindsIncluded(ex, manifest, [], es);
  }

  /** A backslash at the end of the target is read as a slash everywhere but in this
      test: a target that ends in a slash takes a single file in, the same one spelled
      with a backslash at its end is the file's own name. */
  lemma BackslashIsNoSlash(dir: string, name: string)
    requires SlashPaths.IsName(dir) && SlashPaths.IsName(name) && BS !in dir
    ensures Confinement.NormalizeRemote(dir + "/") == Confinement.NormalizeRemote(dir + [BS])
    ensures SlashPaths.Resolve(SingleTarget(dir + "/", name)).names == [dir, name]
    ensures SlashPaths.Resolve(SingleTarget(dir + [BS], name)).names == [dir]
  {
    SlashedLast(dir, '/');
    SlashedLast(dir, BS);
    SlashPaths.JoinSlashEmpty(dir);
    assert dir + "/" + "" == dir + "/";
    Confinement.ResolveName(dir);
    SlashPaths.CleanKeepsMeaning(dir + "/");
    Confinement.RenderDotNames(SlashPaths.Resolve(dir + "/"));
    JoinNamesLands(dir + "/", [name]);
    assert [dir] + [name] == [dir, name];
  }

  lemma {:induction false} SlashedLast(s: string, last: char)
    requires BS !in s && (last == '/' || last == BS)
    ensures Confinement.ToSlash(s + [last]) == s + "/"
  {
    if s != "" {
      assert (s + [last])[1..] == s[1..] + [last] && (s + [last])[0] == s[0];
      SlashedLast(s[1..], last);
      assert [s[0]] + (s[1..] + "/") == s + "/";
    } else {
      assert (s + [last])[1..] == "";
    }
  }

  lemma {:induction false} WalkFindsIncluded(ex: Rule, manifest: string, dir: seq<string>, es: seq<Entry>)
    ensures forall rel :: rel in WalkAll(ex, manifest, false, dir, es).files ==> !ex(rel, false)
    decreases es
  {
    if es != [] {
      WalkFindsIncluded(ex, manifest, dir, es[..|es| - 1]);
      EntryFindsIncluded(ex, manifest, dir, es[|es| - 1]);
    }
  }

  lemma {:induction false} EntryFindsIncluded(ex: Rule, manifest: string, dir: seq<string>, e: Entry)
    ensures forall rel :: rel in WalkEntry(ex, manifest, false, dir, e).files ==> !ex(rel, false)
    decreases e, 0
  {
    if e.DirEntry? {
      WalkFindsIncluded(ex, manifest, dir + [e.name], e.below);
    }
  }

  method WalkTree(ps: seq<Pattern>, prune: bool, manifest: string, es: seq<Entry>)
    returns (files: seq<seq<string>>, skipped: nat)
    ensures Found(files, skipped) == WalkAll(RuleOf(ps), manifest, prune, [], es)
  {
    var plan := new Plan(ps, prune, manifest);
    plan.Walk([], es);
    files, skipped := plan.files, plan.skippedNonRegular;
    PlusNone(WalkAll(RuleOf(ps), manifest, prune, [], es));
  }

  lemma PlusNone(f: Found)
    ensures Plus(NOTHING, f) == f
  {
    assert [] + f.files == f.files;
  }

  lemma {:induction false} BadPrefix(lines: seq<string>, n: nat)
    requires n <= |lines| && !WellFormed(lines[..n])
    ensures !WellFormed(lines)
    decreases |lines|
  {
    if n < |lines| {
      assert lines[..|lines| - 1][..n] == lines[..n];
      BadPrefix(lines[..|lines| - 1], n);
    } else {
      assert lines[..n] == lines;
    }
  }
}
