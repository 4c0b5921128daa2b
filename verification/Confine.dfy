/** The guards that keep removals below the deployment target (checkRemoteRoot,
    safeJoin, safeChild, within), and the walks up towards it. */
module Confinement {
  import opened Options
  import opened SlashPaths

  function ToSlash(s: string): string {
    if s == "" then "" else [if s[0] == '\\' then '/' else s[0]] + ToSlash(s[1..])
  }

  function NormalizeRemote(remote: string): string {
    Clean(ToSlash(remote))
  }

  predicate IsLetter(c: char) {
    'A' <= c <= 'Z' || 'a' <= c <= 'z'
  }

  predicate IsDriveRoot(s: string) {
    && (|s| == 2 || |s| == 3)
    && (|s| == 3 ==> s[0] == '/')
    && s[|s| - 1] == ':' && IsLetter(s[|s| - 2])
  }

  predicate CheckRemoteRoot(remote: string) {
    var n := NormalizeRemote(remote);
    && n != "/" && n != "." && n != "" && n != "~"
    && !IsDriveRoot(n)
    && n != ".." && !("../" <= n)
  }

  predicate Within(base: string, full: string) {
    var b := Clean(base);
    if b == "." then !("/" <= full) && full != ".." && !("../" <= full)
    else full != b && TrimSlash(b) + "/" <= full
  }

  function SafeJoin(base: string, rel: string): Option<string> {
    if rel == "" || rel == "." || "/" <= rel then None
    else
      var cleaned := Clean(rel);
      if cleaned == ".." || "../" <= cleaned then None
      else
        var full := JoinPath(base, cleaned);
        if !Within(base, full) then None else Some(full)
  }

  function SafeChild(dir: string, name: string): Option<string> {
    if '/' in name then None else SafeJoin(dir, name)
  }

  /** `k` is a place strictly below `b`. */
  predicate StrictlyBelow(b: Location, k: Location) {
    k.rooted == b.rooted && k.ups == b.ups && b.names < k.names
  }

  // ---- What the string tests mean ----

  /** What stands before the first slash of a climb is "..". */
  lemma ClimbHead(first: string, rest: string)
    requires '/' !in first && "../" <= first + "/" + rest
    ensures first == ".."
  {
    var s := first + "/" + rest;
    assert s[0] == '.' && s[1] == '.' && s[2] == '/';
    assert s[|first|] == '/';
    assert forall k :: 0 <= k < |first| ==> first[k] == s[k] && first[k] in first;
  }

  /** A joined list that starts with a climb has one as its first segment. */
  lemma ClimbComesFirst(segs: seq<string>)
    requires segs != [] && '/' !in segs[0]
    requires Join(segs) == ".." || "../" <= Join(segs)
    ensures segs[0] == ".."
  {
    if |segs| > 1 {
      var rest := Join(segs[1..]);
      assert Join(segs) == segs[0] + "/" + rest;
      assert Join(segs)[|segs[0]|] == '/';
      if "../" <= Join(segs) {
        ClimbHead(segs[0], rest);
      }
    } else {
      assert "../"[2] == '/';
    }
  }

  lemma ClimbShows(segs: seq<string>)
    requires segs != [] && segs[0] == ".."
    ensures Join(segs) == ".." || "../" <= Join(segs)
  {
    if |segs| > 1 {
      assert Join(segs)[..3] == "../";
    }
  }

  lemma ClimbsExactly(l: Location)
    requires Proper(l)
    ensures Render(l) == ".." || "../" <= Render(l) <==> !l.rooted && l.ups > 0
  {
    if l.rooted {
      assert Render(l)[0] == '/';
    } else if l.ups > 0 || l.names != [] {
      var segs := Segments(l);
      if l.ups > 0 {
        ClimbShows(segs);
      } else if Render(l) == ".." || "../" <= Render(l) {
        ClimbComesFirst(segs);
        assert false;
      }
    }
  }

  lemma RootedExactly(l: Location)
    requires Proper(l)
    ensures "/" <= Render(l) <==> l.rooted
  {
    var s := Render(l);
    assert "/" <= s <==> s != "" && s[0] == '/';
    if !l.rooted && Segments(l) != [] {
      var segs := Segments(l);
      assert segs[0] == if l.ups == 0 then l.names[0] else "..";
      assert Join(segs)[0] == segs[0][0];
      assert segs[0][0] in segs[0];
    }
  }

  lemma BelowHasPrefix(b: Location, rest: seq<string>)
    requires Proper(b) && Segments(b) != [] && rest != []
    ensures Render(b) + "/" <= Render(b.(names := b.names + rest))
  {
    var k := b.(names := b.names + rest);
    assert Segments(k) == Segments(b) + rest;
    JoinAppend(Segments(b), rest);
    if b.rooted {
      assert Segments(k) == k.names && Segments(b) == b.names;
    }
  }

  lemma NoTrailingSlash(l: Location)
    requires Proper(l) && Segments(l) != []
    ensures TrimSlash(Render(l)) == Render(l)
  {
    var segs := Segments(l);
    JoinEndsInLast(segs);
    assert l.rooted ==> segs == l.names;
  }

  lemma {:induction false} JoinEndsInLast(segs: seq<string>)
    requires segs != [] && forall i :: 0 <= i < |segs| ==> segs[i] != "" && '/' !in segs[i]
    ensures Join(segs) != "" && Join(segs)[|Join(segs)| - 1] != '/'
    decreases |segs|
  {
    if |segs| > 1 {
      JoinEndsInLast(segs[1..]);
    }
  }

  /** Within, on what safeJoin gives it: a place at or below the base. */
  lemma WithinExactly(base: string, rest: seq<string>)
    requires forall i :: 0 <= i < |rest| ==> IsName(rest[i])
    ensures var b := Resolve(base);
            Within(base, Render(b.(names := b.names + rest))) <==> rest != [] || Clean(base) == "."
  {
    var b := Resolve(base);
    ResolveProper(base);
    var k := b.(names := b.names + rest);
    ClimbsExactly(k);
    RootedExactly(k);
    if Clean(base) == "." {
      RenderDot(b);
    } else if rest == [] {
      assert b.names + rest == b.names;
    } else {
      BelowIsWithin(base, rest);
    }
  }

  lemma RenderDot(b: Location)
    requires Proper(b) && Render(b) == "."
    ensures b == Location(false, 0, [])
  {
    RenderInjective(b, Location(false, 0, []));
  }

  lemma BelowIsWithin(base: string, rest: seq<string>)
    requires rest != [] && (forall i :: 0 <= i < |rest| ==> IsName(rest[i])) && Clean(base) != "."
    ensures var b := Resolve(base); Within(base, Render(b.(names := b.names + rest)))
  {
    var b := Resolve(base);
    ResolveProper(base);
    var k := b.(names := b.names + rest);
    if Render(k) == Render(b) {
      RenderInjective(k, b);
    }
    if Segments(b) == [] {
      assert b.rooted && b.names == [] && TrimSlash(Render(b)) == "";
      assert "" + "/" <= Render(k);
    } else {
      BelowHasPrefix(b, rest);
      NoTrailingSlash(b);
    }
  }

  // ---- safeJoin ----

  /** Where `rel` leads from `base`. */
  function Target(base: string, rel: string): Location {
    var b := Resolve(base);
    b.(names := b.names + Resolve(rel).names)
  }

  lemma JoinPathLands(base: string, rel: string)
    requires rel != "" && !Resolve(rel).rooted && Resolve(rel).ups == 0
    ensures JoinPath(base, Clean(rel)) == Render(Target(base, rel))
  {
    var r := Resolve(rel);
    ResolveProper(rel);
    CleanKeepsMeaning(rel);
    var c := Clean(rel);
    RenderNotEmpty(r);
    if base == "" {
      SplitOne("");
      assert Resolve(base) == Location(false, 0, []) && [] + r.names == r.names;
    } else {
      JoinResolves(base, c);
      RootedExactly(r);
      FollowFrom(Resolve(base), Location(false, 0, []), Split(c));
      assert Resolve(base).names + [] == Resolve(base).names;
    }
  }

  lemma RenderNotEmpty(l: Location)
    requires Proper(l)
    ensures Render(l) != ""
  {
    if !l.rooted && Segments(l) != [] {
      JoinEndsInLast(Segments(l));
    }
  }

  predicate Plain(rel: string) {
    rel != "" && rel != "." && !("/" <= rel)
  }

  /** safeJoin accepts exactly the relative paths that do not climb above where
      they start and that name something, and it returns where they lead. (Below
      "." it also accepts a path that leads back to ".".) */
  lemma SafeJoinExactly(base: string, rel: string)
    ensures SafeJoin(base, rel).Some? <==>
            Plain(rel) && Resolve(rel).ups == 0 && (Resolve(rel).names != [] || Clean(base) == ".")
    ensures SafeJoin(base, rel).Some? ==> SafeJoin(base, rel).value == Render(Target(base, rel))
  {
    if Plain(rel) {
      var r := Resolve(rel);
      ResolveProper(rel);
      ClimbsExactly(r);
      if r.ups == 0 {
        JoinPathLands(base, rel);
        WithinExactly(base, r.names);
      }
    }
  }

  /** Everything safeJoin accepts lies strictly below the base exactly when the
      base is not the directory the session starts in. */
  lemma SafeJoinConfinesExactly(base: string)
    ensures (forall rel: string | SafeJoin(base, rel).Some? ::
              StrictlyBelow(Resolve(base), Resolve(SafeJoin(base, rel).value)))
            <==> Clean(base) != "."
  {
    if Clean(base) != "." {
      forall rel: string | SafeJoin(base, rel).Some?
        ensures StrictlyBelow(Resolve(base), Resolve(SafeJoin(base, rel).value))
      {
        JoinedIsBelow(base, rel);
      }
    } else {
      var rel := "a/..";
      ClimbBack();
      SafeJoinExactly(base, rel);
      ResolveProper(base);
      ResolveRender(Target(base, rel));
      assert Target(base, rel).names == Resolve(base).names;
    }
  }

  lemma ClimbBack()
    ensures Resolve("a/..") == Location(false, 0, [])
  {
    assert "a/.." == "a" + "/" + "..";
    SplitAtSlash("a", "..");
    SplitOne("a");
    SplitOne("..");
    FollowAllAppend(Location(false, 0, []), ["a"], [".."]);
    assert FollowAll(Location(false, 0, ["a"]), [".."]) == FollowAll(Location(false, 0, []), []);
  }

  lemma JoinedIsBelow(base: string, rel: string)
    requires Clean(base) != "." && SafeJoin(base, rel).Some?
    ensures StrictlyBelow(Resolve(base), Resolve(SafeJoin(base, rel).value))
    ensures Resolve(SafeJoin(base, rel).value) == Target(base, rel)
  {
    SafeJoinExactly(base, rel);
    ResolveProper(base);
    ResolveProper(rel);
    ResolveRender(Target(base, rel));
  }

  /** A letter and a colon. */
  predicate IsDrive(name: string) {
    |name| == 2 && name[1] == ':' && ('a' <= name[0] <= 'z' || 'A' <= name[0] <= 'Z')
  }

  lemma DriveRootExactly(l: Location)
    requires Proper(l)
    ensures IsDriveRoot(Render(l)) <==> l.ups == 0 && |l.names| == 1 && IsDrive(l.names[0])
  {
    var s := Render(l);
    if IsDriveRoot(s) {
      var name := s[|s| - 2..];
      assert s == if |s| == 3 then "/" + name else name;
      OneNameRenders(|s| == 3, name);
      RenderInjective(l, Location(|s| == 3, 0, [name]));
    }
    if l.ups == 0 && |l.names| == 1 && IsDrive(l.names[0]) {
      assert l == Location(l.rooted, 0, [l.names[0]]);
      OneNameRenders(l.rooted, l.names[0]);
    }
  }

  lemma OneNameRenders(rooted: bool, name: string)
    requires IsName(name)
    ensures Proper(Location(rooted, 0, [name]))
    ensures Render(Location(rooted, 0, [name])) == if rooted then "/" + name else name
  {
    var l := Location(rooted, 0, [name]);
    assert Ups(0) + [name] == [name];
  }

  /** checkRemoteRoot accepts exactly the targets below a starting point that are
      neither the home shorthand nor the root of a drive. */
  lemma RootCheckExactly(remote: string)
    ensures var l := Resolve(ToSlash(remote));
            CheckRemoteRoot(remote) <==>
              && l.ups == 0 && l.names != [] && l != Location(false, 0, ["~"])
              && !(|l.names| == 1 && IsDrive(l.names[0]))
  {
    var l := Resolve(ToSlash(remote));
    ResolveProper(ToSlash(remote));
    ClimbsExactly(l);
    RenderNotEmpty(l);
    DriveRootExactly(l);
    OneNameRenders(false, "~");
    if Render(l) == "~" {
      RenderInjective(l, Location(false, 0, ["~"]));
    }
    if Render(l) == "/" {
      RenderInjective(l, Location(true, 0, []));
    }
    if Render(l) == "." {
      RenderDot(l);
    }
  }

  /** Once the root is accepted, no manifest key leads out of the target. */
  lemma KeysStayBelow(remote: string, key: string)
    requires CheckRemoteRoot(remote) && SafeJoin(NormalizeRemote(remote), key).Some?
    ensures StrictlyBelow(Resolve(NormalizeRemote(remote)), Resolve(SafeJoin(NormalizeRemote(remote), key).value))
  {
    CleanKeepsMeaning(ToSlash(remote));
    JoinedIsBelow(NormalizeRemote(remote), key);
  }

  // ---- Listed entries ----

  /** The path a scan reaches through a chain of listed names. */
  function ScanTo(dir: string, names: seq<string>): Option<string>
    decreases |names|
  {
    if names == [] then Some(dir)
    else match SafeChild(dir, names[0])
      case None => None
      case Some(child) => ScanTo(child, names[1..])
  }

  lemma ResolveName(name: string)
    requires IsName(name)
    ensures Resolve(name) == Location(false, 0, [name])
  {
    SplitOne(name);
    assert name[0] in name && !Start(name).rooted;
    assert [] + [name] == [name];
    assert Follow(Start(name), name) == Location(false, 0, [name]);
    FollowNames(Start(name), [name]);
  }

  /** safeChild accepts exactly the names of entries, and appends them; below the
      starting directory too, since a name cannot lead back. */
  lemma SafeChildExactly(dir: string, name: string)
    ensures SafeChild(dir, name).Some? <==> IsName(name)
    ensures IsName(name) ==> Resolve(SafeChild(dir, name).value) == Resolve(dir).(names := Resolve(dir).names + [name])
    ensures IsName(name) ==> Clean(SafeChild(dir, name).value) != "."
  {
    SafeJoinExactly(dir, name);
    if '/' !in name {
      if name == ".." {
        SplitOne(name);
        assert FollowAll(Location(false, 1, []), []).ups == 1;
      } else if IsName(name) {
        ResolveName(name);
        ResolveProper(dir);
        ResolveRender(Target(dir, name));
        RenderDotNames(Resolve(SafeChild(dir, name).value));
      }
    }
  }

  lemma RenderDotNames(l: Location)
    requires Proper(l) && l.names != []
    ensures Render(l) != "."
  {
    if Render(l) == "." {
      RenderDot(l);
    }
  }

  /** Whatever names a server lists, at any depth, a scan stays below the target
      and goes down by exactly the names it followed. */
  lemma {:induction false} ScanStaysBelow(base: string, names: seq<string>)
    ensures ScanTo(base, names).Some? <==> forall i :: 0 <= i < |names| ==> IsName(names[i])
    ensures ScanTo(base, names).Some? ==>
              Resolve(ScanTo(base, names).value) == Resolve(base).(names := Resolve(base).names + names)
    decreases |names|
  {
    if names == [] {
      assert Resolve(base).names + names == Resolve(base).names;
    } else {
      SafeChildExactly(base, names[0]);
      assert forall i :: 0 < i < |names| ==> names[i] == names[1..][i - 1];
      if IsName(names[0]) {
        ScanStaysBelow(SafeChild(base, names[0]).value, names[1..]);
        OneMore(Resolve(base).names, names);
      }
    }
  }

  lemma OneMore(above: seq<string>, names: seq<string>)
    requires names != []
    ensures above + [names[0]] + names[1..] == above + names
  {
  }

  // ---- Keys that are spelled differently ----

  /** Two accepted keys lead to the same file exactly when they resolve to the
      same place, however they are spelled. */
  lemma SameTargetExactly(base: string, a: string, b: string)
    requires Clean(base) != "." && SafeJoin(base, a).Some? && SafeJoin(base, b).Some?
    ensures SafeJoin(base, a) == SafeJoin(base, b) <==> Clean(a) == Clean(b)
  {
    SafeJoinExactly(base, a);
    SafeJoinExactly(base, b);
    JoinedIsBelow(base, a);
    JoinedIsBelow(base, b);
    ResolveProper(a);
    ResolveProper(b);
    var ta, tb := Target(base, a), Target(base, b);
    assert ta.names[|Resolve(base).names|..] == Resolve(a).names;
    assert tb.names[|Resolve(base).names|..] == Resolve(b).names;
    RootedStart(a);
    RootedStart(b);
    if Clean(a) == Clean(b) {
      RenderInjective(Resolve(a), Resolve(b));
    }
  }

  lemma RootedStart(s: string)
    ensures Resolve(s).rooted <==> "/" <= s
  {
    ResolveProper(s);
    assert s != "" ==> ("/" <= s <==> s[0] == '/');
  }

  /** A key that is not planned leads to a planned file's target exactly when it
      cleans to that file's key; keys in clean form have no such twin. When it is
      deleted, and whether the file is lost, is decided in KeyStrings and KeyRuns. */
  lemma TwinKeysExactly(base: string, planned: string, key: string)
    requires Clean(base) != "." && Clean(planned) == planned && key != planned
    requires SafeJoin(base, planned).Some? && SafeJoin(base, key).Some?
    ensures SafeJoin(base, key) == SafeJoin(base, planned) <==> Clean(key) == planned
    ensures SafeJoin(base, key) == SafeJoin(base, planned) ==> Clean(key) != key
  {
    SameTargetExactly(base, key, planned);
  }

  // ---- The walk up from a deleted file ----

  /** The place `n` levels above. */
  function Ancestor(l: Location, n: nat): Location
    requires n <= |l.names|
  {
    l.(names := l.names[..|l.names| - n])
  }

  /** The places strictly between `b` and a place below it are its ancestors on
      the way up to `b`. */
  lemma AncestorsAreBetween(b: Location, l: Location, x: Location)
    requires Proper(b) && Proper(l) && StrictlyBelow(b, l)
    ensures StrictlyBelow(b, x) && StrictlyBelow(x, l) <==>
            exists n :: 0 < n < |l.names| - |b.names| && x == Ancestor(l, n)
  {
    if StrictlyBelow(b, x) && StrictlyBelow(x, l) {
      var n := |l.names| - |x.names|;
      assert x == Ancestor(l, n) by { assert x.names == l.names[..|l.names| - n]; }
    }
    if n :| 0 < n < |l.names| - |b.names| && x == Ancestor(l, n) {
      assert b.names == l.names[..|b.names|] == x.names[..|b.names|];
    }
  }

  lemma AncestorStep(b: Location, l: Location, n: nat)
    requires Proper(l) && StrictlyBelow(b, l) && 0 < n < |l.names| - |b.names|
    ensures Dir(Render(Ancestor(l, n))) == Render(Ancestor(l, n + 1))
    ensures Proper(Ancestor(l, n + 1)) && b.names <= Ancestor(l, n + 1).names
  {
    DirOfRendered(Ancestor(l, n));
    assert Up(Ancestor(l, n)) == Ancestor(l, n + 1);
    assert b.names == l.names[..|b.names|];
  }

  /** The clean paths of the places above `l`, up to and including `b`. */
  function Climb(b: Location, l: Location): (chain: seq<string>)
    requires b.names <= l.names
    ensures |chain| == |l.names| - |b.names|
  {
    seq(|l.names| - |b.names|, i requires 0 <= i < |l.names| - |b.names| => Render(Ancestor(l, i + 1)))
  }

  predicate Stops(base: string, dir: string) {
    dir == base || dir == "." || dir == "/"
  }

  /** One step up the chain; the walk stops at its end, not before. */
  predicate ClimbStep(base: string, chain: seq<string>, i: nat)
    requires i + 1 < |chain|
  {
    Dir(chain[i]) == chain[i + 1] && (Stops(base, chain[i + 1]) <==> i + 2 == |chain|)
  }

  lemma ClimbFacts(b: Location, l: Location, base: string)
    requires Proper(b) && Proper(l) && StrictlyBelow(b, l) && base == Render(b) && base != "."
    ensures var chain := Climb(b, l);
            && Dir(Render(l)) == chain[0] && (Stops(base, chain[0]) <==> |chain| == 1)
            && (forall i: nat :: i + 1 < |chain| ==> ClimbStep(base, chain, i))
  {
    FirstStep(b, l);
    WalkEnds(b, Ancestor(l, 1), base, Render(Ancestor(l, 1)));
    forall i: nat | i + 1 < |Climb(b, l)| ensures ClimbStep(base, Climb(b, l), i) {
      ClimbStepHolds(b, l, base, i);
    }
  }

  lemma ClimbStepHolds(b: Location, l: Location, base: string, i: nat)
    requires Proper(b) && Proper(l) && StrictlyBelow(b, l) && base == Render(b) && base != "."
    requires i + 1 < |Climb(b, l)|
    ensures ClimbStep(base, Climb(b, l), i)
  {
    StepOrEnd(b, l, i + 1, base);
    ClimbAt(b, l, i);
    ClimbAt(b, l, i + 1);
  }

  lemma ClimbAt(b: Location, l: Location, i: nat)
    requires b.names <= l.names && i < |l.names| - |b.names|
    ensures Climb(b, l)[i] == Render(Ancestor(l, i + 1))
  {
  }

  /** Walks up from a removed path `l` to the target `b`. The candidates for
      pruning are exactly the directories strictly between the two. */
  method WalkUp(base: string, file: string, ghost b: Location, ghost l: Location) returns (dirs: seq<string>)
    requires Proper(b) && Proper(l) && StrictlyBelow(b, l)
    requires base == Render(b) && base != "." && file == Render(l)
    ensures dirs == Climb(b, l)[..|l.names| - |b.names| - 1]
  {
    ghost var chain := Climb(b, l);
    ClimbFacts(b, l, base);
    dirs := [];
    var dir := Dir(file);
    while !Stops(base, dir)
      invariant |dirs| < |chain| && dir == chain[|dirs|] && dirs == chain[..|dirs|]
      invariant Stops(base, dir) <==> |dirs| + 1 == |chain|
      decreases |chain| - |dirs|
    {
      assert ClimbStep(base, chain, |dirs|) && chain[..|dirs| + 1] == chain[..|dirs|] + [chain[|dirs|]];
      dirs := dirs + [dir];
      dir := Dir(dir);
    }
  }

  lemma StepOrEnd(b: Location, l: Location, n: nat, base: string)
    requires Proper(b) && Proper(l) && StrictlyBelow(b, l) && 0 < n < |l.names| - |b.names|
    requires base == Render(b) && base != "."
    ensures var dir := Dir(Render(Ancestor(l, n)));
            && dir == Render(Ancestor(l, n + 1)) && Proper(Ancestor(l, n + 1))
            && (dir == base || dir == "." || dir == "/" <==> n + 1 == |l.names| - |b.names|)
  {
    AncestorStep(b, l, n);
    WalkEnds(b, Ancestor(l, n + 1), base, Render(Ancestor(l, n + 1)));
  }

  lemma FirstStep(b: Location, l: Location)
    requires Proper(l) && StrictlyBelow(b, l)
    ensures Dir(Render(l)) == Render(Ancestor(l, 1)) && Proper(Ancestor(l, 1)) && b.names <= Ancestor(l, 1).names
  {
    DirOfRendered(l);
    assert Up(l) == Ancestor(l, 1) && b.names == l.names[..|b.names|];
  }

  /** The walk stops at the target, neither before nor after. */
  lemma WalkEnds(b: Location, l: Location, base: string, dir: string)
    requires Proper(b) && Proper(l) && l.rooted == b.rooted && l.ups == b.ups && b.names <= l.names
    requires base == Render(b) && base != "." && dir == Render(l)
    ensures dir == base || dir == "." || dir == "/" <==> |l.names| == |b.names|
  {
    if dir == base {
      RenderInjective(l, b);
    }
    if dir == "." {
      RenderDot(l);
    }
    if dir == "/" {
      RenderRoot(l);
    }
    assert |l.names| == |b.names| ==> l == b;
  }

  lemma RenderRoot(l: Location)
    requires Proper(l) && Render(l) == "/"
    ensures l == Location(true, 0, [])
  {
    RenderInjective(l, Location(true, 0, []));
  }
}
