/** Slash paths as strings: path.Clean, path.Join and path.Dir of the Go
    standard library, through the location a path resolves to. */
module SlashPaths {
  /** What a path names: an absolute or a relative place, `ups` levels above the
      starting directory and then down through `names`. */
  datatype Location = Location(rooted: bool, ups: nat, names: seq<string>)

  predicate IsName(s: string) {
    s != "" && s != "." && s != ".." && '/' !in s
  }

  predicate Proper(l: Location) {
    (l.rooted ==> l.ups == 0) && forall i :: 0 <= i < |l.names| ==> IsName(l.names[i])
  }

  /** The string without one trailing slash. */
  function TrimSlash(s: string): string {
    if s != "" && s[|s| - 1] == '/' then s[..|s| - 1] else s
  }

  function FirstSlash(s: string): (i: nat)
    ensures i <= |s| && (forall k :: 0 <= k < i ==> s[k] != '/') && (i < |s| ==> s[i] == '/')
  {
    if s == "" || s[0] == '/' then 0 else 1 + FirstSlash(s[1..])
  }

  function Split(s: string): (segs: seq<string>)
    ensures |segs| > 0
    decreases |s|
  {
    var i := FirstSlash(s);
    if i == |s| then [s] else [s[..i]] + Split(s[i + 1..])
  }

  function Join(segs: seq<string>): string {
    if segs == [] then "" else if |segs| == 1 then segs[0] else segs[0] + "/" + Join(segs[1..])
  }

  lemma FirstSlashUnique(s: string, i: nat)
    requires i <= |s| && (forall k :: 0 <= k < i ==> s[k] != '/') && (i < |s| ==> s[i] == '/')
    ensures FirstSlash(s) == i
  {
  }

  lemma FirstSlashExtended(a: string, b: string)
    ensures FirstSlash(a + "/" + b) == FirstSlash(a)
  {
    var s, i := a + "/" + b, FirstSlash(a);
    assert forall k :: 0 <= k < |a| ==> s[k] == a[k];
    assert s[|a|] == '/';
    FirstSlashUnique(s, i);
  }

  lemma {:induction false} SplitAtSlash(a: string, b: string)
    ensures Split(a + "/" + b) == Split(a) + Split(b)
    decreases |a|
  {
    var s, i := a + "/" + b, FirstSlash(a);
    FirstSlashExtended(a, b);
    if i == |a| {
      assert s[..i] == a && s[i + 1..] == b;
    } else {
      assert s[..i] == a[..i];
      assert s[i + 1..] == a[i + 1..] + "/" + b;
      SplitAtSlash(a[i + 1..], b);
    }
  }

  lemma SplitOne(s: string)
    requires '/' !in s
    ensures Split(s) == [s]
  {
    FirstSlashUnique(s, |s|);
  }

  lemma {:induction false} SplitJoin(segs: seq<string>)
    requires segs != [] && forall i :: 0 <= i < |segs| ==> '/' !in segs[i]
    ensures Split(Join(segs)) == segs
  {
    SplitOne(segs[0]);
    if |segs| > 1 {
      SplitJoin(segs[1..]);
      SplitAtSlash(segs[0], Join(segs[1..]));
    }
  }

  lemma {:induction false} JoinAppend(a: seq<string>, b: seq<string>)
    requires a != [] && b != []
    ensures Join(a + b) == Join(a) + "/" + Join(b)
  {
    if |a| > 1 {
      assert (a + b)[1..] == a[1..] + b;
      JoinAppend(a[1..], b);
    } else {
      assert (a + b)[1..] == b;
    }
  }

  /** One element of a path, followed from `l`. */
  function Follow(l: Location, seg: string): (r: Location) {
    if seg == "" || seg == "." then l
    else if seg != ".." then l.(names := l.names + [seg])
    else if l.names != [] then l.(names := l.names[..|l.names| - 1])
    else if l.rooted then l
    else l.(ups := l.ups + 1)
  }

  function FollowAll(l: Location, segs: seq<string>): Location
    decreases |segs|
  {
    if segs == [] then l else FollowAll(Follow(l, segs[0]), segs[1..])
  }

  function Start(s: string): Location {
    Location(s != "" && s[0] == '/', 0, [])
  }

  function Resolve(s: string): Location {
    FollowAll(Start(s), Split(s))
  }

  function Ups(n: nat): (u: seq<string>)
    ensures |u| == n && forall i :: 0 <= i < n ==> u[i] == ".."
  {
    seq(n, i => "..")
  }

  function Segments(l: Location): seq<string> {
    Ups(l.ups) + l.names
  }

  function Render(l: Location): string {
    if l.rooted then "/" + Join(l.names)
    else if l.ups == 0 && l.names == [] then "."
    else Join(Segments(l))
  }

  function Clean(s: string): string {
    Render(Resolve(s))
  }

  lemma {:induction false} SplitHasNoSlash(s: string)
    ensures forall i :: 0 <= i < |Split(s)| ==> '/' !in Split(s)[i]
    decreases |s|
  {
    var i := FirstSlash(s);
    if i < |s| {
      SplitHasNoSlash(s[i + 1..]);
    } else {
      assert s[..i] == s;
    }
  }

  lemma {:induction false} FollowAllProper(l: Location, segs: seq<string>)
    requires Proper(l) && forall i :: 0 <= i < |segs| ==> '/' !in segs[i]
    ensures Proper(FollowAll(l, segs)) && FollowAll(l, segs).rooted == l.rooted
    decreases |segs|
  {
    if segs != [] {
      assert '/' !in segs[0];
      FollowAllProper(Follow(l, segs[0]), segs[1..]);
    }
  }

  lemma ResolveProper(s: string)
    ensures Proper(Resolve(s)) && Resolve(s).rooted == Start(s).rooted
  {
    SplitHasNoSlash(s);
    FollowAllProper(Start(s), Split(s));
  }

  lemma {:induction false} FollowAllAppend(l: Location, a: seq<string>, b: seq<string>)
    ensures FollowAll(l, a + b) == FollowAll(FollowAll(l, a), b)
    decreases |a|
  {
    if a == [] {
      assert a + b == b;
    } else {
      assert (a + b)[0] == a[0] && (a + b)[1..] == a[1..] + b;
      FollowAllAppend(Follow(l, a[0]), a[1..], b);
    }
  }

  lemma {:induction false} FollowNames(l: Location, names: seq<string>)
    requires forall i :: 0 <= i < |names| ==> IsName(names[i])
    ensures FollowAll(l, names) == l.(names := l.names + names)
    decreases |names|
  {
    if names == [] {
      assert l.names + names == l.names;
    } else {
      FollowNames(Follow(l, names[0]), names[1..]);
      assert l.names + [names[0]] + names[1..] == l.names + names;
    }
  }

  lemma {:induction false} FollowUps(n: nat, k: nat)
    ensures FollowAll(Location(false, k, []), Ups(n)) == Location(false, k + n, [])
  {
    if n > 0 {
      assert Ups(n)[1..] == Ups(n - 1);
      FollowUps(n - 1, k + 1);
    }
  }

  lemma StartOfNames(segs: seq<string>)
    requires segs != [] && segs[0] != "" && '/' !in segs[0]
    ensures !Start(Join(segs)).rooted
  {
    assert Join(segs)[0] == segs[0][0];
  }

  /** A rendered location resolves to itself. */
  lemma ResolveRender(l: Location)
    requires Proper(l)
    ensures Resolve(Render(l)) == l
  {
    if l.rooted {
      var s := Join(l.names);
      assert "" + "/" + s == "/" + s;
      SplitAtSlash("", s);
      SplitOne("");
      if l.names == [] {
        assert FollowAll(Start("/"), ["", ""]) == FollowAll(Start("/"), [""]) == Start("/");
      } else {
        SplitJoin(l.names);
        FollowNames(Start("/" + s), l.names);
        assert ([""] + l.names)[1..] == l.names;
      }
      assert [] + l.names == l.names;
    } else if l.ups == 0 && l.names == [] {
      SplitOne(".");
    } else {
      var segs := Segments(l);
      assert l.ups > 0 ==> segs[0] == "..";
      assert l.ups == 0 ==> segs[0] == l.names[0];
      StartOfNames(segs);
      SplitJoin(segs);
      FollowAllAppend(Location(false, 0, []), Ups(l.ups), l.names);
      FollowUps(l.ups, 0);
      FollowNames(Location(false, l.ups, []), l.names);
      assert [] + l.names == l.names;
    }
  }

  lemma RenderInjective(a: Location, b: Location)
    requires Proper(a) && Proper(b) && Render(a) == Render(b)
    ensures a == b
  {
    ResolveRender(a);
    ResolveRender(b);
  }

  /** Cleaning is idempotent, and keeps what a path names. */
  lemma CleanKeepsMeaning(s: string)
    ensures Resolve(Clean(s)) == Resolve(s) && Clean(Clean(s)) == Clean(s)
  {
    ResolveProper(s);
    ResolveRender(Resolve(s));
  }

  /** path.Join of two elements. */
  function JoinPath(base: string, rel: string): string {
    if base == "" then (if rel == "" then "" else Clean(rel))
    else if rel == "" then Clean(base)
    else Clean(base + "/" + rel)
  }

  /** Joining follows the second path from where the first one leads. */
  lemma JoinResolves(base: string, rel: string)
    requires base != "" && rel != ""
    ensures Resolve(base + "/" + rel) == FollowAll(Resolve(base), Split(rel))
  {
    var s := base + "/" + rel;
    assert s[0] == base[0];
    SplitAtSlash(base, rel);
    FollowAllAppend(Start(base), Split(base), Split(rel));
  }

  /** What following a relative path does to any place that is deep enough. */
  lemma {:induction false} FollowFrom(l: Location, r: Location, segs: seq<string>)
    requires !r.rooted && FollowAll(r, segs).ups == 0 && r.ups == 0
    ensures FollowAll(l.(names := l.names + r.names), segs) ==
            l.(names := l.names + FollowAll(r, segs).names)
    decreases |segs|
  {
    if segs != [] {
      var r', s := Follow(r, segs[0]), segs[0];
      UpsOnlyGrow(r', segs[1..]);
      FollowFrom(l, r', segs[1..]);
      assert l.names + (r.names + [s]) == (l.names + r.names) + [s];
      if r.names != [] {
        assert l.names + r.names[..|r.names| - 1] == (l.names + r.names)[..|l.names + r.names| - 1];
      }
    }
  }

  lemma {:induction false} UpsOnlyGrow(l: Location, segs: seq<string>)
    ensures FollowAll(l, segs).ups >= l.ups
    decreases |segs|
  {
    if segs != [] {
      UpsOnlyGrow(Follow(l, segs[0]), segs[1..]);
    }
  }

  /** path.Dir: everything before the last slash, cleaned. */
  function LastSlash(s: string): (i: int)
    ensures -1 <= i < |s|
    ensures i >= 0 ==> s[i] == '/'
    ensures forall j :: i < j < |s| ==> s[j] != '/'
  {
    if s == "" then -1
    else if s[|s| - 1] == '/' then |s| - 1
    else LastSlash(s[..|s| - 1])
  }

  function Dir(s: string): string {
    Clean(s[..LastSlash(s) + 1])
  }

  function Up(l: Location): Location
    requires l.names != []
  {
    l.(names := l.names[..|l.names| - 1])
  }

  lemma LastSlashUnique(s: string, a: string, b: string)
    requires s == a + "/" + b && '/' !in b
    ensures LastSlash(s) == |a|
  {
    assert s[|a|] == '/';
    forall j | |a| < j < |s| ensures s[j] != '/' {
      assert s[j] == b[j - |a| - 1];
    }
  }

  lemma RenderLast(up: Location, last: string)
    requires Proper(up) && IsName(last) && Segments(up) != []
    ensures Render(up.(names := up.names + [last])) == Render(up) + "/" + last && Render(up) != ""
  {
    var l := up.(names := up.names + [last]);
    assert Segments(l) == Segments(up) + [last];
    JoinAppend(Segments(up), [last]);
    if up.rooted {
      assert Segments(l) == l.names && Segments(up) == up.names;
    }
    assert Render(up) == "" ==> Render(up) + "/" + last == "/" + last;
    JoinNotEmpty(Segments(up));
  }

  lemma JoinNotEmpty(segs: seq<string>)
    requires segs != [] && segs[0] != ""
    ensures Join(segs) != ""
  {
  }

  lemma DirOfDeep(up: Location, last: string)
    requires Proper(up) && IsName(last) && Segments(up) != []
    ensures Dir(Render(up) + "/" + last) == Render(up)
  {
    var s := Render(up) + "/" + last;
    LastSlashUnique(s, Render(up), last);
    assert s[..|Render(up)| + 1] == Render(up) + "/" + "";
    RenderLast(up, last);
    JoinSlashEmpty(Render(up));
    ResolveRender(up);
  }

  lemma DirOfShallow(rooted: bool, last: string)
    requires IsName(last)
    ensures Dir(Render(Location(rooted, 0, [last]))) == Render(Location(rooted, 0, []))
  {
    var s := Render(Location(rooted, 0, [last]));
    if rooted {
      assert s == "" + "/" + last;
      LastSlashUnique(s, "", last);
      assert s[..1] == "/" == Render(Location(true, 0, []));
      ResolveRender(Location(true, 0, []));
    } else {
      assert Ups(0) + [last] == [last];
      assert s == last && LastSlash(s) == -1;
      SplitOne("");
      assert s[..0] == "";
    }
  }

  /** The directory of a clean path is the clean path of the place above. */
  lemma DirOfRendered(l: Location)
    requires Proper(l) && l.names != []
    ensures Dir(Render(l)) == Render(Up(l))
  {
    var up, last := Up(l), l.names[|l.names| - 1];
    assert l.names == up.names + [last];
    if Segments(up) == [] {
      assert l.names == [last] && l.ups == 0;
      DirOfShallow(l.rooted, last);
    } else {
      RenderLast(up, last);
      DirOfDeep(up, last);
    }
  }

  lemma JoinSlashEmpty(s: string)
    requires s != ""
    ensures Resolve(s + "/" + "") == Resolve(s)
  {
    SplitAtSlash(s, "");
    SplitOne("");
    FollowAllAppend(Start(s), Split(s), [""]);
    assert (s + "/" + "")[0] == s[0];
  }
}
