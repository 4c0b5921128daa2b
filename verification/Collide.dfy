/** Relations between path lists: the plan, the stale manifest entries and the
    directories between them. */
module PathLists {
  import opened RemoteTree

  /** A path as the server identifies it: `id` maps each name to what the server
      takes it for (the name itself on a case-sensitive server). */
  function KeyOf(id: string -> string, p: Path): (k: Path)
    ensures |k| == |p|
  {
    seq(|p|, i requires 0 <= i < |p| => id(p[i]))
  }

  lemma KeyOfPrefix(id: string -> string, p: Path, q: Path)
    requires p <= q
    ensures KeyOf(id, p) <= KeyOf(id, q)
  {
  }

  lemma KeyOfExact(id: string -> string, p: Path)
    requires forall s :: id(s) == s
    ensures KeyOf(id, p) == p
  {
  }

  predicate Strictly(a: Path, k: Path) {
    a <= k && a != k
  }

  /** The files of one directory tree: no file lies below another one. */
  ghost predicate PrefixFree(plan: seq<Path>) {
    forall f, g :: f in plan && g in plan && f <= g ==> f == g
  }

  ghost predicate Distinct<T>(s: seq<T>) {
    forall i, j :: 0 <= i < j < |s| ==> s[i] != s[j]
  }

  /** A list without repetitions is as long as the set of its members. */
  lemma {:induction false} DistinctSize(s: seq<Path>, all: set<Path>)
    requires Distinct(s) && forall p :: p in s <==> p in all
    ensures |s| == |all|
  {
    if s == [] {
      assert all == {};
    } else {
      var n := |s| - 1;
      assert s == s[..n] + [s[n]] && s[n] !in s[..n];
      assert forall p :: p in s[..n] <==> p in all - {s[n]};
      DistinctSize(s[..n], all - {s[n]});
    }
  }

  lemma PrefixesCompare(a: Path, b: Path, k: Path)
    requires a <= k && b <= k
    ensures a <= b || b <= a
  {
    assert a == k[..|a|] && b == k[..|b|];
    if |a| <= |b| {
      assert b[..|a|] == a;
    } else {
      assert a[..|b|] == b;
    }
  }

  /** Two planned files above the same path are the same file. */
  lemma OnePlannedAbove(plan: seq<Path>, f: Path, g: Path, k: Path)
    requires PrefixFree(plan) && f in plan && g in plan && f <= k && g <= k
    ensures f == g
  {
    PrefixesCompare(f, g, k);
  }
}

/** Byte order on names, the order sort.Strings uses. */
module ByteOrder {
  import opened RemoteTree

  predicate Le(a: string, b: string) {
    if a == "" then true
    else if b == "" then false
    else a[0] < b[0] || (a[0] == b[0] && Le(a[1..], b[1..]))
  }

  lemma {:induction false} LeTotal(a: string, b: string)
    ensures Le(a, b) || Le(b, a)
  {
    if a != "" && b != "" && a[0] == b[0] {
      LeTotal(a[1..], b[1..]);
    }
  }

  lemma {:induction false} LeTransitive(a: string, b: string, c: string)
    requires Le(a, b) && Le(b, c)
    ensures Le(a, c)
  {
    if a != "" && b != "" && c != "" && a[0] == b[0] == c[0] {
      LeTransitive(a[1..], b[1..], c[1..]);
    }
  }

  lemma {:induction false} LeExtended(a: string, b: string, s: string)
    requires b == a + s
    ensures Le(b, a) <==> s == ""
  {
    if a != "" {
      assert b[1..] == a[1..] + s;
      LeExtended(a[1..], b[1..], s);
    }
  }

  function Joined(p: Path): string {
    if p == [] then ""
    else if |p| == 1 then p[0]
    else p[0] + "/" + Joined(p[1..])
  }

  lemma {:induction false} JoinedExtended(d: Path, e: Path) returns (s: string)
    requires d <= e && d != e && d != []
    ensures s != "" && Joined(e) == Joined(d) + s
  {
    if |d| == 1 {
      s := "/" + Joined(e[1..]);
      assert Joined(e) == e[0] + "/" + Joined(e[1..]);
      assert Joined(e) == Joined(d) + s;
    } else {
      s := JoinedExtended(d[1..], e[1..]);
      assert Joined(e) == d[0] + "/" + (Joined(d[1..]) + s);
      assert Joined(e) == Joined(d) + s;
    }
  }

  /** A directory sorts strictly before everything below it. */
  lemma ParentSortsFirst(d: Path, e: Path)
    requires d <= e && d != e && d != []
    ensures !Le(Joined(e), Joined(d))
  {
    var s := JoinedExtended(d, e);
    LeExtended(Joined(d), Joined(e), s);
  }

  ghost predicate Descending(s: seq<Path>) {
    forall i, j :: 0 <= i < j < |s| ==> Le(Joined(s[j]), Joined(s[i]))
  }

  function InsertDescending(x: Path, s: seq<Path>): (r: seq<Path>)
    ensures |r| == |s| + 1
    ensures forall p :: p in r <==> p == x || p in s
  {
    if s == [] || Le(Joined(s[0]), Joined(x)) then [x] + s
    else [s[0]] + InsertDescending(x, s[1..])
  }

  lemma {:induction false} InsertKeepsOrder(x: Path, s: seq<Path>)
    requires Descending(s)
    ensures Descending(InsertDescending(x, s))
  {
    var r := InsertDescending(x, s);
    if s == [] || Le(Joined(s[0]), Joined(x)) {
      forall j | 0 < j < |r| ensures Le(Joined(r[j]), Joined(x)) {
        assert r[j] == s[j - 1];
        LeTransitive(Joined(s[j - 1]), Joined(s[0]), Joined(x)) by {
          LeTotal(Joined(s[0]), Joined(s[0]));
        }
      }
    } else {
      InsertKeepsOrder(x, s[1..]);
      LeTotal(Joined(s[0]), Joined(x));
      forall j | 0 < j < |r| ensures Le(Joined(r[j]), Joined(s[0])) {
        assert r[j] in InsertDescending(x, s[1..]);
        if r[j] in s[1..] {
          var m :| 0 <= m < |s[1..]| && s[1..][m] == r[j];
          assert s[m + 1] == r[j];
        }
      }
      assert r[1..] == InsertDescending(x, s[1..]);
      forall i, j | 0 <= i < j < |r| ensures Le(Joined(r[j]), Joined(r[i])) {
        if i > 0 {
          assert r[i] == r[1..][i - 1] && r[j] == r[1..][j - 1];
        }
      }
    }
  }

  function SortDescending(s: seq<Path>): (r: seq<Path>)
    ensures |r| == |s|
    ensures forall p :: p in r <==> p in s
  {
    if s == [] then [] else InsertDescending(s[0], SortDescending(s[1..]))
  }

  lemma {:induction false} SortedDescending(s: seq<Path>)
    ensures Descending(SortDescending(s))
  {
    if s != [] {
      SortedDescending(s[1..]);
      InsertKeepsOrder(s[0], SortDescending(s[1..]));
    }
  }

  /** In descending order every directory comes after all that lies below it. */
  lemma BelowComesFirst(s: seq<Path>, i: nat, j: nat)
    requires Descending(s) && i < |s| && j < |s|
    requires s[i] <= s[j] && s[i] != s[j] && s[i] != []
    ensures j < i
  {
    ParentSortsFirst(s[i], s[j]);
  }
}

/** Which stale entries must go before the upload, and which directories the
    plan turns into files (collidingDeletes, clearCollideParents). */
module Collide {
  import opened RemoteTree
  import opened PathLists
  import opened ByteOrder

  /** The client's comparison key of a path; see foldPath. */
  function FoldPath(fold: string -> string, p: Path): Path {
    KeyOf(fold, p)
  }

  /** A stale entry is in the way of the plan: a planned file lies at or below
      it, it lies below a planned file, or its name folds to a planned one. */
  predicate Collides(fold: string -> string, plan: seq<Path>, rel: Path) {
    || (exists f :: f in plan && rel <= f)
    || (exists f :: f in plan && Strictly(f, rel))
    || (exists f :: f in plan && FoldPath(fold, f) == FoldPath(fold, rel))
  }

  function Part(fold: string -> string, plan: seq<Path>, s: seq<Path>, want: bool): (r: seq<Path>)
    ensures forall p :: p in r <==> p in s && Collides(fold, plan, p) == want
    ensures |r| <= |s|
  {
    if s == [] then []
    else
      var t := Part(fold, plan, s[1..], want);
      if Collides(fold, plan, s[0]) == want then [s[0]] + t else t
  }

  lemma {:induction false} PartSnoc(fold: string -> string, plan: seq<Path>, s: seq<Path>, p: Path, want: bool)
    ensures Part(fold, plan, s + [p], want) ==
            Part(fold, plan, s, want) + if Collides(fold, plan, p) == want then [p] else []
  {
    if s == [] {
      assert s + [p] == [p];
    } else {
      assert (s + [p])[1..] == s[1..] + [p];
      PartSnoc(fold, plan, s[1..], p, want);
    }
  }

  lemma {:induction false} PartSizes(fold: string -> string, plan: seq<Path>, s: seq<Path>)
    ensures |Part(fold, plan, s, true)| + |Part(fold, plan, s, false)| == |s|
  {
    if s != [] { PartSizes(fold, plan, s[1..]); }
  }

  lemma {:induction false} PartDistinct(fold: string -> string, plan: seq<Path>, s: seq<Path>, want: bool)
    requires Distinct(s)
    ensures Distinct(Part(fold, plan, s, want))
  {
    if s != [] {
      assert forall i, j :: 0 <= i < j < |s[1..]| ==> s[1..][i] == s[i + 1] && s[1..][j] == s[j + 1];
      PartDistinct(fold, plan, s[1..], want);
      var t := Part(fold, plan, s[1..], want);
      assert s[0] !in s[1..];
      assert forall i :: 0 <= i < |t| ==> t[i] in t;
    }
  }

  predicate HasPlannedBelow(plan: seq<Path>, d: Path) {
    exists f :: f in plan && d <= f
  }

  lemma PlannedBelowSnoc(plan: seq<Path>, f: Path)
    ensures forall d :: HasPlannedBelow(plan + [f], d) <==> HasPlannedBelow(plan, d) || d <= f
  {
    assert f in plan + [f];
    forall d | HasPlannedBelow(plan, d) ensures HasPlannedBelow(plan + [f], d) {
      var g :| g in plan && d <= g;
      assert g in plan + [f];
    }
  }

  /** The stale entries at or above some planned file. */
  method AbovePlanned(stale: set<Path>, plan: seq<Path>) returns (conflict: set<Path>)
    requires [] !in stale
    ensures forall d :: d in conflict <==> d in stale && HasPlannedBelow(plan, d)
  {
    conflict := {};
    for i := 0 to |plan|
      invariant forall d :: d in conflict <==> d in stale && HasPlannedBelow(plan[..i], d)
    {
      var f := plan[i];
      assert plan[..i + 1] == plan[..i] + [f];
      ghost var before := conflict;
      var dir := f;
      while dir != []
        invariant dir <= f
        invariant forall d :: d in conflict <==> d in before || (d in stale && d <= f && |d| > |dir|)
        decreases |dir|
      {
        if dir in stale {
          conflict := conflict + {dir};
        }
        assert forall d :: d in stale && d <= f && |d| == |dir| ==> d == dir;
        dir := Parent(dir);
      }
      PlannedBelowSnoc(plan[..i], f);
    }
    assert plan[..|plan|] == plan;
  }

  /** Is there a planned file strictly above `rel`? Returns the nearest one. */
  method PlannedAbove(planned: set<Path>, rel: Path) returns (found: bool, top: Path)
    ensures found <==> exists f :: f in planned && f != [] && Strictly(f, rel)
    ensures found ==> top in planned && top != [] && Strictly(top, rel)
  {
    found, top := false, [];
    if rel == [] {
      return;
    }
    var dir := Parent(rel);
    while dir != []
      invariant Strictly(dir, rel)
      invariant forall f :: f in planned && Strictly(f, rel) ==> f <= dir
      decreases |dir|
    {
      if dir in planned {
        return true, dir;
      }
      assert forall f :: f in planned && Strictly(f, dir) ==> f <= Parent(dir);
      dir := Parent(dir);
    }
  }

  method MarkConflicts(fold: string -> string, toDelete: seq<Path>, plan: seq<Path>) returns (conflict: set<Path>)
    requires [] !in plan && [] !in toDelete
    ensures forall p :: p in toDelete ==> (p in conflict <==> Collides(fold, plan, p))
  {
    var stale := set p | p in toDelete;
    var planned := set p | p in plan;
    var plannedFold := set p | p in plan :: FoldPath(fold, p);
    conflict := AbovePlanned(stale, plan);
    ghost var above := conflict;
    for i := 0 to |toDelete|
      invariant above <= conflict
      invariant forall p :: p in conflict ==> Collides(fold, plan, p)
      invariant forall k :: 0 <= k < i && Collides(fold, plan, toDelete[k]) ==> toDelete[k] in conflict
    {
      var rel := toDelete[i];
      if rel !in conflict {
        var found, _ := PlannedAbove(planned, rel);
        if found || FoldPath(fold, rel) in plannedFold {
          conflict := conflict + {rel};
        }
        assert !HasPlannedBelow(plan, rel);
      }
    }
  }

  method CollidingDeletes(fold: string -> string, toDelete: seq<Path>, plan: seq<Path>)
    returns (colliding: seq<Path>, rest: seq<Path>)
    requires [] !in plan && [] !in toDelete
    ensures colliding == Part(fold, plan, toDelete, true)
    ensures rest == Part(fold, plan, toDelete, false)
  {
    var conflict := MarkConflicts(fold, toDelete, plan);
    colliding, rest := [], [];
    for i := 0 to |toDelete|
      invariant colliding == Part(fold, plan, toDelete[..i], true)
      invariant rest == Part(fold, plan, toDelete[..i], false)
    {
      assert toDelete[..i + 1] == toDelete[..i] + [toDelete[i]];
      PartSnoc(fold, plan, toDelete[..i], toDelete[i], true);
      PartSnoc(fold, plan, toDelete[..i], toDelete[i], false);
      if toDelete[i] in conflict {
        colliding := colliding + [toDelete[i]];
      } else {
        rest := rest + [toDelete[i]];
      }
    }
    assert toDelete[..|toDelete|] == toDelete;
  }

  /** `d` is a directory the plan turns into a file or removes with one: it lies
      strictly above a colliding entry, and at or below a planned file. */
  predicate InTheWay(plan: seq<Path>, colliding: seq<Path>, d: Path) {
    exists r, f :: r in colliding && f in plan && Strictly(d, r) && f <= d
  }

  /** All of them, for a set of colliding entries. */
  ghost function AllInTheWay(plan: seq<Path>, colliding: set<Path>): set<Path> {
    set r, n | r in colliding && 0 <= n < |r| && (exists f :: f in plan && f <= r[..n]) :: r[..n]
  }

  lemma AllInTheWayExactly(plan: seq<Path>, colliding: seq<Path>, d: Path)
    ensures d in AllInTheWay(plan, set r | r in colliding) <==> InTheWay(plan, colliding, d)
  {
    var all := set r | r in colliding;
    if InTheWay(plan, colliding, d) {
      var r, f :| r in colliding && f in plan && Strictly(d, r) && f <= d;
      assert r in all && 0 <= |d| < |r| && r[..|d|] == d;
    }
    if d in AllInTheWay(plan, all) {
      var r, n :| r in all && 0 <= n < |r| && (exists f :: f in plan && f <= r[..n]) && d == r[..n];
      assert Strictly(d, r);
    }
  }

  /** Collects exactly the directories in the way, each once. The scan of one
      entry stops at the first directory already seen; what lies above that one
      was collected with it. */
  method CollectCollideDirs(colliding: seq<Path>, plan: seq<Path>) returns (dirs: seq<Path>)
    requires PrefixFree(plan) && [] !in plan
    ensures forall d :: d in dirs <==> InTheWay(plan, colliding, d)
    ensures Distinct(dirs)
  {
    var planned := set p | p in plan;
    dirs := [];
    for i := 0 to |colliding|
      invariant forall d :: d in dirs <==> InTheWay(plan, colliding[..i], d)
      invariant Distinct(dirs)
    {
      var rel := colliding[i];
      assert colliding[..i + 1] == colliding[..i] + [rel];
      var found, top := PlannedAbove(planned, rel);
      if found {
        dirs := AddChain(dirs, plan, colliding[..i], rel, top);
      }
      forall d | InTheWay(plan, colliding[..i + 1], d) && !InTheWay(plan, colliding[..i], d)
        ensures found && Strictly(d, rel) && top <= d
      {
        var f :| f in plan && Strictly(d, rel) && f <= d;
        assert f in planned && Strictly(f, rel);
        OnePlannedAbove(plan, f, top, rel);
      }
    }
    assert colliding[..|colliding|] == colliding;
  }

  method AddChain(dirs: seq<Path>, plan: seq<Path>, ghost before: seq<Path>, rel: Path, top: Path) returns (out: seq<Path>)
    requires PrefixFree(plan) && top in plan && top != [] && Strictly(top, rel)
    requires Distinct(dirs) && forall d :: d in dirs <==> InTheWay(plan, before, d)
    ensures Distinct(out)
    ensures forall d :: d in out <==> d in dirs || (top <= d && Strictly(d, rel))
  {
    out := dirs;
    var dir := Parent(rel);
    while dir != [] && dir !in out
      invariant top <= dir && Strictly(dir, rel)
      invariant Distinct(out)
      invariant forall d :: d in out <==> d in dirs || (top <= d && Strictly(d, rel) && |d| > |dir|)
      decreases |dir|
    {
      out := out + [dir];
      assert forall d :: Strictly(d, rel) && |d| == |dir| ==> d == dir;
      if dir == top {
        return;
      }
      dir := Parent(dir);
    }
    if dir in dirs {
      ghost var r, f :| r in before && f in plan && Strictly(dir, r) && f <= dir;
      OnePlannedAbove(plan, f, top, dir);
      forall d | top <= d && Strictly(d, rel) && |d| <= |dir| ensures d in dirs {
        PrefixesCompare(d, dir, rel);
        assert d <= dir;
        assert Strictly(d, r);
      }
    }
  }
}
