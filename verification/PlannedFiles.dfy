/** Which files of a tree are planned, said without walking it. */
module PlannedFiles {
  import opened Planner

  /** The tree holds a file at this path. */
  ghost predicate IsFile(es: seq<Entry>, path: seq<string>, regular: bool)
    decreases |path|, 1
  {
    path != [] && exists e :: e in es && HoldsFile(e, path, regular)
  }

  ghost predicate HoldsFile(e: Entry, path: seq<string>, regular: bool)
    requires path != []
    decreases |path|, 0
  {
    && e.name == path[0]
    && if |path| == 1 then e == FileEntry(path[0], regular) else e.DirEntry? && IsFile(e.below, path[1..], regular)
  }

  /** Not the manifest's own name at the root, and not excluded. */
  predicate Wanted(ex: Rule, manifest: string, path: seq<string>) {
    path != [manifest] && !ex(path, false)
  }

  ghost predicate Finds(ex: Rule, manifest: string, dir: seq<string>, es: seq<Entry>, found: Found) {
    && (forall rel :: dir + rel in found.files <==> IsFile(es, rel, true) && Wanted(ex, manifest, dir + rel))
    && (forall p :: p in found.files ==> dir <= p)
    && (found.skipped > 0 <==> exists rel :: IsFile(es, rel, false) && Wanted(ex, manifest, dir + rel))
  }

  lemma NoFile(path: seq<string>, regular: bool)
    ensures !IsFile([], path, regular)
  {
  }

  lemma FileSnoc(es: seq<Entry>, e: Entry, path: seq<string>, regular: bool)
    ensures IsFile(es + [e], path, regular) <==> IsFile(es, path, regular) || IsFile([e], path, regular)
  {
    if path != [] {
      assert forall x :: x in es + [e] <==> x in es || x in [e];
    }
  }

  lemma FoundBoth(ex: Rule, manifest: string, dir: seq<string>, es: seq<Entry>, e: Entry, a: Found, b: Found)
    requires Finds(ex, manifest, dir, es, a) && Finds(ex, manifest, dir, [e], b)
    ensures Finds(ex, manifest, dir, es + [e], Plus(a, b))
  {
    forall path, regular
      ensures IsFile(es + [e], path, regular) <==> IsFile(es, path, regular) || IsFile([e], path, regular)
    {
      FileSnoc(es, e, path, regular);
    }
  }

  lemma OneFile(e: Entry, rel: seq<string>, regular: bool)
    requires e.FileEntry?
    ensures IsFile([e], rel, regular) <==> rel == [e.name] && e.regular == regular
  {
    if rel == [e.name] && e.regular == regular {
      assert e in [e] && e.name == rel[0];
    }
  }

  lemma OneDir(e: Entry, rel: seq<string>, regular: bool)
    requires e.DirEntry?
    ensures IsFile([e], rel, regular) <==> |rel| > 1 && rel[0] == e.name && IsFile(e.below, rel[1..], regular)
  {
    if |rel| > 1 && rel[0] == e.name && IsFile(e.below, rel[1..], regular) {
      assert e in [e] && e.name == rel[0];
    }
  }

  lemma FileFound(ex: Rule, manifest: string, dir: seq<string>, e: Entry)
    requires e.FileEntry?
    ensures Finds(ex, manifest, dir, [e], WalkEntry(ex, manifest, false, dir, e))
  {
    var path, found := dir + [e.name], WalkEntry(ex, manifest, false, dir, e);
    forall rel, regular ensures IsFile([e], rel, regular) <==> rel == [e.name] && e.regular == regular {
      OneFile(e, rel, regular);
    }
    forall rel ensures dir + rel == path <==> rel == [e.name] {
      if dir + rel == path {
        assert rel == (dir + rel)[|dir|..];
      }
    }
  }

  lemma DirFound(ex: Rule, manifest: string, dir: seq<string>, e: Entry, found: Found)
    requires e.DirEntry? && Finds(ex, manifest, dir + [e.name], e.below, found)
    ensures Finds(ex, manifest, dir, [e], found)
  {
    var sub := dir + [e.name];
    forall rel, regular
      ensures IsFile([e], rel, regular) <==> |rel| > 1 && rel[0] == e.name && IsFile(e.below, rel[1..], regular)
    {
      OneDir(e, rel, regular);
    }
    forall p | p in found.files ensures dir <= p {
      assert sub <= p;
    }
    forall rel ensures dir + rel in found.files <==> IsFile([e], rel, true) && Wanted(ex, manifest, dir + rel) {
      Below(dir, e.name, rel);
      if dir + rel in found.files {
        assert sub <= dir + rel && dir + rel == sub + rel[1..];
        NoEmptyPath(e.below, rel[1..], true);
      }
    }
    SkippedBelow(ex, manifest, dir, e, found);
  }

  lemma Below(dir: seq<string>, name: string, rel: seq<string>)
    ensures dir + [name] <= dir + rel <==> rel != [] && rel[0] == name
    ensures rel != [] && rel[0] == name ==> dir + rel == dir + [name] + rel[1..]
  {
    var sub, all := dir + [name], dir + rel;
    if sub <= all {
      assert all[|dir|] == sub[|dir|] == name;
    }
    if rel != [] && rel[0] == name {
      assert rel == [name] + rel[1..];
      assert all == sub + rel[1..];
    }
  }

  lemma NoEmptyPath(es: seq<Entry>, rel: seq<string>, regular: bool)
    ensures IsFile(es, rel, regular) ==> rel != []
  {
  }

  lemma SkippedBelow(ex: Rule, manifest: string, dir: seq<string>, e: Entry, found: Found)
    requires e.DirEntry? && Finds(ex, manifest, dir + [e.name], e.below, found)
    ensures found.skipped > 0 <==> exists rel :: IsFile([e], rel, false) && Wanted(ex, manifest, dir + rel)
  {
    var sub := dir + [e.name];
    if found.skipped > 0 {
      var rel :| IsFile(e.below, rel, false) && Wanted(ex, manifest, sub + rel);
      OneDir(e, [e.name] + rel, false);
      assert ([e.name] + rel)[1..] == rel && dir + ([e.name] + rel) == sub + rel;
    }
    if rel :| IsFile([e], rel, false) && Wanted(ex, manifest, dir + rel) {
      OneDir(e, rel, false);
      Below(dir, e.name, rel);
      assert Wanted(ex, manifest, sub + rel[1..]);
    }
  }

  lemma {:induction false} WalkFinds(ex: Rule, manifest: string, dir: seq<string>, es: seq<Entry>)
    ensures Finds(ex, manifest, dir, es, WalkAll(ex, manifest, false, dir, es))
    decreases es
  {
    if es == [] {
      forall rel, regular ensures !IsFile(es, rel, regular) {
        NoFile(rel, regular);
      }
    } else {
      var n := |es| - 1;
      WalkFinds(ex, manifest, dir, es[..n]);
      EntryFinds(ex, manifest, dir, es[n]);
      assert es == es[..n] + [es[n]];
      FoundBoth(ex, manifest, dir, es[..n], es[n], WalkAll(ex, manifest, false, dir, es[..n]),
                WalkEntry(ex, manifest, false, dir, es[n]));
    }
  }

  lemma {:induction false} EntryFinds(ex: Rule, manifest: string, dir: seq<string>, e: Entry)
    ensures Finds(ex, manifest, dir, [e], WalkEntry(ex, manifest, false, dir, e))
    decreases e, 0
  {
    if e.FileEntry? {
      FileFound(ex, manifest, dir, e);
    } else {
      WalkFinds(ex, manifest, dir + [e.name], e.below);
      DirFound(ex, manifest, dir, e, WalkEntry(ex, manifest, false, dir, e));
    }
  }

  /** A planned path. */
  ghost predicate InPlan(r: PlanResult, path: seq<string>) {
    r.Planned? && exists k :: 0 <= k < |r.items| && r.items[k].rel == path
  }

  /**
  What the plan of a directory is: exactly its regular files that no line excludes,
  but for one with the manifest's name at the root. Other entries that are no regular
  files are counted, not planned: some exactly when there is one that would have been.
  */
  lemma PlannedExactly(ex: Rule, manifest: string, es: seq<Entry>, remote: string, strategy: Strategy, path: seq<string>)
    ensures var r := PlanOf(ex, manifest, Directory(es), remote, strategy);
            && r.Planned?
            && (InPlan(r, path) <==> IsFile(es, path, true) && path != [manifest] && !ex(path, false))
            && (r.skipped > 0 <==> exists p :: IsFile(es, p, false) && Wanted(ex, manifest, p))
  {
    var r, found := PlanOf(ex, manifest, Directory(es), remote, strategy), WalkAll(ex, manifest, false, [], es);
    WalkFinds(ex, manifest, [], es);
    assert [] + path == path;
    forall p: seq<string> ensures [] + p == p {
    }
    if InPlan(r, path) {
      var k :| 0 <= k < |r.items| && r.items[k].rel == path;
      assert found.files[k] == path;
    }
    if path in found.files {
      var k :| 0 <= k < |found.files| && found.files[k] == path;
      assert r.items[k].rel == path;
    }
  }

  // ---- Each file once ----

  /** No directory holds two entries of one name. */
  ghost predicate OneOfEach(es: seq<Entry>) {
    && (forall i, j :: 0 <= i < j < |es| ==> es[i].name != es[j].name)
    && forall e | e in es :: e.DirEntry? ==> OneOfEach(e.below)
  }

  ghost predicate Once(files: seq<seq<string>>) {
    forall i, j :: 0 <= i < j < |files| ==> files[i] != files[j]
  }

  lemma OnceBoth(a: seq<seq<string>>, b: seq<seq<string>>)
    requires Once(a) && Once(b) && forall p :: p in a ==> p !in b
    ensures Once(a + b)
  {
    forall i, j | 0 <= i < j < |a + b| ensures (a + b)[i] != (a + b)[j] {
      if i < |a| <= j {
        assert a[i] in a && b[j - |a|] in b;
      }
    }
  }

  lemma DifferentNames(ex: Rule, manifest: string, dir: seq<string>, es: seq<Entry>, e: Entry, p: seq<string>)
    requires (forall x :: x in es ==> x.name != e.name) && p in WalkAll(ex, manifest, false, dir, es).files
    ensures p !in WalkEntry(ex, manifest, false, dir, e).files
  {
    WalkFinds(ex, manifest, dir, es);
    EntryFinds(ex, manifest, dir, e);
    var rel := p[|dir|..];
    assert p == dir + rel && IsFile(es, rel, true);
    var x :| x in es && HoldsFile(x, rel, true);
    if IsFile([e], rel, true) {
      var y :| y in [e] && HoldsFile(y, rel, true);
    }
  }

  /** And every file is planned once. */
  lemma {:induction false} PlannedOnce(ex: Rule, manifest: string, dir: seq<string>, es: seq<Entry>)
    requires OneOfEach(es)
    ensures Once(WalkAll(ex, manifest, false, dir, es).files)
    decreases es
  {
    if es != [] {
      var n := |es| - 1;
      var e := es[n];
      assert e in es;
      PlannedOnce(ex, manifest, dir, es[..n]);
      if e.DirEntry? {
        PlannedOnce(ex, manifest, dir + [e.name], e.below);
      }
      forall p | p in WalkAll(ex, manifest, false, dir, es[..n]).files
        ensures p !in WalkEntry(ex, manifest, false, dir, e).files
      {
        DifferentNames(ex, manifest, dir, es[..n], e, p);
      }
      OnceBoth(WalkAll(ex, manifest, false, dir, es[..n]).files, WalkEntry(ex, manifest, false, dir, e).files);
    }
  }
}
