/** Two deployments into one target: what an overlay leaves a later sync. */
module SharedTargets {
  import opened Options
  import opened RemoteTree
  import opened Publish
  import opened PathLists
  import opened SyncJob
  import opened SyncManifest
  import opened SyncFrame
  import opened Sync
  import opened DeleteBudgets
  import Clean
  import SyncRuns

  /** A sync trusts the manifest: one that read it and succeeds converges exactly when
      the manifest was true at the start. What was changed behind its back stays as
      it is. */
  lemma ConvergesExactlyWhenTrue(job: Job, ext: bool, candid: bool, t0: Tree, t: Tree)
    requires Sound(job) && SoundManifest(job, ManifestAt(job, t0))
    requires Good(job, ext, candid, ManifestAt(job, t0), t0, t) && (Truthful(job, t0) ==> UpToDate(job, t))
    ensures UpToDate(job, t) <==> Truthful(job, t0)
  {
    if !Truthful(job, t0) {
      var p :| Current(job, ManifestAt(job, t0), p) && !Holds(job, t0, p);
      CurrentStays(job, ext, candid, t0, t, p);
    }
  }

  lemma CurrentStays(job: Job, ext: bool, candid: bool, t0: Tree, t: Tree, p: Path)
    requires Sound(job) && SoundManifest(job, ManifestAt(job, t0)) && Current(job, ManifestAt(job, t0), p)
    requires Good(job, ext, candid, ManifestAt(job, t0), t0, t)
    ensures FileAt(t, Key(job, p)) == FileAt(t0, Key(job, p))
  {
    CurrentIsKept(job, ext, ManifestAt(job, t0), p);
    PlanIsOff(job);
    assert !ManifestArea(job, ext, Key(job, p));
  }

  /** The overlay leaves the sync's file alone, or puts the same contents there. */
  ghost predicate Spares(a: Job, b: Job, p: Path)
    requires p in b.local
  {
    forall q :: q in a.local && Key(a, q) <= Key(b, p) ==> Key(a, q) == Key(b, p) && a.local[q] == b.local[p]
  }

  /** After an overlay that succeeded, the manifest of a sync into the same target is
      true exactly when the overlay spares every file the manifest calls current. */
  lemma OverlayKeepsTruthExactly(a: Job, b: Job, ext: bool, t0: Tree, t: Tree)
    requires Sound(a) && Sound(b) && a.id == b.id && a.name == b.name
    requires SoundManifest(b, ManifestAt(b, t0)) && Truthful(b, t0)
    requires WellFormed(t0) && WellFormed(t) && DataFrame(a, ext, map[], t0, t) && Clean.AllPlanned(a, t)
    ensures ManifestAt(b, t) == ManifestAt(b, t0)
    ensures Truthful(b, t) <==> forall p :: Current(b, ManifestAt(b, t0), p) ==> Spares(a, b, p)
  {
    assert SoundManifest(a, map[]);
    ManifestUnchanged(a, ext, map[], t0, t);
    forall p | Current(b, ManifestAt(b, t0), p) ensures Holds(b, t, p) <==> Spares(a, b, p) {
      HeldWhenSpared(a, b, ext, t0, t, p);
    }
  }

  lemma HeldWhenSpared(a: Job, b: Job, ext: bool, t0: Tree, t: Tree, p: Path)
    requires Sound(a) && Sound(b) && a.id == b.id && p in b.local && Holds(b, t0, p)
    requires WellFormed(t) && DataFrame(a, ext, map[], t0, t) && Clean.AllPlanned(a, t)
    ensures Holds(b, t, p) <==> Spares(a, b, p)
  {
    if q :| q in a.local && Key(a, q) <= Key(b, p) {
      MetBy(a, b, t, q, p);
    } else {
      PlainIsNotTemp(b, p);
      assert !MayChange(a, ext, map[], Key(b, p));
    }
  }

  /** A planned file of the overlay is at the name or above it. */
  lemma MetBy(a: Job, b: Job, t: Tree, q: Path, p: Path)
    requires Sound(a) && a.id == b.id && p in b.local && q in a.local && Key(a, q) <= Key(b, p)
    requires WellFormed(t) && Clean.AllPlanned(a, t)
    ensures Holds(b, t, p) <==> Spares(a, b, p)
  {
    OneIsAbove(a, q, Key(b, p));
    if Key(a, q) == Key(b, p) {
      assert Holds(a, t, q);
    } else {
      BelowIsGone(a, t, q, Key(b, p));
    }
  }

  /** The plan is flat, so one planned file at most is at or above a name. */
  lemma OneIsAbove(a: Job, q: Path, k: Path)
    requires Sound(a) && q in a.local && Key(a, q) <= k
    ensures forall r :: r in a.local && Key(a, r) <= k ==> r == q
  {
    forall r | r in a.local && Key(a, r) <= k ensures r == q {
      PrefixesCompare(Key(a, q), Key(a, r), k);
    }
  }

  lemma BelowIsGone(a: Job, t: Tree, q: Path, k: Path)
    requires Sound(a) && WellFormed(t) && Clean.AllPlanned(a, t) && q in a.local && Strictly(Key(a, q), k)
    ensures k !in t
  {
    assert Holds(a, t, q) && q != [];
    if k in t {
      AncestorsExist(t, k, Key(a, q));
    }
  }

  /**
  An overlay and a sync into one target, one after the other, on a server that shows
  what is there. When both succeed, the sync has converged exactly when the overlay
  spares every file the manifest called current before. (Only a clean that shares its
  target with a sync draws a warning.)
  */
  method OverlayThenSync(s: Server, a: Job, b: Job, maxDeletes: nat, dirMode: bool, remote: string) returns (ok: bool)
    requires s.Valid() && s.legible && Sound(a) && Sound(b) && a.id == b.id && a.name == b.name
    requires SoundManifest(b, ManifestAt(b, s.tree)) && Truthful(b, s.tree)
    modifies s`tree, s`trace
    ensures s.Valid()
    ensures ok ==> (UpToDate(b, s.tree) <==>
                      forall p :: Current(b, ManifestAt(b, old(s.tree)), p) ==> Spares(a, b, p))
  {
    ghost var t0 := s.tree;
    var budget := new DeleteBudget(maxDeletes);
    var first, _, _ := Clean.ExecuteOverlayOrClean(s, a, false, budget, remote);
    ok := first.Deployed?;
    if ok {
      OverlayKeepsTruthExactly(a, b, s.ext, t0, s.tree);
      ok := SyncReads(s, b, maxDeletes, dirMode, remote);
    }
  }

  /** One sync that reads what is there. */
  method SyncReads(s: Server, b: Job, maxDeletes: nat, dirMode: bool, remote: string) returns (ok: bool)
    requires s.Valid() && s.legible && Sound(b) && SoundManifest(b, ManifestAt(b, s.tree))
    modifies s`tree, s`trace
    ensures s.Valid()
    ensures ok ==> (UpToDate(b, s.tree) <==> Truthful(b, old(s.tree)))
  {
    ghost var t, tr := s.tree, s.trace;
    ghost var m;
    ok, m := SyncRuns.RunOnce(s, b, maxDeletes, dirMode, remote);
    LastIsGood(b, s.ext, s.candid, m, t, tr, s.trace, s.tree);
    if ok {
      ConvergesExactlyWhenTrue(b, s.ext, s.candid, t, s.tree);
    }
  }
}
