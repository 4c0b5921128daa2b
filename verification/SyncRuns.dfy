/** Retrying a sync until it succeeds: what holds over all the runs together. */
module SyncRuns {
  import opened Options
  import opened RemoteTree
  import opened Publish
  import opened TempNames
  import opened PathLists
  import opened DeleteBudgets
  import opened SyncJob
  import opened SyncPhases
  import opened SyncManifest
  import opened SyncFrame
  import opened SyncSteps
  import opened SyncDeliver
  import opened Sync

  /** A name no run of this deployment has business with: not temp-shaped, not
      the manifest, neither planned nor listed at the start. (Without the
      extension also not below the manifest or a planned file.) */
  ghost predicate Foreign(job: Job, ext: bool, m0: Manifest, k: Path) {
    && !TempKey(job.id, k) && !ManifestArea(job, ext, k)
    && (forall p :: p in job.local ==> if ext then k != Key(job, p) else !(Key(job, p) <= k))
    && (forall r :: r in m0 ==> k != Key(job, r))
  }

  /** The claim on one tree of a series of runs that started at `t0`. `faithful`
      says that no run so far took a manifest that is there for missing, `mindful`
      that the stale files were kept account of as well (see Mindful). */
  ghost predicate GoodSeries(job: Job, ext: bool, faithful: bool, mindful: bool, t0: Tree, t: Tree) {
    && (ext || faithful ==> Truthful(job, t))
    && SoundManifest(job, ManifestAt(job, t))
    && (forall r :: r in ManifestAt(job, t) ==> r in ManifestAt(job, t0) || r in job.local)
    && (forall k :: Foreign(job, ext, ManifestAt(job, t0), k) ==> FileAt(t, k) == FileAt(t0, k))
    && (ext && HasManifest(job, t0) ==> HasManifest(job, t))
    && (mindful && (ext || HasManifest(job, t)) ==> Remembered(job, ManifestAt(job, t0), t))
  }

  /** A run keeps account of the stale files when it finds a manifest, which it
      always does with the extension; there may also have been none to begin with. */
  ghost predicate StartsMindful(job: Job, ext: bool, m0: Manifest, t1: Tree) {
    ext || HasManifest(job, t1) || m0 == map[]
  }

  /** The places in the trace the runs of a series started from. */
  ghost predicate Mindful(job: Job, ext: bool, m0: Manifest, starts: seq<nat>, tr: seq<Tree>) {
    forall i :: i in starts && i < |tr| ==> StartsMindful(job, ext, m0, tr[i])
  }

  /** What the flags say after one more run, from `t1` with manifest `m`. */
  ghost predicate Continued(job: Job, ext: bool, candid: bool, faithful: bool, mindful: bool, m: Manifest, t0: Tree, t1: Tree,
                            faithful': bool, mindful': bool)
  {
    && faithful' == (faithful && m == ManifestAt(job, t1))
    && mindful' == (mindful && m == ManifestAt(job, t1) && StartsMindful(job, ext, ManifestAt(job, t0), t1))
    && (mindful ==> candid)
  }

  /** One more run keeps the claim: it works from the manifest the run before it
      left, whichever step that one stopped at. */
  lemma OneMoreRun(job: Job, ext: bool, candid: bool, faithful: bool, mindful: bool, m: Manifest, t0: Tree, t1: Tree, t: Tree,
                   faithful': bool, mindful': bool)
    requires Sound(job) && SoundManifest(job, ManifestAt(job, t0)) && GoodSeries(job, ext, faithful, mindful, t0, t1)
    requires (m == ManifestAt(job, t1) || m == map[]) && Good(job, ext, candid, m, t1, t)
    requires Continued(job, ext, candid, faithful, mindful, m, t0, t1, faithful', mindful')
    ensures GoodSeries(job, ext, faithful', mindful', t0, t)
  {
    if ext || faithful' {
      assert Faithful(job, ext, m, t1);
    }
    forall k | Foreign(job, ext, ManifestAt(job, t0), k) ensures FileAt(t, k) == FileAt(t0, k) {
      ForeignStays(job, ext, m, t0, t1, k);
    }
    if mindful' && (ext || HasManifest(job, t)) {
      StaysRemembered(job, ext, candid, m, t0, t1, t);
    }
  }

  lemma ForeignStays(job: Job, ext: bool, m: Manifest, t0: Tree, t1: Tree, k: Path)
    requires forall r :: r in ManifestAt(job, t1) ==> r in ManifestAt(job, t0) || r in job.local
    requires (m == ManifestAt(job, t1) || m == map[]) && Foreign(job, ext, ManifestAt(job, t0), k)
    ensures !MayChange(job, ext, m, k) && !ManifestArea(job, ext, k)
  {
  }

  // ---- The stale files of the manifest the series started from ----

  lemma StaysRemembered(job: Job, ext: bool, candid: bool, m: Manifest, t0: Tree, t1: Tree, t: Tree)
    requires Sound(job) && SoundManifest(job, ManifestAt(job, t0)) && GoodSeries(job, ext, false, true, t0, t1)
    requires m == ManifestAt(job, t1) && Good(job, ext, candid, m, t1, t) && candid
    requires StartsMindful(job, ext, ManifestAt(job, t0), t1) && (ext || HasManifest(job, t))
    ensures Remembered(job, ManifestAt(job, t0), t)
  {
    var m0 := ManifestAt(job, t0);
    if m0 != map[] {
      assert HasManifest(job, t0);
      StaleOfTheSeries(job, ext, candid, m0, m, t1, t);
    }
  }

  /** A name that was stale at the start, is not listed any more and belongs to no
      planned file is left alone. One below a planned file may also go. */
  lemma ForgottenStays(job: Job, ext: bool, candid: bool, m0: Manifest, m: Manifest, t1: Tree, t: Tree, r: Path)
    requires Sound(job) && SoundManifest(job, m0) && Stale(job, m0, r) && Good(job, ext, candid, m, t1, t)
    requires (forall q :: q in m ==> q in m0 || q in job.local) && r !in m && !PlannedKey(job, Key(job, r))
    ensures FileAt(t, Key(job, r)) in {None, FileAt(t1, Key(job, r))}
    ensures ext || !BelowPlan(job, Key(job, r)) ==> FileAt(t, Key(job, r)) == FileAt(t1, Key(job, r))
  {
    var k := Key(job, r);
    PlainIsNotTemp(job, r);
    assert forall q :: Stale(job, m, q) ==> q in m0 && q != r;
    assert !ManifestArea(job, ext, k);
    if ext || !BelowPlan(job, k) {
      assert !MayChange(job, ext, m, k);
    }
  }

  /** What one run does to the stale files it finds listed, it does to those of the
      first manifest: the others are gone already. */
  lemma StaleOfTheSeries(job: Job, ext: bool, candid: bool, m0: Manifest, m: Manifest, t1: Tree, t: Tree)
    requires Sound(job) && SoundManifest(job, m0) && Good(job, ext, candid, m, t1, t) && m == ManifestAt(job, t1)
    requires (forall q :: q in m ==> q in m0 || q in job.local) && Remembered(job, m0, t1)
    ensures StaleGone(job, m, t) ==> StaleGone(job, m0, t)
    ensures Remembered(job, m, t) ==> Remembered(job, m0, t)
  {
    forall r | Stale(job, m0, r) && r !in m && !PlannedKey(job, Key(job, r)) ensures FileAt(t, Key(job, r)) == None {
      ForgottenStays(job, ext, candid, m0, m, t1, t, r);
    }
  }

  // ---- A manifest taken for missing ----

  /** A planned file is at the name or above it. */
  ghost predicate Shadowed(job: Job, k: Path) {
    exists p :: p in job.local && Key(job, p) <= k
  }

  /** What a run that takes the manifest for missing and succeeds does to one stale
      file: nothing, unless it is below a planned one. */
  lemma MisreadLeaves(job: Job, ext: bool, candid: bool, m0: Manifest, t0: Tree, t: Tree, r: Path)
    requires Sound(job) && SoundManifest(job, m0) && Good(job, ext, candid, map[], t0, t) && UpToDate(job, t) && WellFormed(t)
    requires Stale(job, m0, r) && !PlannedKey(job, Key(job, r))
    ensures FileAt(t, Key(job, r)) == if Shadowed(job, Key(job, r)) then None else FileAt(t0, Key(job, r))
    ensures ext ==> FileAt(t, Key(job, r)) == FileAt(t0, Key(job, r))
  {
    ForgottenStays(job, ext, candid, m0, map[], t0, t, r);
    if Shadowed(job, Key(job, r)) {
      NothingBelowPlan(job, t, Key(job, r));
    }
  }

  /** Where the planned files stand, nothing is below them. */
  lemma NothingBelowPlan(job: Job, t: Tree, k: Path)
    requires Sound(job) && WellFormed(t) && (forall p :: p in job.local ==> Holds(job, t, p))
    requires Shadowed(job, k) && !PlannedKey(job, k)
    ensures k !in t
  {
    var p :| p in job.local && Key(job, p) <= k;
    assert Holds(job, t, p) && Key(job, p) != k && p != [];
    if k in t {
      AncestorsExist(t, k, Key(job, p));
    }
  }

  /**
  A run that takes the manifest for missing and succeeds forgets the stale files:
  none is listed any more, and those with no planned file at or above them are
  left where they are, so that no later run deletes them. All is well exactly when
  there was no such file; with posix-rename, where nothing below a planned file
  moves either, exactly when there was no stale file at all.
  */
  lemma MisreadForgetsExactly(job: Job, ext: bool, candid: bool, m0: Manifest, t0: Tree, t: Tree)
    requires Sound(job) && SoundManifest(job, m0) && m0 == ManifestAt(job, t0)
    requires Good(job, ext, candid, map[], t0, t) && UpToDate(job, t) && WellFormed(t)
    ensures Remembered(job, m0, t) <==> StaleGone(job, m0, t)
    ensures StaleGone(job, m0, t) <==>
              forall r :: Stale(job, m0, r) ==> FileAt(t0, Key(job, r)) == None || Shadowed(job, Key(job, r))
    ensures ext ==> (StaleGone(job, m0, t) <==> StaleGone(job, m0, t0))
  {
    forall r | Stale(job, m0, r) && !PlannedKey(job, Key(job, r))
      ensures FileAt(t, Key(job, r)) == if Shadowed(job, Key(job, r)) then None else FileAt(t0, Key(job, r))
      ensures ext ==> FileAt(t, Key(job, r)) == FileAt(t0, Key(job, r))
    {
      MisreadLeaves(job, ext, candid, m0, t0, t, r);
    }
    forall r | Stale(job, m0, r) && PlannedKey(job, Key(job, r)) ensures Shadowed(job, Key(job, r)) {
    }
  }

  /** Where the other stale files went: with the directory that was in the way,
      below its parked name, which no manifest lists. */
  lemma MisreadParks(job: Job, ext: bool, candid: bool, m0: Manifest, t0: Tree, t: Tree, r: Path, p: Path)
    requires Sound(job) && SoundManifest(job, m0) && m0 == ManifestAt(job, t0)
    requires Good(job, ext, candid, map[], t0, t) && UpToDate(job, t) && WellFormed(t) && Rehoused(job, t0, t)
    requires Stale(job, m0, r) && p in job.local && Strictly(Key(job, p), Key(job, r)) && FileAt(t0, Key(job, r)) != None
    ensures p != [] && !ext && FileAt(t, Key(job, r)) == None
    ensures FileAt(t, ParkedKey(job, p, Key(job, r))) == FileAt(t0, Key(job, r))
    ensures forall q :: q in ManifestAt(job, t) ==> Key(job, q) != ParkedKey(job, p, Key(job, r))
  {
    var k := Key(job, r);
    PlainIsNotTemp(job, r);
    assert !PlannedKey(job, k);
    MisreadLeaves(job, ext, candid, m0, t0, t, r);
    ParkedIsTemp(job, p, k);
    forall q | q in ManifestAt(job, t) ensures Key(job, q) != ParkedKey(job, p, k) {
      PlainIsNotTemp(job, q);
    }
  }

  lemma ParkedIsTemp(job: Job, p: Path, k: Path)
    requires Sound(job) && p in job.local && Strictly(Key(job, p), k)
    ensures p != [] && TempKey(job.id, ParkedKey(job, p, k))
  {
    assert PlainName(job.id, p[|p| - 1]);
    TempNamesAreRecognised(Last(p), 0);
    TempBelow(job.id, KeyOf(job.id, Parent(p)), Backup(Last(p)), ParkedKey(job, p, k));
  }

  // ---- The series ----

  /** The claim on every tree since the trace was `tr0`. */
  ghost predicate SeriesSince(job: Job, ext: bool, faithful: bool, mindful: bool, t0: Tree, tr0: seq<Tree>, tr: seq<Tree>) {
    && tr0 <= tr
    && forall j {:trigger GoodSeries(job, ext, faithful, mindful, t0, tr[j])} ::
         |tr0| <= j < |tr| ==> GoodSeries(job, ext, faithful, mindful, t0, tr[j])
  }

  lemma SeriesThen(job: Job, ext: bool, f1: bool, g1: bool, f2: bool, g2: bool, t0: Tree, tr0: seq<Tree>, tr1: seq<Tree>,
                   tr2: seq<Tree>)
    requires SeriesSince(job, ext, f1, g1, t0, tr0, tr1) && SeriesSince(job, ext, f2, g2, t0, tr1, tr2)
    requires (f2 ==> f1) && (g2 ==> g1)
    ensures SeriesSince(job, ext, f2, g2, t0, tr0, tr2)
  {
    forall j | |tr0| <= j < |tr2| ensures GoodSeries(job, ext, f2, g2, t0, tr2[j]) {
      if j < |tr1| {
        assert GoodSeries(job, ext, f1, g1, t0, tr1[j]);
      }
    }
  }

  lemma OneMoreTrace(job: Job, ext: bool, candid: bool, faithful: bool, mindful: bool, m: Manifest, t0: Tree, t1: Tree,
                     tr0: seq<Tree>, tr: seq<Tree>, faithful': bool, mindful': bool)
    requires Sound(job) && SoundManifest(job, ManifestAt(job, t0)) && GoodSeries(job, ext, faithful, mindful, t0, t1)
    requires (m == ManifestAt(job, t1) || m == map[]) && GoodSince(job, ext, candid, m, t1, tr0, tr)
    requires Continued(job, ext, candid, faithful, mindful, m, t0, t1, faithful', mindful')
    ensures SeriesSince(job, ext, faithful', mindful', t0, tr0, tr)
  {
    forall j | |tr0| <= j < |tr| ensures GoodSeries(job, ext, faithful', mindful', t0, tr[j]) {
      assert Good(job, ext, candid, m, t1, tr[j]);
      OneMoreRun(job, ext, candid, faithful, mindful, m, t0, t1, tr[j], faithful', mindful');
    }
  }

  /**
  Runs the deployment again until it succeeds, starting from a truthful manifest.
  `starts` are the places in the trace the runs started from.

  However the runs fail, every step of every run leaves all foreign files alone,
  and keeps the manifest truthful (without posix-rename as long as each run read
  the manifest that was there). The run that succeeds leaves the planned files
  and the manifest as they are locally. On a candid server, as long as each run
  read what was there and (without posix-rename) found a manifest at all, every
  step at which there is a manifest has every stale file of the very first one
  listed until it is gone, and the success leaves none.
  */
  method SyncUntilDone(s: Server, job: Job, maxDeletes: nat, dirMode: bool, remote: string, attempts: nat)
    returns (done: bool, ghost faithful: bool, ghost starts: seq<nat>)
    requires s.Valid() && Sound(job) && SoundManifest(job, ManifestAt(job, s.tree)) && Truthful(job, s.tree)
    modifies s`tree, s`trace
    ensures s.Valid()
    ensures var mindful := s.candid && faithful && Mindful(job, s.ext, ManifestAt(job, old(s.tree)), starts, s.trace);
            && GoodSeries(job, s.ext, faithful, mindful, old(s.tree), s.tree)
            && SeriesSince(job, s.ext, faithful, mindful, old(s.tree), old(s.trace), s.trace)
            && (done && mindful ==> StaleGone(job, ManifestAt(job, old(s.tree)), s.tree))
    ensures |starts| <= attempts && forall i :: i in starts ==> |old(s.trace)| - 1 <= i < |s.trace|
    ensures s.legible ==> faithful
    ensures done && (s.ext || faithful) ==> UpToDate(job, s.tree)
  {
    ghost var t0, tr0 := s.tree, s.trace;
    ghost var m0 := ManifestAt(job, t0);
    assert EndsAt(tr0, t0);
    done, faithful, starts := false, true, [];
    ghost var mindful := s.candid;
    var left := attempts;
    while left > 0 && !done
      invariant s.Valid() && tr0 <= s.trace && EndsAt(s.trace, s.tree) && |starts| + left <= attempts
      invariant forall i :: i in starts ==> |tr0| - 1 <= i < |s.trace|
      invariant mindful == (s.candid && faithful && Mindful(job, s.ext, m0, starts, s.trace))
      invariant GoodSeries(job, s.ext, faithful, mindful, t0, s.tree)
      invariant SeriesSince(job, s.ext, faithful, mindful, t0, tr0, s.trace)
      invariant done && mindful ==> StaleGone(job, m0, s.tree)
      invariant s.legible ==> faithful
      invariant done && (s.ext || faithful) ==> UpToDate(job, s.tree)
      decreases left
    {
      ghost var t1, mid := s.tree, s.trace;
      ghost var faithful', mindful';
      done, faithful', mindful' := SyncOnce(s, job, maxDeletes, dirMode, remote, faithful, mindful, t0);
      SeriesGrows(job, s.ext, s.candid, faithful, mindful, faithful', mindful', t0, t1, tr0, mid, s.trace, starts, starts + [|mid| - 1]);
      faithful, mindful, starts := faithful', mindful', starts + [|mid| - 1];
      left := left - 1;
    }
  }

  lemma SeriesGrows(job: Job, ext: bool, candid: bool, f1: bool, g1: bool, f2: bool, g2: bool, t0: Tree, t1: Tree,
                    tr0: seq<Tree>, mid: seq<Tree>, tr: seq<Tree>, starts: seq<nat>, more: seq<nat>)
    requires more == starts + [|mid| - 1]
    requires SeriesSince(job, ext, f1, g1, t0, tr0, mid) && SeriesSince(job, ext, f2, g2, t0, mid, tr) && (f2 ==> f1)
    requires EndsAt(mid, t1) && forall i :: i in starts ==> |tr0| - 1 <= i < |mid|
    requires g1 == (candid && f1 && Mindful(job, ext, ManifestAt(job, t0), starts, mid))
    requires g2 == (g1 && f2 && StartsMindful(job, ext, ManifestAt(job, t0), t1))
    ensures SeriesSince(job, ext, f2, g2, t0, tr0, tr)
    ensures g2 == (candid && f2 && Mindful(job, ext, ManifestAt(job, t0), more, tr))
    ensures forall i :: i in more ==> |tr0| - 1 <= i < |tr|
  {
    SeriesThen(job, ext, f1, g1, f2, g2, t0, tr0, mid, tr);
    MoreStarts(job, ext, ManifestAt(job, t0), starts, mid, tr, t1, more);
  }

  lemma MoreStarts(job: Job, ext: bool, m0: Manifest, starts: seq<nat>, mid: seq<Tree>, tr: seq<Tree>, t1: Tree,
                   more: seq<nat>)
    requires EndsAt(mid, t1) && mid <= tr && (forall i :: i in starts ==> i < |mid|) && more == starts + [|mid| - 1]
    ensures Mindful(job, ext, m0, more, tr) <==> Mindful(job, ext, m0, starts, mid) && StartsMindful(job, ext, m0, t1)
    ensures forall i :: i in more ==> i in starts || i == |mid| - 1
  {
    assert forall i :: i in more <==> i in starts || i == |mid| - 1;
    forall i | i in more ensures tr[i] == mid[i] {
    }
    assert mid[|mid| - 1] == t1;
  }

  /** One run, with a budget of its own. */
  method RunOnce(s: Server, job: Job, maxDeletes: nat, dirMode: bool, remote: string) returns (done: bool, ghost m: Manifest)
    requires s.Valid() && Sound(job) && SoundManifest(job, ManifestAt(job, s.tree))
    modifies s`tree, s`trace
    ensures s.Valid() && GoodSince(job, s.ext, s.candid, m, old(s.tree), old(s.trace), s.trace)
    ensures EndsAt(old(s.trace), old(s.tree)) && EndsAt(s.trace, s.tree)
    ensures m == ManifestAt(job, old(s.tree)) || m == map[]
    ensures s.legible ==> m == ManifestAt(job, old(s.tree))
    ensures done && Truthful(job, old(s.tree)) ==> UpToDate(job, s.tree)
    ensures done && s.candid ==> StaleGone(job, m, s.tree)
  {
    var budget := new DeleteBudget(maxDeletes);
    var outcome, _, _, _, found := ExecuteSync(s, job, budget, dirMode, remote);
    done, m := outcome.Synced?, found;
  }

  /** One run of the series. */
  method SyncOnce(s: Server, job: Job, maxDeletes: nat, dirMode: bool, remote: string, ghost faithful: bool, ghost mindful: bool,
                  ghost t0: Tree)
    returns (done: bool, ghost faithful': bool, ghost mindful': bool)
    requires s.Valid() && Sound(job) && SoundManifest(job, ManifestAt(job, t0)) && (mindful ==> s.candid && faithful)
    requires GoodSeries(job, s.ext, faithful, mindful, t0, s.tree)
    modifies s`tree, s`trace
    ensures s.Valid() && EndsAt(s.trace, s.tree) && GoodSeries(job, s.ext, faithful', mindful', t0, s.tree)
    ensures SeriesSince(job, s.ext, faithful', mindful', t0, old(s.trace), s.trace)
    ensures faithful' ==> faithful
    ensures mindful' == (mindful && faithful' && StartsMindful(job, s.ext, ManifestAt(job, t0), old(s.tree)))
    ensures s.legible && faithful ==> faithful'
    ensures done && mindful' ==> StaleGone(job, ManifestAt(job, t0), s.tree)
    ensures done && (s.ext || faithful') ==> UpToDate(job, s.tree)
  {
    ghost var t1, tr := s.tree, s.trace;
    ghost var m;
    done, m := RunOnce(s, job, maxDeletes, dirMode, remote);
    faithful' := faithful && m == ManifestAt(job, t1);
    mindful' := mindful && m == ManifestAt(job, t1) && StartsMindful(job, s.ext, ManifestAt(job, t0), t1);
    RunOfTheSeries(job, s.ext, s.candid, faithful, mindful, done, m, t0, t1, tr, s.trace, s.tree, faithful', mindful');
  }

  /** What one run's claims say of the series. */
  lemma RunOfTheSeries(job: Job, ext: bool, candid: bool, faithful: bool, mindful: bool, done: bool, m: Manifest, t0: Tree,
                       t1: Tree, tr0: seq<Tree>, tr: seq<Tree>, t: Tree, faithful': bool, mindful': bool)
    requires Sound(job) && SoundManifest(job, ManifestAt(job, t0)) && GoodSeries(job, ext, faithful, mindful, t0, t1)
    requires m == ManifestAt(job, t1) || m == map[]
    requires EndsAt(tr0, t1) && GoodSince(job, ext, candid, m, t1, tr0, tr) && EndsAt(tr, t)
    requires done && candid ==> StaleGone(job, m, t)
    requires Continued(job, ext, candid, faithful, mindful, m, t0, t1, faithful', mindful')
    ensures SeriesSince(job, ext, faithful', mindful', t0, tr0, tr)
    ensures GoodSeries(job, ext, faithful', mindful', t0, t)
    ensures done && mindful' ==> StaleGone(job, ManifestAt(job, t0), t)
  {
    OneMoreTrace(job, ext, candid, faithful, mindful, m, t0, t1, tr0, tr, faithful', mindful');
    LastIsGood(job, ext, candid, m, t1, tr0, tr, t);
    OneMoreRun(job, ext, candid, faithful, mindful, m, t0, t1, t, faithful', mindful');
    if done && mindful' {
      SuccessLeavesNone(job, ext, candid, m, t0, t1, t);
    }
  }

  lemma SuccessLeavesNone(job: Job, ext: bool, candid: bool, m: Manifest, t0: Tree, t1: Tree, t: Tree)
    requires Sound(job) && SoundManifest(job, ManifestAt(job, t0)) && GoodSeries(job, ext, false, true, t0, t1)
    requires m == ManifestAt(job, t1) && Good(job, ext, candid, m, t1, t) && StaleGone(job, m, t)
    requires StartsMindful(job, ext, ManifestAt(job, t0), t1)
    ensures StaleGone(job, ManifestAt(job, t0), t)
  {
    var m0 := ManifestAt(job, t0);
    if m0 != map[] {
      StaleOfTheSeries(job, ext, candid, m0, m, t1, t);
    }
  }
}
