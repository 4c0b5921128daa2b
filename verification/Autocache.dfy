/** The cache of link measurements (internal/autocache). Times are in seconds. */
module Autocache {
  import opened Options
  import AutotunePlan
  import TuningController

  const MAX_RECORDS := 8
  const MAX_AGE := 30 * 24 * 3600
  const MAX_REUSE := 32
  const MAX_CEILING_CARRY := 16
  const POLICY_VERSION := 2

  datatype Workload = Workload(files: nat, bytes: nat, p50: nat, p90: nat, largest: nat, small: nat)

  /** A value of zero was not measured. */
  datatype Link = Link(rtt: real, handshake: real, stream: real)

  datatype Settings = Settings(connections: nat, concurrency: nat, requests: nat)

  datatype Record = Record(target: string, policy: nat, measuredAt: int, lastUsed: int, reused: nat,
                           workload: Workload, link: Link, settings: Settings, ceiling: nat, carried: nat)

  // ---- Similarity ----

  /** Within a factor of each other; a zero matches only a zero. */
  predicate WithinBand(a: real, b: real, band: real) {
    a == b || (a > 0.0 && b > 0.0 && a <= band * b && b <= band * a)
  }

  predicate BandwidthBound(w: Workload) {
    TuningController.BandwidthBound(AutotunePlan.Workload(w.files, 0, w.largest, 0, w.p90, 0, 0))
  }

  function SmallShare(w: Workload): real {
    if w.files == 0 then 0.0 else w.small as real / w.files as real
  }

  predicate Similar(anchor: Workload, now: Workload) {
    && BandwidthBound(anchor) == BandwidthBound(now)
    && WithinBand(now.files as real, anchor.files as real, 2.0)
    && WithinBand(now.bytes as real, anchor.bytes as real, 2.0)
    && WithinBand(now.p50 as real, anchor.p50 as real, 4.0)
    && WithinBand(now.p90 as real, anchor.p90 as real, 4.0)
    && -0.25 <= SmallShare(anchor) - SmallShare(now) <= 0.25
  }

  // ---- Lookup ----

  predicate StillTrusted(r: Record, at: int) {
    r.policy == POLICY_VERSION && at - r.measuredAt <= MAX_AGE && r.reused < MAX_REUSE
  }

  function Find(rs: seq<Record>, target: string): (r: Option<Record>)
    ensures r.Some? ==> r.value in rs && r.value.target == target
    ensures r.None? ==> forall x :: x in rs ==> x.target != target
  {
    if rs == [] then None
    else if rs[0].target == target then Some(rs[0])
    else Find(rs[1..], target)
  }

  /** The gates that need no connection. */
  function Lookup(rs: seq<Record>, target: string, now: Workload, at: int): Option<Record> {
    match Find(rs, target)
    case None => None
    case Some(r) => if StillTrusted(r, at) && Similar(r.workload, now) then Some(r) else None
  }

  /** The gate on the round-trip time measured now. */
  predicate Validate(candidate: Option<Record>, rtt: real) {
    candidate.Some? && rtt > 0.0 && candidate.value.link.rtt > 0.0 && WithinBand(rtt, candidate.value.link.rtt, 2.0)
  }

  // ---- Write-back ----

  datatype Observation = Observation(target: string, workload: Workload, link: Link, settings: Settings,
                                     measured: bool, reused: bool, ceiling: nat, untested: bool)

  function Anchored(prior: Option<Record>, obs: Observation, at: int): Record {
    var next := Record(obs.target, POLICY_VERSION, at, at, 0, obs.workload, obs.link, obs.settings, 0, 0);
    if prior.Some? && !obs.measured && StillTrusted(prior.value, at) then
      next.(measuredAt := prior.value.measuredAt, workload := prior.value.workload, link := prior.value.link,
             reused := prior.value.reused + if obs.reused then 1 else 0)
    else next
  }

  function Merged(prior: Option<Record>, obs: Observation, at: int): Record {
    var r := Anchored(prior, obs, at);
    if obs.ceiling > 0 then r.(ceiling := obs.ceiling)
    else if prior.Some? && obs.untested && prior.value.ceiling > 0 && prior.value.carried < MAX_CEILING_CARRY then
      r.(ceiling := prior.value.ceiling, carried := prior.value.carried + 1)
    else r
  }

  predicate SaysTheSame(a: Record, b: Record) {
    a.(lastUsed := 0) == b.(lastUsed := 0)
  }

  function Without(rs: seq<Record>, target: string): (r: seq<Record>)
    ensures forall x :: x in r <==> x in rs && x.target != target
  {
    if rs == [] then []
    else if rs[0].target == target then Without(rs[1..], target)
    else [rs[0]] + Without(rs[1..], target)
  }

  function Put(rs: seq<Record>, r: Record): seq<Record> {
    var kept := [r] + Without(rs, r.target);
    if |kept| > MAX_RECORDS then kept[..MAX_RECORDS] else kept
  }

  function Update(rs: seq<Record>, obs: Observation, at: int): seq<Record> {
    if obs.target == "" then rs
    else
      var prior := Find(rs, obs.target);
      var r := Merged(prior, obs, at);
      if prior.Some? && SaysTheSame(r, prior.value) then rs else Put(rs, r)
  }

  /** The store object. */
  class Store {
    var records: seq<Record>

    constructor ()
      ensures records == []
    {
      records := [];
    }

    method FindRecord(target: string) returns (r: Option<Record>)
      ensures r == Find(records, target)
    {
      assert records[0..] == records;
      for i := 0 to |records|
        invariant Find(records, target) == Find(records[i..], target)
      {
        if records[i].target == target {
          return Some(records[i]);
        }
        assert records[i..][1..] == records[i + 1..];
      }
      r := None;
    }

    /** Puts the record first and drops what no longer fits. */
    method PutRecord(rec: Record)
      modifies this
      ensures records == Put(old(records), rec)
    {
      var kept := [rec];
      for i := 0 to |records|
        invariant kept + Without(records[i..], rec.target) == [rec] + Without(records, rec.target)
        invariant records == old(records)
      {
        assert records[i..][1..] == records[i + 1..];
        if records[i].target != rec.target {
          kept := kept + [records[i]];
        }
      }
      assert kept == [rec] + Without(records, rec.target);
      if |kept| > MAX_RECORDS {
        kept := kept[..MAX_RECORDS];
      }
      records := kept;
    }

    method UpdateWith(obs: Observation, at: int) returns (changed: bool)
      modifies this
      ensures records == Update(old(records), obs, at)
      ensures !changed ==> records == old(records)
    {
      if obs.target == "" {
        return false;
      }
      var prior := FindRecord(obs.target);
      var rec := Record(obs.target, POLICY_VERSION, at, at, 0, obs.workload, obs.link, obs.settings, 0, 0);
      if prior.Some? && !obs.measured && StillTrusted(prior.value, at) {
        rec := rec.(measuredAt := prior.value.measuredAt, workload := prior.value.workload, link := prior.value.link,
                    reused := prior.value.reused);
        if obs.reused {
          rec := rec.(reused := rec.reused + 1);
        }
      }
      if obs.ceiling > 0 {
        rec := rec.(ceiling := obs.ceiling);
      } else if prior.Some? && obs.untested && prior.value.ceiling > 0 && prior.value.carried < MAX_CEILING_CARRY {
        rec := rec.(ceiling := prior.value.ceiling, carried := prior.value.carried + 1);
      }
      if prior.Some? && SaysTheSame(rec, prior.value) {
        return false;
      }
      PutRecord(rec);
      changed := true;
    }
  }

  // ---- Sequences of runs ----

  /** One run: what it plans, when it looks the record up and when it writes back,
      what it measured, and the ceiling it found for itself (0 for none). */
  datatype Run = Run(target: string, workload: Workload, begin: int, end: int, link: Link, settings: Settings,
                     measured: bool, found: nat)

  predicate Hit(rs: seq<Record>, r: Run) {
    Validate(Lookup(rs, r.target, r.workload, r.begin), r.link.rtt)
  }

  /** A run that inherits a ceiling and meets no pushback has not tested it. */
  function ObservationOf(rs: seq<Record>, r: Run): Observation {
    var hit := Hit(rs, r);
    var inherits := hit && Find(rs, r.target).Some? && Find(rs, r.target).value.ceiling > 0;
    Observation(r.target, r.workload, r.link, r.settings, r.measured, hit, r.found, r.found == 0 && inherits)
  }

  /** Some runs in a row, and the store before each of them and after the last. */
  datatype Log = Log(runs: seq<Run>, stores: seq<seq<Record>>)

  /** Run `i` writes back what it has to say. */
  predicate WritesBack(l: Log, i: nat)
    requires i < |l.runs| && |l.stores| == |l.runs| + 1
  {
    l.stores[i + 1] == Update(l.stores[i], ObservationOf(l.stores[i], l.runs[i]), l.runs[i].end)
  }

  predicate IsHistory(l: Log) {
    && |l.stores| == |l.runs| + 1 && l.stores[0] == []
    && forall i {:trigger WritesBack(l, i)} :: 0 <= i < |l.runs| ==> WritesBack(l, i)
  }

  /** Such a sequence that starts with an empty store. */
  type History = l: Log | IsHistory(l) witness Log([], [[]])

  /** Any runs have one. */
  function HistoryOf(runs: seq<Run>): (h: History)
    ensures h.runs == runs
  {
    if runs == [] then Log([], [[]])
    else
      var n := |runs| - 1;
      OneMoreRun(HistoryOf(runs[..n]), runs[n]);
      assert runs[..n] + [runs[n]] == runs;
      Continued(HistoryOf(runs[..n]), runs[n])
  }

  function Continued(l: Log, r: Run): Log
    requires l.stores != []
  {
    var rs := l.stores[|l.stores| - 1];
    Log(l.runs + [r], l.stores + [Update(rs, ObservationOf(rs, r), r.end)])
  }

  lemma OneMoreRun(l: Log, r: Run)
    requires IsHistory(l)
    ensures IsHistory(Continued(l, r))
  {
    var m := Continued(l, r);
    forall i | 0 <= i < |m.runs| ensures WritesBack(m, i) {
      if i < |l.runs| {
        assert WritesBack(l, i);
        assert m.runs[i] == l.runs[i] && m.stores[i] == l.stores[i] && m.stores[i + 1] == l.stores[i + 1];
      }
    }
  }

  function Before(h: History, i: nat): seq<Record>
    requires i <= |h.runs|
  {
    h.stores[i]
  }

  predicate HitAt(h: History, i: nat)
    requires i < |h.runs|
  {
    Hit(Before(h, i), h.runs[i])
  }

  lemma BeforeNext(h: History, i: nat)
    requires i < |h.runs|
    ensures Before(h, i + 1) == Update(Before(h, i), ObservationOf(Before(h, i), h.runs[i]), h.runs[i].end)
  {
    assert WritesBack(h, i);
  }

  /** The hits for a target among the runs from `lo` up to `hi`. */
  function Hits(h: History, target: string, lo: nat, hi: nat): (n: nat)
    requires hi <= |h.runs|
    decreases hi
  {
    if hi <= lo then 0
    else Hits(h, target, lo, hi - 1) + if h.runs[hi - 1].target == target && HitAt(h, hi - 1) then 1 else 0
  }

  function Visits(h: History, target: string, lo: nat, hi: nat): (n: nat)
    requires hi <= |h.runs|
    decreases hi
  {
    if hi <= lo then 0
    else Visits(h, target, lo, hi - 1) + if h.runs[hi - 1].target == target then 1 else 0
  }

  lemma CountsNext(h: History, target: string, from: nat, i: nat)
    requires from <= i < |h.runs|
    ensures Hits(h, target, from, i + 1) ==
            Hits(h, target, from, i) + if h.runs[i].target == target && HitAt(h, i) then 1 else 0
    ensures Visits(h, target, from, i + 1) == Visits(h, target, from, i) + if h.runs[i].target == target then 1 else 0
  {
  }

  /** The run measured, or found no record of its target that was still trusted. */
  predicate Anchors(h: History, a: nat)
    requires a < |h.runs|
  {
    h.runs[a].measured || !TrustedBefore(h, a)
  }

  /** Run `a` is the last of its target that anchored a record. */
  predicate IsAnchor(h: History, i: nat, target: string, a: nat)
    requires i <= |h.runs|
  {
    && a < i && h.runs[a].target == target && Anchors(h, a)
    && forall c {:trigger Anchors(h, c)} :: a < c < i && h.runs[c].target == target ==> !Anchors(h, c)
  }

  /** Run `a` anchored the record: it holds what that run measured. */
  predicate AnchoredBy(h: History, i: nat, r: Record, a: nat)
    requires i <= |h.runs|
  {
    && IsAnchor(h, i, r.target, a) && r.policy == POLICY_VERSION
    && r.workload == h.runs[a].workload && r.link == h.runs[a].link && r.measuredAt == h.runs[a].end
    && r.reused == Hits(h, r.target, a + 1, i) <= MAX_REUSE
  }

  predicate TrustedBefore(h: History, a: nat)
    requires a < |h.runs|
  {
    var prior := Find(Before(h, a), h.runs[a].target);
    prior.Some? && StillTrusted(prior.value, h.runs[a].end)
  }

  /** Every run of the target after `c` hit and found no ceiling. */
  predicate OnlyHitsSince(h: History, c: nat, i: nat, target: string)
    requires i <= |h.runs|
  {
    forall d {:trigger HitsOnly(h, d)} :: c < d < i && h.runs[d].target == target ==> HitsOnly(h, d)
  }

  predicate HitsOnly(h: History, d: nat)
    requires d < |h.runs|
  {
    h.runs[d].found == 0 && HitAt(h, d)
  }

  /** Run `c` found a ceiling, and every later run of the target hit and found none:
      at most 16 of them. */
  predicate Carries(h: History, i: nat, target: string, c: nat)
    requires i <= |h.runs|
  {
    && c < i && h.runs[c].target == target && h.runs[c].found > 0
    && OnlyHitsSince(h, c, i, target) && Visits(h, target, c + 1, i) <= MAX_CEILING_CARRY
  }

  /** Run `c` found the ceiling, and every later run of the target carried it. */
  predicate CeilingFrom(h: History, i: nat, r: Record, c: nat)
    requires i <= |h.runs|
  {
    && Carries(h, i, r.target, c) && h.runs[c].found == r.ceiling && r.carried == Visits(h, r.target, c + 1, i)
  }

  ghost predicate Explained(h: History, i: nat, r: Record)
    requires i <= |h.runs|
  {
    && r.target != "" && (exists a :: AnchoredBy(h, i, r, a))
    && (r.ceiling > 0 ==> exists c :: CeilingFrom(h, i, r, c))
  }

  ghost predicate Unique(rs: seq<Record>) {
    forall i, j :: 0 <= i < j < |rs| ==> rs[i].target != rs[j].target
  }

  lemma {:induction false} WithoutUnique(rs: seq<Record>, target: string)
    requires Unique(rs)
    ensures Unique(Without(rs, target))
    decreases |rs|
  {
    if rs != [] {
      assert Unique(rs[1..]);
      WithoutUnique(rs[1..], target);
      var w := Without(rs[1..], target);
      forall i | 0 <= i < |w| ensures w[i].target != rs[0].target {
        assert w[i] in rs[1..];
      }
    }
  }

  lemma PutKeepsUnique(rs: seq<Record>, r: Record)
    requires Unique(rs)
    ensures Unique(Put(rs, r))
    ensures forall x :: x in Put(rs, r) ==> x == r || (x in rs && x.target != r.target)
  {
    WithoutUnique(rs, r.target);
    var w := Without(rs, r.target);
    forall i | 0 <= i < |w| ensures w[i].target != r.target {
      assert w[i] in w;
    }
  }

  lemma FoundIsIt(rs: seq<Record>, x: Record)
    requires Unique(rs) && x in rs
    ensures Find(rs, x.target) == Some(x)
  {
    var i :| 0 <= i < |rs| && rs[i] == x;
    var y := Find(rs, x.target).value;
    var j :| 0 <= j < |rs| && rs[j] == y;
  }

  /** A run of another target changes nothing about this record's story. */
  lemma OtherRun(h: History, i: nat, j: nat, r: Record)
    requires j == i + 1 <= |h.runs| && Explained(h, i, r) && h.runs[i].target != r.target
    ensures Explained(h, j, r)
  {
    var a: nat :| AnchoredBy(h, i, r, a);
    OtherKeepsAnchor(h, i, j, r, a);
    if r.ceiling > 0 {
      var c: nat :| CeilingFrom(h, i, r, c);
      OtherKeepsCeiling(h, i, j, r, c);
    }
  }

  lemma OtherKeepsAnchor(h: History, i: nat, j: nat, r: Record, a: nat)
    requires j == i + 1 <= |h.runs| && AnchoredBy(h, i, r, a) && h.runs[i].target != r.target
    ensures AnchoredBy(h, j, r, a)
  {
    CountsNext(h, r.target, a + 1, i);
  }

  lemma OtherKeepsCeiling(h: History, i: nat, j: nat, r: Record, c: nat)
    requires j == i + 1 <= |h.runs| && CeilingFrom(h, i, r, c) && h.runs[i].target != r.target
    ensures CeilingFrom(h, j, r, c)
  {
    CountsNext(h, r.target, c + 1, i);
  }

  /** The record run `i` makes, whether or not it is put into the store. */
  function NextRecord(h: History, i: nat): Record
    requires i < |h.runs|
  {
    Merged(Find(Before(h, i), h.runs[i].target), ObservationOf(Before(h, i), h.runs[i]), h.runs[i].end)
  }

  lemma NextAnchor(h: History, i: nat, prior: Option<Record>)
    requires i < |h.runs| && prior == Find(Before(h, i), h.runs[i].target)
    ensures var r, run := NextRecord(h, i), h.runs[i];
            && r.target == run.target && r.policy == POLICY_VERSION
            && if Anchors(h, i) then
                 r.workload == run.workload && r.link == run.link && r.measuredAt == run.end && r.reused == 0
               else
                 && prior.Some? && StillTrusted(prior.value, run.end)
                 && r.workload == prior.value.workload && r.link == prior.value.link
                 && r.measuredAt == prior.value.measuredAt
                 && r.reused == prior.value.reused + if HitAt(h, i) then 1 else 0
  {
  }

  lemma NextCeiling(h: History, i: nat, prior: Option<Record>)
    requires i < |h.runs| && prior == Find(Before(h, i), h.runs[i].target)
    ensures var r, run := NextRecord(h, i), h.runs[i];
            if run.found > 0 then r.ceiling == run.found && r.carried == 0
            else if HitAt(h, i) && prior.Some? && prior.value.ceiling > 0 && prior.value.carried < MAX_CEILING_CARRY then
              r.ceiling == prior.value.ceiling && r.carried == prior.value.carried + 1
            else r.ceiling == 0
  {
  }

  lemma AnchorStep(h: History, i: nat, j: nat, prior: Option<Record>) returns (a: nat)
    requires j == i + 1 <= |h.runs| && prior == Find(Before(h, i), h.runs[i].target)
    requires prior.Some? ==> Explained(h, i, prior.value)
    ensures AnchoredBy(h, j, NextRecord(h, i), a)
  {
    NextAnchor(h, i, prior);
    if Anchors(h, i) {
      a := i;
    } else {
      a :| AnchoredBy(h, i, prior.value, a);
      CountsNext(h, h.runs[i].target, a + 1, i);
      AnchorLasts(h, i, j, h.runs[i].target, a);
    }
  }

  lemma AnchorLasts(h: History, i: nat, j: nat, target: string, a: nat)
    requires j == i + 1 <= |h.runs| && IsAnchor(h, i, target, a) && !Anchors(h, i)
    ensures IsAnchor(h, j, target, a)
  {
  }

  lemma CeilingStep(h: History, i: nat, j: nat, prior: Option<Record>) returns (c: nat)
    requires j == i + 1 <= |h.runs| && prior == Find(Before(h, i), h.runs[i].target)
    requires prior.Some? ==> Explained(h, i, prior.value)
    requires NextRecord(h, i).ceiling > 0
    ensures CeilingFrom(h, j, NextRecord(h, i), c)
  {
    NextCeiling(h, i, prior);
    if h.runs[i].found > 0 {
      c := i;
    } else {
      c :| CeilingFrom(h, i, prior.value, c);
      CountsNext(h, h.runs[i].target, c + 1, i);
      CarriesOn(h, i, j, h.runs[i].target, c);
    }
  }

  lemma CarriesOn(h: History, i: nat, j: nat, target: string, c: nat)
    requires j == i + 1 <= |h.runs| && Carries(h, i, target, c) && h.runs[i].target == target
    requires h.runs[i].found == 0 && HitAt(h, i) && Visits(h, target, c + 1, j) <= MAX_CEILING_CARRY
    ensures Carries(h, j, target, c)
  {
  }

  ghost predicate AllExplained(h: History, i: nat)
    requires i <= |h.runs|
  {
    Unique(Before(h, i)) && forall r :: r in Before(h, i) ==> Explained(h, i, r)
  }

  /** Whatever runs went before, every record in the store has its story: the run
      that anchored it, the hits since, and the run that found its ceiling. */
  lemma StillExplained(h: History, i: nat, j: nat)
    requires i < |h.runs| && AllExplained(h, i)
    requires j == i + 1
    ensures AllExplained(h, j)
  {
    BeforeNext(h, i);
    ExplainedNext(h, i);
  }

  lemma {:induction false} RecordsAreExplained(h: History, i: nat)
    requires i <= |h.runs|
    ensures AllExplained(h, i)
    decreases i
  {
    if i > 0 {
      RecordsAreExplained(h, i - 1);
      StillExplained(h, i - 1, i);
    }
  }

  /** What a run leaves: its own record, or what was there when that says the same. */
  lemma UpdateCases(rs: seq<Record>, obs: Observation, at: int)
    requires Unique(rs)
    ensures var prior, next := Find(rs, obs.target), Update(rs, obs, at);
            var r := Merged(prior, obs, at);
            Unique(next) && r.target == obs.target
            && if obs.target == "" then next == rs
               else if prior.Some? && SaysTheSame(r, prior.value) then
                 next == rs && forall x :: x in rs && x.target == r.target ==> x == prior.value
               else next == Put(rs, r) && forall x :: x in next ==> x == r || (x in rs && x.target != r.target)
  {
    var prior := Find(rs, obs.target);
    var r := Merged(prior, obs, at);
    PutKeepsUnique(rs, r);
    if prior.Some? && SaysTheSame(r, prior.value) {
      forall x | x in rs && x.target == r.target ensures x == prior.value {
        FoundIsIt(rs, x);
      }
    }
  }

  lemma ExplainedNext(h: History, i: nat)
    requires i < |h.runs| && AllExplained(h, i)
    ensures var rs := Update(Before(h, i), ObservationOf(Before(h, i), h.runs[i]), h.runs[i].end);
            Unique(rs) && forall r :: r in rs ==> Explained(h, i + 1, r)
  {
    var before, run := Before(h, i), h.runs[i];
    var obs := ObservationOf(before, run);
    UpdateCases(before, obs, run.end);
    forall x | x in Update(before, obs, run.end) ensures Explained(h, i + 1, x) {
      if x.target != run.target {
        OtherRun(h, i, i + 1, x);
      } else {
        assert x in before ==> x.target != "";
        OwnRun(h, i, i + 1, x);
      }
    }
  }

  /** The record of the run's own target. */
  lemma OwnRun(h: History, i: nat, j: nat, x: Record)
    requires j == i + 1 <= |h.runs| && AllExplained(h, i)
    requires h.runs[i].target != "" && (x == NextRecord(h, i) || SaysTheSame(NextRecord(h, i), x))
    ensures Explained(h, j, x)
  {
    var r := NextRecord(h, i);
    NextIsExplained(h, i, j, Find(Before(h, i), h.runs[i].target));
    if x != r {
      SameIsExplained(h, j, r, x);
    }
  }

  lemma NextIsExplained(h: History, i: nat, j: nat, prior: Option<Record>)
    requires j == i + 1 <= |h.runs| && prior == Find(Before(h, i), h.runs[i].target) && h.runs[i].target != ""
    requires prior.Some? ==> Explained(h, i, prior.value)
    ensures Explained(h, j, NextRecord(h, i))
  {
    var a := AnchorStep(h, i, j, prior);
    if NextRecord(h, i).ceiling > 0 {
      var c := CeilingStep(h, i, j, prior);
    }
  }

  lemma SameIsExplained(h: History, i: nat, r: Record, x: Record)
    requires i <= |h.runs| && Explained(h, i, r) && SaysTheSame(r, x)
    ensures Explained(h, i, x)
  {
    var a: nat :| AnchoredBy(h, i, r, a);
    assert r.(lastUsed := 0).workload == x.(lastUsed := 0).workload;
    assert AnchoredBy(h, i, x, a);
    if r.ceiling > 0 {
      var c: nat :| CeilingFrom(h, i, r, c);
      assert CeilingFrom(h, i, x, c);
    }
  }

  // ---- What is kept ----

  /** The run's write-back changed the store. */
  predicate Wrote(h: History, j: nat)
    requires j < |h.runs|
  {
    Before(h, j + 1) != Before(h, j)
  }

  function LastWrite(h: History, i: nat, target: string): (w: Option<nat>)
    requires i <= |h.runs|
    ensures w.Some? ==> w.value < i && h.runs[w.value].target == target && Wrote(h, w.value)
  {
    if i == 0 then None
    else if h.runs[i - 1].target == target && Wrote(h, i - 1) then Some(i - 1)
    else LastWrite(h, i - 1, target)
  }

  /** The targets written since run `w`. */
  function Since(h: History, w: nat, i: nat): set<string>
    requires i <= |h.runs|
  {
    if i <= w + 1 then {}
    else Since(h, w, i - 1) + if Wrote(h, i - 1) then {h.runs[i - 1].target} else {}
  }

  /** A target stays in the store until eight others were written since its own last
      write. */
  predicate Kept(h: History, i: nat, target: string)
    requires i <= |h.runs|
  {
    var w := LastWrite(h, i, target);
    w.Some? && |Since(h, w.value, i)| < MAX_RECORDS
  }

  /** The workload is similar to the earlier run's own, the round-trip time, measured
      by both, within a factor of two of it, and that run not too long ago. */
  predicate Resembles(was: Run, now: Run) {
    && Similar(was.workload, now.workload)
    && was.link.rtt > 0.0 && now.link.rtt > 0.0 && WithinBand(now.link.rtt, was.link.rtt, 2.0)
    && now.begin - was.end <= MAX_AGE
  }

  /** Run `i` may use what run `a` measured: `a` is the last run that anchored its
      target's record, which is still kept; the two resemble each other, and fewer
      than 32 hits stood on the measurement before. */
  predicate StandsOn(h: History, i: nat, a: nat)
    requires i < |h.runs|
  {
    && IsAnchor(h, i, h.runs[i].target, a) && Kept(h, i, h.runs[i].target)
    && Resembles(h.runs[a], h.runs[i]) && Hits(h, h.runs[i].target, a + 1, i) < MAX_REUSE
  }

  /** A remembered ceiling was found by some run, and at most 16 runs of the target,
      all of them hits, have carried it untested since. */
  lemma CeilingsFade(h: History, i: nat, r: Record) returns (c: nat)
    requires i <= |h.runs| && r in Before(h, i) && r.ceiling > 0
    ensures Carries(h, i, r.target, c) && h.runs[c].found == r.ceiling
  {
    RecordsAreExplained(h, i);
    c :| CeilingFrom(h, i, r, c);
  }

  /** So all hits on one anchor are one kind of deploy: their sizes differ at most
      fourfold, however many runs lie between them. */
  lemma HitsOnOneAnchorAgree(anchor: Workload, x: Workload, y: Workload)
    requires Similar(anchor, x) && Similar(anchor, y)
    ensures x.files <= 4 * y.files && x.bytes <= 4 * y.bytes
    ensures BandwidthBound(x) == BandwidthBound(y)
  {
    TwoBands(x.files as real, anchor.files as real, y.files as real);
    TwoBands(x.bytes as real, anchor.bytes as real, y.bytes as real);
  }

  lemma TwoBands(x: real, a: real, y: real)
    requires WithinBand(x, a, 2.0) && WithinBand(y, a, 2.0) && y >= 0.0
    ensures x <= 4.0 * y
  {
  }
}
