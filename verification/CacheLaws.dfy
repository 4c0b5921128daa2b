/** What the cache keeps and when it answers, said on sequences of runs. */
module CacheLaws {
  import opened Options
  import opened Autocache

  function Targets(rs: seq<Record>): set<string> {
    set r | r in rs :: r.target
  }

  // ---- What is kept ----

  lemma WriteStep(h: History, i: nat, j: nat)
    requires j == i + 1 <= |h.runs|
    ensures Unique(Before(h, i)) && Unique(Before(h, j)) && NextRecord(h, i).target == h.runs[i].target
    ensures if Wrote(h, i) then h.runs[i].target != "" && Before(h, j) == Put(Before(h, i), NextRecord(h, i))
            else Before(h, j) == Before(h, i)
    ensures !Wrote(h, i) && h.runs[i].target != "" ==>
              var prior := Find(Before(h, i), h.runs[i].target);
              prior.Some? && SaysTheSame(NextRecord(h, i), prior.value)
  {
    RecordsAreExplained(h, i);
    BeforeNext(h, i);
    var rs := Before(h, i);
    UpdateCases(rs, ObservationOf(rs, h.runs[i]), h.runs[i].end);
    var prior := Find(rs, h.runs[i].target);
    if h.runs[i].target != "" && !(prior.Some? && SaysTheSame(NextRecord(h, i), prior.value)) {
      PutChanges(rs, NextRecord(h, i));
    }
  }

  lemma PutChanges(rs: seq<Record>, r: Record)
    requires Unique(rs) && Find(rs, r.target) != Some(r)
    ensures Put(rs, r) != rs
  {
    assert Put(rs, r)[0] == r;
    if r in rs {
      FoundIsIt(rs, r);
    }
  }

  /** The record stands behind those of exactly these targets. */
  ghost predicate At(rs: seq<Record>, target: string, names: set<string>) {
    exists k :: 0 <= k < |rs| && rs[k].target == target && Targets(rs[..k]) == names
  }

  ghost predicate Absent(rs: seq<Record>, target: string) {
    forall x :: x in rs ==> x.target != target
  }

  lemma {:induction false} UniqueSize(rs: seq<Record>)
    requires Unique(rs)
    ensures |Targets(rs)| == |rs|
  {
    if rs != [] {
      var n := |rs| - 1;
      UniqueSize(rs[..n]);
      assert rs == rs[..n] + [rs[n]];
      assert Targets(rs) == Targets(rs[..n]) + {rs[n].target};
    }
  }

  lemma {:induction false} WithoutSplit(a: seq<Record>, b: seq<Record>, target: string)
    ensures Without(a + b, target) == Without(a, target) + Without(b, target)
    decreases |a|
  {
    if a == [] {
      assert a + b == b;
    } else {
      assert (a + b)[1..] == a[1..] + b;
      WithoutSplit(a[1..], b, target);
    }
  }

  lemma WithoutTargets(rs: seq<Record>, target: string)
    ensures Targets(Without(rs, target)) == Targets(rs) - {target}
  {
  }

  /** The list before the tail is cut. */
  function Uncut(rs: seq<Record>, r: Record): seq<Record> {
    [r] + Without(rs, r.target)
  }

  lemma UncutAt(rs: seq<Record>, r: Record, k: nat) returns (n: nat)
    requires Unique(rs) && k < |rs| && rs[k].target != r.target
    ensures Unique(Uncut(rs, r)) && n < |Uncut(rs, r)| && Uncut(rs, r)[n] == rs[k]
    ensures Targets(Uncut(rs, r)[..n]) == Targets(rs[..k]) + {r.target}
    ensures n == |Targets(rs[..k]) + {r.target}|
  {
    var all := Uncut(rs, r);
    n := UncutSplit(rs, r, k);
    WithoutTargets(rs[..k], r.target);
    ConsTargets(r, Without(rs[..k], r.target));
    UncutUnique(rs, r);
    UniqueSize(all[..n]);
  }

  lemma UncutSplit(rs: seq<Record>, r: Record, k: nat) returns (n: nat)
    requires k < |rs| && rs[k].target != r.target
    ensures n < |Uncut(rs, r)| && Uncut(rs, r)[n] == rs[k]
    ensures Uncut(rs, r)[..n] == [r] + Without(rs[..k], r.target)
  {
    assert rs == rs[..k] + rs[k..];
    UncutHalves(rs[..k], rs[k..], r);
    n := 1 + |Without(rs[..k], r.target)|;
    Halves([r] + Without(rs[..k], r.target), Without(rs[k..], r.target));
  }

  lemma UncutHalves(a: seq<Record>, b: seq<Record>, r: Record)
    requires b != [] && b[0].target != r.target
    ensures Uncut(a + b, r) == ([r] + Without(a, r.target)) + Without(b, r.target)
    ensures Without(b, r.target) != [] && Without(b, r.target)[0] == b[0]
  {
    WithoutSplit(a, b, r.target);
    ConsFirst(r, Without(a, r.target), Without(b, r.target));
  }

  lemma ConsFirst(r: Record, a: seq<Record>, b: seq<Record>)
    ensures [r] + (a + b) == ([r] + a) + b
  {
  }

  lemma Halves(a: seq<Record>, b: seq<Record>)
    requires b != []
    ensures (a + b)[|a|] == b[0] && (a + b)[..|a|] == a
  {
  }

  lemma ConsTargets(r: Record, rs: seq<Record>)
    ensures Targets([r] + rs) == {r.target} + Targets(rs)
  {
  }

  lemma UncutUnique(rs: seq<Record>, r: Record)
    requires Unique(rs)
    ensures Unique(Uncut(rs, r))
  {
    WithoutUnique(rs, r.target);
    var w := Without(rs, r.target);
    forall i | 0 <= i < |w| ensures w[i].target != r.target {
      assert w[i] in w;
    }
  }

  /** Another target's write moves the record back by one place, unless that target
      stood before it already, and pushes it out of the last one. */
  lemma PutOther(rs: seq<Record>, r: Record, target: string, names: set<string>)
    requires Unique(rs) && At(rs, target, names) && r.target != target
    ensures if |names + {r.target}| < MAX_RECORDS then At(Put(rs, r), target, names + {r.target})
            else Absent(Put(rs, r), target)
  {
    var k :| 0 <= k < |rs| && rs[k].target == target && Targets(rs[..k]) == names;
    var n := UncutAt(rs, r, k);
    CutAt(Uncut(rs, r), Put(rs, r), n);
  }

  lemma CutAt(all: seq<Record>, cut: seq<Record>, n: nat)
    requires Unique(all) && n < |all| && cut == if |all| > MAX_RECORDS then all[..MAX_RECORDS] else all
    ensures n < MAX_RECORDS ==> n < |cut| && cut[n] == all[n] && cut[..n] == all[..n]
    ensures n >= MAX_RECORDS ==> Absent(cut, all[n].target)
  {
    if n >= MAX_RECORDS {
      forall x | x in cut ensures x.target != all[n].target {
        var m :| 0 <= m < |cut| && cut[m] == x;
        assert all[m] == x && m < n;
      }
    }
  }

  lemma PutFront(rs: seq<Record>, r: Record)
    ensures At(Put(rs, r), r.target, {})
  {
    var cut := Put(rs, r);
    assert cut[0] == r && cut[..0] == [];
  }

  lemma PutAbsent(rs: seq<Record>, r: Record, target: string)
    requires Absent(rs, target) && r.target != target
    ensures Absent(Put(rs, r), target)
  {
  }

  lemma SinceNext(h: History, w: nat, i: nat, j: nat)
    requires w < i && j == i + 1 <= |h.runs|
    ensures Since(h, w, j) == Since(h, w, i) + if Wrote(h, i) then {h.runs[i].target} else {}
  {
  }

  /** Where a target's record stands: behind the targets written since its own last
      write, and nowhere once there are eight of them. */
  ghost predicate Standing(h: History, i: nat, target: string)
    requires i <= |h.runs|
  {
    && (Kept(h, i, target) ==> At(Before(h, i), target, Since(h, LastWrite(h, i, target).value, i)))
    && (!Kept(h, i, target) ==> Absent(Before(h, i), target))
  }

  lemma {:induction false} RecordsStand(h: History, i: nat, target: string)
    requires i <= |h.runs|
    ensures Standing(h, i, target)
  {
    if i == 0 {
      NothingAtFirst(h, target);
    } else {
      RecordsStand(h, i - 1, target);
      StandingNext(h, i - 1, i, target);
    }
  }

  lemma NothingAtFirst(h: History, target: string)
    ensures Standing(h, 0, target)
  {
  }

  lemma StandingNext(h: History, i: nat, j: nat, target: string)
    requires j == i + 1 <= |h.runs| && Standing(h, i, target)
    ensures Standing(h, j, target)
  {
    WriteStep(h, i, j);
    var w := LastWrite(h, i, target);
    if Wrote(h, i) && h.runs[i].target == target {
      assert Since(h, i, j) == {};
      PutFront(Before(h, i), NextRecord(h, i));
    } else {
      assert LastWrite(h, j, target) == w;
      if w.Some? {
        SinceNext(h, w.value, i, j);
      }
      if Wrote(h, i) {
        OtherWrote(h, i, j, target);
      }
    }
  }

  lemma OtherWrote(h: History, i: nat, j: nat, target: string)
    requires j == i + 1 <= |h.runs| && Standing(h, i, target) && Wrote(h, i) && h.runs[i].target != target
    requires Unique(Before(h, i)) && Before(h, j) == Put(Before(h, i), NextRecord(h, i))
    requires NextRecord(h, i).target == h.runs[i].target && LastWrite(h, j, target) == LastWrite(h, i, target)
    requires var w := LastWrite(h, i, target);
             w.Some? ==> Since(h, w.value, j) == Since(h, w.value, i) + {h.runs[i].target}
    ensures Standing(h, j, target)
  {
    var w, rs, r := LastWrite(h, i, target), Before(h, i), NextRecord(h, i);
    if Kept(h, i, target) {
      PutOther(rs, r, target, Since(h, w.value, i));
    } else {
      PutAbsent(rs, r, target);
      if w.Some? {
        SubsetSize(Since(h, w.value, i), Since(h, w.value, j));
      }
    }
  }

  lemma {:induction false} SubsetSize(a: set<string>, b: set<string>)
    requires a <= b
    ensures |a| <= |b|
  {
    if a != {} {
      var x :| x in a;
      SubsetSize(a - {x}, b - {x});
    }
  }

  /** A target is in the store exactly as long as it is kept. */
  lemma KeptExactly(h: History, i: nat, target: string)
    requires i <= |h.runs|
    ensures Find(Before(h, i), target).Some? <==> Kept(h, i, target)
  {
    RecordsStand(h, i, target);
    if Kept(h, i, target) {
      var rs := Before(h, i);
      var k :| 0 <= k < |rs| && rs[k].target == target;
      assert rs[k] in rs;
    }
  }

  // ---- When the cache answers ----

  lemma OneAnchor(h: History, i: nat, target: string, a: nat, b: nat)
    requires i <= |h.runs| && IsAnchor(h, i, target, a) && IsAnchor(h, i, target, b)
    ensures a == b
  {
  }

  /** What the record holds, when there is one. */
  lemma RecordOf(h: History, i: nat, target: string) returns (a: nat)
    requires i <= |h.runs| && Find(Before(h, i), target).Some?
    ensures AnchoredBy(h, i, Find(Before(h, i), target).value, a)
  {
    RecordsAreExplained(h, i);
    a :| AnchoredBy(h, i, Find(Before(h, i), target).value, a);
  }

  /** Run `a` anchors the record, not too long ago, and fewer than 32 hits stood on it. */
  predicate MayStay(h: History, b: nat, a: nat)
    requires b < |h.runs|
  {
    && IsAnchor(h, b, h.runs[b].target, a) && h.runs[b].end - h.runs[a].end <= MAX_AGE
    && Hits(h, h.runs[b].target, a + 1, b) < MAX_REUSE
  }

  /** A run finds a record still trusted exactly when its target is kept and the run
      that anchored it is not too old and has not been used 32 times. */
  lemma TrustedExactly(h: History, b: nat)
    requires b < |h.runs|
    ensures TrustedBefore(h, b) <==> Kept(h, b, h.runs[b].target) && exists a: nat :: MayStay(h, b, a)
  {
    var t := h.runs[b].target;
    KeptExactly(h, b, t);
    if Find(Before(h, b), t).Some? {
      var a := RecordOf(h, b, t);
      TrustedByAnchor(h, b, a);
      forall x: nat | MayStay(h, b, x) ensures x == a {
        OneAnchor(h, b, t, x, a);
      }
    }
  }

  lemma TrustedByAnchor(h: History, b: nat, a: nat)
    requires b < |h.runs| && Find(Before(h, b), h.runs[b].target).Some?
    requires AnchoredBy(h, b, Find(Before(h, b), h.runs[b].target).value, a)
    ensures TrustedBefore(h, b) <==> MayStay(h, b, a)
  {
  }

  /**
  When a run hits, in every sequence of runs: exactly when there is an earlier run
  it may stand on (see StandsOn). So the cache cannot drift, because hits anchor
  nothing, and it does answer whenever there is a measurement to stand on.
  */
  lemma HitExactly(h: History, i: nat)
    requires i < |h.runs|
    ensures HitAt(h, i) <==> exists a: nat :: StandsOn(h, i, a)
  {
    var t := h.runs[i].target;
    KeptExactly(h, i, t);
    if Find(Before(h, i), t).Some? {
      var a := RecordOf(h, i, t);
      if HitAt(h, i) {
        assert StandsOn(h, i, a);
      }
      forall x: nat | StandsOn(h, i, x) ensures x == a {
        OneAnchor(h, i, t, x, a);
      }
    }
  }

  /** No run of the target between these two. */
  predicate NoneBetween(h: History, a: nat, i: nat, target: string)
    requires i <= |h.runs|
  {
    forall c :: a < c < i ==> h.runs[c].target != target
  }

  /** The run's measurement is not one that an earlier run of its target left at the
      same instant. */
  predicate OwnInstant(h: History, a: nat)
    requires a < |h.runs|
  {
    forall b :: 0 <= b < a && h.runs[b].target == h.runs[a].target ==> h.runs[b].end != h.runs[a].end
  }

  function Visited(h: History, a: nat, i: nat): set<string>
    requires i <= |h.runs|
  {
    set c | a < c < i :: h.runs[c].target
  }

  lemma MeasuringRunWrites(h: History, a: nat)
    requires a < |h.runs| && h.runs[a].measured && h.runs[a].target != "" && OwnInstant(h, a)
    ensures Wrote(h, a)
  {
    WriteStep(h, a, a + 1);
    NextAnchor(h, a, Find(Before(h, a), h.runs[a].target));
    if !Wrote(h, a) {
      SameInstant(NextRecord(h, a), Find(Before(h, a), h.runs[a].target).value);
      var b := RecordOf(h, a, h.runs[a].target);
    }
  }

  lemma SameInstant(x: Record, r: Record)
    requires SaysTheSame(x, r)
    ensures r.measuredAt == x.measuredAt
  {
    assert x.(lastUsed := 0).measuredAt == x.measuredAt;
  }

  lemma {:induction false} LastWriteIs(h: History, a: nat, i: nat)
    requires a < i <= |h.runs| && Wrote(h, a) && NoneBetween(h, a, i, h.runs[a].target)
    ensures LastWrite(h, i, h.runs[a].target) == Some(a)
  {
    LastWriteNext(h, i - 1, i, h.runs[a].target);
    if a < i - 1 {
      LastWriteIs(h, a, i - 1);
    }
  }

  lemma LastWriteNext(h: History, i: nat, j: nat, target: string)
    requires j == i + 1 <= |h.runs|
    ensures LastWrite(h, j, target) ==
            if h.runs[i].target == target && Wrote(h, i) then Some(i) else LastWrite(h, i, target)
  {
  }

  /** The measurement is still there for the target's next run: at once, or after runs
      for fewer than eight other targets. */
  lemma MeasurementIsKept(h: History, a: nat, i: nat)
    requires a < i <= |h.runs| && h.runs[a].measured && h.runs[a].target != "" && NoneBetween(h, a, i, h.runs[a].target)
    requires i == a + 1 || (OwnInstant(h, a) && |Visited(h, a, i)| < MAX_RECORDS)
    ensures Kept(h, i, h.runs[a].target)
  {
    var t := h.runs[a].target;
    if i == a + 1 {
      WriteStep(h, a, i);
      if Wrote(h, a) {
        PutFront(Before(h, a), NextRecord(h, a));
      }
      KeptExactly(h, i, t);
    } else {
      MeasuringRunWrites(h, a);
      LastWriteIs(h, a, i);
      SinceIsVisited(h, a, i);
      SubsetSize(Since(h, a, i), Visited(h, a, i));
    }
  }

  lemma {:induction false} SinceIsVisited(h: History, a: nat, i: nat)
    requires i <= |h.runs|
    ensures Since(h, a, i) <= Visited(h, a, i)
  {
    if a + 1 < i {
      SinceIsVisited(h, a, i - 1);
      assert h.runs[i - 1].target in Visited(h, a, i);
      assert Visited(h, a, i - 1) <= Visited(h, a, i);
    }
  }

  lemma {:induction false} NoHits(h: History, target: string, a: nat, i: nat)
    requires i <= |h.runs| && NoneBetween(h, a, i, target)
    ensures Hits(h, target, a + 1, i) == 0
  {
    if a + 1 < i {
      NoHits(h, target, a, i - 1);
    }
  }

  /** So after a run that measured, the target's next run hits exactly when its workload
      and its round-trip time are inside the bands and the measurement is not too old. */
  lemma NextRunHitsExactly(h: History, a: nat, i: nat)
    requires a < i < |h.runs| && h.runs[a].measured && h.runs[i].target == h.runs[a].target != ""
    requires NoneBetween(h, a, i, h.runs[a].target)
    requires i == a + 1 || (OwnInstant(h, a) && |Visited(h, a, i)| < MAX_RECORDS)
    ensures HitAt(h, i) <==> Resembles(h.runs[a], h.runs[i])
  {
    HitExactly(h, i);
    MeasurementIsKept(h, a, i);
    NoHits(h, h.runs[a].target, a, i);
    MeasuringAnchors(h, a, i);
    assert StandsOn(h, i, a) <==> Resembles(h.runs[a], h.runs[i]);
    forall x: nat | StandsOn(h, i, x) ensures x == a {
      OneAnchor(h, i, h.runs[a].target, x, a);
    }
  }

  lemma MeasuringAnchors(h: History, a: nat, i: nat)
    requires a < i <= |h.runs| && h.runs[a].measured && NoneBetween(h, a, i, h.runs[a].target)
    ensures IsAnchor(h, i, h.runs[a].target, a)
  {
  }

  // ---- The bands ----

  lemma BandExactly(a: nat, b: nat, band: nat)
    requires band >= 1
    ensures WithinBand(a as real, b as real, band as real) <==> a <= band * b && b <= band * a
  {
    assert (band * b) as real == band as real * b as real && (band * a) as real == band as real * a as real;
    if a == b {
      assert a <= band * a;
    }
  }

  /** Two workloads are similar exactly when file counts and total sizes differ at most
      twofold, median and ninetieth percentile at most fourfold, the shares of small
      files by at most a quarter, and both fill a stream or neither does. */
  lemma SimilarExactly(x: Workload, y: Workload)
    ensures Similar(x, y) <==>
              && BandwidthBound(x) == BandwidthBound(y)
              && x.files <= 2 * y.files && y.files <= 2 * x.files
              && x.bytes <= 2 * y.bytes && y.bytes <= 2 * x.bytes
              && x.p50 <= 4 * y.p50 && y.p50 <= 4 * x.p50
              && x.p90 <= 4 * y.p90 && y.p90 <= 4 * x.p90
              && 4.0 * SmallShare(x) <= 4.0 * SmallShare(y) + 1.0 && 4.0 * SmallShare(y) <= 4.0 * SmallShare(x) + 1.0
  {
    BandExactly(y.files, x.files, 2);
    BandExactly(y.bytes, x.bytes, 2);
    BandExactly(y.p50, x.p50, 4);
    BandExactly(y.p90, x.p90, 4);
  }

  // ---- The ceiling ----

  /** The target's record after one more run. */
  lemma FindNext(h: History, i: nat, j: nat, target: string, r: Record)
    requires j == i + 1 <= |h.runs| && Find(Before(h, j), target) == Some(r)
    ensures if h.runs[i].target != target then Find(Before(h, i), target) == Some(r)
            else r == NextRecord(h, i) || SaysTheSame(NextRecord(h, i), r)
  {
    WriteStep(h, i, j);
    RecordsAreExplained(h, j);
    var rs, n := Before(h, i), NextRecord(h, i);
    if Wrote(h, i) {
      PutKeepsUnique(rs, n);
      if r != n {
        FoundIsIt(rs, r);
      }
    }
  }

  lemma {:induction false} CeilingStays(h: History, i: nat, target: string, r: Record, c: nat)
    requires i <= |h.runs| && Find(Before(h, i), target) == Some(r) && Carries(h, i, target, c)
    ensures r.ceiling == h.runs[c].found && r.carried == Visits(h, target, c + 1, i)
    decreases i
  {
    var d := i - 1;
    FindNext(h, d, i, target, r);
    if h.runs[d].target != target {
      CarriedBefore(h, d, i, target, c);
      CeilingStays(h, d, target, r, c);
    } else {
      SameCeiling(NextRecord(h, d), r);
      if c < d {
        CarriedSoFar(h, d, i, target, c);
        CeilingStays(h, d, target, Find(Before(h, d), target).value, c);
      }
      CeilingMoves(h, d, i, target, c);
    }
  }

  lemma CarriedBefore(h: History, d: nat, i: nat, target: string, c: nat)
    requires i == d + 1 <= |h.runs| && h.runs[d].target != target && Carries(h, i, target, c)
    ensures c < d && Carries(h, d, target, c)
    ensures Visits(h, target, c + 1, i) == Visits(h, target, c + 1, d)
  {
    assert c != d;
    CountsNext(h, target, c + 1, d);
  }

  lemma CarriedSoFar(h: History, d: nat, i: nat, target: string, c: nat)
    requires i == d + 1 <= |h.runs| && c < d && h.runs[d].target == target && Carries(h, i, target, c)
    ensures Carries(h, d, target, c) && HitAt(h, d) && h.runs[d].found == 0
    ensures Visits(h, target, c + 1, i) == Visits(h, target, c + 1, d) + 1
    ensures Find(Before(h, d), target).Some?
  {
    assert HitsOnly(h, d);
    CountsNext(h, target, c + 1, d);
  }

  lemma CeilingMoves(h: History, d: nat, i: nat, target: string, c: nat)
    requires i == d + 1 <= |h.runs| && c <= d && h.runs[d].target == target && Carries(h, i, target, c)
    requires var prior := Find(Before(h, d), target);
             c < d && prior.Some? ==>
               prior.value.ceiling == h.runs[c].found && prior.value.carried == Visits(h, target, c + 1, d)
    ensures NextRecord(h, d).ceiling == h.runs[c].found
    ensures NextRecord(h, d).carried == Visits(h, target, c + 1, i)
  {
    NextCeiling(h, d, Find(Before(h, d), target));
    if c < d {
      CarriedSoFar(h, d, i, target, c);
    }
  }

  lemma SameCeiling(x: Record, r: Record)
    requires r == x || SaysTheSame(x, r)
    ensures r.ceiling == x.ceiling && r.carried == x.carried
  {
    assert x.(lastUsed := 0).ceiling == x.ceiling && x.(lastUsed := 0).carried == x.carried;
  }

  /** A target's record remembers a ceiling exactly when some run found one and every
      later run of the target, of which there are at most 16, was a hit that found
      none; and then it is that run's. */
  lemma CeilingExactly(h: History, i: nat, target: string, r: Record)
    requires i <= |h.runs| && Find(Before(h, i), target) == Some(r)
    ensures r.ceiling > 0 <==> exists c: nat :: Carries(h, i, target, c)
    ensures forall c: nat :: Carries(h, i, target, c) ==> r.ceiling == h.runs[c].found
  {
    if r.ceiling > 0 {
      var c := CeilingsFade(h, i, r);
    }
    forall c: nat | Carries(h, i, target, c) ensures r.ceiling == h.runs[c].found {
      CeilingStays(h, i, target, r, c);
    }
  }
}
