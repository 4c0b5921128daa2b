/** Adjusting the number of connections while a transfer runs (Controller). */
module TuningController {
  import opened AutotunePlan
  import opened Numbers
  import opened Options

  const MIN_OBSERVATION: real := 0.75
  const MIN_SAMPLES := 4
  const MIN_WINDOW_BYTES := MIN_REQUESTS * PACKET_BYTES
  const GROWTH_FACTOR := 2

  /** Cumulative since the phase started; `elapsed` in seconds. */
  datatype Progress = Progress(elapsed: real, uploaded: nat, skipped: nat, remaining: nat, remainingBytes: nat,
                               uploadedBytes: int, refused: bool, failures: nat)

  datatype State = State(fixed: Fixed, link: Link, current: Settings, workload: Workload, stopped: bool,
                         last: Option<Progress>, pendingRate: real, pendingFrom: nat)

  function New(w: Workload, start: Settings, l: Link, f: Fixed): State {
    State(f, l, start, w,
          f.connections > 0 || start.connections >= MAX_CONNECTIONS || start.concurrency <= 1
          || start.concurrency >= Max(w.uploads, w.probes),
          None, 0.0, 0)
  }

  function WindowBytes(c: State, p: Progress): int {
    if c.last.Some? then p.uploadedBytes - c.last.value.uploadedBytes else p.uploadedBytes
  }

  function Window(c: State, p: Progress): real {
    if c.last.Some? then p.elapsed - c.last.value.elapsed else p.elapsed
  }

  function WindowFiles(c: State, p: Progress): int {
    p.uploaded + p.skipped - if c.last.Some? then c.last.value.uploaded + c.last.value.skipped else 0
  }

  /** Does this report close a window worth deciding on? */
  predicate Eligible(c: State, p: Progress) {
    && Window(c, p) >= MIN_OBSERVATION && WindowFiles(c, p) >= MIN_SAMPLES
    && (WindowBytes(c, p) == 0 || WindowBytes(c, p) >= MIN_WINDOW_BYTES)
  }

  function Throughput(c: State, p: Progress): real {
    if WindowBytes(c, p) <= 0 || Window(c, p) <= 0.0 then 0.0
    else WindowBytes(c, p) as real / Window(c, p)
  }

  predicate BandwidthBound(w: Workload) {
    (if w.p90 == 0 then w.largest else w.p90) > PACKET_BYTES
  }

  function MeasuredLink(c: State, p: Progress, rate: real): Link {
    if !BandwidthBound(c.workload) then c.link
    else
      var streams := Min(Min(c.current.connections, c.current.concurrency), p.uploaded + p.remaining);
      c.link.(stream := rate / Max(streams, 1) as real)
  }

  function Share(n: nat, part: nat, whole: nat): nat
    requires whole > 0
  {
    assert n * part >= 0;
    n * part / whole
  }

  /** The work that is left; an unsettled upload set is extrapolated. */
  function Remaining(c: State, p: Progress): Workload {
    var done := p.uploaded + p.skipped;
    var partial := done > 0 && p.skipped > 0;
    var uploads := if partial then Share(p.remaining, p.uploaded, done) else p.remaining;
    var bytes := if partial then Share(p.remainingBytes, p.uploaded, done) else p.remainingBytes;
    Workload(uploads, bytes, if uploads > 0 then Min(c.workload.largest, bytes) else 0,
             c.workload.p50, c.workload.p90, 0, if partial then p.remaining else 0)
  }

  function Want(c: State, p: Progress, rate: real): nat {
    var w := Remaining(c, p);
    if c.fixed.connections > 0 then c.fixed.connections
    else PlanConnections(w, MeasuredLink(c, p, rate), if c.fixed.concurrency > 0 then c.fixed.concurrency else PlanConcurrency(w))
  }

  function Queued(c: State, p: Progress): nat {
    Max(p.remaining - c.current.concurrency, 0)
  }

  function Grown(c: State, p: Progress, rate: real): nat {
    Min(Min(Want(c, p, rate), c.current.connections * GROWTH_FACTOR),
        Min(MAX_CONNECTIONS, Min(c.current.concurrency, Queued(c, p))))
  }

  /** A step that did not pay for itself is less than a twentieth better. */
  predicate PaysOff(rate: real, before: real) {
    rate >= before * 1.05
  }

  /** Growing, when there is something to grow into. */
  function Grow(c: State, p: Progress, rate: real): State {
    if Queued(c, p) <= c.current.connections || Grown(c, p, rate) <= c.current.connections then c
    else c.(pendingRate := rate, pendingFrom := c.current.connections,
            current := c.current.(connections := Grown(c, p, rate)))
  }

  function Reject(c: State): State {
    c.(current := c.current.(connections := c.pendingFrom), pendingRate := 0.0, pendingFrom := 0, stopped := true)
  }

  /** One progress report. */
  function Step(c: State, p: Progress): State {
    if c.stopped then c
    else if p.refused || p.failures > 0 then c.(stopped := true)
    else if !Eligible(c, p) then c
    else
      var rate := Throughput(c, p);
      var d := c.(last := Some(p));
      if rate <= 0.0 then d
      else if c.pendingRate > 0.0 && !PaysOff(rate, c.pendingRate) then Reject(d)
      else
        var e := if c.pendingRate > 0.0 then d.(pendingRate := 0.0, pendingFrom := 0) else d;
        if c.pendingRate > 0.0 && c.current.connections >= MAX_CONNECTIONS then e.(stopped := true)
        else Grow(e, p, rate)
  }

  /** The controller object. */
  class Controller {
    const fixed: Fixed
    const link: Link
    const workload: Workload
    var current: Settings
    var stopped: bool
    var last: Option<Progress>
    var pendingRate: real
    var pendingFrom: nat

    function Now(): State
      reads this
    {
      State(fixed, link, current, workload, stopped, last, pendingRate, pendingFrom)
    }

    constructor (w: Workload, start: Settings, l: Link, f: Fixed)
      ensures Now() == New(w, start, l, f)
    {
      fixed, link, workload, current := f, l, w, start;
      last, pendingRate, pendingFrom := None, 0.0, 0;
      stopped := f.connections > 0 || start.connections >= MAX_CONNECTIONS || start.concurrency <= 1
                 || start.concurrency >= Max(w.uploads, w.probes);
    }

    /** Judges the growth step in flight; `decided` ends the round. */
    method Judge(rate: real) returns (decided: bool, changed: bool)
      requires pendingRate > 0.0
      modifies this`current, this`stopped, this`pendingRate, this`pendingFrom
      ensures var c := old(Now());
              Now() == if !PaysOff(rate, c.pendingRate) then Reject(c)
                            else c.(pendingRate := 0.0, pendingFrom := 0,
                                    stopped := c.stopped || c.current.connections >= MAX_CONNECTIONS)
      ensures decided <==> !PaysOff(rate, old(pendingRate)) || old(current).connections >= MAX_CONNECTIONS
      ensures changed <==> !PaysOff(rate, old(pendingRate))
    {
      decided, changed := false, false;
      if !PaysOff(rate, pendingRate) {
        current := current.(connections := pendingFrom);
        decided, changed, stopped := true, true, true;
      } else if current.connections >= MAX_CONNECTIONS {
        decided, stopped := true, true;
      }
      pendingRate, pendingFrom := 0.0, 0;
    }

    method Observe(p: Progress) returns (changed: bool)
      modifies this
      ensures Now() == Step(old(Now()), p)
      ensures Sane(old(Now())) ==> (changed <==> current != old(current))
    {
      if stopped {
        return false;
      }
      if p.refused || p.failures > 0 {
        stopped := true;
        return false;
      }
      if !Eligible(Now(), p) {
        return false;
      }
      var rate := Throughput(Now(), p);
      last := Some(p);
      if rate <= 0.0 {
        return false;
      }
      if pendingRate > 0.0 {
        var decided;
        decided, changed := Judge(rate);
        if decided {
          return;
        }
      }
      var queued := Queued(Now(), p);
      if queued <= current.connections {
        return false;
      }
      var grown := Grown(Now(), p, rate);
      if grown <= current.connections {
        return false;
      }
      pendingRate, pendingFrom := rate, current.connections;
      current := current.(connections := grown);
      changed := true;
    }
  }

  // ---- Over a whole transfer ----

  /** The controller after a sequence of reports. */
  function After(c: State, ps: seq<Progress>): State {
    if ps == [] then c else Step(After(c, ps[..|ps| - 1]), ps[|ps| - 1])
  }

  function At(c: State, ps: seq<Progress>, i: nat): State
    requires i <= |ps|
  {
    After(c, ps[..i])
  }

  lemma AtNext(c: State, ps: seq<Progress>, i: nat)
    requires i < |ps|
    ensures At(c, ps, i + 1) == Step(At(c, ps, i), ps[i])
  {
    assert ps[..i + 1][..i] == ps[..i];
  }

  function Conns(c: State, ps: seq<Progress>, i: nat): nat
    requires i <= |ps|
  {
    At(c, ps, i).current.connections
  }

  function RateAt(c: State, ps: seq<Progress>, i: nat): real
    requires i < |ps|
  {
    Throughput(At(c, ps, i), ps[i])
  }

  predicate GrowsAt(c: State, ps: seq<Progress>, i: nat)
    requires i < |ps|
  {
    Conns(c, ps, i) < Conns(c, ps, i + 1)
  }

  predicate Sane(c: State) {
    c.pendingRate > 0.0 ==> c.pendingFrom < c.current.connections
  }

  lemma {:induction false} SaneAt(c: State, ps: seq<Progress>, i: nat)
    requires Sane(c) && i <= |ps|
    ensures Sane(At(c, ps, i))
    decreases i
  {
    if i > 0 {
      SaneAt(c, ps, i - 1);
      AtNext(c, ps, i - 1);
      StepCases(At(c, ps, i - 1), ps[i - 1]);
    }
  }

  lemma NextCases(c: State, ps: seq<Progress>, i: nat)
    requires Sane(c) && i < |ps|
    ensures Sane(At(c, ps, i)) && Cases(At(c, ps, i), ps[i], At(c, ps, i + 1))
  {
    SaneAt(c, ps, i);
    AtNext(c, ps, i);
    StepCases(At(c, ps, i), ps[i]);
  }

  /** The possible outcomes of one report. */
  predicate Cases(c: State, p: Progress, d: State) {
    && Sane(d)
    && d.current == c.current.(connections := d.current.connections)
    && (c.stopped ==> d == c)
    && (d.current.connections > c.current.connections ==>
          d.current.connections <= MAX_CONNECTIONS && d.pendingRate == Throughput(c, p) > 0.0
          && d.pendingFrom == c.current.connections
          && (c.pendingRate > 0.0 ==> PaysOff(Throughput(c, p), c.pendingRate)))
    && (d.current.connections < c.current.connections ==>
          d.stopped && d.pendingRate == 0.0 && c.pendingRate > 0.0 && d.current.connections == c.pendingFrom)
    && (d.current.connections == c.current.connections && d.pendingRate != 0.0 ==>
          d.pendingRate == c.pendingRate && d.pendingFrom == c.pendingFrom)
    && (c.pendingRate > 0.0 && d.pendingRate != c.pendingRate && !d.stopped ==>
          PaysOff(Throughput(c, p), c.pendingRate))
  }

  lemma StepCases(c: State, p: Progress)
    requires Sane(c)
    ensures Cases(c, p, Step(c, p))
  {
  }

  /** A pending judgement is about the last growth step. */
  lemma {:induction false} PendingSince(c: State, ps: seq<Progress>, i: nat) returns (g: nat)
    requires c.pendingRate == 0.0 && Sane(c) && i <= |ps| && At(c, ps, i).pendingRate > 0.0
    ensures g < i && GrowsAt(c, ps, g) && At(c, ps, i).pendingRate == RateAt(c, ps, g)
    ensures At(c, ps, i).pendingFrom == Conns(c, ps, g) && Conns(c, ps, i) > Conns(c, ps, g)
    ensures forall h :: g < h <= i ==> Conns(c, ps, h) == Conns(c, ps, i)
    decreases i
  {
    NextCases(c, ps, i - 1);
    if Conns(c, ps, i) > Conns(c, ps, i - 1) {
      g := i - 1;
    } else {
      g := PendingSince(c, ps, i - 1);
    }
  }

  /** Once stopped, nothing changes. */
  lemma {:induction false} StoppedStays(c: State, ps: seq<Progress>, i: nat, j: nat)
    requires i <= j <= |ps| && At(c, ps, i).stopped
    ensures At(c, ps, j) == At(c, ps, i)
    decreases j
  {
    if i < j {
      StoppedStays(c, ps, i, j - 1);
      AtNext(c, ps, j - 1);
    }
  }

  /** The connections stay between the start value and the policy maximum, and the
      other two settings never move. */
  lemma {:induction false} StaysInBounds(w: Workload, start: Settings, l: Link, f: Fixed, ps: seq<Progress>, i: nat)
    requires i <= |ps|
    ensures var now := At(New(w, start, l, f), ps, i).current;
            now == start.(connections := now.connections)
            && start.connections <= now.connections <= Max(start.connections, MAX_CONNECTIONS)
    decreases i
  {
    var c := New(w, start, l, f);
    if i > 0 {
      StaysInBounds(w, start, l, f, ps, i - 1);
      NextCases(c, ps, i - 1);
      if Conns(c, ps, i) < Conns(c, ps, i - 1) {
        var g := PendingSince(c, ps, i - 1);
        StaysInBounds(w, start, l, f, ps, g);
      }
    }
  }

  /** A growth step has evidence, at most doubles the connections, and never asks
      for more than there are workers and files still waiting. */
  lemma GrowthIsModest(w: Workload, start: Settings, l: Link, f: Fixed, ps: seq<Progress>, i: nat)
    requires i < |ps| && GrowsAt(New(w, start, l, f), ps, i)
    ensures var c := At(New(w, start, l, f), ps, i);
            && !ps[i].refused && ps[i].failures == 0
            && Window(c, ps[i]) >= MIN_OBSERVATION && WindowFiles(c, ps[i]) >= MIN_SAMPLES
            && WindowBytes(c, ps[i]) >= MIN_WINDOW_BYTES
            && Conns(New(w, start, l, f), ps, i + 1) <= Min(GROWTH_FACTOR * c.current.connections, c.current.concurrency)
            && Conns(New(w, start, l, f), ps, i + 1) <= Queued(c, ps[i])
  {
    AtNext(New(w, start, l, f), ps, i);
    SaneAt(New(w, start, l, f), ps, i);
    GrowCases(At(New(w, start, l, f), ps, i), ps[i]);
  }

  lemma GrowCases(c: State, p: Progress)
    requires Sane(c) && Step(c, p).current.connections > c.current.connections
    ensures !p.refused && p.failures == 0 && Eligible(c, p) && WindowBytes(c, p) > 0
    ensures Step(c, p).current.connections <= Min(GROWTH_FACTOR * c.current.connections, c.current.concurrency)
    ensures Step(c, p).current.connections <= Queued(c, p)
  {
  }

  /**
  A shrink takes back exactly the last growth step: it returns to the value
  before that step, nothing changed between the two, and nothing changes after
  it. So there is at most one.
  */
  lemma ShrinkTakesBackTheLastGrowth(w: Workload, start: Settings, l: Link, f: Fixed, ps: seq<Progress>, i: nat) returns (g: nat)
    requires i < |ps| && Conns(New(w, start, l, f), ps, i + 1) < Conns(New(w, start, l, f), ps, i)
    ensures var c := New(w, start, l, f);
            && g < i && GrowsAt(c, ps, g) && Conns(c, ps, g) == Conns(c, ps, i + 1)
            && (forall h :: g < h <= i ==> Conns(c, ps, h) == Conns(c, ps, i))
            && (forall j :: i < j <= |ps| ==> At(c, ps, j) == At(c, ps, i + 1))
  {
    var c := New(w, start, l, f);
    NextCases(c, ps, i);
    g := PendingSince(c, ps, i);
    forall j | i < j <= |ps| ensures At(c, ps, j) == At(c, ps, i + 1) {
      StoppedStays(c, ps, i + 1, j);
    }
  }

  /** Between a growth step and a later moment: still pending, judged in between
      and found to pay, or stopped. */
  lemma {:induction false} JudgedSince(c: State, ps: seq<Progress>, g: nat, j: nat)
    requires Sane(c) && g < j <= |ps| && GrowsAt(c, ps, g)
    ensures || At(c, ps, j).pendingRate == RateAt(c, ps, g) > 0.0
            || At(c, ps, j).stopped
            || exists k :: g < k < j && PaysOff(RateAt(c, ps, k), RateAt(c, ps, g))
    decreases j
  {
    NextCases(c, ps, j - 1);
    if j > g + 1 {
      JudgedSince(c, ps, g, j - 1);
      if At(c, ps, j - 1).stopped {
        assert At(c, ps, j).stopped;
      } else if At(c, ps, j - 1).pendingRate == RateAt(c, ps, g) > 0.0
                && At(c, ps, j).pendingRate != RateAt(c, ps, g) && !At(c, ps, j).stopped {
        assert PaysOff(RateAt(c, ps, j - 1), RateAt(c, ps, g));
      }
    }
  }

  /** Each growth step is judged, and found to pay, before the next one. */
  lemma GrowthIsJudged(w: Workload, start: Settings, l: Link, f: Fixed, ps: seq<Progress>, i: nat, j: nat) returns (k: nat)
    requires i < j < |ps| && GrowsAt(New(w, start, l, f), ps, i) && GrowsAt(New(w, start, l, f), ps, j)
    ensures i < k <= j && PaysOff(RateAt(New(w, start, l, f), ps, k), RateAt(New(w, start, l, f), ps, i))
  {
    var c := New(w, start, l, f);
    JudgedSince(c, ps, i, j);
    NextCases(c, ps, j);
    if At(c, ps, j).pendingRate == RateAt(c, ps, i) > 0.0 {
      k := j;
    } else {
      k :| i < k < j && PaysOff(RateAt(c, ps, k), RateAt(c, ps, i));
    }
  }
}
