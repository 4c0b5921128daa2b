/** When the controller grows and when it takes a step back, over a whole transfer. */
module ControllerLaws {
  import opened AutotunePlan
  import opened Numbers
  import opened Options
  import opened TuningController

  /** Report `i` closes a window: the controller is still watching, nothing was
      refused or retried, and the window since the last such report is evidence. */
  predicate Closes(c: State, ps: seq<Progress>, i: nat)
    requires i < |ps|
  {
    !At(c, ps, i).stopped && !ps[i].refused && ps[i].failures == 0 && Eligible(At(c, ps, i), ps[i])
  }

  function LastClosed(c: State, ps: seq<Progress>, i: nat): (r: Option<nat>)
    requires i <= |ps|
    ensures r.Some? ==> r.value < i
  {
    if i == 0 then None else if Closes(c, ps, i - 1) then Some(i - 1) else LastClosed(c, ps, i - 1)
  }

  lemma {:induction false} LastIsLastClosed(c: State, ps: seq<Progress>, i: nat)
    requires c.last == None && i <= |ps|
    ensures var j := LastClosed(c, ps, i); At(c, ps, i).last == if j.Some? then Some(ps[j.value]) else None
    decreases i
  {
    if i > 0 {
      LastIsLastClosed(c, ps, i - 1);
      AtNext(c, ps, i - 1);
      StepLast(At(c, ps, i - 1), ps[i - 1]);
    }
  }

  lemma StepLast(c: State, p: Progress)
    ensures Step(c, p).last ==
            if !c.stopped && !p.refused && p.failures == 0 && Eligible(c, p) then Some(p) else c.last
  {
  }

  /** The bytes moved since the last report that closed a window, or since the start. */
  function BytesSince(c: State, ps: seq<Progress>, i: nat): int
    requires i < |ps|
  {
    var j := LastClosed(c, ps, i);
    ps[i].uploadedBytes - if j.Some? then ps[j.value].uploadedBytes else 0
  }

  function TimeSince(c: State, ps: seq<Progress>, i: nat): real
    requires i < |ps|
  {
    var j := LastClosed(c, ps, i);
    ps[i].elapsed - if j.Some? then ps[j.value].elapsed else 0.0
  }

  lemma WindowIsSince(c: State, ps: seq<Progress>, i: nat)
    requires c.last == None && i < |ps|
    ensures WindowBytes(At(c, ps, i), ps[i]) == BytesSince(c, ps, i)
    ensures Window(At(c, ps, i), ps[i]) == TimeSince(c, ps, i)
  {
    LastIsLastClosed(c, ps, i);
  }

  /** The rate of a window is the bytes moved in it over the time it took. */
  lemma RateIsBytesOverTime(w: Workload, start: Settings, l: Link, f: Fixed, ps: seq<Progress>, i: nat)
    requires i < |ps| && Closes(New(w, start, l, f), ps, i) && RateAt(New(w, start, l, f), ps, i) > 0.0
    ensures var c := New(w, start, l, f);
            && BytesSince(c, ps, i) >= MIN_WINDOW_BYTES && TimeSince(c, ps, i) >= MIN_OBSERVATION
            && RateAt(c, ps, i) * TimeSince(c, ps, i) == BytesSince(c, ps, i) as real
  {
    var c := New(w, start, l, f);
    WindowIsSince(c, ps, i);
    RateTimesTime(At(c, ps, i), ps[i]);
  }

  lemma RateTimesTime(c: State, p: Progress)
    requires Throughput(c, p) > 0.0
    ensures WindowBytes(c, p) > 0 && Throughput(c, p) * Window(c, p) == WindowBytes(c, p) as real
  {
  }

  /** What the link is taken to carry for one connection, once a window was measured on
      files that fill a stream: the rate shared by the streams that served files. */
  lemma StreamsShareTheRate(c: State, p: Progress, rate: real)
    ensures var streams := Max(Min(Min(c.current.connections, c.current.concurrency), p.uploaded + p.remaining), 1);
            var l := MeasuredLink(c, p, rate);
            && l.rtt == c.link.rtt && l.handshake == c.link.handshake
            && if BandwidthBound(c.workload) then l.stream * streams as real == rate else l == c.link
  {
  }

  /** The work that is left: what the report says, or, while files are being skipped, the
      share of it that was uploaded so far, rounded down, and a probe for every file. */
  lemma RemainingIsShared(c: State, p: Progress)
    ensures var w, done := Remaining(c, p), p.uploaded + p.skipped;
            if p.skipped == 0 then w.uploads == p.remaining && w.uploadBytes == p.remainingBytes && w.probes == 0
            else
              && w.uploads * done <= p.remaining * p.uploaded < (w.uploads + 1) * done
              && w.uploadBytes * done <= p.remainingBytes * p.uploaded < (w.uploadBytes + 1) * done
              && w.probes == p.remaining
  {
    var done := p.uploaded + p.skipped;
    if p.skipped > 0 {
      RoundedDown(p.remaining, p.uploaded, done);
      RoundedDown(p.remainingBytes, p.uploaded, done);
    }
  }

  lemma RoundedDown(n: nat, part: nat, whole: nat)
    requires whole > 0
    ensures Share(n, part, whole) * whole <= n * part < (Share(n, part, whole) + 1) * whole
  {
    var x := n * part;
    assert x == x / whole * whole + x % whole;
  }

  /** What the pool may grow to: the number planned for the work that is left on the
      link as measured now, within the policy, the workers and the files waiting. */
  function Room(c: State, p: Progress, rate: real): int {
    Min(Min(Want(c, p, rate), MAX_CONNECTIONS), Min(c.current.concurrency, Queued(c, p)))
  }

  /** The window moved bytes, so something is decided on it. */
  predicate Decides(c: State, ps: seq<Progress>, i: nat)
    requires i < |ps|
  {
    Closes(c, ps, i) && RateAt(c, ps, i) > 0.0
  }

  lemma GrowStep(c: State, p: Progress)
    requires Sane(c)
    ensures var rate := Throughput(c, p);
            Step(c, p).current.connections > c.current.connections <==>
              && !c.stopped && !p.refused && p.failures == 0 && Eligible(c, p) && rate > 0.0
              && (c.pendingRate > 0.0 ==> PaysOff(rate, c.pendingRate))
              && 0 < c.current.connections < Room(c.(last := Some(p)), p, rate)
    ensures var rate := Throughput(c, p);
            Step(c, p).current.connections > c.current.connections ==>
              Step(c, p).current.connections ==
              Min(GROWTH_FACTOR * c.current.connections, Room(c.(last := Some(p)), p, rate))
  {
  }

  /** The last report plays no part in what there is room for. */
  lemma RoomIsRoom(c: State, p: Progress, rate: real)
    ensures Room(c.(last := Some(p)), p, rate) == Room(c, p, rate)
  {
  }

  /**
  When the pool grows: exactly when a window that moved bytes ends, the step before
  (if it was not judged yet) has paid off, and there is room for more than the
  connections in use. It then doubles, or takes the room there is.
  */
  lemma GrowsExactly(w: Workload, start: Settings, l: Link, f: Fixed, ps: seq<Progress>, i: nat)
    requires i < |ps|
    ensures var c := New(w, start, l, f);
            var now, rate := At(c, ps, i), RateAt(c, ps, i);
            && (GrowsAt(c, ps, i) <==>
                  && Decides(c, ps, i) && (now.pendingRate > 0.0 ==> PaysOff(rate, now.pendingRate))
                  && 0 < Conns(c, ps, i) < Room(now, ps[i], rate))
            && (GrowsAt(c, ps, i) ==> Conns(c, ps, i + 1) == Min(GROWTH_FACTOR * Conns(c, ps, i), Room(now, ps[i], rate)))
  {
    var c := New(w, start, l, f);
    AtNext(c, ps, i);
    SaneAt(c, ps, i);
    GrowStep(At(c, ps, i), ps[i]);
    RoomIsRoom(At(c, ps, i), ps[i], RateAt(c, ps, i));
  }

  lemma PendStep(c: State, p: Progress)
    requires Sane(c) && c.pendingRate > 0.0 && !c.stopped
    requires p.refused || p.failures > 0 || !Eligible(c, p) || Throughput(c, p) <= 0.0
    ensures var d := Step(c, p);
            d.stopped || (d.pendingRate == c.pendingRate && d.pendingFrom == c.pendingFrom && d.current == c.current)
  {
  }

  /** A step waits for the next window that moves bytes. */
  lemma {:induction false} StepWaits(c: State, ps: seq<Progress>, g: nat, h: nat)
    requires Sane(c) && g < h <= |ps| && GrowsAt(c, ps, g) && forall k :: g < k < h ==> !Decides(c, ps, k)
    ensures var s := At(c, ps, h);
            s.stopped || (s.pendingRate == RateAt(c, ps, g) > 0.0 && s.pendingFrom == Conns(c, ps, g)
                          && s.current.connections == Conns(c, ps, g + 1))
    decreases h
  {
    NextCases(c, ps, h - 1);
    if h > g + 1 {
      StepWaits(c, ps, g, h - 1);
      if At(c, ps, h - 1).stopped {
        StoppedStays(c, ps, h - 1, h);
      } else {
        assert !Decides(c, ps, h - 1);
        AtNext(c, ps, h - 1);
        PendStep(At(c, ps, h - 1), ps[h - 1]);
      }
    }
  }

  lemma JudgeStep(c: State, p: Progress)
    requires Sane(c) && c.pendingRate > 0.0 && !c.stopped
    requires !p.refused && p.failures == 0 && Eligible(c, p) && Throughput(c, p) > 0.0
    ensures var d := Step(c, p);
            if PaysOff(Throughput(c, p), c.pendingRate) then
              d.current.connections >= c.current.connections
              && (d.stopped <==> c.current.connections >= MAX_CONNECTIONS)
            else d.stopped && d.current.connections == c.pendingFrom
  {
  }

  /**
  Each growth step is judged by the first window after it that moves bytes, and by
  that window alone: it is taken back exactly when that window is not a twentieth
  faster than the one before the step, and then the controller stops. A step that
  paid off stays, and the controller goes on unless it is at the policy maximum.
  */
  lemma JudgedByTheNextWindow(w: Workload, start: Settings, l: Link, f: Fixed, ps: seq<Progress>, g: nat, i: nat)
    requires g < i < |ps| && GrowsAt(New(w, start, l, f), ps, g) && Decides(New(w, start, l, f), ps, i)
    requires forall k :: g < k < i ==> !Decides(New(w, start, l, f), ps, k)
    ensures var c := New(w, start, l, f);
            if PaysOff(RateAt(c, ps, i), RateAt(c, ps, g)) then
              Conns(c, ps, i + 1) >= Conns(c, ps, g + 1)
              && (At(c, ps, i + 1).stopped <==> Conns(c, ps, g + 1) >= MAX_CONNECTIONS)
            else Conns(c, ps, i + 1) == Conns(c, ps, g) && At(c, ps, i + 1).stopped
  {
    var c := New(w, start, l, f);
    StepWaits(c, ps, g, i);
    SaneAt(c, ps, i);
    AtNext(c, ps, i);
    JudgeStep(At(c, ps, i), ps[i]);
  }
}
