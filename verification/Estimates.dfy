/** What the estimate of the work over one connection means. */
module Estimates {
  import opened AutotunePlan
  import opened Numbers

  /** The work of both. */
  predicate Together(a: Workload, b: Workload, w: Workload) {
    w.uploads == a.uploads + b.uploads && w.uploadBytes == a.uploadBytes + b.uploadBytes && w.probes == a.probes + b.probes
  }

  lemma QuotientsAddUp(x: real, y: real, k: real)
    requires k > 0.0
    ensures x / k + y / k == (x + y) / k
  {
  }

  lemma TimesAddUp(m: nat, n: nat, k: nat, r: real, c: real)
    requires c > 0.0
    ensures (m * k) as real * r / c + (n * k) as real * r / c == ((m + n) * k) as real * r / c
  {
    var x, y := (m * k) as real * r, (n * k) as real * r;
    assert ((m + n) * k) as real == (m * k) as real + (n * k) as real;
    assert ((m + n) * k) as real * r == x + y;
    QuotientsAddUp(x, y, c);
  }

  /** The time of any amount of uploads, none included. */
  lemma UploadTimeIs(w: Workload, l: Link, workers: nat)
    requires workers > 0
    ensures UploadTime(w, l, workers) ==
            (w.uploads * UPLOAD_ROUND_TRIPS) as real * Rtt(l) / Min(workers, UPLOAD_CHAINS) as real
  {
    if w.uploads == 0 {
      var c := Min(workers, UPLOAD_CHAINS) as real;
      assert 0.0 * Rtt(l) == 0.0 && 0.0 / c == 0.0;
    }
  }

  lemma UploadsAddUp(a: Workload, b: Workload, w: Workload, l: Link, workers: nat)
    requires Together(a, b, w) && workers > 0
    ensures UploadTime(w, l, workers) == UploadTime(a, l, workers) + UploadTime(b, l, workers)
  {
    UploadTimeIs(a, l, workers);
    UploadTimeIs(b, l, workers);
    UploadTimeIs(w, l, workers);
    TimesAddUp(a.uploads, b.uploads, UPLOAD_ROUND_TRIPS, Rtt(l), Min(workers, UPLOAD_CHAINS) as real);
  }

  lemma ProbesAddUp(a: Workload, b: Workload, w: Workload, l: Link, workers: nat)
    requires Together(a, b, w) && workers > 0
    ensures ProbeTime(w, l, workers) == ProbeTime(a, l, workers) + ProbeTime(b, l, workers)
  {
    var x, y := a.probes as real * Rtt(l), b.probes as real * Rtt(l);
    assert w.probes as real == a.probes as real + b.probes as real;
    assert w.probes as real * Rtt(l) == x + y;
    QuotientsAddUp(x, y, Min(workers, PROBE_CHAINS) as real);
  }

  lemma BytesAddUp(a: Workload, b: Workload, w: Workload, l: Link)
    requires Together(a, b, w)
    ensures ByteTime(w, l) == ByteTime(a, l) + ByteTime(b, l)
  {
    QuotientsAddUp(a.uploadBytes as real, b.uploadBytes as real, Stream(l));
  }

  /** Estimates add up: nothing is gained or lost by looking at parts of the work. */
  lemma EstimateAddsUp(a: Workload, b: Workload, w: Workload, l: Link, concurrency: nat)
    requires Together(a, b, w)
    ensures SingleConnectionEstimate(w, l, concurrency) ==
            SingleConnectionEstimate(a, l, concurrency) + SingleConnectionEstimate(b, l, concurrency)
  {
    var workers := Max(concurrency, 1);
    UploadsAddUp(a, b, w, l, workers);
    ProbesAddUp(a, b, w, l, workers);
    BytesAddUp(a, b, w, l);
  }

  /**
  And this is what the parts cost. A file costs four round trips, shared by as many
  chains as there are workers, up to four; a probe costs one, shared by up to
  sixteen; the bytes take what they take at the throughput of one stream. Together
  with EstimateAddsUp that fixes the estimate of every workload.
  */
  lemma EstimateOfOne(w: Workload, l: Link, concurrency: nat)
    ensures var t, workers := SingleConnectionEstimate(w, l, concurrency), Max(concurrency, 1);
            && (w.uploads == 1 && w.uploadBytes == 0 && w.probes == 0 ==>
                  t * Min(workers, 4) as real == 4.0 * Rtt(l))
            && (w.uploads == 0 && w.uploadBytes == 0 && w.probes == 1 ==> t * Min(workers, 16) as real == Rtt(l))
            && (w.uploads == 0 && w.probes == 0 ==> t * Stream(l) == w.uploadBytes as real)
  {
    var workers := Max(concurrency, 1);
    UploadTimeIs(w, l, workers);
    TimesQuotient((w.uploads * UPLOAD_ROUND_TRIPS) as real * Rtt(l), Min(workers, UPLOAD_CHAINS) as real);
    TimesQuotient(w.probes as real * Rtt(l), Min(workers, PROBE_CHAINS) as real);
    TimesQuotient(w.uploadBytes as real, Stream(l));
  }

  lemma TimesQuotient(x: real, k: real)
    requires k > 0.0
    ensures x / k * k == x && (x == 0.0 ==> x / k == 0.0)
  {
  }
}
