/**
Choosing the transport settings before a transfer (internal/autotune). Times
are in seconds and, like throughputs, exact: the source computes them in
floating point.
*/
module AutotunePlan {
  import opened Numbers

  const MAX_CONNECTIONS := 8
  const MAX_CONCURRENCY := 64
  const MIN_REQUESTS := 16
  const MAX_REQUESTS := 64
  const PACKET_BYTES := 32 * 1024
  const MAX_IN_FLIGHT := 1024
  const UPLOAD_ROUND_TRIPS := 4
  const UPLOAD_CHAINS := 4
  const PROBE_CHAINS := 16
  const BDP_SAFETY := 4
  const ASSUMED_STREAM: real := 368640.0
  const FALLBACK_RTT: real := 0.025
  const FALLBACK_HANDSHAKE: real := 0.3

  datatype Workload = Workload(uploads: nat, uploadBytes: nat, largest: nat, p50: nat, p90: nat, small: nat, probes: nat)

  /** A value of zero or less was not measured. */
  datatype Link = Link(rtt: real, handshake: real, stream: real)

  /** Zero means automatic. */
  datatype Fixed = Fixed(connections: nat, concurrency: nat, requests: nat)

  datatype Settings = Settings(connections: nat, concurrency: nat, requests: nat)

  function Rtt(l: Link): (r: real) ensures r > 0.0 { if l.rtt > 0.0 then l.rtt else FALLBACK_RTT }

  function Handshake(l: Link): (r: real) ensures r > 0.0 { if l.handshake > 0.0 then l.handshake else FALLBACK_HANDSHAKE }

  function Stream(l: Link): (r: real) ensures r > 0.0 { if l.stream > 0.0 then l.stream else ASSUMED_STREAM }

  predicate Measured(l: Link) { l.stream > 0.0 }

  function BdpBytes(l: Link): (b: int)
    ensures b >= 0 && b as real <= Stream(l) * Rtt(l) < b as real + 1.0
  {
    assert Stream(l) * Rtt(l) > 0.0;
    (Stream(l) * Rtt(l)).Floor
  }

  // ---- The number of connections ----

  /** How long the work takes over one connection. */
  function SingleConnectionEstimate(w: Workload, l: Link, concurrency: nat): (t: real)
    ensures t >= 0.0 && (w.uploads > 0 ==> t > 0.0)
  {
    var workers := Max(concurrency, 1);
    UploadTime(w, l, workers) + ProbeTime(w, l, workers) + ByteTime(w, l)
  }

  function UploadTime(w: Workload, l: Link, workers: nat): (t: real)
    requires workers > 0
    ensures t >= 0.0 && (w.uploads > 0 ==> t > 0.0)
  {
    if w.uploads == 0 then 0.0
    else
      var n := (w.uploads * UPLOAD_ROUND_TRIPS) as real;
      assert n * Rtt(l) > 0.0;
      n * Rtt(l) / Min(workers, UPLOAD_CHAINS) as real
  }

  function ProbeTime(w: Workload, l: Link, workers: nat): (t: real)
    requires workers > 0
    ensures t >= 0.0
  {
    assert w.probes as real * Rtt(l) >= 0.0;
    w.probes as real * Rtt(l) / Min(workers, PROBE_CHAINS) as real
  }

  function ByteTime(w: Workload, l: Link): (t: real)
    ensures t >= 0.0
  {
    w.uploadBytes as real / Stream(l)
  }

  function Square(k: int): int { k * k }

  /** The square root of `x` rounded to the nearest integer, halves up: the
      first r at or after `k` with 4 x < (2 r + 1)^2. */
  function RootFrom(x: real, k: nat): (r: nat)
    requires x > 0.0 && (k > 0 ==> Square(2 * k - 1) as real <= 4.0 * x)
    ensures 4.0 * x < Square(2 * r + 1) as real && (r > 0 ==> Square(2 * r - 1) as real <= 4.0 * x)
    decreases x.Floor + 1 - k
  {
    if 4.0 * x < Square(2 * k + 1) as real then k
    else
      RootBound(x, k);
      RootFrom(x, k + 1)
  }

  lemma RootBound(x: real, k: nat)
    requires Square(2 * k + 1) as real <= 4.0 * x
    ensures k <= x.Floor
  {
    assert Square(2 * k + 1) >= 4 * k + 1;
  }

  function PlanConnections(w: Workload, l: Link, concurrency: nat): nat {
    if w.uploads <= 1 then 1
    else
      Quotient(SingleConnectionEstimate(w, l, concurrency), Handshake(l));
      var k := RootFrom(SingleConnectionEstimate(w, l, concurrency) / Handshake(l), 0);
      Min(Min(Max(k, 1), MAX_CONNECTIONS), Min(w.uploads, concurrency))
  }

  /** What the work costs over `k` connections: the work is shared, and every
      further connection costs one handshake. */
  function Cost(w: real, h: real, k: int): real
    requires k >= 1
  {
    w / k as real + (k - 1) as real * h
  }

  /** The same in handshakes. */
  function Units(x: real, k: int): real
    requires k >= 1
  {
    x / k as real + (k - 1) as real
  }

  lemma CostInUnits(w: real, h: real, k: int)
    requires h > 0.0 && k >= 1
    ensures Cost(w, h, k) == h * Units(w / h, k)
  {
    var x, y := w / h, k as real;
    assert w == h * x;
    var q := x / y;
    assert x == q * y;
    assert w == (h * q) * y;
    assert w / y == h * q;
  }

  /** `u` is what work `x` costs over `y` connections, without the division. */
  predicate CostsOver(u: real, x: real, y: real) {
    u * y == x + (y - 1.0) * y
  }

  lemma UnitsTimes(x: real, k: int)
    requires k >= 1
    ensures CostsOver(Units(x, k), x, k as real)
  {
    var y := k as real;
    var q := x / y;
    assert q * y == x;
    assert (q + (y - 1.0)) * y == q * y + (y - 1.0) * y;
  }

  /** Costs compare as the work compares with y * z handshakes: `u` and `v` are
      the costs over y and z connections. */
  lemma Difference(x: real, y: real, z: real, u: real, v: real)
    requires CostsOver(u, x, y) && CostsOver(v, x, z)
    ensures (u - v) * (y * z) == (z - y) * (x - y * z)
  {
    var n := y * z;
    assert (u - v) * n == (u * y) * z - (v * z) * y;
    assert (x + (y - 1.0) * y) * z == x * z + y * n - n by {
      assert (y - 1.0) * y * z == y * (y * z) - y * z;
    }
    assert (x + (z - 1.0) * z) * y == x * y + z * n - n by {
      assert (z - 1.0) * z * y == z * (y * z) - y * z;
    }
    assert (z - y) * (x - n) == x * z - x * y - z * n + y * n;
  }

  lemma Scaled(d: real, n: real, e: real)
    requires n > 0.0 && d * n <= e * n
    ensures d <= e
  {
  }

  lemma NegativeProduct(a: real, b: real)
    requires a <= 0.0 && b >= 0.0
    ensures a * b <= 0.0 && b * a <= 0.0
  {
  }

  lemma MulLe(a: int, x: int, y: int)
    requires 0 <= a && x <= y
    ensures a * x <= a * y
  {
  }

  lemma OddSquare(k: int)
    ensures Square(2 * k + 1) == 4 * (k * (k + 1)) + 1
    ensures Square(2 * k - 1) == 4 * (k * (k - 1)) + 1
  {
  }

  lemma ProductReal(c: int, j: int)
    ensures c as real * j as real == (c * j) as real
  {
  }

  lemma Between(c: int, j: int)
    requires 1 <= j < c
    ensures 0 < c * j && 4 * (c * j) <= Square(2 * c - 1)
  {
    OddSquare(c);
    MulLe(c, j, c - 1);
    MulLe(c, 1, j);
  }

  lemma FewerAreDearer(x: real, c: int, j: int, u: real, v: real)
    requires 1 <= j < c && Square(2 * c - 1) as real <= 4.0 * x
    requires CostsOver(u, x, c as real) && CostsOver(v, x, j as real)
    ensures u <= v
  {
    Difference(x, c as real, j as real, u, v);
    ProductReal(c, j);
    Between(c, j);
    AtLeast(x, c * j, u - v, (j - c) as real);
  }

  lemma AtLeast(x: real, n: int, d: real, f: real)
    requires n > 0 && (4 * n) as real <= 4.0 * x && f <= 0.0 && d * n as real == f * (x - n as real)
    ensures d <= 0.0
  {
    NegativeProduct(f, x - n as real);
    Scaled(d, n as real, 0.0);
  }

  lemma MoreSaveLittle(x: real, c: int, j: int, u: real, v: real)
    requires 1 <= c < j && 4.0 * x < Square(2 * c + 1) as real
    requires CostsOver(u, x, c as real) && CostsOver(v, x, j as real)
    ensures u <= v + 1.0 / 8.0
  {
    DifferenceInt(x, c, j, u, v);
    WorkIsSmall(x, c, j);
    Beyond(c, j);
    AtMost(x, c * j, u - v, j - c);
  }

  lemma DifferenceInt(x: real, c: int, j: int, u: real, v: real)
    requires CostsOver(u, x, c as real) && CostsOver(v, x, j as real)
    ensures (u - v) * (c * j) as real == (j - c) as real * (x - (c * j) as real)
  {
    Difference(x, c as real, j as real, u, v);
    ProductReal(c, j);
    assert (j - c) as real == j as real - c as real;
  }

  lemma WorkIsSmall(x: real, c: int, j: int)
    requires 1 <= c < j && 4.0 * x < Square(2 * c + 1) as real
    ensures 4.0 * x < (4 * (c * j) + 1) as real && (j - c > 1 ==> x <= (c * j) as real)
  {
    Beyond(c, j);
    Below(x, Square(2 * c + 1), c * j);
  }

  lemma Below(x: real, s: int, n: int)
    requires 4.0 * x < s as real && s <= 4 * n + 1
    ensures 4.0 * x < (4 * n + 1) as real && (s <= 4 * n ==> x <= n as real)
  {
  }

  lemma Beyond(c: int, j: int)
    requires 1 <= c < j
    ensures c * j >= 2 && Square(2 * c + 1) <= 4 * (c * j) + 1
    ensures j > c + 1 ==> Square(2 * c + 1) <= 4 * (c * j)
  {
    OddSquare(c);
    MulLe(c, c + 1, j);
    MulLe(c, 2, c + 1);
    if j > c + 1 {
      MulLe(c, c + 2, j);
      assert c * (c + 2) == c * (c + 1) + c;
    }
  }

  lemma AtMost(x: real, n: int, d: real, f: int)
    requires n >= 2 && f >= 1 && d * n as real == f as real * (x - n as real)
    requires 4.0 * x < (4 * n + 1) as real && (f > 1 ==> x <= n as real)
    ensures d <= 1.0 / 8.0
  {
    if f > 1 {
      NegativeProduct(x - n as real, f as real);
    }
    Scaled(d, n as real, 1.0 / 8.0);
  }

  lemma SquareGrows(a: int, b: int)
    requires 0 <= a <= b
    ensures Square(a) <= Square(b)
  {
  }

  lemma ClampedIsNearlyBest(x: real, k: nat, most: int, j: int, u: real, v: real)
    requires x > 0.0 && 1 <= j <= most
    requires 4.0 * x < Square(2 * k + 1) as real && (k > 0 ==> Square(2 * k - 1) as real <= 4.0 * x)
    requires CostsOver(u, x, Min(Max(k, 1), most) as real) && CostsOver(v, x, j as real)
    requires Min(Max(k, 1), most) == j ==> u == v
    ensures u <= v + 1.0 / 8.0
  {
    var c := Min(Max(k, 1), most);
    if j < c {
      SquareGrows(2 * c - 1, 2 * k - 1);
      FewerAreDearer(x, c, j, u, v);
    } else if c < j {
      SquareGrows(2 * k + 1, 2 * c + 1);
      MoreSaveLittle(x, c, j, u, v);
    }
  }

  /** The rounded root, clamped to what is allowed, is nearly best there. */
  lemma ClampedRootIsNearlyBest(x: real, most: int, j: int)
    requires x > 0.0 && 1 <= j <= most
    ensures Units(x, Min(Max(RootFrom(x, 0), 1), most)) <= Units(x, j) + 1.0 / 8.0
  {
    var k := RootFrom(x, 0);
    var c := Min(Max(k, 1), most);
    UnitsTimes(x, c);
    UnitsTimes(x, j);
    ClampedIsNearlyBest(x, k, most, j, Units(x, c), Units(x, j));
  }

  /** Near-optimal pool size: no number of connections the workload, the workers
      and the policy allow is cheaper by more than an eighth of a handshake. */
  lemma ChosenIsNearlyBest(w: Workload, l: Link, concurrency: nat, j: int)
    requires concurrency >= 1 && w.uploads >= 1
    requires 1 <= j <= Min(MAX_CONNECTIONS, Min(w.uploads, concurrency))
    ensures var work, h, c := SingleConnectionEstimate(w, l, concurrency), Handshake(l), PlanConnections(w, l, concurrency);
            1 <= c <= Min(MAX_CONNECTIONS, Min(w.uploads, concurrency)) && Cost(work, h, c) <= Cost(work, h, j) + h / 8.0
  {
    var work, h, c := SingleConnectionEstimate(w, l, concurrency), Handshake(l), PlanConnections(w, l, concurrency);
    if w.uploads > 1 {
      Quotient(work, h);
      ClampedRootIsNearlyBest(work / h, Min(MAX_CONNECTIONS, Min(w.uploads, concurrency)), j);
      InHandshakes(work, h, c, j);
    }
  }

  lemma Quotient(w: real, h: real)
    requires w > 0.0 && h > 0.0
    ensures w / h > 0.0
  {
  }

  lemma InHandshakes(w: real, h: real, c: int, j: int)
    requires h > 0.0 && c >= 1 && j >= 1 && Units(w / h, c) <= Units(w / h, j) + 1.0 / 8.0
    ensures Cost(w, h, c) <= Cost(w, h, j) + h / 8.0
  {
    CostInUnits(w, h, c);
    CostInUnits(w, h, j);
    var a, b := Units(w / h, c), Units(w / h, j);
    NegativeProduct(a - b - 1.0 / 8.0, h);
    assert h * (a - b - 1.0 / 8.0) == h * a - h * b - h / 8.0;
  }

  // ---- The pipeline of one file ----

  function PacketsFor(size: int): (n: nat)
    ensures 1 <= n <= MAX_REQUESTS
  {
    if size <= 0 then 1 else Min((size + PACKET_BYTES - 1) / PACKET_BYTES, MAX_REQUESTS)
  }

  lemma PacketsGrow(a: int, b: int)
    requires a <= b
    ensures PacketsFor(a) <= PacketsFor(b)
  {
  }

  predicate PowerOfTwo(p: int) {
    p == 1 || (p > 1 && p % 2 == 0 && PowerOfTwo(p / 2))
  }

  /** Snaps down to a power of two. */
  method Quantize(n: int) returns (p: int)
    ensures PowerOfTwo(p) && (n >= 1 ==> p <= n < 2 * p) && (n < 1 ==> p == 1)
  {
    if n < 1 {
      return 1;
    }
    p := 1;
    while p * 2 <= n
      invariant PowerOfTwo(p) && 1 <= p <= n
      decreases n - p
    {
      p := p * 2;
    }
  }

  lemma {:induction false} PowersBetween(p: int, q: int)
    requires PowerOfTwo(p) && PowerOfTwo(q) && p <= q < 2 * p
    ensures p == q
    decreases p
  {
    if p > 1 {
      PowersBetween(p / 2, q / 2);
    }
  }

  /** The most packets a transfer holds in its write buffers: a tenth of the
      workers with a full pipeline, the rest bounded by the ninetieth
      percentile; rounded up. */
  function InFlightPackets(w: Workload, concurrency: nat, requests: nat): nat {
    var workers := Max(concurrency, 1);
    var perFile := Min(PacketsFor(if w.p90 > 0 then w.p90 else w.largest), requests);
    (9 * workers * perFile + workers * requests + 9) / 10
  }

  lemma FloorFitsBudget(w: Workload, concurrency: nat)
    requires concurrency <= MAX_CONCURRENCY
    ensures InFlightPackets(w, concurrency, MIN_REQUESTS) <= MAX_IN_FLIGHT
  {
    var workers := Max(concurrency, 1);
    var perFile := Min(PacketsFor(if w.p90 > 0 then w.p90 else w.largest), MIN_REQUESTS);
    MulLe(workers, perFile, MIN_REQUESTS);
    assert 9 * workers * perFile == 9 * (workers * perFile);
  }

  /** How many requests one file can use: what it holds, or, on a measured link,
      four bandwidth-delay products of it; 16 at least. */
  function Target(w: Workload, l: Link): (n: int)
    ensures MIN_REQUESTS <= n <= MAX_REQUESTS
  {
    var file := Max(PacketsFor(w.largest), MIN_REQUESTS);
    if Measured(l) then
      var bdp := Min((BDP_SAFETY * BdpBytes(l) + PACKET_BYTES - 1) / PACKET_BYTES, MAX_REQUESTS);
      Min(Max(bdp, MIN_REQUESTS), file)
    else file
  }

  /** What the target means: without a measured throughput, all packets of the largest
      file, between 16 and 64; with one, as few as hold four bandwidth-delay products,
      at least 16 and no more than that. */
  lemma TargetMeans(w: Workload, l: Link)
    ensures var n := Target(w, l);
            var product := Stream(l) * Rtt(l);
            && (n < 64 ==> n * PACKET_BYTES >= w.largest || (Measured(l) && (n * PACKET_BYTES) as real >= 4.0 * (product - 1.0)))
            && (n > 16 ==> (n - 1) * PACKET_BYTES < w.largest
                           && (Measured(l) ==> ((n - 1) * PACKET_BYTES) as real < 4.0 * product))
  {
    TargetInBytes(w, l);
    FourProducts(Target(w, l) * PACKET_BYTES, BdpBytes(l), Stream(l) * Rtt(l));
    FourProducts((Target(w, l) - 1) * PACKET_BYTES, BdpBytes(l), Stream(l) * Rtt(l));
  }

  lemma FourProducts(n: int, bytes: int, product: real)
    requires bytes as real <= product < bytes as real + 1.0
    ensures n >= 4 * bytes ==> n as real >= 4.0 * (product - 1.0)
    ensures n < 4 * bytes ==> n as real < 4.0 * product
  {
    assert (4 * bytes) as real == 4.0 * bytes as real;
  }

  lemma TargetInBytes(w: Workload, l: Link)
    ensures var n := Target(w, l);
            && (n < 64 ==> n * PACKET_BYTES >= w.largest || (Measured(l) && n * PACKET_BYTES >= BDP_SAFETY * BdpBytes(l)))
            && (n > 16 ==> (n - 1) * PACKET_BYTES < w.largest
                           && (Measured(l) ==> (n - 1) * PACKET_BYTES < BDP_SAFETY * BdpBytes(l)))
  {
    RoundedUp(w.largest);
    RoundedUp(BDP_SAFETY * BdpBytes(l));
  }

  lemma RoundedUp(size: nat)
    ensures var n := (size + PACKET_BYTES - 1) / PACKET_BYTES;
            n * PACKET_BYTES >= size && (n - 1) * PACKET_BYTES < size
  {
  }

  /** The largest of 16, 32 and 64 that one file can use and that fits the budget, or 16. */
  predicate LargestThatFits(w: Workload, l: Link, concurrency: nat, requests: nat) {
    && requests in {16, 32, 64} && requests <= Target(w, l)
    && (requests > 16 ==> InFlightPackets(w, concurrency, requests) <= MAX_IN_FLIGHT)
    && (2 * requests <= Target(w, l) ==> InFlightPackets(w, concurrency, 2 * requests) > MAX_IN_FLIGHT)
  }

  /**
  Pipelining budget: an automatic request_concurrency is 16, 32 or 64, and for at
  most 64 workers the estimate stays within 1024 packets. It is the largest such
  value that one file can use and that fits: twice as many would be more than
  the target or over the budget, and more than 16 is neither.
  */
  method PlanRequestConcurrency(w: Workload, l: Link, concurrency: nat) returns (requests: nat)
    ensures LargestThatFits(w, l, concurrency, requests)
    ensures concurrency <= MAX_CONCURRENCY ==> InFlightPackets(w, concurrency, requests) <= MAX_IN_FLIGHT
  {
    var file := PacketsFor(w.largest);
    var want: int := Max(file, MIN_REQUESTS);
    if Measured(l) {
      var bdp := Min((BDP_SAFETY * BdpBytes(l) + PACKET_BYTES - 1) / PACKET_BYTES, MAX_REQUESTS);
      want := Min(Max(bdp, MIN_REQUESTS), Max(file, MIN_REQUESTS));
    }
    assert want == Target(w, l);
    requests := FitBudget(w, concurrency, want);
  }

  /** Snaps the target down to a power of two and halves it until it fits. */
  method FitBudget(w: Workload, concurrency: nat, target: int) returns (requests: nat)
    requires MIN_REQUESTS <= target <= MAX_REQUESTS
    ensures requests in {16, 32, 64} && requests <= target
    ensures concurrency <= MAX_CONCURRENCY ==> InFlightPackets(w, concurrency, requests) <= MAX_IN_FLIGHT
    ensures requests > 16 ==> InFlightPackets(w, concurrency, requests) <= MAX_IN_FLIGHT
    ensures 2 * requests <= target ==> InFlightPackets(w, concurrency, 2 * requests) > MAX_IN_FLIGHT
  {
    var want := Quantize(target);
    SmallPowers(want);
    while want > MIN_REQUESTS && InFlightPackets(w, concurrency, want) > MAX_IN_FLIGHT
      invariant want in {16, 32, 64} && want <= target
      invariant 2 * want <= target ==> InFlightPackets(w, concurrency, 2 * want) > MAX_IN_FLIGHT
      decreases want
    {
      var half := Quantize(want / 2);
      assert PowerOfTwo(16) && PowerOfTwo(32);
      PowersBetween(half, want / 2);
      want := half;
    }
    if concurrency <= MAX_CONCURRENCY {
      FloorFitsBudget(w, concurrency);
    }
    requests := Min(want, MAX_REQUESTS);
  }

  lemma SmallPowers(p: int)
    requires PowerOfTwo(p) && 8 < p <= 64
    ensures p in {16, 32, 64}
  {
    assert PowerOfTwo(16) && PowerOfTwo(32) && PowerOfTwo(64);
    if p < 32 {
      if p < 16 { PowersBetween(8, p); } else { PowersBetween(16, p); }
    } else if p < 64 {
      PowersBetween(32, p);
    }
  }

  function PlanConcurrency(w: Workload): (n: nat)
    ensures 1 <= n <= MAX_CONCURRENCY && n <= Max(Max(w.uploads, w.probes), 1)
    ensures n == MAX_CONCURRENCY || n == Max(Max(w.uploads, w.probes), 1)
  {
    if Max(w.uploads, w.probes) < 1 then 1 else Min(Max(w.uploads, w.probes), MAX_CONCURRENCY)
  }

  /** Resolves what the configuration left open; what it pinned stays. */
  method Plan(w: Workload, l: Link, f: Fixed) returns (s: Settings)
    ensures f.connections > 0 ==> s.connections == f.connections
    ensures f.concurrency > 0 ==> s.concurrency == f.concurrency
    ensures f.requests > 0 ==> s.requests == f.requests
    ensures f.connections == 0 ==> s.connections == PlanConnections(w, l, s.concurrency)
    ensures f.concurrency == 0 ==> s.concurrency == PlanConcurrency(w) == Min(Max(Max(w.uploads, w.probes), 1), 64)
    ensures f.requests == 0 ==> LargestThatFits(w, l, s.concurrency, s.requests)
    ensures f.requests == 0 && f.concurrency <= MAX_CONCURRENCY ==> InFlightPackets(w, s.concurrency, s.requests) <= MAX_IN_FLIGHT
  {
    s := Settings(f.connections, f.concurrency, f.requests);
    if s.concurrency == 0 {
      s := s.(concurrency := PlanConcurrency(w));
    }
    if s.requests == 0 {
      var r := PlanRequestConcurrency(w, l, s.concurrency);
      s := s.(requests := r);
    }
    if s.connections == 0 {
      s := s.(connections := PlanConnections(w, l, s.concurrency));
    }
  }
}
