/** Reducing file sizes to what the policy reads (SummarizeUploads). */
module UploadSummary {
  import opened AutotunePlan
  import opened Numbers

  ghost predicate Ascending(s: seq<nat>) {
    forall i, j :: 0 <= i < j < |s| ==> s[i] <= s[j]
  }

  function Insert(x: nat, s: seq<nat>): (r: seq<nat>)
    ensures |r| == |s| + 1 && multiset(r) == multiset(s) + multiset{x}
  {
    if s == [] || x <= s[0] then
      assert [x] + s == [x] + s[..];
      [x] + s
    else
      assert s == [s[0]] + s[1..];
      [s[0]] + Insert(x, s[1..])
  }

  function Sort(s: seq<nat>): (r: seq<nat>)
    ensures |r| == |s| && multiset(r) == multiset(s)
  {
    if s == [] then []
    else
      assert s == s[..|s| - 1] + [s[|s| - 1]];
      Insert(s[|s| - 1], Sort(s[..|s| - 1]))
  }

  lemma InsertAbove(low: nat, x: nat, s: seq<nat>)
    requires low <= x && forall i :: 0 <= i < |s| ==> low <= s[i]
    ensures forall i :: 0 <= i < |Insert(x, s)| ==> low <= Insert(x, s)[i]
  {
    var t := Insert(x, s);
    forall i | 0 <= i < |t| ensures low <= t[i] {
      assert t[i] in multiset(t);
      assert t[i] == x || t[i] in s;
    }
  }

  lemma {:induction false} InsertAscends(x: nat, s: seq<nat>)
    requires Ascending(s)
    ensures Ascending(Insert(x, s))
  {
    if s != [] && x > s[0] {
      InsertAscends(x, s[1..]);
      InsertAbove(s[0], x, s[1..]);
    }
  }

  lemma {:induction false} SortAscends(s: seq<nat>)
    ensures Ascending(Sort(s))
    decreases |s|
  {
    if s != [] {
      SortAscends(s[..|s| - 1]);
      InsertAscends(s[|s| - 1], Sort(s[..|s| - 1]));
    }
  }

  /** The nearest rank of a share of `tenths` tenths, counted from 1. */
  function Rank(n: nat, tenths: nat): nat {
    Min(Max((tenths * n + 9) / 10, 1), n)
  }

  function Percentile(sorted: seq<nat>, tenths: nat): nat {
    if |sorted| == 0 || Rank(|sorted|, tenths) == 0 then 0 else sorted[Rank(|sorted|, tenths) - 1]
  }

  /** The nearest-rank percentile is the smallest of the sizes with the given
      share of them at or below it. */
  lemma PercentileIsNearestRank(sorted: seq<nat>, tenths: nat)
    requires Ascending(sorted) && sorted != [] && 1 <= tenths <= 10
    ensures var r := Rank(|sorted|, tenths);
            && 1 <= r <= |sorted| && Percentile(sorted, tenths) == sorted[r - 1]
            && 10 * r >= tenths * |sorted| && 10 * (r - 1) < tenths * |sorted|
            && (forall i :: 0 <= i < r ==> sorted[i] <= Percentile(sorted, tenths))
            && (forall i :: r <= i < |sorted| ==> Percentile(sorted, tenths) <= sorted[i])
  {
  }

  function Sum(s: seq<nat>): nat {
    if s == [] then 0 else Sum(s[..|s| - 1]) + s[|s| - 1]
  }

  function CountSmall(s: seq<nat>): nat {
    if s == [] then 0 else CountSmall(s[..|s| - 1]) + if s[|s| - 1] <= PACKET_BYTES then 1 else 0
  }

  function Clean(sizes: seq<int>): (r: seq<nat>)
    ensures |r| == |sizes| && forall i :: 0 <= i < |sizes| ==> r[i] == Max(sizes[i], 0)
  {
    seq(|sizes|, i requires 0 <= i < |sizes| => Max(sizes[i], 0))
  }

  method SummarizeUploads(sizes: seq<int>) returns (w: Workload)
    ensures w.uploads == |sizes| && w.uploadBytes == Sum(Clean(sizes)) && w.small == CountSmall(Clean(sizes))
    ensures w.probes == 0
    ensures var sorted := Sort(Clean(sizes));
            && w.largest == (if sizes == [] then 0 else sorted[|sorted| - 1])
            && w.p50 == Percentile(sorted, 5) && w.p90 == Percentile(sorted, 9)
  {
    w := Workload(0, 0, 0, 0, 0, 0, 0);
    if |sizes| == 0 {
      return;
    }
    var kept: seq<nat> := [];
    for i := 0 to |sizes|
      invariant kept == Clean(sizes)[..i] && w == Workload(i, Sum(kept), 0, 0, 0, CountSmall(kept), 0)
    {
      var size := Max(sizes[i], 0);
      ghost var before := kept;
      kept := kept + [size];
      assert kept[..i] == before && kept[i] == size;
      w := w.(uploads := w.uploads + 1, uploadBytes := w.uploadBytes + size);
      if size <= PACKET_BYTES {
        w := w.(small := w.small + 1);
      }
    }
    assert kept == Clean(sizes);
    var sorted := Sort(kept);
    w := w.(largest := sorted[|sorted| - 1], p50 := Percentile(sorted, 5), p90 := Percentile(sorted, 9));
  }

  /** The write packets the files hold when all of them are in flight, each with
      at most `requests`. */
  function PacketSum(s: seq<nat>, requests: nat): nat {
    if s == [] then 0 else PacketSum(s[..|s| - 1], requests) + Min(PacketsFor(s[|s| - 1]), requests)
  }

  lemma {:induction false} PacketSumSplit(s: seq<nat>, t: seq<nat>, requests: nat)
    ensures PacketSum(s + t, requests) == PacketSum(s, requests) + PacketSum(t, requests)
    decreases |t|
  {
    if t == [] {
      assert s + t == s;
    } else {
      assert (s + t)[..|s + t| - 1] == s + t[..|t| - 1];
      PacketSumSplit(s, t[..|t| - 1], requests);
    }
  }

  lemma {:induction false} PacketSumInsert(x: nat, s: seq<nat>, requests: nat)
    ensures PacketSum(Insert(x, s), requests) == PacketSum(s, requests) + Min(PacketsFor(x), requests)
    decreases |s|
  {
    assert [x][..0] == [];
    if s == [] || x <= s[0] {
      PacketSumSplit([x], s, requests);
    } else {
      PacketSumInsert(x, s[1..], requests);
      PacketSumSplit([s[0]], Insert(x, s[1..]), requests);
      PacketSumSplit([s[0]], s[1..], requests);
      assert [s[0]] + s[1..] == s;
    }
  }

  lemma {:induction false} PacketSumSorted(s: seq<nat>, requests: nat)
    ensures PacketSum(Sort(s), requests) == PacketSum(s, requests)
    decreases |s|
  {
    if s != [] {
      PacketSumSorted(s[..|s| - 1], requests);
      PacketSumInsert(s[|s| - 1], Sort(s[..|s| - 1]), requests);
    }
  }

  lemma {:induction false} PacketSumBound(s: seq<nat>, requests: nat, each: nat)
    requires forall i :: 0 <= i < |s| ==> Min(PacketsFor(s[i]), requests) <= each
    ensures PacketSum(s, requests) <= |s| * each
    decreases |s|
  {
    if s != [] {
      PacketSumBound(s[..|s| - 1], requests, each);
      assert |s| * each == (|s| - 1) * each + each;
    }
  }

  function Above(s: seq<nat>, bound: nat): nat {
    if s == [] then 0 else Above(s[..|s| - 1], bound) + if s[|s| - 1] > bound then 1 else 0
  }

  lemma {:induction false} AboveSorted(s: seq<nat>, bound: nat, r: nat)
    requires r <= |s| && forall i :: 0 <= i < r ==> s[i] <= bound
    ensures Above(s, bound) <= |s| - r
    decreases |s|
  {
    if |s| > r {
      AboveSorted(s[..|s| - 1], bound, r);
    } else if s != [] {
      AboveSorted(s[..|s| - 1], bound, r - 1);
    }
  }

  /** At most a tenth of the files are above the ninetieth percentile. */
  lemma FewAboveP90(sorted: seq<nat>)
    requires Ascending(sorted) && sorted != []
    ensures 10 * Above(sorted, Percentile(sorted, 9)) <= |sorted|
  {
    PercentileIsNearestRank(sorted, 9);
    AboveSorted(sorted, Percentile(sorted, 9), Rank(|sorted|, 9));
  }

  /** When all files are in flight together, the estimate bounds the packets they
      hold. */
  lemma EstimateBoundsPackets(sizes: seq<nat>, w: Workload, requests: nat)
    requires sizes != [] && w.p90 == Percentile(Sort(sizes), 9) && w.largest == Sort(sizes)[|sizes| - 1]
    ensures PacketSum(sizes, requests) <= InFlightPackets(w, |sizes|, requests)
  {
    var s := Sort(sizes);
    SortAscends(sizes);
    PacketSumSorted(sizes, requests);
    AscendingPackets(s, w, requests);
  }

  lemma AscendingPackets(s: seq<nat>, w: Workload, requests: nat)
    requires Ascending(s) && s != [] && w.p90 == Percentile(s, 9) && w.largest == s[|s| - 1]
    ensures PacketSum(s, requests) <= InFlightPackets(w, |s|, requests)
  {
    PercentileIsNearestRank(s, 9);
    var r := Rank(|s|, 9);
    var bound := if w.p90 > 0 then w.p90 else w.largest;
    SortedPackets(s, r, bound, requests);
    TenthOfWorkers(|s|, r, Min(PacketsFor(bound), requests), requests);
  }

  lemma SortedPackets(s: seq<nat>, r: nat, bound: nat, requests: nat)
    requires r <= |s| && forall i :: 0 <= i < r ==> s[i] <= bound
    ensures PacketSum(s, requests) <= r * Min(PacketsFor(bound), requests) + (|s| - r) * requests
  {
    var low, high := s[..r], s[r..];
    assert s == low + high;
    PacketSumSplit(low, high, requests);
    forall i | 0 <= i < r ensures Min(PacketsFor(low[i]), requests) <= Min(PacketsFor(bound), requests) {
      PacketsGrow(low[i], bound);
    }
    PacketSumBound(low, requests, Min(PacketsFor(bound), requests));
    PacketSumBound(high, requests, requests);
  }

  lemma TenthOfWorkers(n: nat, r: nat, perFile: nat, requests: nat)
    requires n > 0 && r <= n && 10 * r >= 9 * n && perFile <= requests
    ensures r * perFile + (n - r) * requests <= (9 * n * perFile + n * requests + 9) / 10
  {
    var a, b := 10 * r - 9 * n, requests - perFile;
    assert a * b >= 0;
    assert 10 * (r * perFile + (n - r) * requests) == 9 * n * perFile + n * requests - a * b;
  }
}
