/** Matching a whole path against pattern segments, "**" included. */
module PathGlob {
  import opened SegmentGlob

  const STARS := "**"

  // ---- The declarative meaning ----

  function Joined(groups: seq<seq<string>>): seq<string> {
    if groups == [] then [] else groups[0] + Joined(groups[1..])
  }

  /** What one pattern segment may stand for: "**" for any number of path
      segments, at the end of a pattern at least one; any other segment for one. */
  ghost predicate GroupOk(p: string, last: bool, group: seq<string>) {
    if p == STARS then last ==> group != []
    else |group| == 1 && Matches(p, group[0])
  }

  ghost predicate Divided(pat: seq<string>, groups: seq<seq<string>>, segs: seq<string>) {
    && |groups| == |pat| && Joined(groups) == segs
    && forall i :: 0 <= i < |pat| ==> GroupOk(pat[i], i == |pat| - 1, groups[i])
  }

  /** The path can be divided into consecutive groups, one for each segment of
      the pattern. */
  ghost predicate PathMatches(pat: seq<string>, segs: seq<string>) {
    exists groups :: Divided(pat, groups, segs)
  }

  // ---- One segment at a time ----

  ghost predicate MatchPath(pat: seq<string>, segs: seq<string>)
    decreases |pat|
  {
    if pat == [] then segs == []
    else if pat[0] == STARS then
      if |pat| == 1 then segs != []
      else exists k :: 0 <= k <= |segs| && MatchPath(pat[1..], segs[k..])
    else segs != [] && Matches(pat[0], segs[0]) && MatchPath(pat[1..], segs[1..])
  }

  lemma {:induction false} DividedMatches(pat: seq<string>, groups: seq<seq<string>>, segs: seq<string>)
    requires Divided(pat, groups, segs)
    ensures MatchPath(pat, segs)
    decreases |pat|
  {
    if pat != [] {
      var k := |groups[0]|;
      assert segs[..k] == groups[0] && segs[k..] == Joined(groups[1..]);
      assert GroupOk(pat[0], 0 == |pat| - 1, groups[0]);
      forall i | 0 <= i < |pat[1..]| ensures GroupOk(pat[1..][i], i == |pat[1..]| - 1, groups[1..][i]) {
        assert GroupOk(pat[i + 1], i + 1 == |pat| - 1, groups[i + 1]);
      }
      DividedMatches(pat[1..], groups[1..], segs[k..]);
      assert k == 1 ==> segs[0] == groups[0][0];
    }
  }

  lemma DividedCons(p: string, group: seq<string>, pat: seq<string>, groups: seq<seq<string>>, segs: seq<string>)
    requires GroupOk(p, pat == [], group) && Divided(pat, groups, segs)
    ensures Divided([p] + pat, [group] + groups, group + segs)
  {
    var all, gs := [p] + pat, [group] + groups;
    assert gs[1..] == groups;
    forall i | 0 <= i < |all| ensures GroupOk(all[i], i == |all| - 1, gs[i]) {
      if i > 0 {
        assert GroupOk(pat[i - 1], i - 1 == |pat| - 1, groups[i - 1]);
      }
    }
  }

  lemma {:induction false} MatchDivides(pat: seq<string>, segs: seq<string>) returns (groups: seq<seq<string>>)
    requires MatchPath(pat, segs)
    ensures Divided(pat, groups, segs)
    decreases |pat|
  {
    if pat == [] {
      groups := [];
    } else {
      var k: nat := 1;
      var rest: seq<seq<string>> := [];
      if pat == [STARS] {
        k := |segs|;
        assert Divided([], [], segs[k..]);
      } else {
        if pat[0] == STARS {
          k :| 0 <= k <= |segs| && MatchPath(pat[1..], segs[k..]);
        }
        rest := MatchDivides(pat[1..], segs[k..]);
      }
      DividedCons(pat[0], segs[..k], pat[1..], rest, segs[k..]);
      assert [pat[0]] + pat[1..] == pat && segs[..k] + segs[k..] == segs;
      groups := [segs[..k]] + rest;
    }
  }

  lemma PathMatchesIsMatch(pat: seq<string>, segs: seq<string>)
    ensures PathMatches(pat, segs) <==> MatchPath(pat, segs)
  {
    if PathMatches(pat, segs) {
      var groups :| Divided(pat, groups, segs);
      DividedMatches(pat, groups, segs);
    }
    if MatchPath(pat, segs) {
      var groups := MatchDivides(pat, segs);
    }
  }

  // ---- A run of "**" is one "**" ----

  ghost predicate NoDoubleStars(pat: seq<string>) {
    forall i :: 0 <= i < |pat| - 1 ==> !(pat[i] == STARS && pat[i + 1] == STARS)
  }

  function Collapse(pat: seq<string>): (r: seq<string>)
    ensures r == [] <==> pat == []
    ensures pat != [] ==> r[0] == pat[0]
  {
    if |pat| <= 1 then pat
    else if pat[0] == STARS && pat[1] == STARS then Collapse(pat[1..])
    else [pat[0]] + Collapse(pat[1..])
  }

  lemma {:induction false} CollapseHasNoDoubles(pat: seq<string>)
    ensures NoDoubleStars(Collapse(pat))
    decreases |pat|
  {
    if |pat| > 1 {
      CollapseHasNoDoubles(pat[1..]);
      var r, t := Collapse(pat), Collapse(pat[1..]);
      if r != t {
        assert r == [pat[0]] + t;
        assert forall i :: 1 <= i < |r| ==> r[i] == t[i - 1];
      }
    }
  }

  lemma DoubleStarsOnce(rest: seq<string>, segs: seq<string>)
    ensures MatchPath([STARS, STARS] + rest, segs) <==> MatchPath([STARS] + rest, segs)
  {
    var one, two := [STARS] + rest, [STARS, STARS] + rest;
    assert two[1..] == one && one[1..] == rest;
    assert segs[0..] == segs;
    if MatchPath(two, segs) {
      var k :| 0 <= k <= |segs| && MatchPath(one, segs[k..]);
      if rest != [] {
        var j :| 0 <= j <= |segs[k..]| && MatchPath(rest, segs[k..][j..]);
        assert segs[k..][j..] == segs[k + j..];
      }
    }
    if MatchPath(one, segs) {
      assert MatchPath(one, segs[0..]);
    }
  }

  /** Collapsing changes no verdict. */
  lemma {:induction false} CollapseKeepsMeaning(pat: seq<string>, segs: seq<string>)
    ensures MatchPath(Collapse(pat), segs) <==> MatchPath(pat, segs)
    decreases |pat|
  {
    if |pat| > 1 {
      if pat[0] == STARS && pat[1] == STARS {
        CollapseKeepsMeaning(pat[1..], segs);
        assert pat == [STARS, STARS] + pat[2..] && pat[1..] == [STARS] + pat[2..];
        DoubleStarsOnce(pat[2..], segs);
      } else {
        var r := Collapse(pat);
        assert r[1..] == Collapse(pat[1..]) && |r| > 1;
        forall k | 0 <= k <= |segs| ensures MatchPath(r[1..], segs[k..]) <==> MatchPath(pat[1..], segs[k..]) {
          CollapseKeepsMeaning(pat[1..], segs[k..]);
        }
      }
    }
  }

  // ---- The matcher ----

  /** The memo never lies. */
  ghost predicate MemoOk(pat: seq<string>, segs: seq<string>, memo: map<(nat, nat), bool>) {
    forall pi: nat, si: nat :: (pi, si) in memo ==>
      pi <= |pat| && si <= |segs| && (memo[(pi, si)] <==> MatchPath(pat[pi..], segs[si..]))
  }

  method MatchSegmentsExactAt(pat: seq<string>, pi: nat, segs: seq<string>, si: nat, memo: map<(nat, nat), bool>)
    returns (res: bool, memo': map<(nat, nat), bool>)
    requires pi <= |pat| && si <= |segs| && MemoOk(pat, segs, memo)
    ensures res <==> MatchPath(pat[pi..], segs[si..])
    ensures MemoOk(pat, segs, memo') && memo'.Keys >= memo.Keys
    decreases |pat| - pi, 1
  {
    if (pi, si) in memo {
      return memo[(pi, si)], memo;
    }
    memo' := memo;
    ghost var here := pat[pi..];
    if pi == |pat| {
      res := si == |segs|;
    } else if pat[pi] == STARS {
      if pi == |pat| - 1 {
        res := si < |segs|;
      } else {
        res, memo' := MatchStars(pat, pi, segs, si, memo);
      }
    } else if si == |segs| {
      res := false;
    } else {
      assert here[0] == pat[pi] && here[1..] == pat[pi + 1..] && segs[si..][1..] == segs[si + 1..];
      res := MatchSegment(pat[pi], segs[si]);
      if res {
        res, memo' := MatchSegmentsExactAt(pat, pi + 1, segs, si + 1, memo');
      }
    }
    memo' := memo'[(pi, si) := res];
  }

  /** An inner "**": tries every number of segments, none first. */
  method MatchStars(pat: seq<string>, pi: nat, segs: seq<string>, si: nat, memo: map<(nat, nat), bool>)
    returns (res: bool, memo': map<(nat, nat), bool>)
    requires pi + 1 < |pat| && si <= |segs| && pat[pi] == STARS && MemoOk(pat, segs, memo)
    ensures res <==> MatchPath(pat[pi..], segs[si..])
    ensures MemoOk(pat, segs, memo') && memo'.Keys >= memo.Keys
    decreases |pat| - pi, 0
  {
    memo' := memo;
    ghost var here, rest := pat[pi..], segs[si..];
    assert here[1..] == pat[pi + 1..] && here[0] == STARS;
    for j := si to |segs| + 1
      invariant MemoOk(pat, segs, memo') && memo'.Keys >= memo.Keys
      invariant forall k :: si <= k < j ==> !MatchPath(here[1..], segs[k..])
    {
      res, memo' := MatchSegmentsExactAt(pat, pi + 1, segs, j, memo');
      if res {
        assert rest[j - si..] == segs[j..];
        return;
      }
    }
    NoTailMatches(here[1..], segs, si);
    res := false;
  }

  lemma NoTailMatches(pat: seq<string>, segs: seq<string>, si: nat)
    requires si <= |segs| && forall k :: si <= k <= |segs| ==> !MatchPath(pat, segs[k..])
    ensures forall k :: 0 <= k <= |segs[si..]| ==> !MatchPath(pat, segs[si..][k..])
  {
    forall k | 0 <= k <= |segs[si..]| ensures !MatchPath(pat, segs[si..][k..]) {
      assert segs[si..][k..] == segs[si + k..];
    }
  }

  method MatchSegmentsPlain(pat: seq<string>, segs: seq<string>) returns (r: bool)
    requires |pat| == |segs| && STARS !in pat
    ensures r <==> MatchPath(pat, segs)
    decreases |pat|
  {
    if |pat| == 0 {
      return true;
    }
    if |segs| == 0 {
      return false;
    }
    r := MatchSegment(pat[0], segs[0]);
    if r {
      r := MatchSegmentsPlain(pat[1..], segs[1..]);
    }
  }

  method ContainsStarStar(pat: seq<string>) returns (r: bool)
    ensures r <==> STARS in pat
  {
    for i := 0 to |pat|
      invariant STARS !in pat[..i]
    {
      if pat[i] == STARS {
        return true;
      }
    }
    assert pat[..|pat|] == pat;
    r := false;
  }

  lemma {:induction false} PlainLengths(pat: seq<string>, segs: seq<string>)
    requires STARS !in pat && MatchPath(pat, segs)
    ensures |pat| == |segs|
    decreases |pat|
  {
    if pat != [] {
      PlainLengths(pat[1..], segs[1..]);
    }
  }

  /** The plain fast path and the memoized recursion decide the same relation. */
  method MatchSegmentsExact(pat: seq<string>, segs: seq<string>) returns (r: bool)
    ensures r <==> PathMatches(pat, segs)
  {
    PathMatchesIsMatch(pat, segs);
    var stars := ContainsStarStar(pat);
    if !stars {
      if |pat| != |segs| {
        if MatchPath(pat, segs) {
          PlainLengths(pat, segs);
        }
        return false;
      }
      r := MatchSegmentsPlain(pat, segs);
      return;
    }
    var memo;
    assert pat[0..] == pat && segs[0..] == segs;
    r, memo := MatchSegmentsExactAt(pat, 0, segs, 0, map[]);
  }
}
