/** Matching one path segment against one pattern segment (matchSegment). */
module SegmentGlob {
  import opened Options

  const BS := '\\'

  // ---- Character classes ----

  /** The index of the "]" that closes the class starting at `pat[0]`, searched
      from `i` on; a backslash hides the next character. */
  function ClassEnd(pat: string, i: nat): (r: Option<nat>)
    ensures r.Some? ==> i <= r.value < |pat| && pat[r.value] == ']'
    decreases |pat| - i
  {
    if i >= |pat| then None
    else if pat[i] == BS then (if i + 2 <= |pat| then ClassEnd(pat, i + 2) else None)
    else if pat[i] == ']' then Some(i)
    else ClassEnd(pat, i + 1)
  }

  /** A "]" right after the opening bracket is a member. */
  function FirstMember(pat: string): nat {
    if |pat| > 1 && pat[1] == ']' then 2 else 1
  }

  method SplitClass(pat: string) returns (body: string, rest: string, ok: bool)
    requires pat != "" && pat[0] == '['
    ensures ok <==> ClassEnd(pat, FirstMember(pat)).Some?
    ensures ok ==> var e := ClassEnd(pat, FirstMember(pat)).value; body == pat[1..e] && rest == pat[e + 1..]
    ensures ok ==> pat == "[" + body + "]" + rest && body != ""
  {
    var i := 1;
    if i < |pat| && pat[i] == ']' {
      i := i + 1;
    }
    while i < |pat|
      invariant 1 <= i && (i == 1 ==> FirstMember(pat) == 1) && FirstMember(pat) <= i
      invariant ClassEnd(pat, FirstMember(pat)) == if i <= |pat| then ClassEnd(pat, i) else None
      decreases |pat| - i
    {
      if pat[i] == BS {
        i := i + 2;
        continue;
      }
      if pat[i] == ']' {
        return pat[1..i], pat[i + 1..], true;
      }
      i := i + 1;
    }
    return "", "", false;
  }

  /** The members of a class: single characters, possibly escaped, and ranges. */
  datatype Member = One(c: char) | Range(lo: char, hi: char)

  predicate Holds(m: Member, c: char) {
    match m
    case One(d) => c == d
    case Range(lo, hi) => lo <= c <= hi
  }

  function Members(cls: string): (ms: seq<Member>) {
    if cls == "" then []
    else if cls[0] == BS && |cls| > 1 then [One(cls[1])] + Members(cls[2..])
    else if |cls| > 2 && cls[1] == '-' then [Range(cls[0], cls[2])] + Members(cls[3..])
    else [One(cls[0])] + Members(cls[1..])
  }

  predicate AnyHolds(ms: seq<Member>, c: char) {
    exists i :: 0 <= i < |ms| && Holds(ms[i], c)
  }

  lemma AnyHoldsCons(m: Member, ms: seq<Member>, c: char)
    ensures AnyHolds([m] + ms, c) <==> Holds(m, c) || AnyHolds(ms, c)
  {
    if AnyHolds(ms, c) {
      var i :| 0 <= i < |ms| && Holds(ms[i], c);
      assert ([m] + ms)[i + 1] == ms[i];
    }
    if Holds(m, c) {
      assert ([m] + ms)[0] == m;
    }
  }

  method ClassContains(cls: string, c: char) returns (r: bool)
    ensures r <==> AnyHolds(Members(cls), c)
  {
    var i := 0;
    while i < |cls|
      invariant 0 <= i <= |cls|
      invariant AnyHolds(Members(cls), c) <==> AnyHolds(Members(cls[i..]), c)
      decreases |cls| - i
    {
      ghost var here := cls[i..];
      if cls[i] == BS && i + 1 < |cls| {
        assert here[2..] == cls[i + 2..];
        AnyHoldsCons(One(cls[i + 1]), Members(cls[i + 2..]), c);
        if c == cls[i + 1] {
          return true;
        }
        i := i + 2;
      } else if i + 2 < |cls| && cls[i + 1] == '-' {
        assert here[3..] == cls[i + 3..];
        AnyHoldsCons(Range(cls[i], cls[i + 2]), Members(cls[i + 3..]), c);
        if cls[i] <= c <= cls[i + 2] {
          return true;
        }
        i := i + 3;
      } else {
        assert here[1..] == cls[i + 1..];
        AnyHoldsCons(One(cls[i]), Members(cls[i + 1..]), c);
        if cls[i] == c {
          return true;
        }
        i := i + 1;
      }
    }
    return false;
  }

  // ---- Tokens and the declarative meaning ----

  /**
  `Open` is a "[" whose class never closes: it stands for a literal "[", but
  only where the name ends. `Tail` is a backslash with nothing behind it.
  */
  datatype Token = Lit(c: char) | AnyOne | Star | Class(negate: bool, members: seq<Member>) | Open | Tail

  function ClassToken(body: string): Token {
    if body != "" && (body[0] == '!' || body[0] == '^') then Class(true, Members(body[1..]))
    else Class(false, Members(body))
  }

  /** The first token of a pattern and what follows it. */
  function Head(pat: string): (r: (Token, string))
    requires pat != ""
    ensures |r.1| < |pat|
  {
    if pat[0] == BS then (if |pat| == 1 then (Tail, "") else (Lit(pat[1]), pat[2..]))
    else if pat[0] == '?' then (AnyOne, pat[1..])
    else if pat[0] == '*' then (Star, pat[1..])
    else if pat[0] == '[' then
      match ClassEnd(pat, FirstMember(pat))
      case Some(e) => (ClassToken(pat[1..e]), pat[e + 1..])
      case None => (Open, pat[1..])
    else (Lit(pat[0]), pat[1..])
  }

  function Tokens(pat: string): (ts: seq<Token>)
    decreases |pat|
  {
    if pat == "" then [] else [Head(pat).0] + Tokens(Head(pat).1)
  }

  function Flatten(pieces: seq<string>): string {
    if pieces == [] then "" else pieces[0] + Flatten(pieces[1..])
  }

  predicate PieceOk(t: Token, piece: string) {
    match t
    case Lit(c) => piece == [c]
    case AnyOne => |piece| == 1
    case Star => true
    case Class(negate, members) => |piece| == 1 && AnyHolds(members, piece[0]) != negate
    case Open => piece == "["
    case Tail => piece == [BS]
  }

  /** The name is cut into one piece for each token, in order. */
  predicate Cut(ts: seq<Token>, pieces: seq<string>, name: string) {
    && |pieces| == |ts| && Flatten(pieces) == name
    && (forall i :: 0 <= i < |ts| ==> PieceOk(ts[i], pieces[i]))
    && (forall i, j :: 0 <= i < j < |ts| && ts[i].Open? ==> pieces[j] == "")
  }

  ghost predicate Matches(pat: string, name: string) {
    exists pieces :: Cut(Tokens(pat), pieces, name)
  }

  // ---- The meaning, one token at a time ----

  predicate Match(ts: seq<Token>, name: string) {
    if ts == [] then name == ""
    else
      match ts[0]
      case Star => exists k :: 0 <= k <= |name| && Match(ts[1..], name[k..])
      case Open => name == "[" && Match(ts[1..], "")
      case Tail => name == [BS] && Match(ts[1..], "")
      case _ => name != "" && PieceOk(ts[0], name[..1]) && Match(ts[1..], name[1..])
  }

  lemma CutTail(ts: seq<Token>, pieces: seq<string>, name: string)
    requires ts != [] && Cut(ts, pieces, name)
    ensures pieces[0] + Flatten(pieces[1..]) == name
    ensures Cut(ts[1..], pieces[1..], name[|pieces[0]|..])
  {
    var rest, later := ts[1..], pieces[1..];
    assert forall i :: 0 <= i < |rest| ==> rest[i] == ts[i + 1] && later[i] == pieces[i + 1];
  }

  lemma {:induction false} FlattenEmpty(pieces: seq<string>)
    requires forall i :: 0 <= i < |pieces| ==> pieces[i] == ""
    ensures Flatten(pieces) == ""
    decreases |pieces|
  {
    if pieces != [] {
      assert forall i :: 0 <= i < |pieces[1..]| ==> pieces[1..][i] == pieces[i + 1];
      FlattenEmpty(pieces[1..]);
    }
  }

  lemma {:induction false} CutMatches(ts: seq<Token>, pieces: seq<string>, name: string)
    requires Cut(ts, pieces, name) && forall i :: 0 <= i < |ts| - 1 ==> !ts[i].Tail?
    ensures Match(ts, name)
    decreases |ts|
  {
    if ts != [] {
      CutTail(ts, pieces, name);
      assert forall i :: 0 <= i < |ts[1..]| - 1 ==> ts[1..][i] == ts[i + 1];
      CutMatches(ts[1..], pieces[1..], name[|pieces[0]|..]);
      if ts[0].Open? {
        assert forall i :: 0 <= i < |pieces[1..]| ==> pieces[1..][i] == pieces[i + 1];
        FlattenEmpty(pieces[1..]);
      }
      assert name[..|pieces[0]|] == pieces[0];
    }
  }

  lemma {:induction false} EmptyPieces(pieces: seq<string>)
    requires Flatten(pieces) == ""
    ensures forall i :: 0 <= i < |pieces| ==> pieces[i] == ""
    decreases |pieces|
  {
    if pieces != [] {
      EmptyPieces(pieces[1..]);
      assert forall i :: 1 <= i < |pieces| ==> pieces[i] == pieces[1..][i - 1];
    }
  }

  lemma CutCons(t: Token, ts: seq<Token>, piece: string, pieces: seq<string>, name: string)
    requires PieceOk(t, piece) && Cut(ts, pieces, name) && (t.Open? ==> name == "")
    ensures Cut([t] + ts, [piece] + pieces, piece + name)
  {
    var all, cut := [t] + ts, [piece] + pieces;
    assert cut[1..] == pieces;
    if t.Open? {
      EmptyPieces(pieces);
    }
    assert forall i :: 0 < i < |all| ==> all[i] == ts[i - 1] && cut[i] == pieces[i - 1];
  }

  lemma {:induction false} MatchCuts(ts: seq<Token>, name: string) returns (pieces: seq<string>)
    requires Match(ts, name)
    ensures Cut(ts, pieces, name)
    decreases |ts|
  {
    if ts == [] {
      pieces := [];
    } else {
      var k: nat := 1;
      if ts[0].Star? {
        k :| 0 <= k <= |name| && Match(ts[1..], name[k..]);
      }
      assert name[k..] == "" || !(ts[0].Open? || ts[0].Tail?);
      var rest := MatchCuts(ts[1..], name[k..]);
      CutCons(ts[0], ts[1..], name[..k], rest, name[k..]);
      assert [ts[0]] + ts[1..] == ts && name[..k] + name[k..] == name;
      pieces := [name[..k]] + rest;
    }
  }

  lemma {:induction false} TailIsLast(pat: string)
    ensures forall i :: 0 <= i < |Tokens(pat)| - 1 ==> !Tokens(pat)[i].Tail?
    decreases |pat|
  {
    if pat != "" {
      TailIsLast(Head(pat).1);
      assert forall i :: 1 <= i < |Tokens(pat)| ==> Tokens(pat)[i] == Tokens(Head(pat).1)[i - 1];
    }
  }

  /** The two readings of a pattern agree. */
  lemma MatchesIsMatch(pat: string, name: string)
    ensures Matches(pat, name) <==> Match(Tokens(pat), name)
  {
    TailIsLast(pat);
    if Matches(pat, name) {
      var pieces :| Cut(Tokens(pat), pieces, name);
      CutMatches(Tokens(pat), pieces, name);
    }
    if Match(Tokens(pat), name) {
      var pieces := MatchCuts(Tokens(pat), name);
    }
  }

  // ---- The matcher ----

  lemma TokensOf(pat: string)
    requires pat != ""
    ensures Tokens(pat)[0] == Head(pat).0 && Tokens(pat)[1..] == Tokens(Head(pat).1)
  {
  }

  /** The scan loop of matchSegmentHere, with its recursion on "*". */
  method MatchSegmentHere(pat0: string, str0: string) returns (r: bool)
    ensures r <==> Match(Tokens(pat0), str0)
    decreases |pat0|
  {
    var pat, str := pat0, str0;
    while |pat| > 0
      invariant |pat| <= |pat0|
      invariant Match(Tokens(pat0), str0) <==> Match(Tokens(pat), str)
      decreases |pat|
    {
      TokensOf(pat);
      if pat[0] == '*' {
        r := MatchStar(pat, str);
        return;
      }
      var go;
      go, r, pat, str := MatchOne(pat, str);
      if !go {
        return;
      }
    }
    r := |str| == 0;
  }

  method MatchStar(pat: string, str: string) returns (r: bool)
    requires pat != "" && pat[0] == '*'
    ensures r <==> Match(Tokens(pat), str)
    decreases |pat|, 0
  {
    TokensOf(pat);
    for rest := 0 to |str| + 1
      invariant forall k :: 0 <= k < rest ==> !Match(Tokens(pat[1..]), str[k..])
    {
      var m := MatchSegmentHere(pat[1..], str[rest..]);
      if m {
        return true;
      }
    }
    return false;
  }

  /** One round of the loop on anything but "*": either an answer, or what is left. */
  method MatchOne(pat: string, str: string) returns (go: bool, r: bool, pat': string, str': string)
    requires pat != "" && pat[0] != '*'
    ensures go ==> |pat'| < |pat| && (Match(Tokens(pat), str) <==> Match(Tokens(pat'), str'))
    ensures !go ==> (r <==> Match(Tokens(pat), str))
  {
    TokensOf(pat);
    go, r, pat', str' := false, false, pat, str;
    if pat[0] == BS {
      if |pat| == 1 {
        r := str == [BS];
      } else if |str| > 0 && str[0] == pat[1] {
        go, pat', str' := true, pat[2..], str[1..];
      }
    } else if pat[0] == '?' {
      if |str| > 0 {
        go, pat', str' := true, pat[1..], str[1..];
      }
    } else if pat[0] == '[' {
      go, pat', str' := MatchClass(pat, str);
    } else if |str| > 0 && str[0] == pat[0] {
      go, pat', str' := true, pat[1..], str[1..];
    }
  }

  method MatchClass(pat: string, str: string) returns (go: bool, pat': string, str': string)
    requires pat != "" && pat[0] == '['
    ensures go ==> |pat'| < |pat| && (Match(Tokens(pat), str) <==> Match(Tokens(pat'), str'))
    ensures !go ==> !Match(Tokens(pat), str)
  {
    TokensOf(pat);
    var body, rest, ok := SplitClass(pat);
    if !ok {
      if |str| == 1 && str[0] == '[' {
        assert str == "[" && str[1..] == "";
        return true, pat[1..], str[1..];
      }
      return false, pat, str;
    }
    var negate := false;
    if body[0] == '!' || body[0] == '^' {
      negate, body := true, body[1..];
    }
    if |str| == 0 {
      return false, pat, str;
    }
    var inside := ClassContains(body, str[0]);
    if inside == negate {
      return false, pat, str;
    }
    return true, rest, str[1..];
  }

  predicate IsMeta(c: char) {
    c == '*' || c == '?' || c == '[' || c == BS
  }

  lemma {:induction false} LiteralMatch(pat: string, name: string)
    requires forall i :: 0 <= i < |pat| ==> !IsMeta(pat[i])
    ensures Match(Tokens(pat), name) <==> pat == name
    decreases |pat|
  {
    if pat != "" {
      TokensOf(pat);
      assert Head(pat) == (Lit(pat[0]), pat[1..]);
      if name != "" {
        LiteralMatch(pat[1..], name[1..]);
        assert pat == [pat[0]] + pat[1..] && name == [name[0]] + name[1..];
      }
    }
  }

  /** The matcher decides the declarative meaning; without metacharacters it
      compares the strings. */
  method MatchSegment(pat: string, str: string) returns (r: bool)
    ensures r <==> Matches(pat, str)
  {
    MatchesIsMatch(pat, str);
    if forall i :: 0 <= i < |pat| ==> !IsMeta(pat[i]) {
      LiteralMatch(pat, str);
      return pat == str;
    }
    r := MatchSegmentHere(pat, str);
  }
}
