/** Which lines that pass the check for unterminated classes hold one all the same
    (parseGitignoreSegments against matchSegmentHere). */
module Brackets {
  import opened Options
  import opened SegmentGlob
  import opened PathGlob
  import opened Gitignore
  import SlashPaths

  // ---- What the matcher sees ----

  /** The segment holds a bracket that the matcher finds no end for. */
  predicate HasOpen(seg: string) {
    exists i :: 0 <= i < |Tokens(seg)| && Tokens(seg)[i].Open?
  }

  predicate NoneOpen(segs: seq<string>) {
    forall i :: 0 <= i < |segs| ==> !HasOpen(segs[i])
  }

  // ---- What one would have to check ----

  /**
  From `i` on every class closes: a bracket is escaped behind an odd run of
  backslashes, and a class has to close before the next slash. The check that the
  source makes, ClassesClose, differs in both: it takes a bracket behind any
  backslash for escaped, and it looks for the end of a class in the whole line.
  */
  predicate EveryClassCloses(body: string, i: nat)
    requires i <= |body|
    decreases |body| - i
  {
    if i == |body| then true
    else if body[i] != '[' || Backslashes(body, i) % 2 == 1 then EveryClassCloses(body, i + 1)
    else
      match ClassEnd(body[i..], FirstMember(body[i..]))
      case None => false
      case Some(e) => '/' !in body[i..i + e] && EveryClassCloses(body, i + e + 1)
  }

  // ---- Cutting at the slashes ----

  lemma OpenHeadOrRest(seg: string)
    requires seg != ""
    ensures HasOpen(seg) <==> Head(seg).0.Open? || HasOpen(Head(seg).1)
  {
    var ts, rest := Tokens(seg), Tokens(Head(seg).1);
    TokensOf(seg);
    if HasOpen(Head(seg).1) {
      var i :| 0 <= i < |rest| && rest[i].Open?;
      assert ts[i + 1] == rest[i];
    }
    if Head(seg).0.Open? {
      assert ts[0].Open?;
    }
    assert forall i :: 1 <= i < |ts| ==> ts[i] == rest[i - 1];
  }

  lemma NoneOpenCons(seg: string, segs: seq<string>)
    ensures NoneOpen([seg] + segs) <==> !HasOpen(seg) && NoneOpen(segs)
  {
    var all := [seg] + segs;
    assert all[0] == seg && forall i :: 1 <= i < |all| ==> all[i] == segs[i - 1];
    assert forall i :: 0 <= i < |segs| ==> segs[i] == all[i + 1];
  }

  lemma NoneOpenSplit(rest: string)
    ensures var n := SlashPaths.FirstSlash(rest);
            NoneOpen(SlashPaths.Split(rest)) <==>
              !HasOpen(rest[..n]) && (n < |rest| ==> NoneOpen(SlashPaths.Split(rest[n + 1..])))
  {
    var n := SlashPaths.FirstSlash(rest);
    if n < |rest| {
      NoneOpenCons(rest[..n], SlashPaths.Split(rest[n + 1..]));
    } else {
      NoneOpenCons(rest, []);
      assert rest[..n] == rest && [rest] + [] == [rest] && NoneOpen([]);
    }
  }

  lemma SlashAfter(rest: string, n: nat, m: nat)
    requires m <= n == SlashPaths.FirstSlash(rest)
    ensures SlashPaths.FirstSlash(rest[m..]) == n - m
  {
    var later := rest[m..];
    assert forall k :: 0 <= k < n - m ==> later[k] == rest[m + k];
    SlashPaths.FirstSlashUnique(later, n - m);
  }

  /** Dropping characters of the first segment leaves the others as they are. */
  lemma SplitAfter(rest: string, n: nat, m: nat)
    requires m <= n == SlashPaths.FirstSlash(rest)
    ensures SlashPaths.Split(rest)[0] == rest[..n] && SlashPaths.Split(rest[m..])[0] == rest[m..n]
    ensures SlashPaths.Split(rest)[1..] == SlashPaths.Split(rest[m..])[1..]
  {
    SlashAfter(rest, n, m);
    var later := rest[m..];
    assert later[..n - m] == rest[m..n];
    SplitHead(rest, n);
    SplitHead(later, n - m);
    if n < |rest| {
      assert later[n - m + 1..] == rest[n + 1..];
    }
  }

  /** The first segment, and the others. */
  lemma SplitHead(s: string, n: nat)
    requires n == SlashPaths.FirstSlash(s)
    ensures SlashPaths.Split(s)[0] == s[..n]
    ensures SlashPaths.Split(s)[1..] == Others(s, n)
  {
    if n < |s| {
      HeadAndTail(s[..n], SlashPaths.Split(s[n + 1..]));
    } else {
      HeadAndTail(s, []);
      assert s[..n] == s;
    }
  }

  function Others(s: string, n: nat): seq<string>
    requires n <= |s|
  {
    if n == |s| then [] else SlashPaths.Split(s[n + 1..])
  }

  lemma HeadAndTail(a: string, more: seq<string>)
    ensures ([a] + more)[0] == a && ([a] + more)[1..] == more && [a][1..] == []
  {
  }

  lemma NoneOpenAlike(segs: seq<string>, others: seq<string>)
    requires segs != [] && others != [] && segs[1..] == others[1..] && (HasOpen(segs[0]) <==> HasOpen(others[0]))
    ensures NoneOpen(segs) <==> NoneOpen(others)
  {
    NoneOpenCons(segs[0], segs[1..]);
    NoneOpenCons(others[0], others[1..]);
    assert [segs[0]] + segs[1..] == segs && [others[0]] + others[1..] == others;
  }

  /** Characters of the first segment that hold no open bracket can be dropped. */
  lemma DropFromSegment(rest: string, m: nat)
    requires m <= SlashPaths.FirstSlash(rest)
    requires HasOpen(rest[..SlashPaths.FirstSlash(rest)]) <==> HasOpen(rest[m..SlashPaths.FirstSlash(rest)])
    ensures NoneOpen(SlashPaths.Split(rest)) <==> NoneOpen(SlashPaths.Split(rest[m..]))
  {
    SplitAfter(rest, SlashPaths.FirstSlash(rest), m);
    NoneOpenAlike(SlashPaths.Split(rest), SlashPaths.Split(rest[m..]));
  }

  /** A class ends where it ends in the whole line, if that is before the slash. */
  lemma {:induction false} ClassInSegment(rest: string, k: nat)
    requires k <= SlashPaths.FirstSlash(rest)
    ensures var n, e := SlashPaths.FirstSlash(rest), ClassEnd(rest, k);
            ClassEnd(rest[..n], k) == if e.Some? && e.value < n then e else None
    decreases |rest| - k
  {
    var n := SlashPaths.FirstSlash(rest);
    if k < n {
      if rest[k] == BS {
        if k + 2 <= n {
          ClassInSegment(rest, k + 2);
        }
      } else if rest[k] != ']' {
        ClassInSegment(rest, k + 1);
      }
    }
  }

  lemma ClassBeforeSlash(rest: string)
    requires rest != "" && rest[0] == '['
    ensures var n, e := SlashPaths.FirstSlash(rest), ClassEnd(rest, FirstMember(rest));
            && n > 0
            && ClassEnd(rest[..n], FirstMember(rest[..n])) == (if e.Some? && '/' !in rest[..e.value] then e else None)
            && (e.Some? ==> (e.value < n <==> '/' !in rest[..e.value]))
  {
    var n, e := SlashPaths.FirstSlash(rest), ClassEnd(rest, FirstMember(rest));
    assert FirstMember(rest[..n]) == FirstMember(rest) <= n;
    ClassInSegment(rest, FirstMember(rest));
    if e.Some? {
      assert rest[e.value] == ']';
      if n < e.value {
        assert rest[..e.value][n] == '/';
      }
    }
  }

  // ---- The matcher's reading, one step at a time ----

  predicate AllShut(rest: string) {
    NoneOpen(SlashPaths.Split(rest))
  }

  lemma ShutAtSlash(rest: string)
    requires rest != "" && rest[0] == '/'
    ensures AllShut(rest) <==> AllShut(rest[1..])
  {
    assert SlashPaths.FirstSlash(rest) == 0 && rest[..0] == "";
    NoneOpenSplit(rest);
    assert Tokens("") == [];
  }

  lemma ShutAtEnd(rest: string)
    requires rest == "" || rest == [BS]
    ensures AllShut(rest)
  {
    assert rest[..SlashPaths.FirstSlash(rest)] == rest;
    NoneOpenSplit(rest);
    assert Tokens("") == [];
    if rest != "" {
      OpenHeadOrRest(rest);
    }
  }

  /** A backslash escapes no slash. */
  lemma ShutAtLooseBackslash(rest: string)
    requires |rest| > 1 && rest[0] == BS && rest[1] == '/'
    ensures AllShut(rest) <==> AllShut(rest[2..])
  {
    SlashPaths.FirstSlashUnique(rest, 1);
    var seg := rest[..1];
    OpenHeadOrRest(seg);
    assert Head(seg).1 == "" && Tokens("") == [];
    NoneOpenSplit(rest);
  }

  lemma ShutAtEscape(rest: string)
    requires |rest| > 1 && rest[0] == BS && rest[1] != '/'
    ensures AllShut(rest) <==> AllShut(rest[2..])
  {
    var n := SlashPaths.FirstSlash(rest);
    var seg := rest[..n];
    assert n >= 2;
    OpenHeadOrRest(seg);
    assert Head(seg).1 == seg[2..] == rest[2..n];
    DropFromSegment(rest, 2);
  }

  lemma ShutAtPlain(rest: string)
    requires rest != "" && rest[0] != '/' && rest[0] != BS && rest[0] != '['
    ensures AllShut(rest) <==> AllShut(rest[1..])
  {
    var n := SlashPaths.FirstSlash(rest);
    var seg := rest[..n];
    OpenHeadOrRest(seg);
    assert Head(seg).1 == seg[1..] == rest[1..n];
    DropFromSegment(rest, 1);
  }

  lemma ShutAtClass(rest: string, e: nat)
    requires rest != "" && rest[0] == '[' && ClassEnd(rest, FirstMember(rest)) == Some(e) && '/' !in rest[..e]
    ensures AllShut(rest) <==> AllShut(rest[e + 1..])
  {
    var n := SlashPaths.FirstSlash(rest);
    var seg := rest[..n];
    ClassBeforeSlash(rest);
    OpenHeadOrRest(seg);
    assert Head(seg).1 == seg[e + 1..] == rest[e + 1..n];
    DropFromSegment(rest, e + 1);
  }

  lemma OpenAtBracket(rest: string)
    requires rest != "" && rest[0] == '['
    requires var e := ClassEnd(rest, FirstMember(rest)); e.None? || '/' in rest[..e.value]
    ensures !AllShut(rest)
  {
    var seg := rest[..SlashPaths.FirstSlash(rest)];
    ClassBeforeSlash(rest);
    OpenHeadOrRest(seg);
    NoneOpenSplit(rest);
  }

  // ---- The two scans side by side ----

  lemma BackslashesAfter(body: string, i: nat)
    requires i < |body|
    ensures Backslashes(body, i + 1) == if body[i] == BS then 1 + Backslashes(body, i) else 0
  {
  }

  /** A backslash at an even place escapes what follows, so the scan passes both. */
  lemma ScanPassesEscape(body: string, i: nat)
    requires i + 1 < |body| && body[i] == BS && Backslashes(body, i) % 2 == 0
    ensures EveryClassCloses(body, i) <==> EveryClassCloses(body, i + 2)
    ensures Backslashes(body, i + 2) % 2 == 0
  {
    BackslashesAfter(body, i);
    BackslashesAfter(body, i + 1);
    assert EveryClassCloses(body, i) <==> EveryClassCloses(body, i + 1);
    assert EveryClassCloses(body, i + 1) <==> EveryClassCloses(body, i + 2);
  }

  lemma ScanAtBracket(body: string, i: nat)
    requires i < |body| && body[i] == '[' && Backslashes(body, i) % 2 == 0
    ensures var rest := body[i..];
            var e := ClassEnd(rest, FirstMember(rest));
            if e.Some? && '/' !in rest[..e.value] then
              (EveryClassCloses(body, i) <==> EveryClassCloses(body, i + e.value + 1)) && Backslashes(body, i + e.value + 1) == 0
            else !EveryClassCloses(body, i)
  {
    var rest := body[i..];
    var e := ClassEnd(rest, FirstMember(rest));
    if e.Some? {
      assert body[i..i + e.value] == rest[..e.value] && body[i + e.value] == ']';
      BackslashesAfter(body, i + e.value);
    }
  }

  /** From a place that is not escaped, the matcher's reading of the rest of the
      line has an open bracket exactly when some class does not close. */
  lemma {:induction false} ScanAgrees(body: string, i: nat)
    requires i <= |body| && Backslashes(body, i) % 2 == 0
    ensures AllShut(body[i..]) <==> EveryClassCloses(body, i)
    decreases |body| - i, 2
  {
    if i == |body| {
      ShutAtEnd(body[i..]);
    } else if body[i] == BS {
      AgreesAtBackslash(body, i);
    } else if body[i] == '[' {
      AgreesAtBracket(body, i);
    } else {
      var rest := body[i..];
      BackslashesAfter(body, i);
      ScanAgrees(body, i + 1);
      assert rest[1..] == body[i + 1..];
      if body[i] == '/' {
        ShutAtSlash(rest);
      } else {
        ShutAtPlain(rest);
      }
    }
  }

  lemma {:induction false} AgreesAtBackslash(body: string, i: nat)
    requires i < |body| && body[i] == BS && Backslashes(body, i) % 2 == 0
    ensures AllShut(body[i..]) <==> EveryClassCloses(body, i)
    decreases |body| - i, 0
  {
    var rest := body[i..];
    if i + 1 == |body| {
      ShutAtEnd(rest);
      assert EveryClassCloses(body, i + 1);
    } else {
      ScanPassesEscape(body, i);
      ScanAgrees(body, i + 2);
      assert rest[2..] == body[i + 2..];
      if body[i + 1] == '/' {
        ShutAtLooseBackslash(rest);
      } else {
        ShutAtEscape(rest);
      }
    }
  }

  lemma {:induction false} AgreesAtBracket(body: string, i: nat)
    requires i < |body| && body[i] == '[' && Backslashes(body, i) % 2 == 0
    ensures AllShut(body[i..]) <==> EveryClassCloses(body, i)
    decreases |body| - i, 1
  {
    var rest := body[i..];
    var e := ClassEnd(rest, FirstMember(rest));
    ScanAtBracket(body, i);
    if e.None? || '/' in rest[..e.value] {
      OpenAtBracket(rest);
    } else {
      AgreesAfterClass(body, i, rest, e.value);
    }
  }

  lemma {:induction false} AgreesAfterClass(body: string, i: nat, rest: string, e: nat)
    requires i < |body| && body[i] == '[' && rest == body[i..]
    requires ClassEnd(rest, FirstMember(rest)) == Some(e) && '/' !in rest[..e] && Backslashes(body, i + e + 1) == 0
    requires EveryClassCloses(body, i) <==> EveryClassCloses(body, i + e + 1)
    ensures AllShut(rest) <==> EveryClassCloses(body, i)
    decreases |body| - i, 0
  {
    ShutAtClass(rest, e);
    ScanAgrees(body, i + e + 1);
    assert rest[e + 1..] == body[i + e + 1..];
  }

  /** The promise of the check, that no class of an accepted line stays open, is
      kept exactly for the lines in which every class closes. */
  lemma AcceptedIsClosedExactly(body: string)
    requires GoodBody(body)
    ensures NoneOpen(SlashPaths.Split(body)) <==> EveryClassCloses(body, 0)
  {
    assert body[0..] == body;
    ScanAgrees(body, 0);
  }

  // ---- The two ways past the check ----

  /** A bracket that the check takes for escaped, and the matcher does not. */
  predicate Mistaken(body: string, i: nat) {
    i < |body| && body[i] == '[' && Backslashes(body, i) > 0 && Backslashes(body, i) % 2 == 0
  }

  /** From `i` on, no class the check skips holds a slash, and no bracket it passes
      over is mistaken for an escaped one. */
  predicate ChecksOut(body: string, i: nat)
    requires i <= |body|
    decreases |body| - i
  {
    if i == |body| then true
    else if body[i] != '[' || (i > 0 && body[i - 1] == BS) then !Mistaken(body, i) && ChecksOut(body, i + 1)
    else
      match ClassEnd(body[i..], FirstMember(body[i..]))
      case None => false
      case Some(e) => '/' !in body[i..i + e] && ChecksOut(body, i + e + 1)
  }

  lemma {:induction false} ChecksOutCloses(body: string, i: nat)
    requires i <= |body| && ClassesClose(body, i)
    ensures ChecksOut(body, i) ==> EveryClassCloses(body, i)
    ensures (forall j :: i <= j < |body| ==> !Mistaken(body, j)) && EveryClassCloses(body, i) ==> ChecksOut(body, i)
    decreases |body| - i
  {
    if i < |body| {
      if body[i] != '[' || (i > 0 && body[i - 1] == BS) {
        ChecksOutCloses(body, i + 1);
      } else {
        var e := ClassEnd(body[i..], FirstMember(body[i..])).value;
        ChecksOutCloses(body, i + e + 1);
      }
    }
  }

  /** An accepted line with an open class has one of the two faults. Without a
      mistaken bracket the fault is exactly a class that spans a slash; a mistaken
      bracket does no harm when its class closes. */
  lemma TwoWaysPastTheCheck(body: string)
    requires GoodBody(body)
    ensures ChecksOut(body, 0) ==> NoneOpen(SlashPaths.Split(body))
    ensures (forall j :: 0 <= j < |body| ==> !Mistaken(body, j)) ==>
              (NoneOpen(SlashPaths.Split(body)) <==> ChecksOut(body, 0))
  {
    AcceptedIsClosedExactly(body);
    ChecksOutCloses(body, 0);
  }

  // ---- One line of each kind ----

  /** A bracket that opens no class matches only where the name ends, so a segment
      that wants another character after it matches nothing. */
  lemma OpenThenMoreMatchesNothing(ts: seq<Token>, i: nat, j: nat, name: string)
    requires i < j < |ts| && ts[i].Open? && (ts[j].Lit? || ts[j].AnyOne? || ts[j].Class?)
    ensures !exists pieces :: Cut(ts, pieces, name)
  {
    assert !PieceOk(ts[j], "");
    forall pieces ensures !Cut(ts, pieces, name) {
    }
  }

  /** "[a/b]" passes, is cut into two segments without a class, and matches no
      path at all. */
  lemma ClassAcrossSlashMatchesNothing(segs: seq<string>)
    ensures GoodBody("[a/b]") && !EveryClassCloses("[a/b]", 0)
    ensures !PathMatches(Collapse(SlashPaths.Split("[a/b]")), segs)
  {
    var body := "[a/b]";
    assert body[0..] == body;
    assert ClassEnd(body, 1) == Some(4);
    assert body[0..4][2] == '/';
    CutAtSlash();
    BrokenClassTokens();
    PathMatchesIsMatch(["[a", "b]"], segs);
    if segs != [] {
      OpenThenMoreMatchesNothing(Tokens("[a"), 0, 1, segs[0]);
    }
  }

  lemma CutAtSlash()
    ensures Collapse(SlashPaths.Split("[a/b]")) == ["[a", "b]"] && "[a" != STARS
  {
    assert "[a/b]" == "[a" + "/" + "b]";
    SlashPaths.SplitAtSlash("[a", "b]");
    SlashPaths.SplitOne("[a");
    SlashPaths.SplitOne("b]");
    assert SlashPaths.Split("[a/b]") == ["[a", "b]"];
    assert "[a"[0] != STARS[0];
    assert ["[a", "b]"][1..] == ["b]"] && Collapse(["[a", "b]"]) == ["[a"] + ["b]"];
  }

  lemma BrokenClassTokens()
    ensures Tokens("[a") == [Open, Lit('a')]
  {
    assert "[a"[1..] == "a" && "a"[1..] == "";
    assert ClassEnd("[a", 2) == None && ClassEnd("[a", 1) == None;
    assert Head("[a") == (Open, "a") && Head("a") == (Lit('a'), "");
  }

  const MISTAKEN := [BS, BS, '[', 'x']

  /** So does a bracket behind an escaped backslash, in one segment. */
  lemma MistakenBracketMatchesNothing(segs: seq<string>)
    ensures GoodBody(MISTAKEN) && !EveryClassCloses(MISTAKEN, 0) && Mistaken(MISTAKEN, 2)
    ensures !PathMatches(Collapse(SlashPaths.Split(MISTAKEN)), segs)
  {
    var body := MISTAKEN;
    SlashPaths.SplitOne(body);
    MistakenTokens();
    PathMatchesIsMatch([body], segs);
    assert body[0] != STARS[0];
    if segs != [] {
      OpenThenMoreMatchesNothing(Tokens(body), 1, 2, segs[0]);
    }
  }

  lemma MistakenTokens()
    ensures Tokens(MISTAKEN) == [Lit(BS), Open, Lit('x')]
    ensures GoodBody(MISTAKEN) && !EveryClassCloses(MISTAKEN, 0) && Mistaken(MISTAKEN, 2)
  {
    var body := MISTAKEN;
    assert body[2..] == "[x" && "[x"[1..] == "x" && "x"[1..] == "";
    assert ClassEnd("[x", 2) == None && ClassEnd("[x", 1) == None;
    assert Head(body) == (Lit(BS), "[x") && Head("[x") == (Open, "x") && Head("x") == (Lit('x'), "");
    assert Backslashes(body, 0) == 0 && Backslashes(body, 1) == 1 && Backslashes(body, 2) == 2;
    assert !EveryClassCloses(body, 2) && !EveryClassCloses(body, 1);
    assert ClassesClose(body, 4) && ClassesClose(body, 3) && ClassesClose(body, 2) && ClassesClose(body, 1);
  }
}
