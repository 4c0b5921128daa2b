/** Exclude lines and how they decide a path (compileGitignore, matchesHow). */
module Gitignore {
  import opened Options
  import opened SegmentGlob
  import opened PathGlob
  import SlashPaths

  datatype Pattern = Pattern(line: string, negate: bool, dirOnly: bool, anchored: bool, segments: seq<string>)

  datatype Result<T> = Ok(value: T) | BadPattern(line: nat)

  // ---- Parsing ----

  function TrimCR(s: string): (r: string)
    ensures r <= s
  {
    if s != "" && s[|s| - 1] == '\r' then TrimCR(s[..|s| - 1]) else s
  }

  /** How many backslashes stand right before position `i`. */
  function Backslashes(s: string, i: nat): (n: nat)
    requires i <= |s|
    ensures n <= i
  {
    if i > 0 && s[i - 1] == BS then 1 + Backslashes(s, i - 1) else 0
  }

  /** Trailing spaces go, up to one that an odd run of backslashes escapes. */
  function TrimSpaces(s: string): (r: string)
    ensures r <= s
  {
    if s != "" && s[|s| - 1] == ' ' && Backslashes(s, |s| - 1) % 2 == 0 then TrimSpaces(s[..|s| - 1]) else s
  }

  method TrimRightUnescapedSpace(line: string) returns (r: string)
    ensures r == TrimSpaces(line)
  {
    var end := |line|;
    assert line[..end] == line;
    while end > 0 && line[end - 1] == ' '
      invariant 0 <= end <= |line| && TrimSpaces(line) == TrimSpaces(line[..end])
    {
      var bs := 0;
      var i := end - 2;
      while i >= 0 && line[i] == BS
        invariant -1 <= i <= end - 2 && bs == end - 2 - i
        invariant Backslashes(line[..end], end - 1) == bs + Backslashes(line[..end], i + 1)
      {
        bs := bs + 1;
        i := i - 1;
      }
      if bs % 2 == 1 {
        break;
      }
      assert line[..end][..end - 1] == line[..end - 1];
      end := end - 1;
    }
    r := line[..end];
  }

  /** One more trailing space makes no difference, unless a backslash escapes it. */
  lemma TrailingSpaceExactly(s: string)
    ensures TrimSpaces(s + " ") == if Backslashes(s, |s|) % 2 == 0 then TrimSpaces(s) else s + " "
  {
    var t := s + " ";
    assert t[..|t| - 1] == s;
    SameBackslashes(s, " ", |s|);
  }

  lemma {:induction false} SameBackslashes(s: string, more: string, i: nat)
    requires i <= |s|
    ensures Backslashes(s + more, i) == Backslashes(s, i)
    decreases i
  {
    if i > 0 {
      SameBackslashes(s, more, i - 1);
    }
  }

  /** Does every class that opens from `i` on close? An escaped bracket opens
      none, and a bracket inside a class is a member. */
  predicate ClassesClose(body: string, i: nat)
    requires i <= |body|
    decreases |body| - i
  {
    if i == |body| then true
    else if body[i] != '[' || (i > 0 && body[i - 1] == BS) then ClassesClose(body, i + 1)
    else
      match ClassEnd(body[i..], FirstMember(body[i..]))
      case None => false
      case Some(e) => ClassesClose(body, i + e + 1)
  }

  predicate GoodBody(body: string) {
    ClassesClose(body, 0) && (body != "" ==> body[|body| - 1] != BS) && '\0' !in body
  }

  /** Reads on from `i`: past one character, or past one class. */
  method ReadOn(body: string, i: nat) returns (closed: bool, next: nat)
    requires i < |body|
    ensures closed ==> i < next <= |body| && ClassesClose(body, i) == ClassesClose(body, next)
    ensures !closed ==> !ClassesClose(body, i)
  {
    closed, next := true, i + 1;
    if body[i] == '[' && !(i > 0 && body[i - 1] == BS) {
      var _, rest, found := SplitClass(body[i..]);
      closed := found;
      if closed {
        next := |body| - |rest|;
      }
    }
  }

  method CheckClasses(body: string) returns (ok: bool)
    ensures ok <==> ClassesClose(body, 0)
  {
    var i := 0;
    while i < |body|
      invariant 0 <= i <= |body| && ClassesClose(body, 0) == ClassesClose(body, i)
      decreases |body| - i
    {
      ok, i := ReadOn(body, i);
      if !ok {
        return;
      }
    }
    ok := true;
  }

  method ParseSegments(body: string) returns (ok: bool, out: seq<string>)
    ensures ok <==> GoodBody(body)
    ensures ok ==> out == Collapse(SlashPaths.Split(body))
  {
    out := [];
    ok := CheckClasses(body);
    if !ok {
      return;
    }
    if |body| > 0 && body[|body| - 1] == BS {
      return false, [];
    }
    if '\0' in body {
      return false, [];
    }
    out := CollapseRuns(SlashPaths.Split(body));
  }

  method CollapseRuns(segments: seq<string>) returns (out: seq<string>)
    ensures out == Collapse(segments)
  {
    out := [];
    for i := 0 to |segments|
      invariant out == Collapse(segments[..i])
      invariant i > 0 ==> out != [] && out[|out| - 1] == segments[i - 1]
    {
      CollapseSnoc(segments[..i], segments[i]);
      assert segments[..i + 1] == segments[..i] + [segments[i]];
      if !(segments[i] == STARS && |out| > 0 && out[|out| - 1] == STARS) {
        out := out + [segments[i]];
      }
    }
    assert segments[..|segments|] == segments;
  }

  lemma {:induction false} CollapseSnoc(pat: seq<string>, p: string)
    ensures pat != [] ==> Collapse(pat)[|Collapse(pat)| - 1] == pat[|pat| - 1]
    ensures Collapse(pat + [p]) ==
            if pat != [] && pat[|pat| - 1] == STARS && p == STARS then Collapse(pat) else Collapse(pat) + [p]
    decreases |pat|
  {
    var all := pat + [p];
    if |pat| > 1 {
      CollapseSnoc(pat[1..], p);
      assert all[1..] == pat[1..] + [p];
    } else if |pat| == 1 {
      assert all[1..] == [p];
    }
  }

  datatype Line = Skip | Bad | Good(pattern: Pattern)

  function BodyOf(line: string): (r: (bool, string)) {
    if "!" <= line then (true, line[1..])
    else if "\\!" <= line then (false, line[1..])
    else (false, line)
  }

  /** What one exclude line means. */
  function ParseLine(raw: string): Line {
    var line := TrimCR(raw);
    if "#" <= line then Skip
    else
      var text := TrimSpaces(line);
      var (negate, body) := BodyOf(text);
      if text == "" || body == "" then Skip else ParseBody(raw, negate, body)
  }

  function ParseBody(raw: string, negate: bool, body: string): Line
    requires body != ""
  {
    var anchored := "/" <= body || '/' in SlashPaths.TrimSlash(body);
    var rooted := if "/" <= body then body[1..] else body;
    var bare := SlashPaths.TrimSlash(rooted);
    if !GoodBody(bare) then Bad
    else Good(Pattern(raw, negate, bare != rooted, anchored, Collapse(SlashPaths.Split(bare))))
  }

  function Good1(l: Line): seq<Pattern> {
    if l.Good? then [l.pattern] else []
  }

  function Parsed(lines: seq<string>): seq<Pattern> {
    if lines == [] then [] else Parsed(lines[..|lines| - 1]) + Good1(ParseLine(lines[|lines| - 1]))
  }

  method CompileLine(raw: string) returns (l: Line)
    ensures l == ParseLine(raw)
  {
    var line := TrimCR(raw);
    if "#" <= line {
      return Skip;
    }
    line := TrimRightUnescapedSpace(line);
    if line == "" {
      return Skip;
    }
    var negate, body := false, line;
    if "!" <= body {
      negate, body := true, body[1..];
    } else if "\\!" <= body {
      body := body[1..];
    }
    if body == "" {
      return Skip;
    }
    l := CompileBody(raw, negate, body);
  }

  /** The part of a line after its negation. A slash anywhere but at the end
      anchors the pattern; one at the end makes it match directories only. */
  method CompileBody(raw: string, negate: bool, text: string) returns (l: Line)
    requires text != ""
    ensures l == ParseBody(raw, negate, text)
  {
    var dirOnly, anchored, body := false, false, text;
    var trimmed := SlashPaths.TrimSlash(body);
    if "/" <= body || '/' in trimmed {
      anchored := true;
    }
    if "/" <= body {
      body := body[1..];
      trimmed := SlashPaths.TrimSlash(body);
    }
    if body != "" && body[|body| - 1] == '/' {
      dirOnly, body := true, trimmed;
    }
    var ok, segments := ParseSegments(body);
    if !ok {
      return Bad;
    }
    l := Good(Pattern(raw, negate, dirOnly, anchored, segments));
  }

  predicate WellFormed(lines: seq<string>) {
    lines == [] || (WellFormed(lines[..|lines| - 1]) && !ParseLine(lines[|lines| - 1]).Bad?)
  }

  lemma Snoc(lines: seq<string>, i: nat, l: Line)
    requires i < |lines| && l == ParseLine(lines[i])
    ensures Parsed(lines[..i + 1]) == Parsed(lines[..i]) + Good1(l)
    ensures WellFormed(lines[..i + 1]) <==> WellFormed(lines[..i]) && !l.Bad?
  {
    assert lines[..i + 1][..i] == lines[..i] && lines[..i + 1][i] == lines[i];
  }

  method CompileNext(lines: seq<string>, i: nat, patterns: seq<Pattern>) returns (ok: bool, more: seq<Pattern>)
    requires i < |lines| && patterns == Parsed(lines[..i]) && WellFormed(lines[..i])
    ensures ok <==> WellFormed(lines[..i + 1])
    ensures ok ==> more == Parsed(lines[..i + 1])
  {
    var l := CompileLine(lines[i]);
    Snoc(lines, i, l);
    ok, more := !l.Bad?, patterns + Good1(l);
  }

  /** Compiles the lines in order, or names the first one that is malformed. */
  method CompileGitignore(lines: seq<string>) returns (r: Result<seq<Pattern>>)
    ensures r.Ok? ==> WellFormed(lines) && r.value == Parsed(lines)
    ensures r.BadPattern? ==> 1 <= r.line <= |lines| && WellFormed(lines[..r.line - 1]) && !WellFormed(lines[..r.line])
  {
    var patterns: seq<Pattern> := [];
    for i := 0 to |lines|
      invariant patterns == Parsed(lines[..i]) && WellFormed(lines[..i])
    {
      var ok;
      ok, patterns := CompileNext(lines, i, patterns);
      if !ok {
        return BadPattern(i + 1);
      }
    }
    assert lines[..|lines|] == lines;
    r := Ok(patterns);
  }

  predicate HasNegation(lines: seq<string>) {
    exists i :: 0 <= i < |lines| && "!" <= lines[i]
  }

  lemma PrefixKept(r: string, s: string, p: string)
    requires r <= s && p <= r
    ensures p <= s
  {
  }

  /** Every pattern keeps the "**" collapsed, and one without an anchor is a
      single segment. */
  lemma LineShape(raw: string)
    requires ParseLine(raw).Good?
    ensures var p := ParseLine(raw).pattern;
            NoDoubleStars(p.segments) && (!p.anchored ==> |p.segments| == 1) && (p.negate ==> "!" <= raw)
  {
    var line := TrimCR(raw);
    var text := TrimSpaces(line);
    var (negate, body) := BodyOf(text);
    var rooted := if "/" <= body then body[1..] else body;
    CollapseHasNoDoubles(SlashPaths.Split(SlashPaths.TrimSlash(rooted)));
    if negate {
      PrefixKept(text, line, "!");
      PrefixKept(line, raw, "!");
    }
    if !ParseLine(raw).pattern.anchored {
      SlashPaths.SplitOne(SlashPaths.TrimSlash(body));
    }
  }

  /** When no line starts with "!", no pattern re-includes anything. */
  lemma {:induction false} NoNegation(lines: seq<string>)
    requires !HasNegation(lines)
    ensures forall i :: 0 <= i < |Parsed(lines)| ==> !Parsed(lines)[i].negate
    decreases |lines|
  {
    if lines != [] {
      var n := |lines| - 1;
      forall i | 0 <= i < n ensures !("!" <= lines[..n][i]) {
        assert lines[..n][i] == lines[i];
      }
      NoNegation(lines[..n]);
      if ParseLine(lines[n]).Good? {
        LineShape(lines[n]);
      }
    }
  }

  // ---- Deciding a path ----

  /** One pattern against one path. */
  ghost predicate Names(p: Pattern, segs: seq<string>, isDir: bool) {
    && (p.dirOnly ==> isDir)
    && if p.anchored then PathMatches(p.segments, segs)
       else segs != [] && PathMatches(p.segments, segs[|segs| - 1..])
  }

  method MatchesPath(p: Pattern, segs: seq<string>, isDir: bool) returns (r: bool)
    ensures r <==> Names(p, segs, isDir)
  {
    if p.dirOnly && !isDir {
      return false;
    }
    if p.anchored {
      r := MatchSegmentsExact(p.segments, segs);
      return;
    }
    if |segs| == 0 {
      return false;
    }
    r := MatchSegmentsExact(p.segments, segs[|segs| - 1..]);
  }

  /** `i` is the last pattern that names the path. */
  ghost predicate LastNaming(ps: seq<Pattern>, segs: seq<string>, isDir: bool, i: int) {
    && 0 <= i < |ps| && Names(ps[i], segs, isDir)
    && forall j :: i < j < |ps| ==> !Names(ps[j], segs, isDir)
  }

  ghost predicate NoneNames(ps: seq<Pattern>, segs: seq<string>, isDir: bool) {
    forall j :: 0 <= j < |ps| ==> !Names(ps[j], segs, isDir)
  }

  method LastMatchIdx(ps: seq<Pattern>, segs: seq<string>, isDir: bool) returns (excluded: bool, idx: int, decided: bool)
    ensures decided ==> LastNaming(ps, segs, isDir, idx) && excluded == !ps[idx].negate
    ensures !decided ==> NoneNames(ps, segs, isDir) && idx == -1
  {
    var i := |ps| - 1;
    while i >= 0
      invariant -1 <= i < |ps| && forall j :: i < j < |ps| ==> !Names(ps[j], segs, isDir)
    {
      var m := MatchesPath(ps[i], segs, isDir);
      if m {
        return !ps[i].negate, i, true;
      }
      i := i - 1;
    }
    return false, -1, false;
  }

  /** Line `i` excludes one of the directories above the path. */
  ghost predicate ExcludesAbove(ps: seq<Pattern>, segs: seq<string>, i: int) {
    exists k :: 1 <= k < |segs| && LastNaming(ps, segs[..k], true, i) && !ps[i].negate
  }

  /** Line `i` decides the path itself. */
  ghost predicate DecidesLeaf(ps: seq<Pattern>, segs: seq<string>, isDir: bool, i: int, negate: bool) {
    LastNaming(ps, segs, isDir, i) && ps[i].negate == negate
  }

  /**
  The rule: a path is excluded when the last line naming it excludes it, or when
  some directory above it is excluded and the path is not re-included by a line
  later than every line that excludes such a directory.
  */
  ghost predicate Excluded(ps: seq<Pattern>, segs: seq<string>, isDir: bool) {
    || (exists i :: DecidesLeaf(ps, segs, isDir, i, false))
    || (exists a :: ExcludesAbove(ps, segs, a)
                    && forall i :: DecidesLeaf(ps, segs, isDir, i, true) ==> exists b :: ExcludesAbove(ps, segs, b) && i <= b)
  }

  lemma LastNamingUnique(ps: seq<Pattern>, segs: seq<string>, isDir: bool, i: int, j: int)
    requires LastNaming(ps, segs, isDir, i) && LastNaming(ps, segs, isDir, j)
    ensures i == j
  {
  }

  /** The largest index of a line that excludes a directory above the path. */
  method DecidingAncestor(ps: seq<Pattern>, segs: seq<string>) returns (deciding: int)
    ensures deciding == -1 ==> forall a :: !ExcludesAbove(ps, segs, a)
    ensures deciding != -1 ==> deciding >= 0 && ExcludesAbove(ps, segs, deciding)
                               && forall a :: ExcludesAbove(ps, segs, a) ==> a <= deciding
  {
    deciding := -1;
    var k := |segs| - 1;
    while k >= 1
      invariant k < |segs| && deciding >= -1
      invariant deciding != -1 ==> ExcludesAbove(ps, segs, deciding)
      invariant forall j, a {:trigger LastNaming(ps, segs[..j], true, a)} ::
                  k < j < |segs| && 1 <= j && LastNaming(ps, segs[..j], true, a) && !ps[a].negate ==> a <= deciding
    {
      var excluded, idx, decided := LastMatchIdx(ps, segs[..k], true);
      if decided {
        forall a | LastNaming(ps, segs[..k], true, a) ensures a == idx {
          LastNamingUnique(ps, segs[..k], true, a, idx);
        }
      }
      if decided && excluded && idx > deciding {
        deciding := idx;
      }
      k := k - 1;
    }
  }

  method MatchesHow(ps: seq<Pattern>, segs: seq<string>, isDir: bool) returns (excluded: bool)
    ensures excluded <==> Excluded(ps, segs, isDir)
  {
    var leafExcluded, leafIdx, leafDecided := LastMatchIdx(ps, segs, isDir);
    if leafDecided {
      forall i | LastNaming(ps, segs, isDir, i) ensures i == leafIdx {
        LastNamingUnique(ps, segs, isDir, i, leafIdx);
      }
    }
    if leafDecided && leafExcluded {
      assert DecidesLeaf(ps, segs, isDir, leafIdx, false);
      return true;
    }
    var deciding := DecidingAncestor(ps, segs);
    if deciding != -1 {
      if leafDecided && leafIdx > deciding {
        assert DecidesLeaf(ps, segs, isDir, leafIdx, true);
        return false;
      }
      assert ExcludesAbove(ps, segs, deciding);
      return true;
    }
    excluded := false;
  }

  /** Without re-includes, everything below an excluded directory is excluded. */
  lemma ExcludedBelow(ps: seq<Pattern>, dir: seq<string>, path: seq<string>, isDir: bool)
    requires forall i :: 0 <= i < |ps| ==> !ps[i].negate
    requires dir != [] && dir <= path && dir != path && Excluded(ps, dir, true)
    ensures Excluded(ps, path, isDir)
  {
    assert path[..|dir|] == dir;
    if i :| DecidesLeaf(ps, dir, true, i, false) {
      assert LastNaming(ps, path[..|dir|], true, i);
      assert ExcludesAbove(ps, path, i);
    } else {
      var a :| ExcludesAbove(ps, dir, a);
      var k :| 1 <= k < |dir| && LastNaming(ps, dir[..k], true, a) && !ps[a].negate;
      assert path[..k] == dir[..k];
      assert ExcludesAbove(ps, path, a);
    }
  }
}
