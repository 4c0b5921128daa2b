/** What an exclude line means, read from its text, and what one more line
    changes (compileGitignore, matchesHow). */
module ExcludeLines {
  import opened SegmentGlob
  import opened PathGlob
  import opened Gitignore
  import SlashPaths

  /** The line without the carriage returns and the blanks at its end. */
  function TextOf(raw: string): string {
    TrimSpaces(TrimCR(raw))
  }

  /** The text behind a "!", or behind the backslash that makes one literal. */
  function NamePart(text: string): string {
    if "!" <= text || "\\!" <= text then text[1..] else text
  }

  /** A slash at the end: the line names directories only. */
  predicate ForDirectories(b: string) {
    |b| > 1 && b[|b| - 1] == '/'
  }

  /** A slash anywhere else: the line is read from the root. */
  predicate FromRoot(b: string) {
    exists i :: 0 <= i < |b| && b[i] == '/' && (i == 0 || i < |b| - 1)
  }

  /** The pieces between the slashes, but for one at either end. */
  ghost predicate PiecesOf(b: string, pieces: seq<string>) {
    && pieces != [] && (forall i :: 0 <= i < |pieces| ==> '/' !in pieces[i])
    && Between(b, SlashPaths.Join(pieces))
  }

  /** The text is `core` between the slashes at its ends. */
  predicate Between(b: string, core: string) {
    b == (if "/" <= b then "/" else "") + core + (if ForDirectories(b) then "/" else "")
  }

  /** What a text names. One that is read from the root is matched against the
      whole path, any other one against its last segment. */
  ghost predicate TextNames(b: string, segs: seq<string>, isDir: bool) {
    && (ForDirectories(b) ==> isDir)
    && exists pieces :: PiecesOf(b, pieces) &&
         if FromRoot(b) then PathMatches(pieces, segs) else segs != [] && PathMatches(pieces, segs[|segs| - 1..])
  }

  lemma {:induction false} JoinSplit(s: string)
    ensures SlashPaths.Join(SlashPaths.Split(s)) == s
    decreases |s|
  {
    var i, all := SlashPaths.FirstSlash(s), SlashPaths.Split(s);
    if i < |s| {
      var more := SlashPaths.Split(s[i + 1..]);
      JoinSplit(s[i + 1..]);
      assert all[1..] == more && all[0] == s[..i];
      assert SlashPaths.Join(all) == s[..i] + "/" + s[i + 1..];
    }
  }

  /** A text has one list of pieces. */
  lemma PiecesUnique(b: string, x: seq<string>, y: seq<string>)
    requires PiecesOf(b, x) && PiecesOf(b, y)
    ensures x == y
  {
    SlashPaths.SplitJoin(x);
    SlashPaths.SplitJoin(y);
    OneCore(b, SlashPaths.Join(x), SlashPaths.Join(y));
  }

  lemma OneCore(b: string, x: string, y: string)
    requires Between(b, x) && Between(b, y)
    ensures x == y
  {
    var n := if "/" <= b then 1 else 0;
    assert b[n..n + |x|] == x && b[n..n + |y|] == y;
  }

  /** The core is what is left without a slash at either end. */
  lemma CoreIs(b: string)
    requires b != ""
    ensures var rooted := if "/" <= b then b[1..] else b;
            var bare := SlashPaths.TrimSlash(rooted);
            Between(b, bare) && (bare != rooted <==> ForDirectories(b))
  {
    var rooted := if "/" <= b then b[1..] else b;
    var bare := SlashPaths.TrimSlash(rooted);
    assert b == (if "/" <= b then "/" else "") + rooted;
    assert rooted != "" ==> rooted[|rooted| - 1] == b[|b| - 1];
    if ForDirectories(b) {
      assert rooted == bare + "/";
    }
  }

  lemma BodyMeans(raw: string, negate: bool, b: string)
    requires b != "" && ParseBody(raw, negate, b).Good?
    ensures var p := ParseBody(raw, negate, b).pattern;
            && p.negate == negate && (p.dirOnly <==> ForDirectories(b)) && (p.anchored <==> FromRoot(b))
            && exists pieces :: PiecesOf(b, pieces) && p.segments == Collapse(pieces)
  {
    var rooted := if "/" <= b then b[1..] else b;
    var bare := SlashPaths.TrimSlash(rooted);
    var pieces := SlashPaths.Split(bare);
    JoinSplit(bare);
    SlashPaths.SplitHasNoSlash(bare);
    CoreIs(b);
    assert PiecesOf(b, pieces);
    AnchoredExactly(b);
  }

  lemma AnchoredExactly(b: string)
    requires b != ""
    ensures FromRoot(b) <==> "/" <= b || '/' in SlashPaths.TrimSlash(b)
  {
    var t := SlashPaths.TrimSlash(b);
    if '/' in t {
      var i :| 0 <= i < |t| && t[i] == '/';
      assert b[i] == '/' && i < |b| - 1;
    }
    if "/" <= b {
      assert b[0] == '/';
    }
    if FromRoot(b) {
      var i :| 0 <= i < |b| && b[i] == '/' && (i == 0 || i < |b| - 1);
      if i == 0 {
        assert "/" <= b;
      } else {
        assert t[i] == '/';
      }
    }
  }

  /** What trimming cuts off: carriage returns, all of them. */
  lemma {:induction false} TrimCRExactly(s: string)
    ensures var r := TrimCR(s);
            && r <= s && (forall i :: |r| <= i < |s| ==> s[i] == '\r')
            && (r != "" ==> r[|r| - 1] != '\r')
    decreases |s|
  {
    if s != "" && s[|s| - 1] == '\r' {
      TrimCRExactly(s[..|s| - 1]);
    }
  }

  /** And then blanks, up to one that a backslash escapes. */
  lemma {:induction false} TrimSpacesExactly(s: string)
    ensures var r := TrimSpaces(s);
            && r <= s && (forall i :: |r| <= i < |s| ==> s[i] == ' ')
            && (r != "" && r[|r| - 1] == ' ' ==> Backslashes(r, |r| - 1) % 2 == 1)
    decreases |s|
  {
    if s != "" && s[|s| - 1] == ' ' && Backslashes(s, |s| - 1) % 2 == 0 {
      TrimSpacesExactly(s[..|s| - 1]);
    }
  }

  /** Trimming leaves the beginning of a line alone. */
  lemma BeginningKept(raw: string, c: char)
    requires c != '\r' && c != ' '
    ensures [c] <= raw <==> [c] <= TextOf(raw)
    ensures [c] <= raw <==> [c] <= TrimCR(raw)
  {
    TrimCRExactly(raw);
    TrimSpacesExactly(TrimCR(raw));
    FirstKept(raw, TrimCR(raw), c);
    FirstKept(TrimCR(raw), TextOf(raw), c);
  }

  lemma FirstKept(s: string, r: string, c: char)
    requires r <= s && forall i :: |r| <= i < |s| ==> s[i] != c
    ensures [c] <= s <==> [c] <= r
  {
    assert [c] <= s <==> s != "" && s[0] == c;
    assert [c] <= r <==> r != "" && r[0] == c;
  }

  /** Which lines say nothing. */
  lemma SkippedExactly(raw: string)
    ensures ParseLine(raw).Skip? <==> "#" <= raw || TextOf(raw) == "" || TextOf(raw) == "!"
  {
    BeginningKept(raw, '#');
  }

  /** What a compiled line is, as its text says: a re-include exactly when the
      line starts with "!", for directories only exactly when a slash ends it,
      read from the root exactly when a slash stands anywhere else, and the pieces
      between the slashes with runs of "**" collapsed. */
  lemma LineMeans(raw: string)
    requires ParseLine(raw).Good?
    ensures var p, b := ParseLine(raw).pattern, NamePart(TextOf(raw));
            && (p.negate <==> "!" <= raw) && (p.dirOnly <==> ForDirectories(b)) && (p.anchored <==> FromRoot(b))
            && exists pieces :: PiecesOf(b, pieces) && p.segments == Collapse(pieces)
  {
    var text := TextOf(raw);
    BeginningKept(raw, '!');
    BodyMeans(raw, "!" <= text, NamePart(text));
  }

  /** So a compiled line names what its text names. */
  lemma LineNamesExactly(raw: string, segs: seq<string>, isDir: bool)
    requires ParseLine(raw).Good?
    ensures Names(ParseLine(raw).pattern, segs, isDir) <==> TextNames(NamePart(TextOf(raw)), segs, isDir)
  {
    LineMeans(raw);
    var p, b := ParseLine(raw).pattern, NamePart(TextOf(raw));
    var pieces :| PiecesOf(b, pieces) && p.segments == Collapse(pieces);
    CollapsedMatches(pieces, segs);
    if segs != [] {
      CollapsedMatches(pieces, segs[|segs| - 1..]);
    }
    forall x | PiecesOf(b, x) ensures x == pieces {
      PiecesUnique(b, x, pieces);
    }
  }

  lemma CollapsedMatches(pieces: seq<string>, segs: seq<string>)
    ensures PathMatches(Collapse(pieces), segs) <==> PathMatches(pieces, segs)
  {
    CollapseKeepsMeaning(pieces, segs);
    PathMatchesIsMatch(Collapse(pieces), segs);
    PathMatchesIsMatch(pieces, segs);
  }

  // ---- One more line ----

  lemma ParsedSnoc(lines: seq<string>, raw: string)
    requires ParseLine(raw).Good?
    ensures Parsed(lines + [raw]) == Parsed(lines) + [ParseLine(raw).pattern]
    ensures WellFormed(lines + [raw]) <==> WellFormed(lines)
  {
    assert (lines + [raw])[..|lines|] == lines;
  }

  /** The last pattern that names a path, with one pattern more. */
  lemma LastNamingSnoc(ps: seq<Pattern>, p: Pattern, segs: seq<string>, isDir: bool, i: int)
    ensures LastNaming(ps + [p], segs, isDir, i) <==>
            if Names(p, segs, isDir) then i == |ps| else LastNaming(ps, segs, isDir, i)
  {
    var all := ps + [p];
    assert all[|ps|] == p;
    assert forall j :: 0 <= j < |ps| ==> all[j] == ps[j];
    if Names(p, segs, isDir) {
      assert LastNaming(all, segs, isDir, i) ==> i == |ps| by {
        assert 0 <= i < |ps| ==> !LastNaming(all, segs, isDir, i);
      }
    } else {
      assert !LastNaming(all, segs, isDir, |ps|);
    }
  }

  /** The new pattern takes a directory above the path away from the excluding
      ones, or is itself the one that excludes it. */
  lemma AboveSnoc(ps: seq<Pattern>, p: Pattern, segs: seq<string>, a: int)
    ensures ExcludesAbove(ps + [p], segs, a) ==> (a == |ps| && !p.negate) || (a < |ps| && ExcludesAbove(ps, segs, a))
    ensures !p.negate && (exists k :: 1 <= k < |segs| && Names(p, segs[..k], true)) ==> ExcludesAbove(ps + [p], segs, |ps|)
    ensures (forall k :: 1 <= k < |segs| ==> !Names(p, segs[..k], true)) && ExcludesAbove(ps, segs, a) ==>
              ExcludesAbove(ps + [p], segs, a)
  {
    var all := ps + [p];
    assert all[|ps|] == p && forall j :: 0 <= j < |ps| ==> all[j] == ps[j];
    forall k, i {:trigger LastNaming(all, segs[..k], true, i)} | 1 <= k < |segs|
      ensures LastNaming(all, segs[..k], true, i) <==>
              if Names(p, segs[..k], true) then i == |ps| else LastNaming(ps, segs[..k], true, i)
    {
      LastNamingSnoc(ps, p, segs[..k], true, i);
    }
    if !p.negate && exists k :: 1 <= k < |segs| && Names(p, segs[..k], true) {
      var k :| 1 <= k < |segs| && Names(p, segs[..k], true);
      LastNamingSnoc(ps, p, segs[..k], true, |ps|);
    }
    if ExcludesAbove(ps, segs, a) {
      var k :| 1 <= k < |segs| && LastNaming(ps, segs[..k], true, a) && !ps[a].negate;
      LastNamingSnoc(ps, p, segs[..k], true, a);
    }
  }

  /** The text names a directory above the path. */
  ghost predicate NamesAbove(b: string, segs: seq<string>) {
    exists k :: 1 <= k < |segs| && TextNames(b, segs[..k], true)
  }

  lemma AboveByText(raw: string, segs: seq<string>)
    requires ParseLine(raw).Good?
    ensures NamesAbove(NamePart(TextOf(raw)), segs) <==>
            exists k :: 1 <= k < |segs| && Names(ParseLine(raw).pattern, segs[..k], true)
  {
    forall k | 1 <= k < |segs|
      ensures Names(ParseLine(raw).pattern, segs[..k], true) <==> TextNames(NamePart(TextOf(raw)), segs[..k], true)
    {
      LineNamesExactly(raw, segs[..k], true);
    }
  }

  lemma SnocNamed(ps: seq<Pattern>, p: Pattern, segs: seq<string>, isDir: bool)
    requires Names(p, segs, isDir)
    ensures Excluded(ps + [p], segs, isDir) <==> !p.negate
  {
    forall i ensures LastNaming(ps + [p], segs, isDir, i) <==> i == |ps| {
      LastNamingSnoc(ps, p, segs, isDir, i);
    }
    if p.negate {
      assert DecidesLeaf(ps + [p], segs, isDir, |ps|, true);
      forall a | ExcludesAbove(ps + [p], segs, a) ensures a < |ps| {
        AboveSnoc(ps, p, segs, a);
      }
    } else {
      assert DecidesLeaf(ps + [p], segs, isDir, |ps|, false);
    }
  }

  /** A path the new pattern does not name is decided by the lines it was decided
      by, as far as the path itself goes. */
  lemma SnocLeaf(ps: seq<Pattern>, p: Pattern, segs: seq<string>, isDir: bool, i: int, negate: bool)
    requires !Names(p, segs, isDir)
    ensures DecidesLeaf(ps + [p], segs, isDir, i, negate) <==> DecidesLeaf(ps, segs, isDir, i, negate)
  {
    LastNamingSnoc(ps, p, segs, isDir, i);
  }

  lemma SnocAboveExcludes(ps: seq<Pattern>, p: Pattern, segs: seq<string>, isDir: bool)
    requires !Names(p, segs, isDir) && !p.negate
    requires exists k :: 1 <= k < |segs| && Names(p, segs[..k], true)
    ensures Excluded(ps + [p], segs, isDir)
  {
    AboveSnoc(ps, p, segs, |ps|);
    forall i | DecidesLeaf(ps + [p], segs, isDir, i, true) ensures i <= |ps| {
      SnocLeaf(ps, p, segs, isDir, i, true);
    }
  }

  lemma SnocUnnamed(ps: seq<Pattern>, p: Pattern, segs: seq<string>, isDir: bool)
    requires !Names(p, segs, isDir)
    requires p.negate || forall k :: 1 <= k < |segs| ==> !Names(p, segs[..k], true)
    ensures Excluded(ps + [p], segs, isDir) ==> Excluded(ps, segs, isDir)
    ensures (forall k :: 1 <= k < |segs| ==> !Names(p, segs[..k], true)) && Excluded(ps, segs, isDir) ==>
              Excluded(ps + [p], segs, isDir)
  {
    forall i, negate ensures DecidesLeaf(ps + [p], segs, isDir, i, negate) <==> DecidesLeaf(ps, segs, isDir, i, negate) {
      SnocLeaf(ps, p, segs, isDir, i, negate);
    }
    forall a | ExcludesAbove(ps + [p], segs, a) ensures ExcludesAbove(ps, segs, a) {
      AboveSnoc(ps, p, segs, a);
      NotItself(ps, p, segs, a);
    }
    if forall k :: 1 <= k < |segs| ==> !Names(p, segs[..k], true) {
      forall a ensures ExcludesAbove(ps, segs, a) ==> ExcludesAbove(ps + [p], segs, a) {
        AboveSnoc(ps, p, segs, a);
      }
    }
  }

  lemma NotItself(ps: seq<Pattern>, p: Pattern, segs: seq<string>, a: int)
    requires p.negate || forall k :: 1 <= k < |segs| ==> !Names(p, segs[..k], true)
    requires ExcludesAbove(ps + [p], segs, a)
    ensures a < |ps|
  {
    var k :| 1 <= k < |segs| && LastNaming(ps + [p], segs[..k], true, a) && !(ps + [p])[a].negate;
    assert (ps + [p])[|ps|] == p;
  }

  /**
  What one more line does, said on texts alone. A path it names is excluded
  exactly when the line does not start with "!", whatever the lines before say
  and whatever directories above the path they exclude. Without a "!" it
  excludes what lies below a directory it names as well. With one it excludes
  nothing that was not excluded before. For every other path nothing changes.
  */
  lemma LastLineDecides(lines: seq<string>, raw: string, segs: seq<string>, isDir: bool)
    requires ParseLine(raw).Good?
    ensures var b, all, before := NamePart(TextOf(raw)), Parsed(lines + [raw]), Parsed(lines);
            && (TextNames(b, segs, isDir) ==> (Excluded(all, segs, isDir) <==> !("!" <= raw)))
            && (NamesAbove(b, segs) && !("!" <= raw) ==> Excluded(all, segs, isDir))
            && (!TextNames(b, segs, isDir) && "!" <= raw && Excluded(all, segs, isDir) ==> Excluded(before, segs, isDir))
            && (!TextNames(b, segs, isDir) && !NamesAbove(b, segs) ==>
                  (Excluded(all, segs, isDir) <==> Excluded(before, segs, isDir)))
  {
    var p := ParseLine(raw).pattern;
    ParsedSnoc(lines, raw);
    LineMeans(raw);
    LineNamesExactly(raw, segs, isDir);
    AboveByText(raw, segs);
    if Names(p, segs, isDir) {
      SnocNamed(Parsed(lines), p, segs, isDir);
    } else if !p.negate && exists k :: 1 <= k < |segs| && Names(p, segs[..k], true) {
      SnocAboveExcludes(Parsed(lines), p, segs, isDir);
    } else {
      SnocUnnamed(Parsed(lines), p, segs, isDir);
    }
  }

  /** So a "!" before a text re-includes whatever the text names, when no later
      line does otherwise. */
  lemma ReIncludesWhatItNames(lines: seq<string>, b: string, segs: seq<string>, isDir: bool)
    requires TextOf("!" + b) == "!" + b && ParseLine("!" + b).Good? && TextNames(b, segs, isDir)
    ensures !Excluded(Parsed(lines + ["!" + b]), segs, isDir)
  {
    LastLineDecides(lines, "!" + b, segs, isDir);
    assert NamePart("!" + b) == b;
  }
}
