/** What each character of a pattern segment means. Every pattern begins in one of
    these ways, so together the laws fix what every pattern matches. */
module GlobLaws {
  import opened Options
  import opened SegmentGlob

  lemma NothingMatchesNothing(name: string)
    ensures Matches("", name) <==> name == ""
  {
    MatchesIsMatch("", name);
  }

  /** A character without a meaning of its own stands for itself, and so does any one
      behind a backslash. */
  lemma LiteralLaw(c: char, p: string, name: string)
    requires !IsMeta(c)
    ensures Matches([c] + p, name) <==> name != "" && name[0] == c && Matches(p, name[1..])
  {
    HeadIs([c] + p, Lit(c), p, name);
  }

  lemma EscapeLaw(c: char, p: string, name: string)
    ensures Matches([BS, c] + p, name) <==> name != "" && name[0] == c && Matches(p, name[1..])
  {
    HeadIs([BS, c] + p, Lit(c), p, name);
  }

  /** "?" is any one character. */
  lemma AnyOneLaw(p: string, name: string)
    ensures Matches("?" + p, name) <==> name != "" && Matches(p, name[1..])
  {
    HeadIs("?" + p, AnyOne, p, name);
  }

  /** "*" is any number of characters. */
  lemma StarLaw(p: string, name: string)
    ensures Matches("*" + p, name) <==> exists k :: 0 <= k <= |name| && Matches(p, name[k..])
  {
    var pat := "*" + p;
    assert Head(pat) == (Star, p);
    TokensOf(pat);
    MatchesIsMatch(pat, name);
    forall k | 0 <= k <= |name| ensures Matches(p, name[k..]) <==> Match(Tokens(p), name[k..]) {
      MatchesIsMatch(p, name[k..]);
    }
  }

  /** A pattern whose first token takes one character. */
  lemma HeadIs(pat: string, t: Token, p: string, name: string)
    requires pat != "" && Head(pat) == (t, p) && (t.Lit? || t.AnyOne? || t.Class?)
    ensures Matches(pat, name) <==> name != "" && PieceOk(t, name[..1]) && Matches(p, name[1..])
  {
    TokensOf(pat);
    MatchesIsMatch(pat, name);
    if name != "" {
      MatchesIsMatch(p, name[1..]);
    }
  }

  // ---- Classes ----

  /** Characters that are members of a class as they stand. */
  predicate Plain(cs: string) {
    forall i :: 0 <= i < |cs| ==> cs[i] != ']' && cs[i] != BS && cs[i] != '-' && cs[i] != '!' && cs[i] != '^'
  }

  lemma {:induction false} EndOfPlain(pat: string, i: nat, j: nat)
    requires i <= j < |pat| && pat[j] == ']' && forall k :: i <= k < j ==> pat[k] != ']' && pat[k] != BS
    ensures ClassEnd(pat, i) == Some(j)
    decreases j - i
  {
    if i < j {
      EndOfPlain(pat, i + 1, j);
    }
  }

  lemma {:induction false} PlainMembers(cs: string, c: char)
    requires Plain(cs)
    ensures AnyHolds(Members(cs), c) <==> c in cs
    decreases |cs|
  {
    if cs != "" {
      assert cs == [cs[0]] + cs[1..];
      assert |cs| > 2 ==> cs[1] != '-';
      PlainMembers(cs[1..], c);
      AnyHoldsCons(One(cs[0]), Members(cs[1..]), c);
    }
  }

  lemma ClassHead(inside: string, p: string)
    requires inside != "" && forall k :: 0 <= k < |inside| ==> inside[k] != ']' && inside[k] != BS
    ensures Head("[" + inside + "]" + p) == (ClassToken(inside), p)
  {
    var pat := "[" + inside + "]" + p;
    assert forall k :: 1 <= k <= |inside| ==> pat[k] == inside[k - 1];
    EndOfPlain(pat, 1, |inside| + 1);
    assert pat[1..|inside| + 1] == inside && pat[|inside| + 2..] == p;
  }

  /** "[abc]" is one of the characters in it, "[!abc]" or "[^abc]" one of the others. */
  lemma ClassLaw(cs: string, p: string, name: string)
    requires cs != "" && Plain(cs)
    ensures Matches("[" + cs + "]" + p, name) <==> name != "" && name[0] in cs && Matches(p, name[1..])
    ensures Matches("[!" + cs + "]" + p, name) <==> name != "" && name[0] !in cs && Matches(p, name[1..])
    ensures Matches("[^" + cs + "]" + p, name) <==> name != "" && name[0] !in cs && Matches(p, name[1..])
  {
    ClassHead(cs, p);
    HeadIs("[" + cs + "]" + p, ClassToken(cs), p, name);
    NegatedLaw('!', cs, p, name);
    NegatedLaw('^', cs, p, name);
    assert "[" + "!" == "[!" && "[" + "^" == "[^";
    if name != "" {
      PlainMembers(cs, name[0]);
    }
  }

  lemma NegatedLaw(mark: char, cs: string, p: string, name: string)
    requires cs != "" && Plain(cs) && (mark == '!' || mark == '^')
    ensures Matches("[" + [mark] + cs + "]" + p, name) <==> name != "" && name[0] !in cs && Matches(p, name[1..])
  {
    var inside := [mark] + cs;
    assert inside[1..] == cs;
    ClassHead(inside, p);
    assert "[" + inside + "]" + p == "[" + [mark] + cs + "]" + p;
    HeadIs("[" + inside + "]" + p, ClassToken(inside), p, name);
    if name != "" {
      PlainMembers(cs, name[0]);
    }
  }

  /** "[a-z]" is one of the characters between the two, which count as well. */
  lemma RangeLaw(lo: char, hi: char, p: string, name: string)
    requires Plain([lo, hi])
    ensures Matches("[" + [lo, '-', hi] + "]" + p, name) <==> name != "" && lo <= name[0] <= hi && Matches(p, name[1..])
  {
    var inside, ends := [lo, '-', hi], [lo, hi];
    assert ends[0] == lo && ends[1] == hi;
    ClassHead(inside, p);
    HeadIs("[" + inside + "]" + p, ClassToken(inside), p, name);
    assert inside[3..] == "";
    assert Members(inside) == [Range(lo, hi)] + Members("");
    if name != "" {
      AnyHoldsCons(Range(lo, hi), [], name[0]);
      assert [Range(lo, hi)] + [] == Members(inside);
    }
  }

  /** So a text without any of the special characters matches itself alone. */
  lemma {:induction false} PlainTextMatchesItself(p: string, name: string)
    requires forall i :: 0 <= i < |p| ==> !IsMeta(p[i])
    ensures Matches(p, name) <==> name == p
    decreases |p|
  {
    if p == "" {
      NothingMatchesNothing(name);
    } else {
      assert p == [p[0]] + p[1..];
      LiteralLaw(p[0], p[1..], name);
      if name != "" {
        PlainTextMatchesItself(p[1..], name[1..]);
        assert name == [name[0]] + name[1..];
      }
    }
  }
}
