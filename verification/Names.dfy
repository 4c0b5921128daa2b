/** The names of temporary files: an upload in progress, a manifest being
    written, and the parked copy of a live file. */
module TempNames {
  const TMP_SUFFIX := ".easysftp-tmp"
  const BAK_SUFFIX := ".easysftp-tmp.bak"

  predicate IsDigit(c: char) {
    '0' <= c <= '9'
  }

  function Decimal(n: nat): (s: string)
    ensures |s| > 0 && forall i :: 0 <= i < |s| ==> IsDigit(s[i])
  {
    if n < 10 then [('0' as int + n) as char]
    else Decimal(n / 10) + [('0' as int + n % 10) as char]
  }

  function UploadTemp(name: string, index: nat): string {
    name + TMP_SUFFIX + "." + Decimal(index)
  }

  function Backup(name: string): string {
    name + BAK_SUFFIX
  }

  function ManifestTemp(name: string): string {
    name + TMP_SUFFIX
  }

  predicate OccursAt(s: string, sub: string, i: int) {
    0 <= i <= |s| - |sub| && s[i..i + |sub|] == sub
  }

  /** The last position of `sub` at or before `from`, or -1. */
  function LastIndex(s: string, sub: string, from: int): (r: int)
    requires -1 <= from
    ensures -1 <= r <= from
    ensures r >= 0 ==> OccursAt(s, sub, r)
    ensures forall i :: r < i <= from ==> !OccursAt(s, sub, i)
    decreases from
  {
    if from < 0 then -1
    else if OccursAt(s, sub, from) then from
    else LastIndex(s, sub, from - 1)
  }

  predicate AllDigits(s: string) {
    forall i :: 0 <= i < |s| ==> IsDigit(s[i])
  }

  predicate IsTempFileName(name: string) {
    var i := LastIndex(name, TMP_SUFFIX, |name|);
    if i <= 0 then false
    else
      var rest := name[i + |TMP_SUFFIX|..];
      if rest == "" || rest == ".bak" then true
      else if rest[0] != '.' || |rest| < 2 then false
      else AllDigits(rest[1..])
  }

  /** A suffix that starts a temporary name is the last one in it. */
  lemma SuffixIsLast(name: string, rest: string)
    requires rest != "" ==> rest[0] == '.'
    requires |rest| > 1 ==> rest[1] != 'e'
    requires forall i :: 1 <= i < |rest| ==> rest[i] != '.'
    ensures LastIndex(name + TMP_SUFFIX + rest, TMP_SUFFIX, |name + TMP_SUFFIX + rest|) == |name|
  {
    var s := name + TMP_SUFFIX + rest;
    assert s[|name|..|name| + |TMP_SUFFIX|] == TMP_SUFFIX;
    assert OccursAt(s, TMP_SUFFIX, |name|);
    forall i | |name| < i <= |s| ensures !OccursAt(s, TMP_SUFFIX, i) {
      StartsDotE(s, i);
      var o := i - |name|;
      if o < |TMP_SUFFIX| {
        assert s[i] == TMP_SUFFIX[o];
      } else if i < |s| {
        assert s[i] == rest[o - |TMP_SUFFIX|];
        assert i + 1 < |s| ==> s[i + 1] == rest[o + 1 - |TMP_SUFFIX|];
      }
    }
  }

  lemma StartsDotE(s: string, i: nat)
    ensures OccursAt(s, TMP_SUFFIX, i) ==> i + 1 < |s| && s[i] == '.' && s[i + 1] == 'e'
  {
    if OccursAt(s, TMP_SUFFIX, i) {
      assert s[i..i + |TMP_SUFFIX|][0] == '.' && s[i..i + |TMP_SUFFIX|][1] == 'e';
    }
  }

  /** The sweep recognises every temporary file a run may leave behind. */
  lemma TempNamesAreRecognised(name: string, index: nat)
    requires name != ""
    ensures IsTempFileName(UploadTemp(name, index))
    ensures IsTempFileName(Backup(name))
    ensures IsTempFileName(ManifestTemp(name))
  {
    var d := Decimal(index);
    SuffixIsLast(name, "." + d);
    assert UploadTemp(name, index) == name + TMP_SUFFIX + ("." + d);
    assert UploadTemp(name, index)[|name| + |TMP_SUFFIX|..] == "." + d;
    assert ("." + d)[1..] == d;
    SuffixIsLast(name, ".bak");
    assert Backup(name) == name + TMP_SUFFIX + ".bak";
    assert Backup(name)[|name| + |TMP_SUFFIX|..] == ".bak";
    SuffixIsLast(name, "");
    assert ManifestTemp(name) == name + TMP_SUFFIX + "";
    assert ManifestTemp(name)[|name| + |TMP_SUFFIX|..] == "";
  }

  function Value(s: string): nat
    requires AllDigits(s)
  {
    if s == "" then 0 else 10 * Value(s[..|s| - 1]) + (s[|s| - 1] as int - '0' as int)
  }

  lemma {:induction false} DecimalValue(n: nat)
    ensures Value(Decimal(n)) == n
  {
    if n >= 10 {
      DecimalValue(n / 10);
      var s := Decimal(n);
      assert s[..|s| - 1] == Decimal(n / 10);
    }
  }

  /** Two transfers never share a temporary name, whatever their targets are
      called: the index of the transfer is part of it. */
  lemma UploadTempsDiffer(a: string, i: nat, b: string, j: nat)
    requires UploadTemp(a, i) == UploadTemp(b, j)
    ensures i == j && a == b
  {
    var di, dj := Decimal(i), Decimal(j);
    var s := UploadTemp(a, i);
    var p, q := |s| - |di| - 1, |s| - |dj| - 1;
    assert s[p] == '.' && s[q] == '.';
    assert s[p + 1..] == di && s[q + 1..] == dj;
    NoDotAfter(s, p);
    NoDotAfter(s, q);
    assert di == dj;
    DecimalValue(i);
    DecimalValue(j);
    assert s[..|a|] == a && s[..|b|] == b;
  }

  lemma NoDotAfter(s: string, p: nat)
    requires p < |s| && AllDigits(s[p + 1..])
    ensures forall k :: p < k < |s| ==> s[k] != '.'
  {
    forall k | p < k < |s| ensures s[k] != '.' {
      assert s[k] == s[p + 1..][k - p - 1];
    }
  }

  lemma LastChars(a: string, i: nat)
    ensures IsDigit(UploadTemp(a, i)[|UploadTemp(a, i)| - 1])
    ensures Backup(a)[|Backup(a)| - 1] == 'k'
    ensures ManifestTemp(a)[|ManifestTemp(a)| - 1] == 'p'
    ensures Backup(a)[..|Backup(a)| - |BAK_SUFFIX|] == a
  {
    var u, d := UploadTemp(a, i), Decimal(i);
    assert u[|u| - 1] == d[|d| - 1];
  }

  /** What a server's notion of "the same name" must not do to temporary names.
      A case-sensitive server compares names exactly. */
  ghost predicate KeepsTempsApart(id: string -> string) {
    && (forall a, b, i, j :: id(UploadTemp(a, i)) == id(UploadTemp(b, j)) ==> i == j)
    && (forall a, b :: id(Backup(a)) == id(Backup(b)) ==> id(a) == id(b))
    && (forall a, b, i :: id(UploadTemp(a, i)) != id(Backup(b)))
    && (forall a, b, i :: id(UploadTemp(a, i)) != id(ManifestTemp(b)))
    && (forall a, b :: id(Backup(a)) != id(ManifestTemp(b)))
  }

  lemma TempsDiffer(a: string, i: nat, b: string, j: nat)
    ensures UploadTemp(a, i) == UploadTemp(b, j) ==> i == j
    ensures Backup(a) == Backup(b) ==> a == b
    ensures UploadTemp(a, i) != Backup(b) && UploadTemp(a, i) != ManifestTemp(b) && Backup(a) != ManifestTemp(b)
  {
    LastChars(a, i);
    LastChars(b, j);
    if UploadTemp(a, i) == UploadTemp(b, j) {
      UploadTempsDiffer(a, i, b, j);
    }
  }

  lemma ExactNamesKeepTempsApart(id: string -> string)
    requires forall s :: id(s) == s
    ensures KeepsTempsApart(id)
  {
    forall a, b, i, j ensures id(UploadTemp(a, i)) == id(UploadTemp(b, j)) ==> i == j {
      TempsDiffer(a, i, b, j);
    }
    forall a, b ensures id(Backup(a)) == id(Backup(b)) ==> id(a) == id(b) {
      TempsDiffer(a, 0, b, 0);
    }
    forall a, b, i ensures id(UploadTemp(a, i)) != id(Backup(b)) {
      TempsDiffer(a, i, b, 0);
    }
    forall a, b, i ensures id(UploadTemp(a, i)) != id(ManifestTemp(b)) {
      TempsDiffer(a, i, b, 0);
    }
    forall a, b ensures id(Backup(a)) != id(ManifestTemp(b)) {
      TempsDiffer(a, 0, b, 0);
    }
  }

  /** What a run puts behind a name, the number of a transfer in any spelling. */
  predicate RunSuffix(rest: string) {
    rest == "" || rest == ".bak" || (|rest| > 1 && rest[0] == '.' && AllDigits(rest[1..]))
  }

  predicate Suffixed(file: string, name: string, rest: string) {
    name != "" && file == name + TMP_SUFFIX + rest && RunSuffix(rest)
  }

  /** What the sweep may take for a temporary file: exactly a name with one of the
      suffixes of a run behind it. */
  lemma TempNamesExactly(file: string)
    ensures IsTempFileName(file) <==> exists name: string, rest: string :: Suffixed(file, name, rest)
  {
    if IsTempFileName(file) {
      TempIsSuffixed(file);
    }
    if name: string, rest: string :| Suffixed(file, name, rest) {
      SuffixedIsTemp(name, rest);
    }
  }

  lemma TempIsSuffixed(file: string)
    requires IsTempFileName(file)
    ensures var i := LastIndex(file, TMP_SUFFIX, |file|);
            0 < i <= |file| - |TMP_SUFFIX| && Suffixed(file, file[..i], file[i + |TMP_SUFFIX|..])
  {
    CutAround(file, TMP_SUFFIX, LastIndex(file, TMP_SUFFIX, |file|));
  }

  lemma CutAround(s: string, sub: string, i: int)
    requires OccursAt(s, sub, i)
    ensures s == s[..i] + sub + s[i + |sub|..]
  {
    assert s == s[..i] + s[i..i + |sub|] + s[i + |sub|..];
  }

  lemma SuffixedIsTemp(name: string, rest: string)
    requires name != "" && RunSuffix(rest)
    ensures IsTempFileName(name + TMP_SUFFIX + rest)
  {
    var file := name + TMP_SUFFIX + rest;
    assert |rest| > 1 && AllDigits(rest[1..]) ==> forall i :: 1 <= i < |rest| ==> rest[i] == rest[1..][i - 1];
    SuffixIsLast(name, rest);
    assert file[|name| + |TMP_SUFFIX|..] == rest;
  }
}
