/** The two path helpers of Extensions/URLExtension.swift. A file URL is its
    path and whether it names a directory. */
module Urls {

  datatype Url = Url(path: string, hasDirectoryPath: bool)

  /** `standardPath` (pre-macOS 13 branch): a directory URL's path with a
      trailing `/`, any other URL's plain path. */
  function StandardPath(u: Url): (s: string)
    ensures |s| == |u.path| + (if u.hasDirectoryPath then 1 else 0)
    ensures s[..|u.path|] == u.path
    ensures u.hasDirectoryPath ==> s[|u.path|] == '/'
  {
    if u.hasDirectoryPath then u.path + "/" else u.path
  }

  /** `pat` occurs in `s` starting at `i`. */
  predicate OccursAt(pat: string, s: string, i: nat) {
    i + |pat| <= |s| && s[i..i + |pat|] == pat
  }

  predicate Occurs(pat: string, s: string) {
    exists i :: 0 <= i <= |s| && OccursAt(pat, s, i)
  }

  /** `replacingOccurrences(of: pat, with: "")`: scanning left to right, every
      occurrence of `pat` that does not overlap an earlier removed one is
      removed. An empty pattern removes nothing. */
  function RemoveAll(s: string, pat: string): (r: string)
    ensures |r| <= |s|
    decreases |s|
  {
    if |pat| == 0 || |s| < |pat| then s
    else if s[..|pat|] == pat then RemoveAll(s[|pat|..], pat)
    else [s[0]] + RemoveAll(s[1..], pat)
  }

  /** `relativePath(baseUrl:)`: the URL's standard path with every occurrence
      of the base path removed. */
  function RelativePath(u: Url, basePath: string): (r: string)
    ensures |r| <= |StandardPath(u)|
    ensures r == StandardPath(u) <==> |basePath| == 0 || !Occurs(basePath, StandardPath(u))
  {
    if |basePath| > 0 then
      RemoveAllChangesIffOccurs(StandardPath(u), basePath);
      RemoveAll(StandardPath(u), basePath)
    else
      RemoveAll(StandardPath(u), basePath)
  }

  /** A non-empty pattern changes the string exactly when it occurs in it, and
      then the string gets shorter. */
  lemma {:induction false} RemoveAllChangesIffOccurs(s: string, pat: string)
    requires |pat| > 0
    ensures RemoveAll(s, pat) == s <==> !Occurs(pat, s)
    ensures Occurs(pat, s) ==> |RemoveAll(s, pat)| < |s|
    decreases |s|
  {
    if |s| < |pat| {
      forall i | 0 <= i <= |s| ensures !OccursAt(pat, s, i) {
      }
    } else if s[..|pat|] == pat {
      assert OccursAt(pat, s, 0);
    } else {
      OccursInTail(s, pat);
      RemoveAllChangesIffOccurs(s[1..], pat);
    }
  }

  /** Without an occurrence at the start, the pattern occurs in the string
      exactly when it occurs after the first character. */
  lemma OccursInTail(s: string, pat: string)
    requires |s| > 0 && !OccursAt(pat, s, 0)
    ensures Occurs(pat, s) <==> Occurs(pat, s[1..])
  {
    if Occurs(pat, s) {
      var i :| 0 <= i <= |s| && OccursAt(pat, s, i);
      assert s[1..][i - 1..i - 1 + |pat|] == s[i..i + |pat|];
      assert OccursAt(pat, s[1..], i - 1);
    }
    if Occurs(pat, s[1..]) {
      var i :| 0 <= i <= |s[1..]| && OccursAt(pat, s[1..], i);
      assert s[i + 1..i + 1 + |pat|] == s[1..][i..i + |pat|];
      assert OccursAt(pat, s, i + 1);
    }
  }

  /** A URL below the base whose remaining path never repeats the base path
      gets exactly that remaining path. */
  lemma RelativePathBelowBase(u: Url, basePath: string, rest: string)
    requires |basePath| > 0 && StandardPath(u) == basePath + rest && !Occurs(basePath, rest)
    ensures RelativePath(u, basePath) == rest
  {
    var s := StandardPath(u);
    assert s[..|basePath|] == basePath;
    assert s[|basePath|..] == rest;
    RemoveAllChangesIffOccurs(rest, basePath);
  }

  /** A leading occurrence is removed and the scan resumes after it. */
  lemma RemoveLeading(pat: string, t: string)
    requires |pat| > 0
    ensures RemoveAll(pat + t, pat) == RemoveAll(t, pat)
  {
    assert (pat + t)[..|pat|] == pat;
    assert (pat + t)[|pat|..] == t;
  }

  /** A character where no occurrence starts is kept. */
  lemma KeepFirst(c: char, t: string, pat: string)
    requires |pat| > 0 && (|t| + 1 < |pat| || ([c] + t)[..|pat|] != pat)
    ensures RemoveAll([c] + t, pat) == [c] + RemoveAll(t, pat)
  {
    assert ([c] + t)[1..] == t;
  }

  /** Removal is not limited to a leading prefix: after a leading copy of the
      pattern and one character that cannot start it, a second copy is
      removed as well. */
  lemma RemovesInnerOccurrences(pat: string, c: char, tail: string)
    requires |pat| > 0 && c != pat[0]
    ensures RemoveAll(pat + [c] + pat + tail, pat) == [c] + RemoveAll(tail, pat)
  {
    assert pat + [c] + pat + tail == pat + ([c] + (pat + tail));
    RemoveLeading(pat, [c] + (pat + tail));
    assert ([c] + (pat + tail))[0] != pat[0];
    KeepFirst(c, pat + tail, pat);
    RemoveLeading(pat, tail);
  }
}
