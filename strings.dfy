/** The parts of Go's `strings` and `unicode` packages that wmn.go relies on:
    `strings.Index`, `strings.Contains`, `strings.Replace` with a count of 1,
    `strings.TrimSpace` and `unicode.IsSpace`, over strings of characters. */
module Strings {
  import opened Wrappers

  /** Go's `unicode.IsSpace`. Within Latin-1: '\t', '\n', '\v', '\f', '\r'
      (the range U+0009 to U+000D), ' ', U+0085 (NEL) and U+00A0 (NBSP);
      beyond it, the other characters of Unicode's White_Space property. */
  predicate IsSpace(c: char) {
    if c <= '\U{00FF}' then
      ('\t' <= c <= '\r') || c == ' ' || c == '\U{0085}' || c == '\U{00A0}'
    else
      || c == '\U{1680}' || ('\U{2000}' <= c <= '\U{200A}')
      || c == '\U{2028}' || c == '\U{2029}' || c == '\U{202F}' || c == '\U{205F}' || c == '\U{3000}'
  }

  /** The 25 characters of Unicode's White_Space property, listed one by one. */
  const WhiteSpace: string :=
    "\t\n\U{000B}\U{000C}\r \U{0085}\U{00A0}\U{1680}"
    + "\U{2000}\U{2001}\U{2002}\U{2003}\U{2004}\U{2005}\U{2006}\U{2007}\U{2008}\U{2009}\U{200A}"
    + "\U{2028}\U{2029}\U{202F}\U{205F}\U{3000}"

  /** IsSpace's ranges pick out exactly the listed White_Space characters. */
  lemma IsSpaceIsWhiteSpace(c: char)
    ensures IsSpace(c) <==> c in WhiteSpace
  {
    if '\U{2000}' <= c <= '\U{200A}' {
      assert WhiteSpace[9 + (c as int - 0x2000)] == c;
    }
  }

  /** Every character of `s` from index `lo` up to (not including) `hi` is a space. */
  ghost predicate SpacesIn(s: string, lo: int, hi: int)
    requires 0 <= lo && hi <= |s|
  {
    forall k :: lo <= k < hi ==> IsSpace(s[k])
  }

  /** Neither end of `s` is a space. */
  predicate Trimmed(s: string) {
    s == [] || (!IsSpace(s[0]) && !IsSpace(s[|s| - 1]))
  }

  /** `s[i..j]` is what is left of `s` once its leading and trailing spaces
      are cut off: everything outside it is space and, unless it is empty,
      it starts and ends with a non-space. */
  ghost predicate IsTrimOf(s: string, i: int, j: int) {
    && 0 <= i <= j <= |s|
    && SpacesIn(s, 0, i) && SpacesIn(s, j, |s|)
    && (i < j ==> !IsSpace(s[i]) && !IsSpace(s[j - 1]))
  }

  /** The first index at or after `i` that does not hold a space (or |s|). */
  function SkipLeading(s: string, i: nat): (k: nat)
    requires i <= |s|
    ensures i <= k <= |s| && SpacesIn(s, i, k)
    ensures k == |s| || !IsSpace(s[k])
    decreases |s| - i
  {
    if i < |s| && IsSpace(s[i]) then SkipLeading(s, i + 1) else i
  }

  /** Walking down from `j` towards `lo`, the first index whose predecessor
      does not hold a space (or `lo`). */
  function SkipTrailing(s: string, lo: nat, j: nat): (k: nat)
    requires lo <= j <= |s|
    ensures lo <= k <= j && SpacesIn(s, k, j)
    ensures k == lo || !IsSpace(s[k - 1])
    decreases j
  {
    if j > lo && IsSpace(s[j - 1]) then SkipTrailing(s, lo, j - 1) else j
  }

  /** Go's `strings.TrimSpace`: the leading spaces are skipped from the
      start, then the trailing ones from the end down to that point. */
  function TrimSpace(s: string): (r: string)
    ensures Trimmed(r)
    ensures exists i, j :: IsTrimOf(s, i, j) && r == s[i..j]
  {
    var i := SkipLeading(s, 0);
    var j := SkipTrailing(s, i, |s|);
    assert IsTrimOf(s, i, j);
    s[i..j]
  }

  /** `pat` occurs in `s` at index `j`. */
  ghost predicate OccursAt(s: string, pat: string, j: int) {
    0 <= j && j + |pat| <= |s| && s[j..j + |pat|] == pat
  }

  /** `i` is the index of the first occurrence of `pat` in `s`. */
  ghost predicate FirstOccurrence(s: string, pat: string, i: int) {
    OccursAt(s, pat, i) && forall j :: 0 <= j < i ==> !OccursAt(s, pat, j)
  }

  lemma OccursAtTail(s: string, pat: string)
    requires s != []
    ensures forall j :: 1 <= j ==> (OccursAt(s, pat, j) <==> OccursAt(s[1..], pat, j - 1))
  {
    forall j | 1 <= j
      ensures OccursAt(s, pat, j) <==> OccursAt(s[1..], pat, j - 1)
    {
      if j + |pat| <= |s| {
        var tailWindow, window := s[1..][j - 1..j - 1 + |pat|], s[j..j + |pat|];
        assert tailWindow == window by {
          assert forall k :: 0 <= k < |pat| ==> tailWindow[k] == window[k];
        }
      }
    }
  }

  /** Go's `strings.Index`: the index of the first occurrence of `pat` in
      `s`, or None where Go returns -1. An empty `pat` occurs at 0. */
  function IndexOf(s: string, pat: string): (r: Option<nat>)
    ensures r.Some? ==> FirstOccurrence(s, pat, r.value)
    ensures r.None? ==> forall j :: !OccursAt(s, pat, j)
    decreases |s|
  {
    if |s| < |pat| then None
    else if s[..|pat|] == pat then Some(0)
    else
      OccursAtTail(s, pat);
      match IndexOf(s[1..], pat)
      case None => None
      case Some(i) => Some(i + 1)
  }

  /** Go's `strings.Contains`: `sub` occurs somewhere in `s`. */
  function Contains(s: string, sub: string): (b: bool)
    ensures b <==> exists j :: OccursAt(s, sub, j)
  {
    IndexOf(s, sub).Some?
  }

  /** Go's `strings.Replace(s, pat, rep, 1)`: the first occurrence of `pat`
      becomes `rep`; later occurrences and the rest of `s` are kept. */
  function ReplaceFirst(s: string, pat: string, rep: string): (r: string)
    ensures !Contains(s, pat) ==> r == s
    ensures forall i :: FirstOccurrence(s, pat, i) ==> r == s[..i] + rep + s[i + |pat|..]
  {
    match IndexOf(s, pat)
    case None => s
    case Some(i) => s[..i] + rep + s[i + |pat|..]
  }

  /** TrimSpace gives exactly the slice described by IsTrimOf: together
      with TrimSpace's own ensures, `IsTrimOf(s, i, j)` holds of some `i, j`
      with `TrimSpace(s) == s[i..j]`, and of no other slice. */
  lemma TrimSpaceIsTrim(s: string, i: int, j: int)
    requires IsTrimOf(s, i, j)
    ensures TrimSpace(s) == s[i..j]
  {
    var a := SkipLeading(s, 0);
    var b := SkipTrailing(s, a, |s|);
    if i < j {
      assert a == i;
      assert b == j;
    } else {
      assert a == |s|;
    }
  }

  /** A string is left unchanged by TrimSpace exactly when it is Trimmed. */
  lemma TrimSpaceFixpoint(s: string)
    ensures TrimSpace(s) == s <==> Trimmed(s)
  {
    if Trimmed(s) {
      TrimSpaceIsTrim(s, 0, |s|);
    }
  }

  /** Trimming twice is trimming once. */
  lemma TrimSpaceIdempotent(s: string)
    ensures TrimSpace(TrimSpace(s)) == TrimSpace(s)
  {
    TrimSpaceFixpoint(TrimSpace(s));
  }

  /** A pattern whose first character does not appear in `s` does not occur in `s`. */
  lemma AbsentHead(s: string, pat: string)
    requires pat != [] && pat[0] !in s
    ensures !Contains(s, pat)
  {
    forall j | 0 <= j ensures !OccursAt(s, pat, j) {
      if j + |pat| <= |s| {
        assert s[j..j + |pat|][0] == s[j];
      }
    }
  }

  /** If `pat` does not occur in `p` and its first character occurs nowhere
      else in it, the first occurrence of `pat` in `p + pat + q` is the one
      right after `p`, so replacing the first occurrence gives `p + rep + q`. */
  lemma ReplaceFirstSplit(p: string, pat: string, q: string, rep: string)
    requires pat != [] && pat[0] !in pat[1..]
    requires !Contains(p, pat)
    ensures ReplaceFirst(p + pat + q, pat, rep) == p + rep + q
  {
    var s := p + pat + q;
    var n := |p|;
    assert s[n..n + |pat|] == pat;
    forall j | 0 <= j < n ensures !OccursAt(s, pat, j) {
      if j + |pat| <= n {
        assert s[j..j + |pat|] == p[j..j + |pat|];
        assert !OccursAt(p, pat, j);
      } else if j + |pat| <= |s| {
        // the window at j covers index n, where s holds pat[0]
        assert s[j..j + |pat|][n - j] == s[n] == pat[0];
        assert pat[1..][n - j - 1] == pat[n - j];
      }
    }
    assert FirstOccurrence(s, pat, n);
    assert s[..n] == p && s[n + |pat|..] == q;
  }
}
