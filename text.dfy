/**
 * The string rules the forms and the chat box share: JavaScript's white-space
 * class (the characters `\s` matches and `String.prototype.trim` removes),
 * trimming, "blank after trim", and the email pattern `\S+@\S+\.\S+`
 * tested with `RegExp.prototype.test`, which looks for a match anywhere in
 * the string.
 */
module Text {

  /** The fixed white-space set: WhiteSpace and LineTerminator of ECMAScript. */
  predicate IsSpace(c: char)
  {
    || c == '\t' || c == '\n' || c == '\U{000B}' || c == '\U{000C}' || c == '\r'
    || c == ' ' || c == '\U{00A0}' || c == '\U{1680}'
    || ('\U{2000}' <= c <= '\U{200A}')
    || c == '\U{2028}' || c == '\U{2029}' || c == '\U{202F}' || c == '\U{205F}'
    || c == '\U{3000}' || c == '\U{FEFF}'
  }

  /** No white space in `s[lo..hi]`. */
  predicate NonSpaceRun(s: string, lo: int, hi: int)
    requires 0 <= lo <= hi <= |s|
  {
    forall k :: lo <= k < hi ==> !IsSpace(s[k])
  }

  /** Only white space in `s[lo..hi]`. */
  predicate SpaceRun(s: string, lo: int, hi: int)
    requires 0 <= lo <= hi <= |s|
  {
    forall k :: lo <= k < hi ==> IsSpace(s[k])
  }

  /** Leading white space removed: the result is the rest of `s` after it. */
  function TrimStart(s: string): (r: string)
    ensures |r| <= |s| && r == s[|s| - |r|..]
    ensures SpaceRun(s, 0, |s| - |r|)
    ensures r == [] || !IsSpace(r[0])
  {
    if |s| > 0 && IsSpace(s[0]) then TrimStart(s[1..]) else s
  }

  /** Trailing white space removed: the result is the part of `s` before it. */
  function TrimEnd(s: string): (r: string)
    ensures |r| <= |s| && r == s[..|r|]
    ensures SpaceRun(s, |r|, |s|)
    ensures r == [] || !IsSpace(r[|r| - 1])
  {
    if |s| > 0 && IsSpace(s[|s| - 1]) then TrimEnd(s[..|s| - 1]) else s
  }

  /** `r` is `s[i..j]` with only white space around it in `s`. */
  predicate TrimmedAt(s: string, r: string, i: int, j: int)
  {
    0 <= i <= j <= |s| && r == s[i..j] && SpaceRun(s, 0, i) && SpaceRun(s, j, |s|)
  }

  /**
   * `s.trim()`: a slice of `s` with only white space cut off on either side,
   * beginning and ending with a non-space character unless it is empty.
   */
  function Trim(s: string): (r: string)
    ensures exists i, j :: TrimmedAt(s, r, i, j)
    ensures r == [] || (!IsSpace(r[0]) && !IsSpace(r[|r| - 1]))
  {
    var t := TrimStart(s);
    SliceOfSlice(s, t, TrimEnd(t));
    TrimEnd(t)
  }

  /**
   * A prefix `r` of a suffix `t` of `s`, each cut at white space only, is a
   * slice of `s` with only white space around it.
   */
  lemma SliceOfSlice(s: string, t: string, r: string)
    requires |t| <= |s| && t == s[|s| - |t|..] && SpaceRun(s, 0, |s| - |t|)
    requires |r| <= |t| && r == t[..|r|] && SpaceRun(t, |r|, |t|)
    ensures TrimmedAt(s, r, |s| - |t|, |s| - |t| + |r|)
    ensures r != [] ==> r[0] == t[0]
  {
    var i := |s| - |t|;
    assert r == s[i..i + |r|];
    forall k | i + |r| <= k < |s|
      ensures IsSpace(s[k])
    {
      assert s[k] == t[k - i];
    }
  }

  /**
   * `!s.trim()`, the test every blank-field check uses, as a scan over the
   * characters; TrimEmptyIffBlank shows it agrees with trimming.
   */
  predicate IsBlank(s: string)
    decreases |s|
  {
    |s| == 0 || (IsSpace(s[0]) && IsBlank(s[1..]))
  }

  /** A string is blank exactly when every one of its characters is white space. */
  lemma {:induction false} BlankIffAllSpace(s: string)
    ensures IsBlank(s) <==> forall k :: 0 <= k < |s| ==> IsSpace(s[k])
    decreases |s|
  {
    if |s| > 0 {
      BlankIffAllSpace(s[1..]);
      assert forall k :: 1 <= k < |s| ==> s[k] == s[1..][k - 1];
    }
  }

  /** TrimStart empties exactly the blank strings. */
  lemma {:induction false} TrimStartEmptyIffBlank(s: string)
    ensures TrimStart(s) == "" <==> IsBlank(s)
    decreases |s|
  {
    if |s| > 0 {
      TrimStartEmptyIffBlank(s[1..]);
    }
  }

  /** TrimEnd never removes a leading non-space character. */
  lemma {:induction false} TrimEndKeepsHead(s: string)
    requires |s| > 0 && !IsSpace(s[0])
    ensures |TrimEnd(s)| > 0
    decreases |s|
  {
    if IsSpace(s[|s| - 1]) {
      var t := s[..|s| - 1];
      assert t[0] == s[0];
      TrimEndKeepsHead(t);
    }
  }

  /** `!s.trim()` holds exactly for the blank strings. */
  lemma TrimEmptyIffBlank(s: string)
    ensures Trim(s) == "" <==> IsBlank(s)
  {
    TrimStartEmptyIffBlank(s);
    if TrimStart(s) != [] {
      TrimEndKeepsHead(TrimStart(s));
    }
  }

  /**
   * A match of `\S+@\S+\.\S+` inside `s`, written as the regular expression
   * reads: three non-empty runs without white space, the first ending just
   * before an `@`, the second between that `@` and a `.`, the third just after
   * the `.`.
   */
  ghost predicate EmailPatternFound(s: string)
  {
    exists a, at, dot, e :: EmailPatternAt(s, a, at, dot, e)
  }

  /** `s[a..at]`, `s[at+1..dot]` and `s[dot+1..e]` are the three runs of a match. */
  predicate EmailPatternAt(s: string, a: int, at: int, dot: int, e: int)
  {
    && 0 <= a < at && at + 1 < dot && dot + 1 < e <= |s|
    && NonSpaceRun(s, a, at) && s[at] == '@'
    && NonSpaceRun(s, at + 1, dot) && s[dot] == '.'
    && NonSpaceRun(s, dot + 1, e)
  }

  /**
   * A `.` at `dot`, at least two places after the `@` at `start`, followed by
   * a non-space character, with no white space from `j` through that
   * character.
   */
  predicate DotAt(s: string, start: int, j: int, dot: int)
  {
    && 0 <= j <= dot && dot + 1 < |s| && start + 2 <= dot
    && s[dot] == '.' && NonSpaceRun(s, j, dot + 2)
  }

  /** An `@` at `at` with a non-space character before it and a fitting `.` after it. */
  predicate MatchAt(s: string, at: int, dot: int)
  {
    1 <= at < |s| && s[at] == '@' && !IsSpace(s[at - 1]) && DotAt(s, at, at + 1, dot)
  }

  /** Scanning right from `j` over non-space characters for a `.` that closes a match begun at `start`. */
  predicate DotRunFrom(s: string, start: int, j: int)
    requires 0 <= j <= |s|
    decreases |s| - j
  {
    j + 1 < |s| && !IsSpace(s[j]) &&
    ((s[j] == '.' && start + 2 <= j && !IsSpace(s[j + 1])) || DotRunFrom(s, start, j + 1))
  }

  /** Scanning right from `i` for an `@` at which a match begins. */
  predicate MatchFrom(s: string, i: int)
    requires 0 <= i <= |s|
    decreases |s| - i
  {
    i < |s| &&
    ((1 <= i && s[i] == '@' && !IsSpace(s[i - 1]) && DotRunFrom(s, i, i + 1)) || MatchFrom(s, i + 1))
  }

  /** `/\S+@\S+\.\S+/.test(s)`, as a left-to-right search. */
  predicate EmailFormatOk(s: string)
  {
    MatchFrom(s, 0)
  }

  /** The inner scan succeeds exactly when a fitting `.` exists at or after `j`. */
  lemma {:induction false} DotRunFromWitness(s: string, start: int, j: int)
    requires 0 <= j <= |s|
    ensures DotRunFrom(s, start, j) <==> exists dot :: DotAt(s, start, j, dot)
    decreases |s| - j
  {
    if j + 1 < |s| {
      DotRunFromWitness(s, start, j + 1);
      if DotRunFrom(s, start, j) {
        if s[j] == '.' && start + 2 <= j && !IsSpace(s[j + 1]) {
          assert DotAt(s, start, j, j);
        } else {
          var dot :| DotAt(s, start, j + 1, dot);
          assert DotAt(s, start, j, dot);
        }
      }
      if exists dot :: DotAt(s, start, j, dot) {
        var dot :| DotAt(s, start, j, dot);
        assert !IsSpace(s[j]);
        if dot != j {
          assert DotAt(s, start, j + 1, dot);
        }
      }
    }
  }

  /** The outer scan succeeds exactly when a match begins at an `@` at or after `i`. */
  lemma {:induction false} MatchFromWitness(s: string, i: int)
    requires 0 <= i <= |s|
    ensures MatchFrom(s, i) <==> exists at, dot :: i <= at && MatchAt(s, at, dot)
    decreases |s| - i
  {
    if i < |s| {
      MatchFromWitness(s, i + 1);
      DotRunFromWitness(s, i, i + 1);
      if MatchFrom(s, i) {
        if 1 <= i && s[i] == '@' && !IsSpace(s[i - 1]) && DotRunFrom(s, i, i + 1) {
          var dot :| DotAt(s, i, i + 1, dot);
          assert MatchAt(s, i, dot);
        } else {
          var at, dot :| i + 1 <= at && MatchAt(s, at, dot);
          assert i <= at && MatchAt(s, at, dot);
        }
      }
      if exists at, dot :: i <= at && MatchAt(s, at, dot) {
        var at, dot :| i <= at && MatchAt(s, at, dot);
        if at != i {
          assert i + 1 <= at && MatchAt(s, at, dot);
        }
      }
    }
  }

  /** The search finds a match exactly when the pattern matches somewhere. */
  lemma EmailFormatOkIffPattern(s: string)
    ensures EmailFormatOk(s) <==> EmailPatternFound(s)
  {
    MatchFromWitness(s, 0);
    if EmailFormatOk(s) {
      var at, dot :| 0 <= at && MatchAt(s, at, dot);
      assert EmailPatternAt(s, at - 1, at, dot, dot + 2);
    }
    if EmailPatternFound(s) {
      var a, at, dot, e :| EmailPatternAt(s, a, at, dot, e);
      assert !IsSpace(s[at - 1]) && !IsSpace(s[dot + 1]);
      assert MatchAt(s, at, dot);
    }
  }
}
