/**
 * The address check every form shares: the unanchored regular expression
 * `/\S+@\S+\.\S+/` applied with `RegExp.prototype.test`.
 */
module Email {
  import opened Js

  /** A witness of a match: a non-space character, `@` at `at`, a non-empty run of
      non-space characters, `.` at `dot`, and a non-space character. Every longer
      match of `\S+` contains one of these, so the regex matches iff a witness exists. */
  predicate MatchAt(s: string, at: int, dot: int) {
    && 0 < at && at + 1 < dot && dot + 1 < |s|
    && s[at] == '@' && s[dot] == '.'
    && !IsSpace(s[at - 1]) && !IsSpace(s[dot + 1])
    && forall k | at < k < dot :: !IsSpace(s[k])
  }

  /** `/\S+@\S+\.\S+/.test(s)`. */
  predicate Matches(s: string) {
    exists at, dot | 0 < at < |s| && 0 < dot < |s| :: MatchAt(s, at, dot)
  }

  /** A single left-to-right search for the pattern, in the manner of a regex engine:
      within the current run of non-space characters it remembers the first `@` that
      has a non-space character before it, and accepts at the first `.` that has at
      least one character between it and that `@` and a non-space character after it. */
  method Search(s: string) returns (found: bool)
    ensures found <==> Matches(s)
  {
    var runStart := 0;
    var firstAt := -1;
    var i := 0;
    while i < |s|
      invariant 0 <= runStart <= i <= |s|
      invariant runStart == 0 || IsSpace(s[runStart - 1])
      invariant forall k | runStart <= k < i :: !IsSpace(s[k])
      invariant firstAt == -1 ==> forall k | runStart < k < i :: s[k] != '@'
      invariant firstAt != -1 ==> runStart < firstAt < i && s[firstAt] == '@'
      invariant firstAt != -1 ==> forall k | runStart < k < firstAt :: s[k] != '@'
      invariant forall at, dot | 0 < at < |s| && 0 < dot < i :: !MatchAt(s, at, dot)
    {
      if IsSpace(s[i]) {
        runStart, firstAt := i + 1, -1;
      } else if s[i] == '@' {
        if i > runStart && firstAt == -1 {
          firstAt := i;
        }
      } else if s[i] == '.' && firstAt != -1 && firstAt + 1 < i && i + 1 < |s| && !IsSpace(s[i + 1]) {
        assert MatchAt(s, firstAt, i);
        return true;
      } else {
        forall at | 0 < at < |s|
          ensures !MatchAt(s, at, i)
        {
          if MatchAt(s, at, i) {
            NoSpaceBetween(s, at, i, runStart);
            assert false;
          }
        }
      }
      i := i + 1;
    }
    return false;
  }

  /** A match ending at `dot` lies entirely inside the run that `dot` belongs to. */
  lemma NoSpaceBetween(s: string, at: int, dot: int, runStart: int)
    requires MatchAt(s, at, dot)
    requires 0 <= runStart <= dot
    requires runStart == 0 || IsSpace(s[runStart - 1])
    ensures runStart < at
  {
    forall k | at - 1 <= k < dot
      ensures !IsSpace(s[k])
    {
      if k == at - 1 || k == at {
      } else {
        assert at < k < dot;
      }
    }
  }

  /** An address that passes the pattern is never blank after trimming, so a
      "required" check on the trimmed value never hides a pattern match. */
  lemma MatchImpliesNotBlank(s: string)
    requires Matches(s)
    ensures Trim(s) != []
  {
    var at, dot :| 0 < at < |s| && 0 < dot < |s| && MatchAt(s, at, dot);
    TrimEmptyIff(s);
    assert !IsSpace(s[at]);
  }
}
