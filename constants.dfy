/** The two validation patterns of the constants file, as predicates over
    strings: the slug pattern `^[a-z0-9]+(?:-[a-z0-9]+)*$` and the date
    pattern `^\d{4}-\d{2}-\d{2}$` (no `m` flag, so `^`/`$` anchor the whole
    string; `\d` without the `u` flag is the ASCII digits). */
module Constants {

  predicate IsLowerAlnum(c: char)
  {
    'a' <= c <= 'z' || '0' <= c <= '9'
  }

  predicate IsDigit(c: char)
  {
    '0' <= c <= '9'
  }

  /** The slug pattern read as a grammar: one `[a-z0-9]`, then the rest. */
  predicate IsSlug(s: string)
    decreases |s|, 1
  {
    |s| > 0 && IsLowerAlnum(s[0]) && RestOfSlug(s[1..])
  }

  /** What may follow a `[a-z0-9]` inside a slug: the end, another
      `[a-z0-9]` of the same run, or one `-` that opens a new run. */
  predicate RestOfSlug(t: string)
    decreases |t|, 0
  {
    t == [] || (IsLowerAlnum(t[0]) && RestOfSlug(t[1..])) || (t[0] == '-' && IsSlug(t[1..]))
  }

  /** An independent description of the slug language: non-empty, only
      `[a-z0-9-]`, no hyphen at either end and no two hyphens in a row. */
  predicate WellHyphenated(s: string)
  {
    |s| > 0
    && (forall i :: 0 <= i < |s| ==> IsLowerAlnum(s[i]) || s[i] == '-')
    && s[0] != '-' && s[|s| - 1] != '-'
    && (forall i :: 0 <= i < |s| - 1 ==> s[i] != '-' || s[i + 1] != '-')
  }

  /** Shape of what may follow a `[a-z0-9]`: only `[a-z0-9-]`, no trailing
      hyphen, no leading double hyphen, no two hyphens in a row. */
  predicate WellHyphenatedRest(t: string)
  {
    (forall i :: 0 <= i < |t| ==> IsLowerAlnum(t[i]) || t[i] == '-')
    && (|t| > 0 ==> t[|t| - 1] != '-')
    && (forall i :: 0 <= i < |t| - 1 ==> t[i] != '-' || t[i + 1] != '-')
  }

  lemma {:induction false} RestOfSlugShape(t: string)
    ensures RestOfSlug(t) <==> WellHyphenatedRest(t)
    decreases |t|
  {
    if t != [] {
      RestOfSlugShape(t[1..]);
      if |t| > 1 {
        RestOfSlugShape(t[2..]);
      }
      if RestOfSlug(t) {
        if t[0] == '-' && IsSlug(t[1..]) {
          assert IsLowerAlnum(t[1]);
          assert WellHyphenatedRest(t[2..]);
          assert forall i :: 2 <= i < |t| ==> t[i] == t[2..][i - 2];
        } else {
          assert WellHyphenatedRest(t[1..]);
          assert forall i :: 1 <= i < |t| ==> t[i] == t[1..][i - 1];
        }
      }
      if WellHyphenatedRest(t) {
        assert forall i :: 0 <= i < |t| - 1 ==> t[1..][i] == t[i + 1];
        assert WellHyphenatedRest(t[1..]);
        if t[0] == '-' {
          assert |t| > 1 && IsLowerAlnum(t[1]);
          assert forall i :: 0 <= i < |t| - 2 ==> t[2..][i] == t[i + 2];
          assert WellHyphenatedRest(t[2..]);
          assert t[1..][1..] == t[2..];
        }
      }
    }
  }

  /** The slug pattern accepts exactly the non-empty `[a-z0-9]` runs joined
      by single hyphens. */
  lemma {:induction false} SlugShape(s: string)
    ensures IsSlug(s) <==> WellHyphenated(s)
  {
    if |s| > 0 {
      RestOfSlugShape(s[1..]);
      assert forall i :: 0 <= i < |s| - 1 ==> s[1..][i] == s[i + 1];
      if WellHyphenated(s) {
        assert WellHyphenatedRest(s[1..]);
      }
      if IsSlug(s) {
        assert forall i :: 1 <= i < |s| ==> s[i] == s[1..][i - 1];
      }
    }
  }

  /** An accepted slug has no upper-case letter, no `/`, no `.` and no
      white space, so it can name neither a path separator nor `..`. */
  lemma {:induction false} SlugIsPathSafe(s: string)
    requires IsSlug(s)
    ensures |s| > 0 && s[0] != '-' && s[|s| - 1] != '-'
    ensures forall i :: 0 <= i < |s| ==> !('A' <= s[i] <= 'Z')
    ensures '/' !in s && '.' !in s && ' ' !in s && '\t' !in s && '\n' !in s
  {
    SlugShape(s);
  }

  predicate AllDigits(s: string)
  {
    s == [] || (IsDigit(s[0]) && AllDigits(s[1..]))
  }

  /** VALIDATION_PATTERNS.DATE: `DDDD-DD-DD` with ASCII digits. */
  predicate IsDate(s: string)
  {
    |s| == 10 && AllDigits(s[..4]) && s[4] == '-' && AllDigits(s[5..7]) && s[7] == '-' && AllDigits(s[8..])
  }

  lemma {:induction false} AllDigitsAt(s: string)
    ensures AllDigits(s) <==> forall i :: 0 <= i < |s| ==> IsDigit(s[i])
    decreases |s|
  {
    if s != [] {
      AllDigitsAt(s[1..]);
      assert forall i :: 1 <= i < |s| ==> s[i] == s[1..][i - 1];
    }
  }

  /** The date pattern checks the shape only: ten characters, hyphens at
      positions 4 and 7 and ASCII digits everywhere else. No month or day
      range is checked. */
  lemma {:induction false} DateShape(s: string)
    ensures IsDate(s) <==>
      |s| == 10 && s[4] == '-' && s[7] == '-'
      && forall i :: 0 <= i < |s| && i != 4 && i != 7 ==> IsDigit(s[i])
  {
    if |s| == 10 {
      AllDigitsAt(s[..4]);
      AllDigitsAt(s[5..7]);
      AllDigitsAt(s[8..]);
      assert forall i :: 0 <= i < 4 ==> s[..4][i] == s[i];
      assert forall i :: 5 <= i < 7 ==> s[5..7][i - 5] == s[i];
      assert forall i :: 8 <= i < 10 ==> s[8..][i - 8] == s[i];
    }
  }

  /** "2024-13-45" is accepted although month 13 and day 45 do not exist. */
  lemma {:induction false} DateHasNoRangeCheck()
    ensures IsDate("2024-13-45")
    ensures !IsDate("2024-1-015")
  {
    DateShape("2024-13-45");
    DateShape("2024-1-015");
  }
}
