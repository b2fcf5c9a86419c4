/**
 * The checks the login and signup forms share: the email pattern
 * `/\S+@\S+\.\S+/`, which `test` looks for anywhere in the value.
 */
module FormRules {
  import opened Text

  const EmailRequiredMsg: string := "Email is required"
  const EmailInvalidMsg: string := "Please enter a valid email address"

  /**
   * A match of the pattern with its `@` at `at` and its `.` at `dot`: a
   * non-space character before the `@`, a non-empty run of non-space characters
   * up to the `.`, and a non-space character after it.
   */
  predicate EmailAt(s: string, at: int, dot: int) {
    && 1 <= at && at + 2 <= dot && dot + 1 < |s|
    && s[at] == '@' && s[dot] == '.'
    && !IsSpace(s[at - 1]) && !IsSpace(s[dot + 1])
    && NoSpace(s[at + 1..dot])
  }

  /** `/\S+@\S+\.\S+/.test(s)` */
  predicate EmailShape(s: string) {
    exists at, dot | 0 <= at < |s| && 0 <= dot < |s| :: EmailAt(s, at, dot)
  }

  /** Looks for a match left to right: each `@` preceded by a non-space, then along the non-space run after it. */
  method TestEmail(s: string) returns (found: bool)
    ensures found <==> EmailShape(s)
  {
    var at := 1;
    while at < |s|
      invariant 1 <= at
      invariant forall a, d | a < at :: !EmailAt(s, a, d)
    {
      if s[at] == '@' && !IsSpace(s[at - 1]) {
        var j := at + 1;
        while j < |s| && !IsSpace(s[j])
          invariant at + 1 <= j <= |s|
          invariant NoSpace(s[at + 1..j])
          invariant forall d | d < j :: !EmailAt(s, at, d)
        {
          if s[j] == '.' && j >= at + 2 && j + 1 < |s| && !IsSpace(s[j + 1]) {
            assert EmailAt(s, at, j);
            return true;
          }
          NoSpaceGrows(s, at + 1, j);
          j := j + 1;
        }
        NoMatchPastSpace(s, at, j);
      }
      at := at + 1;
    }
    return false;
  }

  /** A run of non-space characters stays one when the next character is not a space either. */
  lemma NoSpaceGrows(s: string, lo: int, hi: int)
    requires 0 <= lo <= hi < |s|
    requires NoSpace(s[lo..hi]) && !IsSpace(s[hi])
    ensures NoSpace(s[lo..hi + 1])
  {
    assert s[lo..hi + 1] == s[lo..hi] + [s[hi]];
  }

  /** A match with its `@` at `at` cannot put its `.` at or beyond the first space (or the end) after the `@`. */
  lemma NoMatchPastSpace(s: string, at: int, j: int)
    requires 0 <= at < j <= |s|
    requires j == |s| || IsSpace(s[j])
    ensures forall d | d >= j :: !EmailAt(s, at, d)
  {
    forall d | d >= j
      ensures !EmailAt(s, at, d)
    {
      if j < d && d + 1 < |s| {
        // The space at `j` lies inside the run the match needs free of spaces.
        assert s[at + 1..d][j - at - 1] == s[j];
      }
    }
  }

  /** The first error of the email field, or "" when it has none. */
  function EmailError(email: string): (e: string)
    ensures e == "" <==> EmailShape(email)
    ensures e == EmailRequiredMsg <==> email == ""
  {
    if email == "" then EmailRequiredMsg
    else if !EmailShape(email) then EmailInvalidMsg
    else ""
  }

  /** The pattern is searched for, not matched whole: text around an address does not stop it. */
  lemma SurroundingTextAccepted()
    ensures EmailShape("write to a@b.c today")
    ensures !EmailShape("a@b")
  {
    var s := "write to a@b.c today";
    assert EmailAt(s, 10, 12) by {
      assert s[11..12] == "b";
    }
  }
}
