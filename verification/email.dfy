/** The e-mail check `/\S+@\S+\.\S+/.test(email)` of the sign-up and inquiry
    forms. The pattern is not anchored, so it asks only that somewhere in the
    string a visible character precedes an "@", that visible characters follow
    it up to a "." at least two places later, and that a visible character
    follows the ".". */
module Email {
  import opened Text

  /** The regular expression matches with its "@" at a and its "." at d. */
  ghost predicate MatchesAt(s: string, a: int, d: int) {
    && 1 <= a && a + 2 <= d && d + 1 < |s|
    && s[a] == '@' && !IsSpace(s[a - 1])
    && s[d] == '.' && !IsSpace(s[d + 1])
    && forall j :: a < j < d ==> !IsSpace(s[j])
  }

  /** The declarative reading of the pattern. */
  ghost predicate EmailPattern(s: string) {
    exists a, d :: MatchesAt(s, a, d)
  }

  /** Scanning right from position i (everything between the "@" at a and i is
      visible): is there a "." that completes the match? */
  predicate DotFrom(s: string, a: nat, i: nat)
    decreases |s| - i
  {
    i < |s| && !IsSpace(s[i]) &&
    ((s[i] == '.' && i >= a + 2 && i + 1 < |s| && !IsSpace(s[i + 1])) || DotFrom(s, a, i + 1))
  }

  /** Scanning right from position a: is there an "@" where the match starts? */
  predicate AtFrom(s: string, a: nat)
    decreases |s| - a
  {
    a < |s| &&
    ((a >= 1 && s[a] == '@' && !IsSpace(s[a - 1]) && DotFrom(s, a, a + 1)) || AtFrom(s, a + 1))
  }

  /** `/\S+@\S+\.\S+/.test(s)`, computed by scanning. */
  predicate IsEmail(s: string) {
    AtFrom(s, 0)
  }

  lemma {:induction false} DotFromIff(s: string, a: nat, i: nat)
    requires 1 <= a < |s| && s[a] == '@' && !IsSpace(s[a - 1]) && a + 1 <= i
    requires forall j :: a < j < i && j < |s| ==> !IsSpace(s[j])
    ensures DotFrom(s, a, i) <==> exists d :: i <= d && MatchesAt(s, a, d)
    decreases |s| - i
  {
    if i < |s| && !IsSpace(s[i]) {
      DotFromIff(s, a, i + 1);
      if s[i] == '.' && i >= a + 2 && i + 1 < |s| && !IsSpace(s[i + 1]) {
        assert MatchesAt(s, a, i);
      }
      if d :| i <= d && MatchesAt(s, a, d) {
        assert d == i || i + 1 <= d;
      }
    }
  }

  lemma {:induction false} AtFromIff(s: string, a0: nat)
    ensures AtFrom(s, a0) <==> exists a, d :: a0 <= a && MatchesAt(s, a, d)
    decreases |s| - a0
  {
    if a0 < |s| {
      AtFromIff(s, a0 + 1);
      if a0 >= 1 && s[a0] == '@' && !IsSpace(s[a0 - 1]) {
        DotFromIff(s, a0, a0 + 1);
      }
      if a, d :| a0 <= a && MatchesAt(s, a, d) {
        if a == a0 {
          DotFromIff(s, a0, a0 + 1);
        }
      }
    }
  }

  /** The scanning check decides exactly the pattern. */
  lemma IsEmailIff(s: string)
    ensures IsEmail(s) <==> EmailPattern(s)
  {
    AtFromIff(s, 0);
  }
}
