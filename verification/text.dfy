/** The JavaScript string primitives the components use: trim, split, join,
    toLowerCase, includes/startsWith/endsWith, indexOf, decimal formatting and
    parsing, and the `<` order on strings. Strings are sequences of characters. */
module Text {
  import opened Wrappers

  /** The characters JavaScript's `trim()` removes and `\s` matches:
      WhiteSpace (tab, VT, FF, space, NBSP, BOM and the Zs category) and
      LineTerminator (LF, CR, LS, PS). */
  predicate IsSpace(c: char) {
    c == '\t' || c == '\n' || c == '\U{000B}' || c == '\U{000C}' || c == '\r' ||
    c == ' ' || c == '\U{00A0}' || c == '\U{1680}' || ('\U{2000}' <= c <= '\U{200A}') ||
    c == '\U{2028}' || c == '\U{2029}' || c == '\U{202F}' || c == '\U{205F}' ||
    c == '\U{3000}' || c == '\U{FEFF}'
  }

  // ---------------------------------------------------------------- trim

  function TrimStart(s: string): string
    decreases |s|
  {
    if |s| > 0 && IsSpace(s[0]) then TrimStart(s[1..]) else s
  }

  function TrimEnd(s: string): string
    decreases |s|
  {
    if |s| > 0 && IsSpace(s[|s| - 1]) then TrimEnd(s[..|s| - 1]) else s
  }

  /** `s.trim()`. */
  function Trim(s: string): string {
    TrimEnd(TrimStart(s))
  }

  /** TrimStart drops exactly the leading whitespace. */
  lemma {:induction false} TrimStartSpec(s: string)
    ensures var r := TrimStart(s);
      && |r| <= |s| && r == s[|s| - |r|..]
      && (|r| > 0 ==> !IsSpace(r[0]))
      && forall i :: 0 <= i < |s| - |r| ==> IsSpace(s[i])
    decreases |s|
  {
    if |s| > 0 && IsSpace(s[0]) {
      TrimStartSpec(s[1..]);
    }
  }

  /** TrimEnd drops exactly the trailing whitespace. */
  lemma {:induction false} TrimEndSpec(s: string)
    ensures var r := TrimEnd(s);
      && |r| <= |s| && r == s[..|r|]
      && (|r| > 0 ==> !IsSpace(r[|r| - 1]))
      && forall i :: |r| <= i < |s| ==> IsSpace(s[i])
    decreases |s|
  {
    if |s| > 0 && IsSpace(s[|s| - 1]) {
      TrimEndSpec(s[..|s| - 1]);
    }
  }

  /** A string that `trim()` leaves alone. */
  predicate Trimmed(s: string) {
    |s| == 0 || (!IsSpace(s[0]) && !IsSpace(s[|s| - 1]))
  }

  /** `trim()` keeps one contiguous run of the string, starts and ends it with
      a visible character, and drops only whitespace around it. */
  lemma TrimSpec(s: string)
    ensures var r := Trim(s);
      var a := |s| - |TrimStart(s)|;
      && Trimmed(r)
      && 0 <= a <= |s| - |r| && r == s[a..a + |r|]
      && (forall i :: 0 <= i < a ==> IsSpace(s[i]))
      && (forall i :: a + |r| <= i < |s| ==> IsSpace(s[i]))
  {
    var t := TrimStart(s);
    TrimStartSpec(s);
    TrimEndSpec(t);
  }

  lemma TrimmedIsFixed(s: string)
    requires Trimmed(s)
    ensures Trim(s) == s
  {
  }

  /** `!s.trim()`: the string is empty or all whitespace. */
  predicate IsBlank(s: string) {
    forall i :: 0 <= i < |s| ==> IsSpace(s[i])
  }

  /** `trim()` leaves nothing exactly of a blank string. */
  lemma BlankIffTrimEmpty(s: string)
    ensures IsBlank(s) <==> Trim(s) == ""
  {
    var t := TrimStart(s);
    TrimStartSpec(s);
    TrimEndSpec(t);
    if Trim(s) != "" {
      assert t[0] == s[|s| - |t|];
    }
  }

  /** A string that starts with a visible character is not blank. */
  lemma NotBlankWhenHeadVisible(s: string)
    requires |s| > 0 && !IsSpace(s[0])
    ensures !IsBlank(s)
  {
  }

  // ---------------------------------------------------------------- split / join

  /** `s.split(c)` for a one-character separator: always at least one part,
      and the empty string splits into [""]. */
  function Split(s: string, c: char): (r: seq<string>)
    ensures |r| >= 1
    decreases |s|
  {
    if |s| == 0 then [""]
    else
      var rest := Split(s[1..], c);
      if s[0] == c then [""] + rest else [[s[0]] + rest[0]] + rest[1..]
  }

  /** `parts.join(c)`. */
  function Join(parts: seq<string>, c: char): string
    decreases |parts|
  {
    if |parts| == 0 then ""
    else if |parts| == 1 then parts[0]
    else parts[0] + [c] + Join(parts[1..], c)
  }

  /** A string without the separator splits into itself. */
  lemma {:induction false} SplitWithoutSeparator(s: string, c: char)
    requires c !in s
    ensures Split(s, c) == [s]
    decreases |s|
  {
    if |s| > 0 {
      assert c !in s[1..];
      SplitWithoutSeparator(s[1..], c);
      assert [s[0]] + s[1..] == s;
    }
  }

  /** The first separator ends the first part. */
  lemma {:induction false} SplitAtFirstSeparator(a: string, c: char, b: string)
    requires c !in a
    ensures Split(a + [c] + b, c) == [a] + Split(b, c)
    decreases |a|
  {
    var s := a + [c] + b;
    if |a| == 0 {
      assert s == [c] + b;
      assert s[1..] == b;
    } else {
      assert s[1..] == a[1..] + [c] + b;
      assert c !in a[1..];
      SplitAtFirstSeparator(a[1..], c, b);
      assert [a[0]] + a[1..] == a;
    }
  }

  /** Joining parts free of the separator and splitting again recovers the
      leading separator-free parts; the last part is split on its own. */
  lemma {:induction false} SplitJoinFront(parts: seq<string>, c: char)
    requires |parts| >= 1
    requires forall i :: 0 <= i < |parts| - 1 ==> c !in parts[i]
    ensures Split(Join(parts, c), c) == parts[..|parts| - 1] + Split(parts[|parts| - 1], c)
    decreases |parts|
  {
    if |parts| > 1 {
      SplitAtFirstSeparator(parts[0], c, Join(parts[1..], c));
      SplitJoinFront(parts[1..], c);
      assert parts[..|parts| - 1] == [parts[0]] + parts[1..][..|parts[1..]| - 1];
    }
  }

  /** Three separator-free parts joined by the separator split back apart. */
  lemma Split3(a: string, b: string, d: string, c: char)
    requires c !in a && c !in b && c !in d
    ensures Split(a + [c] + b + [c] + d, c) == [a, b, d]
  {
    assert a + [c] + b + [c] + d == a + [c] + (b + [c] + d);
    SplitAtFirstSeparator(a, c, b + [c] + d);
    SplitAtFirstSeparator(b, c, d);
    SplitWithoutSeparator(d, c);
  }

  /** split is the inverse of join on separator-free parts. */
  lemma SplitJoin(parts: seq<string>, c: char)
    requires |parts| >= 1
    requires forall i :: 0 <= i < |parts| ==> c !in parts[i]
    ensures Split(Join(parts, c), c) == parts
  {
    SplitJoinFront(parts, c);
    SplitWithoutSeparator(parts[|parts| - 1], c);
    assert parts[..|parts| - 1] + [parts[|parts| - 1]] == parts;
  }

  /** A joined string contains no character absent from its parts and the separator. */
  lemma {:induction false} JoinAvoids(parts: seq<string>, c: char, x: char)
    requires x != c
    requires forall i :: 0 <= i < |parts| ==> x !in parts[i]
    ensures x !in Join(parts, c)
    decreases |parts|
  {
    if |parts| > 1 {
      JoinAvoids(parts[1..], c, x);
    }
  }

  /** The joined string starts with the first part. */
  lemma {:induction false} JoinStartsWithFirst(parts: seq<string>, c: char)
    requires |parts| >= 1
    ensures parts[0] <= Join(parts, c)
  {
  }

  // ---------------------------------------------------------------- case and search

  /** `toLowerCase()` on one character, for the ASCII letters. */
  function LowerChar(c: char): (r: char)
    ensures 'A' <= c <= 'Z' ==> 'a' <= r <= 'z' && r as int == c as int + 32
    ensures !('A' <= c <= 'Z') ==> r == c
  {
    if 'A' <= c <= 'Z' then (c as int + 32) as char else c
  }

  function ToLower(s: string): (r: string)
    ensures |r| == |s| && forall i :: 0 <= i < |s| ==> r[i] == LowerChar(s[i])
  {
    seq(|s|, i requires 0 <= i < |s| => LowerChar(s[i]))
  }

  /** `s.includes(q)`. */
  predicate Contains(s: string, q: string)
    decreases |s|
  {
    q <= s || (|s| > 0 && Contains(s[1..], q))
  }

  /** q occurs in s starting at position k. */
  predicate OccursAt(s: string, q: string, k: int) {
    0 <= k <= |s| - |q| && s[k..k + |q|] == q
  }

  /** includes means: q occurs at some position of s. */
  lemma {:induction false} ContainsIff(s: string, q: string)
    ensures Contains(s, q) <==> exists k :: OccursAt(s, q, k)
    decreases |s|
  {
    if q <= s {
      assert OccursAt(s, q, 0);
    }
    if |s| > 0 {
      ContainsIff(s[1..], q);
      if Contains(s[1..], q) {
        var k :| OccursAt(s[1..], q, k);
        assert s[1..][k..k + |q|] == s[k + 1..k + 1 + |q|];
        assert OccursAt(s, q, k + 1);
      }
      if exists k :: OccursAt(s, q, k) {
        var k :| OccursAt(s, q, k);
        if k > 0 {
          assert s[1..][k - 1..k - 1 + |q|] == s[k..k + |q|];
          assert OccursAt(s[1..], q, k - 1);
        } else {
          assert q <= s;
        }
      }
    }
  }

  predicate StartsWith(s: string, prefix: string) {
    prefix <= s
  }

  predicate EndsWith(s: string, suffix: string) {
    |suffix| <= |s| && s[|s| - |suffix|..] == suffix
  }

  /** `list.indexOf(x)`: the first position holding x, or -1. */
  function IndexOf(list: seq<string>, x: string): (k: int)
    ensures -1 <= k < |list|
    ensures k == -1 <==> x !in list
    ensures k >= 0 ==> list[k] == x && forall j :: 0 <= j < k ==> list[j] != x
    decreases |list|
  {
    if |list| == 0 then -1
    else if list[0] == x then 0
    else
      var k := IndexOf(list[1..], x);
      if k == -1 then -1 else k + 1
  }

  /** An element found nowhere earlier is found where it is. */
  lemma IndexOfFirst(list: seq<string>, k: nat)
    requires k < |list| && forall j :: 0 <= j < k ==> list[j] != list[k]
    ensures IndexOf(list, list[k]) == k
  {
  }

  /** `s.split(c)[0]`: everything before the first c. */
  function Before(s: string, c: char): (r: string)
    ensures r <= s && c !in r
    ensures |r| < |s| ==> s[|r|] == c
    decreases |s|
  {
    if |s| == 0 || s[0] == c then "" else [s[0]] + Before(s[1..], c)
  }

  /** `Before` is the first part of `Split`. */
  lemma {:induction false} BeforeIsFirstPart(s: string, c: char)
    ensures Split(s, c)[0] == Before(s, c)
    decreases |s|
  {
    if |s| > 0 && s[0] != c {
      BeforeIsFirstPart(s[1..], c);
    }
  }

  // ---------------------------------------------------------------- numbers

  predicate IsDigit(c: char) {
    '0' <= c <= '9'
  }

  predicate AllDigits(s: string) {
    forall i :: 0 <= i < |s| ==> IsDigit(s[i])
  }

  /** A string of digits holds no character that is not a digit. */
  lemma DigitsAvoid(s: string, c: char)
    requires AllDigits(s) && !IsDigit(c)
    ensures c !in s
  {
  }

  function DigitChar(d: nat): (c: char)
    requires d < 10
    ensures IsDigit(c) && c as int - '0' as int == d
  {
    ('0' as int + d) as char
  }

  /** `String(n)` for a non-negative integer. */
  function NatToString(n: nat): (s: string)
    ensures |s| >= 1 && AllDigits(s)
    ensures n < 10 <==> |s| == 1
    decreases n
  {
    if n < 10 then [DigitChar(n)] else NatToString(n / 10) + [DigitChar(n % 10)]
  }

  /** A numerator below d * (m + 1) gives a quotient of at most m. */
  lemma QuotientBelow(x: nat, d: nat, m: nat)
    requires d > 0 && x < d * (m + 1)
    ensures x / d <= m
  {
    var q := x / d;
    assert x == q * d + x % d;
  }

  /** A numerator of at least d * m gives a quotient of at least m. */
  lemma QuotientAtLeast(x: nat, d: nat, m: nat)
    requires d > 0 && d * m <= x
    ensures x / d >= m
  {
    var q, r := x / d, x % d;
    assert x == q * d + r && r < d;
    assert (q + 1 - m) * d == q * d + d - d * m;
    PositiveFactor(q + 1 - m, d);
  }

  /** A positive product with a positive factor has a positive other factor. */
  lemma PositiveFactor(t: int, d: int)
    requires d > 0 && t * d > 0
    ensures t > 0
  {
  }

  /** The value of a string of decimal digits. */
  function DigitsValue(s: string): nat
    requires AllDigits(s)
    decreases |s|
  {
    if |s| == 0 then 0
    else DigitsValue(s[..|s| - 1]) * 10 + (s[|s| - 1] as int - '0' as int)
  }

  /** Reading back the decimal text of n gives n. */
  lemma {:induction false} DigitsOfNatToString(n: nat)
    ensures DigitsValue(NatToString(n)) == n
    decreases n
  {
    if n >= 10 {
      var s := NatToString(n);
      assert s[..|s| - 1] == NatToString(n / 10);
      DigitsOfNatToString(n / 10);
    }
  }

  /** Different numbers print differently. */
  lemma NatToStringInjective(a: nat, b: nat)
    requires NatToString(a) == NatToString(b)
    ensures a == b
  {
    DigitsOfNatToString(a);
    DigitsOfNatToString(b);
  }

  /** `String(n).padStart(2, "0")`. */
  function Pad2(n: nat): (s: string)
    ensures AllDigits(s) && |s| >= 2
    ensures n < 100 ==> |s| == 2
  {
    if n < 10 then "0" + NatToString(n) else NatToString(n)
  }

  /** The padded text still reads as n. */
  lemma Pad2Value(n: nat)
    ensures DigitsValue(Pad2(n)) == n
  {
    DigitsOfNatToString(n);
    if n < 10 {
      assert ("0" + NatToString(n))[..1] == "0";
    }
  }

  /** Different numbers pad differently. */
  lemma Pad2Injective(a: nat, b: nat)
    requires Pad2(a) == Pad2(b)
    ensures a == b
  {
    Pad2Value(a);
    Pad2Value(b);
  }

  /** The longest prefix of decimal digits. */
  function LeadingDigits(s: string): (r: string)
    ensures r <= s && AllDigits(r)
    ensures |r| < |s| ==> !IsDigit(s[|r|])
    decreases |s|
  {
    if |s| > 0 && IsDigit(s[0]) then [s[0]] + LeadingDigits(s[1..]) else ""
  }

  lemma {:induction false} LeadingDigitsOfDigits(s: string)
    requires AllDigits(s)
    ensures LeadingDigits(s) == s
    decreases |s|
  {
    if |s| > 0 {
      LeadingDigitsOfDigits(s[1..]);
      assert [s[0]] + s[1..] == s;
    }
  }

  lemma {:induction false} LeadingDigitsStop(s: string, t: string)
    requires AllDigits(s) && (|t| == 0 || !IsDigit(t[0]))
    ensures LeadingDigits(s + t) == s
    decreases |s|
  {
    if |s| > 0 {
      assert (s + t)[1..] == s[1..] + t;
      LeadingDigitsStop(s[1..], t);
      assert [s[0]] + s[1..] == s;
    } else {
      assert s + t == t;
    }
  }

  /** `Number.parseInt(s, 10)`; None stands for NaN. Leading whitespace is
      skipped, one sign is accepted, and the longest digit prefix is read. */
  function ParseInt(s: string): (r: Option<int>)
  {
    var t := TrimStart(s);
    var neg := |t| > 0 && t[0] == '-';
    var body := if |t| > 0 && (t[0] == '-' || t[0] == '+') then t[1..] else t;
    var digits := LeadingDigits(body);
    if |digits| == 0 then None
    else
      var v: int := DigitsValue(digits);
      Some(if neg then -v else v)
  }

  /** parseInt reads back the two-digit field of a formatted date. */
  lemma ParseIntPad2(n: nat, rest: string)
    requires |rest| == 0 || !IsDigit(rest[0])
    ensures ParseInt(Pad2(n) + rest) == Some(n)
  {
    var p := Pad2(n);
    Pad2Value(n);
    ParseIntDigits(p, rest);
  }

  /** parseInt reads a digit string up to the first non-digit. */
  lemma ParseIntDigits(p: string, rest: string)
    requires |p| > 0 && AllDigits(p) && (|rest| == 0 || !IsDigit(rest[0]))
    ensures ParseInt(p + rest) == Some(DigitsValue(p))
  {
    var s := p + rest;
    assert s[0] == p[0] && IsDigit(s[0]);
    TrimStartVisible(s);
    LeadingDigitsStop(p, rest);
    assert LeadingDigits(s) == p;
  }

  lemma TrimStartVisible(s: string)
    requires |s| > 0 && IsDigit(s[0])
    ensures TrimStart(s) == s && s[0] != '-' && s[0] != '+'
  {
  }

  // ---------------------------------------------------------------- order

  /** JavaScript's `a < b` on strings: lexicographic on characters. */
  predicate LexLess(a: string, b: string)
    decreases |a|
  {
    if |a| == 0 then |b| > 0
    else if |b| == 0 then false
    else if a[0] != b[0] then a[0] < b[0]
    else LexLess(a[1..], b[1..])
  }

  lemma {:induction false} LexLessIrreflexive(a: string)
    ensures !LexLess(a, a)
    decreases |a|
  {
    if |a| > 0 { LexLessIrreflexive(a[1..]); }
  }

  lemma {:induction false} LexLessTransitive(a: string, b: string, c: string)
    requires LexLess(a, b) && LexLess(b, c)
    ensures LexLess(a, c)
    decreases |a|
  {
    if |a| > 0 && |b| > 0 && |c| > 0 && a[0] == b[0] && b[0] == c[0] {
      LexLessTransitive(a[1..], b[1..], c[1..]);
    }
  }

  lemma {:induction false} LexLessTotal(a: string, b: string)
    requires a != b
    ensures LexLess(a, b) || LexLess(b, a)
    decreases |a|
  {
    if |a| > 0 && |b| > 0 && a[0] == b[0] {
      assert a == [a[0]] + a[1..] && b == [b[0]] + b[1..];
      LexLessTotal(a[1..], b[1..]);
    }
  }
}
