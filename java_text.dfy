/**
 * Value types and the parts of java.lang.String, java.util.StringJoiner,
 * org.apache.commons.lang3.StringUtils and java.lang.Long that the modelled
 * classes rely on, written out with their Java edge cases: `split` drops
 * trailing empty pieces, `indexOf` and `lastIndexOf` answer -1 when nothing
 * is found, and `substring` fails when its index is out of range.
 */
module JavaText {

  /** A Java reference that may be null. */
  datatype Option<+T> = None | Some(value: T)

  /** The outcome of a Java call that may throw: a value, or the exception's message. */
  datatype Result<+T> = Ok(value: T) | Err(message: string)

  // ---------------------------------------------------------------------------
  // Prefixes, suffixes, blanks

  predicate StartsWith(s: string, prefix: string) {
    prefix <= s
  }

  predicate EndsWith(s: string, suffix: string) {
    |suffix| <= |s| && s[|s| - |suffix|..] == suffix
  }

  /**
   * Character.isWhitespace, which StringUtils.isBlank uses: the ASCII tab,
   * line and file separators and the space, plus every Unicode space, line
   * and paragraph separator except the non-breaking ones (U+00A0, U+2007,
   * U+202F).
   */
  predicate IsWhitespace(c: char) {
    c == ' ' || c == '\t' || c == '\n' || c == '\r' || c == '\U{000B}' || c == '\U{000C}'
    || ('\U{001C}' <= c <= '\U{001F}')
    || c == '\U{1680}' || ('\U{2000}' <= c <= '\U{2006}') || ('\U{2008}' <= c <= '\U{200A}')
    || c == '\U{2028}' || c == '\U{2029}' || c == '\U{205F}' || c == '\U{3000}'
  }

  /** StringUtils.isBlank on a non-null string: empty or whitespace only. */
  predicate IsBlank(s: string) {
    forall i | 0 <= i < |s| :: IsWhitespace(s[i])
  }

  // ---------------------------------------------------------------------------
  // Searching

  /** `pat` occurs in `s` starting at index `j`. */
  predicate MatchAt(s: string, pat: string, j: int) {
    0 <= j && j + |pat| <= |s| && s[j..j + |pat|] == pat
  }

  function IndexOfFrom(s: string, pat: string, from: nat): (r: int)
    requires from <= |s|
    ensures r == -1 || (from <= r && MatchAt(s, pat, r))
    ensures forall j | from <= j && (r == -1 || j < r) :: !MatchAt(s, pat, j)
    decreases |s| - from
  {
    if from + |pat| > |s| then -1
    else if s[from..from + |pat|] == pat then from
    else IndexOfFrom(s, pat, from + 1)
  }

  /** String.indexOf(String): the first index where `pat` occurs, or -1. */
  function IndexOf(s: string, pat: string): (r: int)
    ensures r == -1 || MatchAt(s, pat, r)
    ensures forall j | 0 <= j && (r == -1 || j < r) :: !MatchAt(s, pat, j)
  {
    IndexOfFrom(s, pat, 0)
  }

  /** A string that starts with `pat` has `pat` at index 0. */
  lemma IndexOfPrefix(pat: string, rest: string)
    ensures IndexOf(pat + rest, pat) == 0
  {
    assert (pat + rest)[0..|pat|] == pat;
    assert MatchAt(pat + rest, pat, 0);
  }

  /** String.lastIndexOf for a one-character pattern: the last index of `c`, or -1. */
  function LastIndexOf(s: string, c: char): (r: int)
    ensures -1 <= r < |s|
    ensures r >= 0 ==> s[r] == c
    ensures forall j | r < j < |s| :: s[j] != c
  {
    if |s| == 0 then -1
    else if s[|s| - 1] == c then |s| - 1
    else LastIndexOf(s[..|s| - 1], c)
  }

  // ---------------------------------------------------------------------------
  // Joining and splitting

  /** StringJoiner / String.join: the parts in order with `sep` between neighbours. */
  function Join(parts: seq<string>, sep: string): string {
    if |parts| == 0 then ""
    else if |parts| == 1 then parts[0]
    else parts[0] + sep + Join(parts[1..], sep)
  }

  /** Adding one more part to a joiner appends the separator (if there were parts) and the part. */
  lemma {:induction false} JoinAppend(parts: seq<string>, x: string, sep: string)
    ensures Join(parts + [x], sep) == if parts == [] then x else Join(parts, sep) + sep + x
    decreases |parts|
  {
    if |parts| >= 2 {
      assert (parts + [x])[1..] == parts[1..] + [x];
      JoinAppend(parts[1..], x, sep);
    } else if |parts| == 1 {
      assert (parts + [x])[1..] == [x];
    }
  }

  /** Every piece between two delimiters, empty pieces included. */
  function SplitAll(s: string, d: char): (r: seq<string>)
    ensures |r| >= 1
    ensures forall i | 0 <= i < |r| :: d !in r[i]
  {
    if |s| == 0 then [""]
    else
      var rest := SplitAll(s[1..], d);
      if s[0] == d then [""] + rest
      else [[s[0]] + rest[0]] + rest[1..]
  }

  /** Joining the pieces with the delimiter gives back the string. */
  lemma {:induction false} SplitAllJoin(s: string, d: char)
    ensures Join(SplitAll(s, d), [d]) == s
  {
    if |s| > 0 {
      var rest := SplitAll(s[1..], d);
      SplitAllJoin(s[1..], d);
      if s[0] != d && |rest| > 1 {
        assert ([[s[0]] + rest[0]] + rest[1..])[1..] == rest[1..];
      }
      if s[0] == d {
        assert ([""] + rest)[1..] == rest;
      }
    }
  }

  lemma {:induction false} SplitAllNoDelimiter(p: string, d: char)
    requires d !in p
    ensures SplitAll(p, d) == [p]
  {
    if |p| > 0 {
      SplitAllNoDelimiter(p[1..], d);
      assert p[0] != d && [p[0]] + p[1..] == p;
    }
  }

  lemma {:induction false} SplitAllCons(p: string, t: string, d: char)
    requires d !in p
    ensures SplitAll(p + [d] + t, d) == [p] + SplitAll(t, d)
  {
    if |p| == 0 {
      assert (p + [d] + t)[1..] == t;
    } else {
      assert (p + [d] + t)[1..] == p[1..] + [d] + t;
      SplitAllCons(p[1..], t, d);
      assert p[0] != d && [p[0]] + p[1..] == p;
    }
  }

  /** Splitting the joined parts gives back the parts, when no part holds the delimiter. */
  lemma {:induction false} JoinSplitAll(parts: seq<string>, d: char)
    requires |parts| >= 1
    requires forall i | 0 <= i < |parts| :: d !in parts[i]
    ensures SplitAll(Join(parts, [d]), d) == parts
  {
    if |parts| == 1 {
      SplitAllNoDelimiter(parts[0], d);
    } else {
      JoinSplitAll(parts[1..], d);
      SplitAllCons(parts[0], Join(parts[1..], [d]), d);
    }
  }

  function DropTrailingEmpty(r: seq<string>): (t: seq<string>)
    ensures t <= r
    ensures |t| == 0 || t[|t| - 1] != ""
    ensures forall i | |t| <= i < |r| :: r[i] == ""
  {
    if |r| > 0 && r[|r| - 1] == "" then DropTrailingEmpty(r[..|r| - 1]) else r
  }

  /**
   * String.split with a one-character delimiter and no limit: the whole string
   * when the delimiter does not occur, otherwise the pieces without the
   * trailing empty ones.
   */
  function Split(s: string, d: char): (r: seq<string>)
    ensures forall i | 0 <= i < |r| :: d !in r[i]
    ensures d !in s ==> r == [s]
    ensures d in s ==> r <= SplitAll(s, d) && (|r| == 0 || r[|r| - 1] != "")
  {
    if d in s then DropTrailingEmpty(SplitAll(s, d)) else [s]
  }

  /** Split undoes Join when no part holds the delimiter and the last part is not empty. */
  lemma JoinSplit(parts: seq<string>, d: char)
    requires |parts| >= 1
    requires forall i | 0 <= i < |parts| :: d !in parts[i]
    requires |parts| == 1 || parts[|parts| - 1] != ""
    ensures Split(Join(parts, [d]), d) == parts
  {
    JoinSplitAll(parts, d);
    if |parts| >= 2 {
      assert Join(parts, [d]) == parts[0] + [d] + Join(parts[1..], [d]);
      assert Join(parts, [d])[|parts[0]|] == d;
    } else {
      assert Join(parts, [d]) == parts[0];
    }
  }

  /** A joined string is blank only when every part is. */
  lemma {:induction false} JoinBlank(parts: seq<string>, sep: string, i: int)
    requires 0 <= i < |parts|
    requires IsBlank(Join(parts, sep))
    ensures IsBlank(parts[i])
    decreases |parts|
  {
    if |parts| >= 2 {
      var rest := Join(parts[1..], sep);
      assert Join(parts, sep) == parts[0] + sep + rest;
      if i == 0 {
        forall k | 0 <= k < |parts[0]| ensures IsWhitespace(parts[0][k]) {
          assert parts[0][k] == Join(parts, sep)[k];
        }
      } else {
        forall k | 0 <= k < |rest| ensures IsWhitespace(rest[k]) {
          assert rest[k] == Join(parts, sep)[|parts[0]| + |sep| + k];
        }
        JoinBlank(parts[1..], sep, i - 1);
      }
    }
  }

  // ---------------------------------------------------------------------------
  // Lists

  /** List.indexOf: the first position of `x`, or -1. */
  function IndexOfItem<T(==)>(xs: seq<T>, x: T): (r: int)
    ensures r == -1 <==> x !in xs
    ensures r != -1 ==> 0 <= r < |xs| && xs[r] == x && forall j | 0 <= j < r :: xs[j] != x
  {
    if xs == [] then -1
    else if xs[0] == x then 0
    else var r := IndexOfItem(xs[1..], x); if r == -1 then -1 else r + 1
  }

  /** List.lastIndexOf: the last position of `x`, or -1. */
  function LastIndexOfItem<T(==)>(xs: seq<T>, x: T): (r: int)
    ensures r == -1 <==> x !in xs
    ensures r != -1 ==> 0 <= r < |xs| && xs[r] == x && forall j | r < j < |xs| :: xs[j] != x
  {
    if xs == [] then -1
    else if xs[|xs| - 1] == x then |xs| - 1
    else LastIndexOfItem(xs[..|xs| - 1], x)
  }

  // ---------------------------------------------------------------------------
  // Numbers

  predicate IsDigit(c: char) {
    '0' <= c <= '9'
  }

  function DigitChar(d: nat): (c: char)
    requires d < 10
    ensures IsDigit(c) && c as int - '0' as int == d
  {
    "0123456789"[d]
  }

  /** Integer.toString / string concatenation of a non-negative number. */
  function NatToString(n: nat): (r: string)
    ensures |r| >= 1
    ensures forall i | 0 <= i < |r| :: IsDigit(r[i])
  {
    if n < 10 then [DigitChar(n)] else NatToString(n / 10) + [DigitChar(n % 10)]
  }

  function DigitsValue(s: string): nat
    requires forall i | 0 <= i < |s| :: IsDigit(s[i])
  {
    if |s| == 0 then 0
    else
      var c := s[|s| - 1];
      assert IsDigit(c);
      DigitsValue(s[..|s| - 1]) * 10 + (c as int - '0' as int)
  }

  lemma {:induction false} DigitsOfNat(n: nat)
    ensures DigitsValue(NatToString(n)) == n
  {
    if n >= 10 {
      DigitsOfNat(n / 10);
      var s := NatToString(n);
      assert s[..|s| - 1] == NatToString(n / 10);
    }
  }

  const LONG_MIN: int := -0x8000_0000_0000_0000
  const LONG_MAX: int := 0x7FFF_FFFF_FFFF_FFFF

  /** The value of a sign and a digit string, when it is a long. */
  function SignedDigits(negative: bool, digits: string): (r: Option<int>)
    ensures r.Some? ==> LONG_MIN <= r.value <= LONG_MAX && |digits| >= 1
  {
    if |digits| == 0 || !(forall i | 0 <= i < |digits| :: IsDigit(digits[i])) then None
    else
      var v: int := if negative then 0 - DigitsValue(digits) else DigitsValue(digits);
      if LONG_MIN <= v <= LONG_MAX then Some(v) else None
  }

  /**
   * Long.parseLong: an optional sign followed by at least one decimal digit,
   * in the range of a 64-bit long; None stands for NumberFormatException
   * (a null argument throws it too).
   */
  function ParseLong(s: Option<string>): (r: Option<int>)
    ensures r.Some? ==> LONG_MIN <= r.value <= LONG_MAX
    ensures r.Some? ==> s.Some? && |s.value| >= 1
  {
    match s
    case None => None
    case Some(t) =>
      if |t| > 0 && (t[0] == '-' || t[0] == '+') then SignedDigits(t[0] == '-', t[1..])
      else SignedDigits(false, t)
  }

  /** Long.toString. */
  function LongToString(v: int): string {
    if v < 0 then "-" + NatToString(-v) else NatToString(v)
  }

  /** Every long survives printing and parsing back. */
  lemma ParseLongRoundTrip(v: int)
    requires LONG_MIN <= v <= LONG_MAX
    ensures ParseLong(Some(LongToString(v))) == Some(v)
  {
    if v < 0 {
      NegativeRoundTrip(v);
    } else {
      NonNegativeRoundTrip(v);
    }
  }

  /** A printed number read back with a sign: its value, negated when the sign is '-'. */
  lemma SignedDigitsOfNat(negative: bool, n: nat)
    requires if negative then LONG_MIN <= -(n as int) else n <= LONG_MAX
    ensures SignedDigits(negative, NatToString(n)) == Some(if negative then -(n as int) else n)
  {
    DigitsOfNat(n);
  }

  lemma NegativeRoundTrip(v: int)
    requires LONG_MIN <= v < 0
    ensures ParseLong(Some("-" + NatToString(-v))) == Some(v)
  {
    var d := NatToString(-v);
    SignedDigitsOfNat(true, -v);
    assert ("-" + d)[0] == '-' && ("-" + d)[1..] == d;
  }

  lemma NonNegativeRoundTrip(v: int)
    requires 0 <= v <= LONG_MAX
    ensures ParseLong(Some(NatToString(v))) == Some(v)
  {
    SignedDigitsOfNat(false, v);
    assert IsDigit(NatToString(v)[0]);
  }
  // ---------------------------------------------------------------------------
  // Ordering (String.compareTo) and Collections.sort

  /** `a` comes no later than `b` in String.compareTo order. */
  predicate LexLessEq(a: string, b: string)
    decreases |a|
  {
    |a| == 0 || (|b| > 0 && (a[0] < b[0] || (a[0] == b[0] && LexLessEq(a[1..], b[1..]))))
  }

  lemma {:induction false} LexTotal(a: string, b: string)
    ensures LexLessEq(a, b) || LexLessEq(b, a)
    decreases |a|
  {
    if |a| > 0 && |b| > 0 && a[0] == b[0] {
      LexTotal(a[1..], b[1..]);
    }
  }

  lemma {:induction false} LexTransitive(a: string, b: string, c: string)
    requires LexLessEq(a, b) && LexLessEq(b, c)
    ensures LexLessEq(a, c)
    decreases |a|
  {
    if |a| > 0 && a[0] == b[0] && b[0] == c[0] {
      LexTransitive(a[1..], b[1..], c[1..]);
    }
  }

  predicate SortedLex(s: seq<string>) {
    forall i, j | 0 <= i < j < |s| :: LexLessEq(s[i], s[j])
  }

  function Insert(x: string, s: seq<string>): (r: seq<string>)
    requires SortedLex(s)
    ensures SortedLex(r)
    ensures multiset(r) == multiset(s) + multiset{x}
  {
    if s == [] then [x]
    else if LexLessEq(x, s[0]) then
      assert forall j | 0 <= j < |s| :: LexLessEq(x, s[j]) by {
        forall j | 0 <= j < |s| ensures LexLessEq(x, s[j]) {
          if j > 0 { LexTransitive(x, s[0], s[j]); }
        }
      }
      [x] + s
    else
      var rest := Insert(x, s[1..]);
      assert s == [s[0]] + s[1..];
      LexTotal(x, s[0]);
      assert forall j | 0 <= j < |rest| :: LexLessEq(s[0], rest[j]) by {
        forall j | 0 <= j < |rest| ensures LexLessEq(s[0], rest[j]) {
          assert rest[j] in multiset(rest);
          if rest[j] != x {
            assert rest[j] in multiset(s[1..]);
            var k :| 1 <= k < |s| && s[k] == rest[j];
          }
        }
      }
      [s[0]] + rest
  }

  /** Collections.sort on a list of strings: the same strings in ascending order. */
  function SortStrings(s: seq<string>): (r: seq<string>)
    ensures SortedLex(r)
    ensures multiset(r) == multiset(s)
  {
    if s == [] then []
    else
      assert s == [s[0]] + s[1..];
      Insert(s[0], SortStrings(s[1..]))
  }
}
