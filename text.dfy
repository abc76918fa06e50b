/**
 * String operations the plugin applies to headlines: Python's `str.strip()`,
 * the enumeration-prefix substitution `re.sub(r'^\d+\.\s*', '', s)` and
 * `str.join`, with `str.split` as the partner of the latter.
 */
module Text {

  /** Python's `str.isspace()`: the characters `str.strip()` removes and `\s` matches in a str pattern. */
  predicate IsSpace(c: char) {
    ('\t' <= c <= '\r') || ('\U{1C}' <= c <= '\U{1F}') || c == ' ' || c == '\U{85}' || c == '\U{A0}'
    || c == '\U{1680}' || ('\U{2000}' <= c <= '\U{200A}') || c == '\U{2028}' || c == '\U{2029}'
    || c == '\U{202F}' || c == '\U{205F}' || c == '\U{3000}'
  }

  /** The regex class `\d`, restricted to ASCII digits. */
  predicate IsDigit(c: char) {
    '0' <= c <= '9'
  }

  predicate AllSpace(s: string) {
    forall i :: 0 <= i < |s| ==> IsSpace(s[i])
  }

  predicate AllDigits(s: string) {
    forall i :: 0 <= i < |s| ==> IsDigit(s[i])
  }

  /** True when `s` neither starts nor ends with whitespace. */
  predicate Trimmed(s: string) {
    s == [] || (!IsSpace(s[0]) && !IsSpace(s[|s| - 1]))
  }

  /** Drops the leading whitespace, as `str.lstrip()` does. */
  function TrimStart(s: string): string
    decreases |s|
  {
    if |s| > 0 && IsSpace(s[0]) then TrimStart(s[1..]) else s
  }

  /** Drops the trailing whitespace, as `str.rstrip()` does. */
  function TrimEnd(s: string): string
    decreases |s|
  {
    if |s| > 0 && IsSpace(s[|s| - 1]) then TrimEnd(s[..|s| - 1]) else s
  }

  /** `TrimStart` removes a whitespace prefix, and what is left does not start with whitespace. */
  lemma {:induction false} TrimStartSpec(s: string)
    ensures var r := TrimStart(s);
      |r| <= |s| && r == s[|s| - |r|..] && AllSpace(s[..|s| - |r|]) && (r == [] || !IsSpace(r[0]))
    decreases |s|
  {
    if |s| > 0 && IsSpace(s[0]) {
      TrimStartSpec(s[1..]);
      var r := TrimStart(s);
      assert s[..|s| - |r|] == [s[0]] + s[1..][..|s| - 1 - |r|];
    }
  }

  /** `TrimEnd` removes a whitespace suffix, and what is left does not end with whitespace. */
  lemma {:induction false} TrimEndSpec(s: string)
    ensures var r := TrimEnd(s);
      |r| <= |s| && r == s[..|r|] && AllSpace(s[|r|..]) && (r == [] || !IsSpace(r[|r| - 1]))
    decreases |s|
  {
    if |s| > 0 && IsSpace(s[|s| - 1]) {
      TrimEndSpec(s[..|s| - 1]);
      var r := TrimEnd(s);
      assert s[|r|..] == s[..|s| - 1][|r|..] + [s[|s| - 1]];
    }
  }

  /** Python's `str.strip()`: removes leading and trailing whitespace. */
  function Strip(s: string): string {
    TrimEnd(TrimStart(s))
  }

  /**
   * `Strip` is `str.strip()`: its result is trimmed, it is the part of `s`
   * left between a whitespace prefix and a whitespace suffix, and a string
   * that is already trimmed is left as it is.
   */
  lemma StripSpec(s: string)
    ensures var r := Strip(s);
      Trimmed(r) &&
      (exists i :: 0 <= i <= |s| - |r| && r == s[i..i + |r|] && AllSpace(s[..i]) && AllSpace(s[i + |r|..])) &&
      (Trimmed(s) ==> r == s)
  {
    var t := TrimStart(s);
    var r := TrimEnd(t);
    TrimStartSpec(s);
    TrimEndSpec(t);
    var i := |s| - |t|;
    assert s[i..i + |r|] == r;
    assert s[i + |r|..] == t[|r|..];
    if r != [] {
      assert r[0] == t[0];
    }
  }

  /** Length of the run of digits at the start of `s`. */
  function DigitRun(s: string): (n: nat)
    ensures n <= |s| && AllDigits(s[..n])
    ensures n == |s| || !IsDigit(s[n])
  {
    if |s| > 0 && IsDigit(s[0]) then
      var n := 1 + DigitRun(s[1..]);
      assert s[..n] == [s[0]] + s[1..][..n - 1];
      n
    else 0
  }

  /** True when `^\d+\.` matches at the start of `s`. */
  predicate HasEnumeration(s: string) {
    var n := DigitRun(s);
    0 < n < |s| && s[n] == '.'
  }

  /** `re.sub(r'^\d+\.\s*', '', s)`: the pattern is anchored, so at most one match, at the start, is removed. */
  function StripEnumeration(s: string): string {
    if HasEnumeration(s) then TrimStart(s[DigitRun(s) + 1..]) else s
  }

  /**
   * The result of the substitution is a suffix of `s`; it equals `s` exactly
   * when `s` does not start with digits followed by a dot; after a removal it
   * does not start with whitespace.
   */
  lemma StripEnumerationSpec(s: string)
    ensures var r := StripEnumeration(s);
      |r| <= |s| && r == s[|s| - |r|..] &&
      (r == s <==> !HasEnumeration(s)) &&
      (HasEnumeration(s) ==> r == [] || !IsSpace(r[0]))
  {
    if HasEnumeration(s) {
      TrimStartSpec(s[DigitRun(s) + 1..]);
    }
  }

  /** The text of one whole match of `\d+\.\s*`. */
  ghost predicate IsEnumerationMatch(p: string) {
    exists k :: 0 < k < |p| && p[k] == '.' && AllDigits(p[..k]) && AllSpace(p[k + 1..])
  }

  /**
   * The substitution removes the longest prefix of `s` that matches the
   * pattern (greedy `\d+` and `\s*`), and nothing when no prefix matches.
   */
  lemma StripEnumerationRemovesLongestMatch(s: string)
    ensures var m := |s| - |StripEnumeration(s)|;
      0 <= m && (m > 0 ==> IsEnumerationMatch(s[..m])) &&
      forall n :: m < n <= |s| ==> !IsEnumerationMatch(s[..n])
  {
    var r := StripEnumeration(s);
    var m := |s| - |r|;
    var d := DigitRun(s);
    StripEnumerationSpec(s);
    if m > 0 {
      assert HasEnumeration(s);
      var p := s[..m];
      var rest := s[d + 1..];
      var t := TrimStart(rest);
      TrimStartSpec(rest);
      assert t == r;
      assert p[..d] == s[..d];
      assert p[d + 1..] == rest[..|rest| - |t|];
      assert IsEnumerationMatch(p);
    }
    forall n | m < n <= |s|
      ensures !IsEnumerationMatch(s[..n])
    {
      if IsEnumerationMatch(s[..n]) {
        var p := s[..n];
        var k :| 0 < k < |p| && p[k] == '.' && AllDigits(p[..k]) && AllSpace(p[k + 1..]);
        MatchStartsWithDigitRun(s, n, k);
        assert false;
      }
    }
  }

  /** A match of the pattern at the start of `s` spans exactly the leading digit run, then the dot. */
  lemma MatchStartsWithDigitRun(s: string, n: nat, k: nat)
    requires 0 < k < n <= |s|
    requires s[..n][k] == '.' && AllDigits(s[..n][..k]) && AllSpace(s[..n][k + 1..])
    ensures k == DigitRun(s) && HasEnumeration(s)
    ensures forall j :: k < j < n ==> IsSpace(s[j])
  {
    var d := DigitRun(s);
    assert s[..n][..k] == s[..k];
    assert k < d ==> IsDigit(s[..d][k]);
    forall j | k < j < n
      ensures IsSpace(s[j])
    {
      assert s[..n][k + 1..][j - k - 1] == s[j];
    }
  }

  /** The substitution is not idempotent: one pass removes only the first enumeration. */
  lemma StripEnumerationNotIdempotent()
    ensures StripEnumeration("1. 2. X") == "2. X"
    ensures StripEnumeration(StripEnumeration("1. 2. X")) == "X"
  {
  }

  /** The headline cleaning of the extraction walk: strip the link text, then remove its enumeration prefix. */
  function CleanTitle(raw: string): string {
    StripEnumeration(Strip(raw))
  }

  /** A cleaned title is a suffix of the stripped link text, and it is trimmed on both sides. */
  lemma CleanTitleSpec(raw: string)
    ensures var t := Strip(raw); var r := CleanTitle(raw);
      Trimmed(r) && |r| <= |t| && r == t[|t| - |r|..]
  {
    var t := Strip(raw);
    var r := StripEnumeration(t);
    StripSpec(raw);
    StripEnumerationSpec(t);
    assert r != [] ==> r[|r| - 1] == t[|t| - 1];
  }

  /** Python's `sep.join(xs)`. */
  function Join(sep: string, xs: seq<string>): string {
    if |xs| == 0 then "" else if |xs| == 1 then xs[0] else xs[0] + sep + Join(sep, xs[1..])
  }

  /** Python's `s.split(c)` for a one-character separator. */
  function Split(s: string, c: char): (r: seq<string>)
    ensures |r| >= 1
  {
    if |s| == 0 then [""]
    else
      var rest := Split(s[1..], c);
      if s[0] == c then [""] + rest else [[s[0]] + rest[0]] + rest[1..]
  }

  lemma {:induction false} SplitWithout(a: string, c: char)
    requires c !in a
    ensures Split(a, c) == [a]
  {
    if |a| > 0 {
      SplitWithout(a[1..], c);
      assert [a[0]] + a[1..] == a;
    }
  }

  lemma {:induction false} SplitAt(a: string, b: string, c: char)
    requires c !in a
    ensures Split(a + [c] + b, c) == [a] + Split(b, c)
  {
    if |a| == 0 {
      assert a + [c] + b == [c] + b;
      assert ([c] + b)[1..] == b;
    } else {
      var s := a + [c] + b;
      assert s[1..] == a[1..] + [c] + b;
      SplitAt(a[1..], b, c);
      assert [a[0]] + a[1..] == a;
    }
  }

  /** Splitting a join on its separator gives the parts back, when no part contains the separator. */
  lemma {:induction false} SplitJoin(xs: seq<string>, c: char)
    requires |xs| > 0
    requires forall i :: 0 <= i < |xs| ==> c !in xs[i]
    ensures Split(Join([c], xs), c) == xs
  {
    if |xs| == 1 {
      SplitWithout(xs[0], c);
    } else {
      SplitJoin(xs[1..], c);
      SplitAt(xs[0], Join([c], xs[1..]), c);
      assert [xs[0]] + xs[1..] == xs;
    }
  }
}
