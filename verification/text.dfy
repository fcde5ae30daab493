/**
  The handful of Python `str` operations the assistant relies on, over `string`
  (a sequence of code points, as Python's `str`):
  `s.lower()` (ASCII letters only), `s.strip()`, `pat in s`, `s.split(sep)[0]`,
  `re.findall(r'\d+', s)[0]` (ASCII digits only), `int(...)` and `str(n)`.
 */
module Text {
  import opened Wrappers

  // ---------------------------------------------------------------------------
  // Case

  function LowerChar(c: char): char {
    if 'A' <= c <= 'Z' then (c as int + 32) as char else c
  }

  /** `s.lower()`, restricted to the ASCII letters. */
  function Lower(s: string): (r: string)
    ensures |r| == |s|
    ensures forall i :: 0 <= i < |s| ==> r[i] == LowerChar(s[i])
  {
    seq(|s|, i requires 0 <= i < |s| => LowerChar(s[i]))
  }

  // ---------------------------------------------------------------------------
  // Whitespace and strip()

  /** The code points for which Python's `str.isspace()` holds. */
  predicate IsSpace(c: char) {
    var n := c as int;
    || (9 <= n <= 13) || (28 <= n <= 32) || n == 0x85 || n == 0xA0 || n == 0x1680
    || (0x2000 <= n <= 0x200A) || n == 0x2028 || n == 0x2029 || n == 0x202F
    || n == 0x205F || n == 0x3000
  }

  predicate AllSpace(s: string) {
    forall i :: 0 <= i < |s| ==> IsSpace(s[i])
  }

  /** Length of the longest all-whitespace prefix of `s`. */
  function LeadingSpace(s: string): (n: nat)
    ensures n <= |s|
    ensures AllSpace(s[..n])
    ensures n < |s| ==> !IsSpace(s[n])
  {
    if |s| == 0 || !IsSpace(s[0]) then 0
    else
      var k := LeadingSpace(s[1..]);
      assert s[1..][..k] == s[1..k + 1];
      1 + k
  }

  /** Length of the longest all-whitespace suffix of `s`. */
  function TrailingSpace(s: string): (n: nat)
    ensures n <= |s|
    ensures AllSpace(s[|s| - n..])
    ensures n < |s| ==> !IsSpace(s[|s| - n - 1])
  {
    if |s| == 0 || !IsSpace(s[|s| - 1]) then 0
    else
      var k := TrailingSpace(s[..|s| - 1]);
      assert s[..|s| - 1][|s| - 1 - k..] == s[|s| - 1 - k..|s| - 1];
      1 + k
  }

  /** `s.lstrip()` */
  function StripStart(s: string): string {
    s[LeadingSpace(s)..]
  }

  /** `s.rstrip()` */
  function StripEnd(s: string): string {
    s[..|s| - TrailingSpace(s)]
  }

  /** `s.strip()`: `lstrip` followed by `rstrip`. */
  function Strip(s: string): (r: string)
    ensures |r| <= |s|
    ensures r == "" <==> AllSpace(s)
    ensures r != "" ==> !IsSpace(r[0]) && !IsSpace(r[|r| - 1])
  {
    var t := StripStart(s);
    var r := StripEnd(t);
    if AllSpace(s) then
      r
    else
      assert s[..|s|] == s;
      assert t[0] == s[LeadingSpace(s)];
      assert t[|t| - |t|..] == t;
      r
  }

  /** `s.strip()` removes whitespace only, and only at the two ends: it is a middle slice of `s`. */
  lemma StripCutsOnlySpace(s: string)
    ensures exists a: nat, b: nat :: a <= b <= |s| && Strip(s) == s[a..b] && AllSpace(s[..a]) && AllSpace(s[b..])
  {
    var t := StripStart(s);
    var a := LeadingSpace(s);
    var b := a + |Strip(s)|;
    assert Strip(s) == s[a..b];
    assert s[b..] == t[|t| - TrailingSpace(t)..];
  }

  /** Stripping a string that has no surrounding whitespace leaves it as it is. */
  lemma StripOfTrimmed(s: string)
    requires s != "" ==> !IsSpace(s[0]) && !IsSpace(s[|s| - 1])
    ensures Strip(s) == s
  {
  }

  // ---------------------------------------------------------------------------
  // Substrings: `pat in s`, `s.find(pat)`, `s.split(pat)[0]`

  /** `pat` occurs in `s` starting at index `i`. */
  predicate OccursAt(s: string, pat: string, i: nat) {
    i + |pat| <= |s| && s[i..i + |pat|] == pat
  }

  /** Python's `pat in s` (the empty pattern occurs in every string). */
  predicate Contains(s: string, pat: string) {
    exists i :: 0 <= i <= |s| && OccursAt(s, pat, i)
  }

  /** The first occurrence of `pat` in `s` at or after index `k`. */
  function FindFrom(s: string, pat: string, k: nat): (r: Option<nat>)
    requires k <= |s|
    ensures r.Some? ==> k <= r.value <= |s| && OccursAt(s, pat, r.value)
    ensures r.Some? ==> forall j :: k <= j < r.value ==> !OccursAt(s, pat, j)
    ensures r.None? ==> forall j :: k <= j ==> !OccursAt(s, pat, j)
    decreases |s| - k
  {
    if OccursAt(s, pat, k) then Some(k)
    else if k == |s| then None
    else FindFrom(s, pat, k + 1)
  }

  /** `s.find(pat)`, with `None` for Python's -1. */
  function Find(s: string, pat: string): (r: Option<nat>)
    ensures r.Some? <==> Contains(s, pat)
    ensures r.Some? ==> OccursAt(s, pat, r.value)
    ensures r.Some? ==> forall j :: 0 <= j < r.value ==> !OccursAt(s, pat, j)
  {
    FindFrom(s, pat, 0)
  }

  /** `s.split(sep)[0]` for a non-empty separator: the text before its first occurrence. */
  function BeforeFirst(s: string, sep: string): (r: string)
    requires sep != ""
    ensures !Contains(r, sep)
    ensures r <= s
    ensures !Contains(s, sep) ==> r == s
    ensures Contains(s, sep) ==> OccursAt(s, sep, |r|)
  {
    match Find(s, sep)
    case None => s
    case Some(i) =>
      assert forall j: nat :: OccursAt(s[..i], sep, j) ==> OccursAt(s, sep, j) by {
        forall j: nat | OccursAt(s[..i], sep, j) ensures OccursAt(s, sep, j) {
          assert s[..i][j..j + |sep|] == s[j..j + |sep|];
        }
      }
      s[..i]
  }

  /** An occurrence inside a slice is an occurrence in the whole string. */
  lemma ContainsSlice(s: string, a: nat, b: nat, pat: string)
    requires a <= b <= |s|
    requires Contains(s[a..b], pat)
    ensures Contains(s, pat)
  {
    var i :| 0 <= i <= |s[a..b]| && OccursAt(s[a..b], pat, i);
    forall k | 0 <= k < |pat|
      ensures s[a + i..a + i + |pat|][k] == pat[k]
    {
      assert s[a..b][i..i + |pat|][k] == pat[k];
    }
    assert OccursAt(s, pat, a + i);
  }

  /** An occurrence of a string containing `pat` is an occurrence of `pat`. */
  lemma ContainsTransitive(s: string, mid: string, pat: string)
    requires Contains(s, mid) && Contains(mid, pat)
    ensures Contains(s, pat)
  {
    var i :| 0 <= i <= |s| && OccursAt(s, mid, i);
    assert s[i..i + |mid|] == mid;
    ContainsSlice(s, i, i + |mid|, pat);
  }

  /** Stripping keeps a string free of a pattern. */
  lemma StripKeepsAbsence(s: string, pat: string)
    ensures Contains(Strip(s), pat) ==> Contains(s, pat)
  {
    var t := StripStart(s);
    if Contains(Strip(s), pat) {
      assert Strip(s) == t[0..|t| - TrailingSpace(t)];
      ContainsSlice(t, 0, |t| - TrailingSpace(t), pat);
      assert t == s[LeadingSpace(s)..|s|];
      ContainsSlice(s, LeadingSpace(s), |s|, pat);
    }
  }

  /** A one-character pattern occurs exactly where that character does. */
  lemma ContainsChar(s: string, c: char)
    ensures Contains(s, [c]) <==> c in s
  {
    if c in s {
      var i :| 0 <= i < |s| && s[i] == c;
      assert OccursAt(s, [c], i);
    }
    if Contains(s, [c]) {
      var i :| 0 <= i <= |s| && OccursAt(s, [c], i);
      assert s[i..i + 1][0] == c;
    }
  }

  // ---------------------------------------------------------------------------
  // Decimal numbers: `re.findall(r'\d+', s)[0]`, `int(...)`, `str(n)`

  predicate IsDigit(c: char) {
    '0' <= c <= '9'
  }

  predicate AllDigits(s: string) {
    forall i :: 0 <= i < |s| ==> IsDigit(s[i])
  }

  function DigitValue(c: char): nat
    requires IsDigit(c)
  {
    c as int - '0' as int
  }

  /** `int(ds)` for a string of decimal digits (leading zeros allowed). */
  function DecimalValue(ds: string): nat
    requires AllDigits(ds)
  {
    if ds == [] then 0 else DecimalValue(ds[..|ds| - 1]) * 10 + DigitValue(ds[|ds| - 1])
  }

  /** `str(n)` for a natural number: shortest decimal, no leading zero. */
  function NatToString(n: nat): (r: string)
    ensures r != "" && AllDigits(r)
    ensures |r| > 1 ==> r[0] != '0'
  {
    var last := ['0' + (n % 10) as char];
    if n < 10 then last else NatToString(n / 10) + last
  }

  /** Reading back a formatted number gives the number. */
  lemma {:induction false} NatToStringRoundTrip(n: nat)
    ensures DecimalValue(NatToString(n)) == n
  {
    var s := NatToString(n);
    if n >= 10 {
      NatToStringRoundTrip(n / 10);
      assert s[..|s| - 1] == NatToString(n / 10);
    }
  }

  /** Length of the longest all-digit prefix of `s`. */
  function DigitPrefix(s: string): (n: nat)
    ensures n <= |s|
    ensures AllDigits(s[..n])
    ensures n < |s| ==> !IsDigit(s[n])
  {
    if |s| == 0 || !IsDigit(s[0]) then 0
    else
      var k := DigitPrefix(s[1..]);
      assert s[1..][..k] == s[1..k + 1];
      1 + k
  }

  /** `s[i..j]` is the first maximal run of digits in `s`, the first match of `\d+`. */
  predicate IsFirstDigitRun(s: string, i: nat, j: nat) {
    && i < j <= |s|
    && (forall k :: 0 <= k < i ==> !IsDigit(s[k]))
    && AllDigits(s[i..j])
    && (j < |s| ==> !IsDigit(s[j]))
  }

  /** Bounds of the first maximal run of digits in `s`, searched from index `k`. */
  function FirstDigitRunFrom(s: string, k: nat): (r: Option<(nat, nat)>)
    requires k <= |s|
    requires forall m :: 0 <= m < k ==> !IsDigit(s[m])
    ensures r.None? <==> forall m :: 0 <= m < |s| ==> !IsDigit(s[m])
    ensures r.Some? ==> IsFirstDigitRun(s, r.value.0, r.value.1)
    decreases |s| - k
  {
    if k == |s| then None
    else if IsDigit(s[k]) then
      var n := DigitPrefix(s[k..]);
      assert s[k..][..n] == s[k..k + n];
      assert k + n < |s| ==> s[k..][n] == s[k + n];
      Some((k, k + n))
    else FirstDigitRunFrom(s, k + 1)
  }

  /** `int(re.findall(r'\d+', s)[0])`, or `None` when `s` holds no digit. */
  function FirstNumber(s: string): (r: Option<nat>)
    ensures r.None? <==> forall m :: 0 <= m < |s| ==> !IsDigit(s[m])
    ensures r.Some? ==> exists i: nat, j: nat :: IsFirstDigitRun(s, i, j) && r.value == DecimalValue(s[i..j])
  {
    match FirstDigitRunFrom(s, 0)
    case None => None
    case Some((i, j)) => Some(DecimalValue(s[i..j]))
  }

  /** The first number of a formatted number is that number. */
  lemma FirstNumberOfNatToString(n: nat)
    ensures FirstNumber(NatToString(n)) == Some(n)
  {
    var s := NatToString(n);
    NatToStringRoundTrip(n);
    assert s[0..|s|] == s;
  }
}
