/** The string operations the bot and the command loop rely on, with Python's meaning:
    `str.strip()`, `str.lower()`, `str.startswith(p)`, the slice `s[:n]` and `str(n)` for a
    natural number. Characters are assumed to be ASCII where case matters.
 */
module Text {

  type String = seq<char>

  /** Python's `str.isspace()` restricted to ASCII: space, tab, line feed, vertical tab,
      form feed, carriage return and the four information separators 0x1C-0x1F. */
  predicate IsSpace(c: char) {
    c == ' ' || c == '\t' || c == '\n' || c == '\r' || c == '\U{0B}' || c == '\U{0C}'
    || ('\U{1C}' <= c <= '\U{1F}')
  }

  predicate AllSpace(s: String) {
    forall i | 0 <= i < |s| :: IsSpace(s[i])
  }

  /** Neither starts nor ends with whitespace: what `strip()` returns. */
  predicate Trimmed(s: String) {
    s == [] || (!IsSpace(s[0]) && !IsSpace(s[|s| - 1]))
  }

  lemma AllSpaceConcat(a: String, b: String)
    requires AllSpace(a) && AllSpace(b)
    ensures AllSpace(a + b)
  {
  }

  /** The first index at or after `i` that holds a non-whitespace character, or `|s|`. */
  function SkipForward(s: String, i: nat): (k: nat)
    requires i <= |s|
    ensures i <= k <= |s|
    ensures forall m | i <= m < k :: IsSpace(s[m])
    ensures k < |s| ==> !IsSpace(s[k])
    decreases |s| - i
  {
    if i < |s| && IsSpace(s[i]) then SkipForward(s, i + 1) else i
  }

  /** The index just past the last non-whitespace character of `s[lo..j]`, or `lo`. */
  function SkipBackward(s: String, lo: nat, j: nat): (k: nat)
    requires lo <= j <= |s|
    ensures lo <= k <= j
    ensures forall m | k <= m < j :: IsSpace(s[m])
    ensures k > lo ==> !IsSpace(s[k - 1])
    decreases j
  {
    if j > lo && IsSpace(s[j - 1]) then SkipBackward(s, lo, j - 1) else j
  }

  /** A run of whitespace has only one end: the index its contract describes. */
  lemma {:induction false} SkipForwardAt(s: String, i: nat, k: nat)
    requires i <= k <= |s|
    requires forall m | i <= m < k :: IsSpace(s[m])
    requires k < |s| ==> !IsSpace(s[k])
    ensures SkipForward(s, i) == k
    decreases k - i
  {
    if i < k {
      SkipForwardAt(s, i + 1, k);
    }
  }

  lemma {:induction false} SkipBackwardAt(s: String, lo: nat, j: nat, k: nat)
    requires lo <= k <= j <= |s|
    requires forall m | k <= m < j :: IsSpace(s[m])
    requires k > lo ==> !IsSpace(s[k - 1])
    ensures SkipBackward(s, lo, j) == k
    decreases j - k
  {
    if k < j {
      SkipBackwardAt(s, lo, j - 1, k);
    }
  }

  /** Where the text kept by `strip()` begins. */
  function StripStart(s: String): (i: nat)
    ensures i <= |s|
  {
    SkipForward(s, 0)
  }

  /** Where the text kept by `strip()` ends. */
  function StripEnd(s: String): (j: nat)
    ensures StripStart(s) <= j <= |s|
  {
    SkipBackward(s, StripStart(s), |s|)
  }

  /** `s.strip()`: the middle part of `s` once the whitespace on both ends is cut away. */
  function Strip(s: String): (r: String)
    ensures Trimmed(r)
    ensures |r| <= |s|
  {
    s[StripStart(s)..StripEnd(s)]
  }

  /** What `strip()` cuts away is whitespace, and nothing else is lost. */
  lemma StripCutsSpace(s: String)
    ensures AllSpace(s[..StripStart(s)]) && AllSpace(s[StripEnd(s)..])
    ensures s == s[..StripStart(s)] + Strip(s) + s[StripEnd(s)..]
  {
    var i, j := StripStart(s), StripEnd(s);
    assert AllSpace(s[..i]) by {
      assert forall m | 0 <= m < i :: s[..i][m] == s[m] && IsSpace(s[m]);
    }
    assert AllSpace(s[j..]) by {
      assert forall m | 0 <= m < |s| - j :: s[j..][m] == s[j + m] && IsSpace(s[j + m]);
    }
    assert s[..j] == s[..i] + s[i..j];
    assert s == s[..j] + s[j..];
    assert Strip(s) == s[i..j];
  }

  /** The cut is unique: whatever whitespace pads a trimmed text, stripping recovers
      exactly that text. */
  lemma StripUnique(w1: String, r: String, w2: String)
    requires AllSpace(w1) && AllSpace(w2) && Trimmed(r)
    ensures Strip(w1 + r + w2) == r
  {
    var s := w1 + r + w2;
    var i, j := |w1|, |w1| + |r|;
    if r == [] {
      forall m | 0 <= m < |s|
        ensures IsSpace(s[m])
      {
        if m < |w1| { assert s[m] == w1[m]; } else { assert s[m] == w2[m - |w1|]; }
      }
      SkipForwardAt(s, 0, |s|);
      SkipBackwardAt(s, |s|, |s|, |s|);
    } else {
      assert s[i] == r[0];
      assert forall m | 0 <= m < i :: s[m] == w1[m];
      SkipForwardAt(s, 0, i);
      assert s[j - 1] == r[|r| - 1];
      assert forall m | j <= m < |s| :: s[m] == w2[m - j];
      SkipBackwardAt(s, i, |s|, j);
      assert s[i..j] == r;
    }
  }

  lemma StripTrimmed(s: String)
    requires Trimmed(s)
    ensures Strip(s) == s
  {
    assert [] + s + [] == s;
    StripUnique([], s, []);
  }

  lemma StripIdempotent(s: String)
    ensures Strip(Strip(s)) == Strip(s)
  {
    StripTrimmed(Strip(s));
  }

  lemma StripPadded(w1: String, a: String, r: String, b: String, w2: String)
    requires AllSpace(w1) && AllSpace(a) && AllSpace(b) && AllSpace(w2) && Trimmed(r)
    ensures Strip(w1 + (a + r + b) + w2) == r
  {
    assert w1 + (a + r + b) + w2 == (w1 + a) + r + (b + w2);
    AllSpaceConcat(w1, a);
    AllSpaceConcat(b, w2);
    StripUnique(w1 + a, r, b + w2);
  }

  /** Extra whitespace around a text never changes what `strip()` returns. */
  lemma StripIgnoresPadding(w1: String, s: String, w2: String)
    requires AllSpace(w1) && AllSpace(w2)
    ensures Strip(w1 + s + w2) == Strip(s)
  {
    StripCutsSpace(s);
    StripPadded(w1, s[..StripStart(s)], Strip(s), s[StripEnd(s)..], w2);
  }

  /** `c.lower()` for an ASCII character. */
  function LowerChar(c: char): char {
    if 'A' <= c <= 'Z' then (c as int - 'A' as int + 'a' as int) as char else c
  }

  /** `s.lower()` for ASCII text: same length, each character lowered in place. */
  function Lower(s: String): (r: String)
    ensures |r| == |s|
    ensures forall i | 0 <= i < |s| :: r[i] == LowerChar(s[i])
  {
    if s == [] then [] else [LowerChar(s[0])] + Lower(s[1..])
  }

  /** Lowering commutes with taking a prefix, so `s.lower().startswith(p)` speaks about
      the first `|p|` characters of `s` itself. */
  lemma LowerPrefix(s: String, n: nat)
    requires n <= |s|
    ensures Lower(s)[..n] == Lower(s[..n])
  {
  }

  /** Text without upper-case letters is its own lower case. */
  lemma LowerOfLower(s: String)
    requires forall i | 0 <= i < |s| :: !('A' <= s[i] <= 'Z')
    ensures Lower(s) == s
  {
  }

  lemma ConcatAssoc(a: String, b: String, c: String)
    ensures a + (b + c) == a + b + c
  {
  }

  /** `s.startswith(p)`. */
  predicate StartsWith(s: String, p: String) {
    |p| <= |s| && s[..|p|] == p
  }

  /** The slice `s[:n]` for a non-negative `n`: the prefix of `s` of length `min(n, |s|)`. */
  function Take(s: String, n: nat): (r: String)
    ensures r <= s
    ensures |r| == if n < |s| then n else |s|
  {
    if n < |s| then s[..n] else s
  }

  predicate IsDecimal(s: String) {
    forall i | 0 <= i < |s| :: '0' <= s[i] <= '9'
  }

  function DigitChar(d: nat): char
    requires d < 10
  {
    ('0' as int + d) as char
  }

  /** `str(n)` for a natural number: its decimal numeral, without leading zeros. */
  function NatToString(n: nat): (r: String)
    ensures r != [] && IsDecimal(r)
    ensures r[0] == '0' ==> n == 0
    decreases n
  {
    if n < 10 then [DigitChar(n)] else NatToString(n / 10) + [DigitChar(n % 10)]
  }

  /** The value of a decimal numeral; the reference reading for `NatToString`. */
  function DecimalValue(s: String): nat
    requires IsDecimal(s)
  {
    if s == [] then 0 else DecimalValue(s[..|s| - 1]) * 10 + (s[|s| - 1] as int - '0' as int)
  }

  lemma {:induction false} NatToStringRoundTrip(n: nat)
    ensures DecimalValue(NatToString(n)) == n
    decreases n
  {
    if n >= 10 {
      var r := NatToString(n);
      assert r[..|r| - 1] == NatToString(n / 10);
      NatToStringRoundTrip(n / 10);
    }
  }
}
