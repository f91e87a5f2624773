/**
 * The pieces of JavaScript's string semantics the site relies on: the whitespace class
 * shared by `String.prototype.trim` and the regular-expression escape `\s`, `trim`
 * itself, truthiness of a string, and the decimal rendering of a number inside a
 * template literal.
 */
module JsString {

  /** WhiteSpace and LineTerminator code points of ECMA-262: what `\s` matches and `trim` removes. */
  predicate IsWs(c: char) {
    || c == '\t' || c == '\n' || c == '\U{000B}' || c == '\U{000C}' || c == '\r' || c == ' '
    || c == '\U{00A0}' || c == '\U{1680}' || ('\U{2000}' <= c <= '\U{200A}')
    || c == '\U{2028}' || c == '\U{2029}' || c == '\U{202F}' || c == '\U{205F}'
    || c == '\U{3000}' || c == '\U{FEFF}'
  }

  /** Every character of s is whitespace (true of the empty string). */
  predicate IsBlank(s: string) {
    forall k {:trigger IsWs(s[k])} | 0 <= k < |s| :: IsWs(s[k])
  }

  /** A JavaScript string is truthy exactly when it is not empty. */
  predicate Truthy(s: string) {
    s != []
  }

  /** `trimStart`: drops the leading whitespace. */
  function TrimStart(s: string): (r: string)
    ensures |r| <= |s|
    decreases |s|
  {
    if s != [] && IsWs(s[0]) then TrimStart(s[1..]) else s
  }

  /** `trimEnd`: drops the trailing whitespace. */
  function TrimEnd(s: string): (r: string)
    ensures |r| <= |s|
    decreases |s|
  {
    if s != [] && IsWs(s[|s| - 1]) then TrimEnd(s[..|s| - 1]) else s
  }

  /** Position in s of the first character that `trim` keeps. */
  function TrimOffset(s: string): (i: nat)
    ensures i <= |s|
  {
    |s| - |TrimStart(s)|
  }

  /** `String.prototype.trim`. */
  function Trim(s: string): string {
    TrimEnd(TrimStart(s))
  }

  /** `trimStart` keeps the suffix of s from its first non-whitespace character on, and drops only whitespace. */
  lemma {:induction false} TrimStartKeepsSuffix(s: string)
    ensures TrimStart(s) == s[TrimOffset(s)..]
    ensures TrimStart(s) == [] || !IsWs(TrimStart(s)[0])
    ensures forall k {:trigger IsWs(s[k])} | 0 <= k < TrimOffset(s) :: IsWs(s[k])
    decreases |s|
  {
    if s != [] && IsWs(s[0]) {
      TrimStartKeepsSuffix(s[1..]);
      forall k | 0 <= k < TrimOffset(s) ensures IsWs(s[k]) {
        if k > 0 {
          assert s[1..][k - 1] == s[k];
        }
      }
    }
  }

  /** `trimEnd` keeps the prefix of s up to its last non-whitespace character, and drops only whitespace. */
  lemma {:induction false} TrimEndKeepsPrefix(s: string)
    ensures TrimEnd(s) == s[..|TrimEnd(s)|]
    ensures TrimEnd(s) == [] || !IsWs(TrimEnd(s)[|TrimEnd(s)| - 1])
    ensures forall k {:trigger IsWs(s[k])} | |TrimEnd(s)| <= k < |s| :: IsWs(s[k])
    decreases |s|
  {
    if s != [] && IsWs(s[|s| - 1]) {
      var p := s[..|s| - 1];
      TrimEndKeepsPrefix(p);
      forall k | |TrimEnd(s)| <= k < |s| ensures IsWs(s[k]) {
        if k < |s| - 1 {
          assert p[k] == s[k];
        }
      }
      assert p[..|TrimEnd(p)|] == s[..|TrimEnd(s)|];
    }
  }

  /**
   * `trim` yields the slice of s from its first to its last non-whitespace character;
   * everything outside that slice is whitespace.
   */
  lemma TrimIsSlice(s: string)
    ensures TrimOffset(s) + |Trim(s)| <= |s|
    ensures Trim(s) == s[TrimOffset(s)..TrimOffset(s) + |Trim(s)|]
    ensures Trim(s) == [] || (!IsWs(Trim(s)[0]) && !IsWs(Trim(s)[|Trim(s)| - 1]))
    ensures forall k {:trigger IsWs(s[k])} | 0 <= k < |s| && !(TrimOffset(s) <= k < TrimOffset(s) + |Trim(s)|) :: IsWs(s[k])
  {
    var a := TrimStart(s);
    var r := Trim(s);
    var i := TrimOffset(s);
    TrimStartKeepsSuffix(s);
    TrimEndKeepsPrefix(a);
    assert a[..|r|] == s[i..i + |r|];
    forall k | 0 <= k < |s| && !(i <= k < i + |r|) ensures IsWs(s[k]) {
      if k >= i {
        assert a[k - i] == s[k];
      }
    }
  }

  /**
   * s holds non-whitespace characters at positions i <= j that span at least n
   * characters (from s[i] to s[j] inclusive).
   */
  predicate SpansAtLeast(s: string, n: nat) {
    exists i, j | 0 <= i <= j < |s| :: !IsWs(s[i]) && !IsWs(s[j]) && j - i + 1 >= n
  }

  /** `trim` yields the empty string exactly for blank strings. */
  lemma TrimEmptyIffBlank(s: string)
    ensures Trim(s) == [] <==> IsBlank(s)
  {
    TrimIsSlice(s);
    var r := Trim(s);
    if r != [] {
      assert s[TrimOffset(s)] == r[0];
    }
  }

  /** The trimmed length reaches n exactly when two non-whitespace characters of s span n characters. */
  lemma TrimLengthAtLeast(s: string, n: nat)
    requires n >= 1
    ensures |Trim(s)| >= n <==> SpansAtLeast(s, n)
  {
    TrimIsSlice(s);
    var r, i := Trim(s), TrimOffset(s);
    if |r| >= n {
      assert s[i] == r[0] && s[i + |r| - 1] == r[|r| - 1];
      assert !IsWs(s[i]) && !IsWs(s[i + |r| - 1]);
    }
    if SpansAtLeast(s, n) {
      var a, b :| 0 <= a <= b < |s| && !IsWs(s[a]) && !IsWs(s[b]) && b - a + 1 >= n;
      assert i <= a && b < i + |r|;
    }
  }

  predicate IsDigit(c: char) {
    '0' <= c <= '9'
  }

  /** The decimal digits of n, most significant first, as `${n}` renders a non-negative integer. */
  function DecimalString(n: nat): (s: string)
    ensures |s| >= 1 && forall k | 0 <= k < |s| :: IsDigit(s[k])
    ensures s[0] == '0' ==> s == "0"
  {
    if n < 10 then [DigitChar(n)] else DecimalString(n / 10) + [DigitChar(n % 10)]
  }

  function DigitChar(d: nat): (c: char)
    requires d < 10
    ensures IsDigit(c) && (c == '0' <==> d == 0)
  {
    '0' + d as char
  }

  /** The number a string of decimal digits denotes. */
  function DigitsValue(s: string): nat
    requires forall k | 0 <= k < |s| :: IsDigit(s[k])
  {
    if s == [] then 0
    else
      var last := s[|s| - 1];
      assert IsDigit(last);
      DigitsValue(s[..|s| - 1]) * 10 + (last as int - '0' as int)
  }

  /** Reading back the decimal rendering of n gives n: the rendering loses nothing. */
  lemma {:induction false} DecimalRoundTrip(n: nat)
    ensures DigitsValue(DecimalString(n)) == n
  {
    var s := DecimalString(n);
    if n >= 10 {
      DecimalRoundTrip(n / 10);
      assert s[..|s| - 1] == DecimalString(n / 10);
    }
  }

  /** Distinct numbers render as distinct strings. */
  lemma DecimalStringInjective(m: nat, n: nat)
    requires DecimalString(m) == DecimalString(n)
    ensures m == n
  {
    DecimalRoundTrip(m);
    DecimalRoundTrip(n);
  }
}
