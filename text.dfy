/**
 * The few JavaScript string operations the client relies on, written out:
 * `String.prototype.trim`, `startsWith`, truthiness of a string, the
 * first-occurrence `replace` and decimal formatting of integers.
 */
module Text {
  import opened Wrappers

  /** A string is truthy in JavaScript iff it is not the empty string. */
  predicate Truthy(s: string) { s != [] }

  /** An optional string is truthy iff it is present and non-empty (`Boolean(x)`). */
  predicate TruthyOpt(s: Option<string>) { s.Some? && s.value != [] }

  /** `a || b` over optional strings: the first truthy operand, otherwise the last one. */
  function OrElse(a: Option<string>, b: Option<string>): (r: Option<string>)
    ensures TruthyOpt(r) <==> TruthyOpt(a) || TruthyOpt(b)
    ensures TruthyOpt(a) ==> r == a
    ensures !TruthyOpt(a) ==> r == b
  {
    if TruthyOpt(a) then a else b
  }

  /** The characters `trim` removes: ECMAScript WhiteSpace and LineTerminator. */
  predicate IsJsWhiteSpace(c: char) {
    c == '\t' || c == '\n' || c == '\U{B}' || c == '\U{C}' || c == '\r' || c == ' '
    || c == '\U{A0}' || c == '\U{1680}' || ('\U{2000}' <= c <= '\U{200A}')
    || c == '\U{2028}' || c == '\U{2029}' || c == '\U{202F}' || c == '\U{205F}'
    || c == '\U{3000}' || c == '\U{FEFF}'
  }

  /** The first index at or after `k` that is not white space (or the end). */
  function SkipWhite(s: string, k: nat): (j: nat)
    requires k <= |s|
    ensures k <= j <= |s| && (j == |s| || !IsJsWhiteSpace(s[j]))
    ensures forall i :: k <= i < j ==> IsJsWhiteSpace(s[i])
    decreases |s| - k
  {
    if k < |s| && IsJsWhiteSpace(s[k]) then SkipWhite(s, k + 1) else k
  }

  /** The end of `s[lo..k]` once the white space at its end is dropped. */
  function BackWhite(s: string, lo: nat, k: nat): (j: nat)
    requires lo <= k <= |s|
    ensures lo <= j <= k && (j == lo || !IsJsWhiteSpace(s[j - 1]))
    ensures forall i :: j <= i < k ==> IsJsWhiteSpace(s[i])
    decreases k
  {
    if lo < k && IsJsWhiteSpace(s[k - 1]) then BackWhite(s, lo, k - 1) else k
  }

  /** Number of leading white-space characters `trim` drops. */
  function TrimOffset(s: string): (k: nat)
    ensures k <= |s|
  {
    SkipWhite(s, 0)
  }

  /**
   * `s.trim()`: the infix of `s` left after dropping white space at both ends;
   * it neither starts nor ends with white space, and everything dropped is white space.
   */
  function Trim(s: string): (r: string)
    ensures TrimOffset(s) + |r| <= |s| && r == s[TrimOffset(s)..TrimOffset(s) + |r|]
    ensures r == [] || (!IsJsWhiteSpace(r[0]) && !IsJsWhiteSpace(r[|r| - 1]))
    ensures forall i :: 0 <= i < |s| && !(TrimOffset(s) <= i < TrimOffset(s) + |r|) ==> IsJsWhiteSpace(s[i])
  {
    var lo := SkipWhite(s, 0);
    s[lo..BackWhite(s, lo, |s|)]
  }

  /** Trimming yields the empty string iff the string is white space only. */
  lemma {:induction false} TrimEmptyIff(s: string)
    ensures Trim(s) == [] <==> forall i :: 0 <= i < |s| ==> IsJsWhiteSpace(s[i])
  {
  }

  /** Trimming is idempotent. */
  lemma TrimIdempotent(s: string)
    ensures Trim(Trim(s)) == Trim(s)
  {
  }

  /** `s.startsWith(p)`. */
  predicate StartsWith(s: string, p: string) { |p| <= |s| && s[..|p|] == p }

  /** Index of the first occurrence of `c` in `s`, if any. */
  function IndexOf(s: string, c: char): (r: Option<nat>)
    ensures r.Some? ==> r.value < |s| && s[r.value] == c && c !in s[..r.value]
    ensures r.None? <==> c !in s
  {
    if s == [] then None
    else if s[0] == c then Some(0)
    else
      var t := IndexOf(s[1..], c);
      assert s == [s[0]] + s[1..];
      if t.Some? then Some(t.value + 1) else None
  }

  /** `s.replace(c, "")` with a one-character string pattern: deletes the FIRST occurrence only. */
  function RemoveFirst(s: string, c: char): (r: string)
    ensures c !in s ==> r == s
    ensures c in s ==>
      |r| == |s| - 1 && exists i :: 0 <= i < |s| && s[i] == c && c !in s[..i] && r == s[..i] + s[i + 1..]
  {
    match IndexOf(s, c)
    case None => s
    case Some(i) => s[..i] + s[i + 1..]
  }

  function DigitChar(d: nat): (c: char)
    requires d < 10
    ensures '0' <= c <= '9' && c as int - '0' as int == d
  {
    ('0' as int + d) as char
  }

  predicate AllDigits(s: string) {
    forall i :: 0 <= i < |s| ==> '0' <= s[i] <= '9'
  }

  /** The number a run of decimal digits denotes, most significant digit first. */
  function DecimalValue(s: string): nat
    requires AllDigits(s)
  {
    if s == [] then 0 else DecimalValue(s[..|s| - 1]) * 10 + (s[|s| - 1] as int - '0' as int)
  }

  function NatToString(n: nat): (r: string)
    ensures r != [] && AllDigits(r)
  {
    if n < 10 then [DigitChar(n)] else NatToString(n / 10) + [DigitChar(n % 10)]
  }

  /** The digits printed for n denote n. */
  lemma {:induction false} NatToStringValue(n: nat)
    ensures DecimalValue(NatToString(n)) == n
  {
    var r := NatToString(n);
    if n < 10 {
      assert r[..0] == [];
    } else {
      assert r[..|r| - 1] == NatToString(n / 10);
      NatToStringValue(n / 10);
    }
  }

  /**
   * Template-literal formatting `${n}` of an integral number: decimal digits,
   * with a leading '-' when negative.
   */
  function IntToString(n: int): (r: string)
    ensures r != [] && (r[0] == '-' <==> n < 0)
    ensures r[0] == '-' || '0' <= r[0] <= '9'
    ensures forall i :: 1 <= i < |r| ==> '0' <= r[i] <= '9'
  {
    if n < 0 then "-" + NatToString(-n) else NatToString(n)
  }

  /** Reading a number back: an optional '-' followed by at least one decimal digit. */
  function ParseInt(s: string): Option<int> {
    if |s| >= 2 && s[0] == '-' && AllDigits(s[1..]) then Some(-(DecimalValue(s[1..]) as int))
    else if s != [] && AllDigits(s) then Some(DecimalValue(s))
    else None
  }

  /** `${n}` parses back to n. */
  lemma IntToStringRoundTrip(n: int)
    ensures ParseInt(IntToString(n)) == Some(n)
  {
    if n < 0 {
      NegativeRoundTrip(-n);
    } else {
      NatToStringValue(n);
      assert IntToString(n) == NatToString(n);
    }
  }

  lemma NegativeRoundTrip(m: nat)
    requires m > 0
    ensures ParseInt("-" + NatToString(m)) == Some(-(m as int))
  {
    var d := NatToString(m);
    var r := "-" + d;
    assert r[1..] == d;
    NatToStringValue(m);
  }

  /** Different numbers print differently. */
  lemma IntToStringInjective(a: int, b: int)
    requires IntToString(a) == IntToString(b)
    ensures a == b
  {
    IntToStringRoundTrip(a);
    IntToStringRoundTrip(b);
  }
}
