/**
 * `encodeURIComponent` and `decodeURIComponent` as ECMA-262 defines them
 * (section 19.2.6, "URI Handling Functions"): every character outside the
 * unescaped set is written as the "%XY" escapes of its UTF-8 octets, upper-case
 * hex; decoding accepts hex digits of either case and fails (URIError) on a
 * malformed escape or an invalid UTF-8 sequence. Strings here are sequences of
 * Unicode scalar values, so the lone-surrogate error of the encoder cannot arise.
 */
module UriCodec {
  import opened Wrappers

  /** The characters `encodeURIComponent` leaves as they are. */
  predicate Unescaped(c: char) {
    ('A' <= c <= 'Z') || ('a' <= c <= 'z') || ('0' <= c <= '9')
    || c == '-' || c == '_' || c == '.' || c == '!' || c == '~' || c == '*'
    || c == '\'' || c == '(' || c == ')'
  }

  /** The characters an encoded string is made of. */
  predicate EncodedChar(c: char) { Unescaped(c) || c == '%' }

  predicate IsScalar(n: int) { 0 <= n < 0xD800 || 0xE000 <= n < 0x11_0000 }

  function HexDigit(d: nat): (c: char)
    requires d < 16
    ensures Unescaped(c)
  {
    if d < 10 then ('0' as int + d) as char else ('A' as int + d - 10) as char
  }

  /** The value of a hex digit of either case. */
  function HexValue(c: char): (r: Option<nat>)
    ensures r.Some? ==> r.value < 16
  {
    if '0' <= c <= '9' then Some(c as int - '0' as int)
    else if 'A' <= c <= 'F' then Some(c as int - 'A' as int + 10)
    else if 'a' <= c <= 'f' then Some(c as int - 'a' as int + 10)
    else None
  }

  predicate IsOctet(b: int) { 0 <= b < 256 }

  function PercentOctet(b: int): (r: string)
    requires IsOctet(b)
    ensures |r| == 3 && r[0] == '%'
    ensures forall ch :: ch in r ==> EncodedChar(ch)
  {
    ['%', HexDigit(b / 16), HexDigit(b % 16)]
  }

  function PercentOctets(bs: seq<int>): (r: string)
    requires forall i :: 0 <= i < |bs| ==> IsOctet(bs[i])
    ensures |r| == 3 * |bs|
    ensures forall ch :: ch in r ==> EncodedChar(ch)
  {
    if bs == [] then [] else PercentOctet(bs[0]) + PercentOctets(bs[1..])
  }

  /** The UTF-8 octets of a scalar value. */
  function Utf8(n: int): (r: seq<int>)
    requires IsScalar(n)
    ensures 1 <= |r| <= 4
    ensures forall i :: 0 <= i < |r| ==> IsOctet(r[i])
  {
    if n < 0x80 then [n]
    else if n < 0x800 then [0xC0 + n / 64, 0x80 + n % 64]
    else if n < 0x1_0000 then [0xE0 + n / 4096, 0x80 + (n / 64) % 64, 0x80 + n % 64]
    else [0xF0 + n / 0x4_0000, 0x80 + (n / 4096) % 64, 0x80 + (n / 64) % 64, 0x80 + n % 64]
  }

  function EncodeChar(c: char): (r: string)
    ensures r != [] && forall ch :: ch in r ==> EncodedChar(ch)
  {
    if Unescaped(c) then [c] else PercentOctets(Utf8(c as int))
  }

  /** `encodeURIComponent(s)`. The result never contains ';', '=' or a space. */
  function Encode(s: string): (r: string)
    ensures forall ch :: ch in r ==> EncodedChar(ch)
  {
    if s == [] then [] else EncodeChar(s[0]) + Encode(s[1..])
  }

  /** The octet written as "%XY" at position `k` of `s`, if one is written there. */
  function OctetAt(s: string, k: nat): (r: Option<int>)
    ensures r.Some? ==> IsOctet(r.value) && k + 3 <= |s|
  {
    if k + 3 <= |s| && s[k] == '%' then
      match (HexValue(s[k + 1]), HexValue(s[k + 2]))
      case (Some(h), Some(l)) => Some(16 * h + l)
      case _ => None
    else None
  }

  /** How many continuation octets a leading octet announces; None if it cannot lead. */
  function ContinuationCount(b: int): Option<nat> {
    if b < 0x80 then Some(0)
    else if b < 0xC0 then None
    else if b < 0xE0 then Some(1)
    else if b < 0xF0 then Some(2)
    else if b < 0xF8 then Some(3)
    else None
  }

  predicate IsContinuation(b: int) { 0x80 <= b < 0xC0 }

  /** The `n` continuation octets escaped at positions k, k+3, ..., if all are there. */
  function Continuations(s: string, k: nat, n: nat): (r: Option<seq<int>>)
    ensures r.Some? ==> |r.value| == n && (n > 0 ==> k + 3 * n <= |s|)
    ensures r.Some? ==> forall i :: 0 <= i < n ==> IsContinuation(r.value[i])
    decreases n
  {
    if n == 0 then Some([])
    else
      match OctetAt(s, k)
      case None => None
      case Some(b) =>
        if !IsContinuation(b) then None
        else
          match Continuations(s, k + 3, n - 1)
          case None => None
          case Some(bs) => Some([b] + bs)
  }

  /** The scalar value a complete multi-octet sequence spells, if it is valid UTF-8. */
  function CodePoint(lead: int, cs: seq<int>): (r: Option<int>)
    requires 1 <= |cs| <= 3
    requires forall i :: 0 <= i < |cs| ==> IsContinuation(cs[i])
    ensures r.Some? ==> IsScalar(r.value)
  {
    if |cs| == 1 then
      var n := (lead - 0xC0) * 64 + (cs[0] - 0x80);
      if 0x80 <= n < 0x800 then Some(n) else None
    else if |cs| == 2 then
      var n := (lead - 0xE0) * 4096 + (cs[0] - 0x80) * 64 + (cs[1] - 0x80);
      if 0x800 <= n < 0xD800 || 0xE000 <= n < 0x1_0000 then Some(n) else None
    else
      var n := (lead - 0xF0) * 0x4_0000 + (cs[0] - 0x80) * 4096 + (cs[1] - 0x80) * 64 + (cs[2] - 0x80);
      if 0x1_0000 <= n < 0x11_0000 then Some(n) else None
  }

  /** The character an escape sequence at the start of `s` stands for, and its length. */
  function DecodeEscape(s: string): (r: Option<(char, nat)>)
    ensures r.Some? ==> 3 <= r.value.1 <= |s|
  {
    match OctetAt(s, 0)
    case None => None
    case Some(b) =>
      match ContinuationCount(b)
      case None => None
      case Some(n) =>
        if n == 0 then Some((b as char, 3))
        else
          match Continuations(s, 3, n)
          case None => None
          case Some(cs) =>
            match CodePoint(b, cs)
            case None => None
            case Some(cp) => Some((cp as char, 3 * (n + 1)))
  }

  /** `decodeURIComponent(s)`; None stands for the URIError it throws. */
  function Decode(s: string): (r: Option<string>)
    decreases |s|
  {
    if s == [] then Some([])
    else
      var head: Option<(char, nat)> := if s[0] == '%' then DecodeEscape(s) else Some((s[0], 1));
      match head
      case None => None
      case Some((c, len)) =>
        match Decode(s[len..])
        case None => None
        case Some(t) => Some([c] + t)
  }

  lemma HexRoundTrip(d: nat)
    requires d < 16
    ensures HexValue(HexDigit(d)) == Some(d)
  {
  }

  lemma OctetRoundTrip(b: int, rest: string)
    requires IsOctet(b)
    ensures OctetAt(PercentOctet(b) + rest, 0) == Some(b)
  {
    var s := PercentOctet(b) + rest;
    HexRoundTrip(b / 16);
    HexRoundTrip(b % 16);
    assert s[1] == HexDigit(b / 16) && s[2] == HexDigit(b % 16);
  }

  /** An escape read after a prefix is the escape read in what follows the prefix. */
  lemma OctetAtShift(p: string, t: string, k: nat)
    ensures OctetAt(p + t, |p| + k) == OctetAt(t, k)
  {
    var s := p + t;
    var m := |p| + k;
    if k + 3 <= |t| {
      assert s[m] == t[k] && s[m + 1] == t[k + 1] && s[m + 2] == t[k + 2];
    }
  }

  /** Reading the i-th escaped octet of an escaped octet string. */
  lemma {:induction false} OctetAtPercentOctets(bs: seq<int>, rest: string, i: nat)
    requires forall j :: 0 <= j < |bs| ==> IsOctet(bs[j])
    requires i < |bs|
    ensures OctetAt(PercentOctets(bs) + rest, 3 * i) == Some(bs[i])
  {
    var head := PercentOctet(bs[0]);
    var tail := PercentOctets(bs[1..]) + rest;
    assert PercentOctets(bs) + rest == head + tail;
    if i == 0 {
      OctetRoundTrip(bs[0], tail);
    } else {
      OctetAtPercentOctets(bs[1..], rest, i - 1);
      OctetAtShift(head, tail, 3 * (i - 1));
    }
  }

  /** One more continuation octet in front of the ones read after it. */
  lemma ContinuationsStep(s: string, k: nat, n: nat, b: int, cs: seq<int>)
    requires n > 0 && OctetAt(s, k) == Some(b) && IsContinuation(b)
    requires Continuations(s, k + 3, n - 1) == Some(cs)
    ensures Continuations(s, k, n) == Some([b] + cs)
  {
  }

  /** Continuation octets escaped one after the other are read back in order. */
  lemma {:induction false} ContinuationsOfOctets(s: string, bs: seq<int>, j: nat, n: nat)
    requires j + n <= |bs|
    requires forall i :: j <= i < j + n ==> IsContinuation(bs[i]) && OctetAt(s, 3 * i) == Some(bs[i])
    ensures Continuations(s, 3 * j, n) == Some(bs[j..j + n])
    decreases n
  {
    if n > 0 {
      ContinuationsOfOctets(s, bs, j + 1, n - 1);
      assert 3 * j + 3 == 3 * (j + 1);
      ContinuationsStep(s, 3 * j, n, bs[j], bs[j + 1..j + 1 + (n - 1)]);
      assert bs[j..j + n] == [bs[j]] + bs[j + 1..j + 1 + (n - 1)];
    }
  }

  lemma Div64Twice(n: int)
    requires 0 <= n
    ensures n / 64 / 64 == n / 4096 && n / 4096 / 64 == n / 0x4_0000
    ensures n == (n / 64) * 64 + n % 64
  {
  }

  lemma Utf8DecodesTwo(n: int)
    requires 0x80 <= n < 0x800
    ensures var bs := Utf8(n);
      ContinuationCount(bs[0]) == Some(1) && IsContinuation(bs[1]) && CodePoint(bs[0], bs[1..]) == Some(n)
  {
    Div64Twice(n);
    var bs := Utf8(n);
    assert bs == [0xC0 + n / 64, 0x80 + n % 64];
    assert bs[1..] == [0x80 + n % 64];
  }

  lemma Utf8DecodesThree(n: int)
    requires IsScalar(n) && 0x800 <= n < 0x1_0000
    ensures var bs := Utf8(n);
      ContinuationCount(bs[0]) == Some(2) && IsContinuation(bs[1]) && IsContinuation(bs[2])
      && CodePoint(bs[0], bs[1..]) == Some(n)
  {
    var q1, q2 := n / 64, n / 4096;
    Div64Twice(n);
    Div64Twice(q1);
    assert q1 == q2 * 64 + q1 % 64;
    var bs := Utf8(n);
    assert bs == [0xE0 + q2, 0x80 + q1 % 64, 0x80 + n % 64];
    assert bs[1..] == [0x80 + q1 % 64, 0x80 + n % 64];
    assert (bs[0] - 0xE0) * 4096 + (bs[1] - 0x80) * 64 + (bs[2] - 0x80) == n;
  }

  lemma Utf8DecodesFour(n: int)
    requires IsScalar(n) && 0x1_0000 <= n
    ensures var bs := Utf8(n);
      ContinuationCount(bs[0]) == Some(3) && IsContinuation(bs[1]) && IsContinuation(bs[2]) && IsContinuation(bs[3])
      && CodePoint(bs[0], bs[1..]) == Some(n)
  {
    var q1, q2, q3 := n / 64, n / 4096, n / 0x4_0000;
    Div64Twice(n);
    Div64Twice(q1);
    assert q1 == q2 * 64 + q1 % 64;
    assert q2 == q3 * 64 + q2 % 64;
    var bs := Utf8(n);
    assert bs == [0xF0 + q3, 0x80 + q2 % 64, 0x80 + q1 % 64, 0x80 + n % 64];
    assert bs[1..] == [0x80 + q2 % 64, 0x80 + q1 % 64, 0x80 + n % 64];
    assert (bs[0] - 0xF0) * 0x4_0000 + (bs[1] - 0x80) * 4096 + (bs[2] - 0x80) * 64 + (bs[3] - 0x80) == n;
  }

  /** The UTF-8 octets of a scalar value decode back to it. */
  lemma Utf8Decodes(n: int)
    requires IsScalar(n) && n >= 0x80
    ensures var bs := Utf8(n);
      ContinuationCount(bs[0]) == Some(|bs| - 1)
      && (forall i :: 1 <= i < |bs| ==> IsContinuation(bs[i]))
      && CodePoint(bs[0], bs[1..]) == Some(n)
  {
    if n < 0x800 {
      Utf8DecodesTwo(n);
    } else if n < 0x1_0000 {
      Utf8DecodesThree(n);
    } else {
      Utf8DecodesFour(n);
    }
  }

  /** A character below 0x80 outside the unescaped set is one escape, read back as itself. */
  lemma EscapeOfSingleOctet(c: char, rest: string)
    requires !Unescaped(c) && c as int < 0x80
    ensures DecodeEscape(EncodeChar(c) + rest) == Some((c, 3))
  {
    var bs := Utf8(c as int);
    assert bs == [c as int];
    OctetAtPercentOctets(bs, rest, 0);
  }

  /** The escapes of a character's several UTF-8 octets are read back as that character. */
  lemma EscapeOfMultiOctet(c: char, rest: string)
    requires c as int >= 0x80
    ensures DecodeEscape(EncodeChar(c) + rest) == Some((c, 3 * |Utf8(c as int)|))
  {
    var bs := Utf8(c as int);
    var s := EncodeChar(c) + rest;
    assert !Unescaped(c) && s == PercentOctets(bs) + rest;
    forall i | 0 <= i < |bs| ensures OctetAt(s, 3 * i) == Some(bs[i]) {
      OctetAtPercentOctets(bs, rest, i);
    }
    EscapeOfUtf8(s, c);
  }

  /** A string that starts with the escapes of a character's UTF-8 octets decodes to it first. */
  lemma EscapeOfUtf8(s: string, c: char)
    requires c as int >= 0x80
    requires forall i :: 0 <= i < |Utf8(c as int)| ==> OctetAt(s, 3 * i) == Some(Utf8(c as int)[i])
    ensures DecodeEscape(s) == Some((c, 3 * |Utf8(c as int)|))
  {
    var n := c as int;
    var bs := Utf8(n);
    assert OctetAt(s, 3 * 0) == Some(bs[0]);
    Utf8Decodes(n);
    ContinuationsOfOctets(s, bs, 1, |bs| - 1);
    assert bs[1..1 + (|bs| - 1)] == bs[1..];
  }

  /** Decoding an encoded character followed by anything yields the character first. */
  lemma DecodeEncodeChar(c: char, rest: string)
    ensures Decode(EncodeChar(c) + rest) ==
      match Decode(rest) case None => None case Some(t) => Some([c] + t)
  {
    var s := EncodeChar(c) + rest;
    if Unescaped(c) {
      assert s[0] == c && s[1..] == rest;
    } else {
      var len := |EncodeChar(c)|;
      assert s[0] == '%' && s[len..] == rest;
      if c as int < 0x80 {
        EscapeOfSingleOctet(c, rest);
      } else {
        EscapeOfMultiOctet(c, rest);
      }
    }
  }

  /** `decodeURIComponent(encodeURIComponent(s)) === s`. */
  lemma {:induction false} DecodeEncode(s: string)
    ensures Decode(Encode(s)) == Some(s)
  {
    if s != [] {
      DecodeEncode(s[1..]);
      DecodeEncodeChar(s[0], Encode(s[1..]));
      assert [s[0]] + s[1..] == s;
    }
  }
}
