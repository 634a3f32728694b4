/**
 * Browser persistence of the session: the access/refresh cookies in
 * `document.cookie` and the device fingerprint in `localStorage`.
 *
 * The cookie jar is the ordered list of cookies `document.cookie` shows:
 * writing an existing name updates that entry in place, a new name is
 * appended, and writing with an expiry in the past (days <= 0) removes it.
 * `document.cookie` reads as the entries `name=value` joined by "; ".
 */
module AuthHelpers {
  import opened Wrappers
  import opened Text
  import UriCodec

  const AccessTokenKey: string := "accessToken"
  const RefreshTokenKey: string := "refreshToken"
  const FingerprintKey: string := "browserFingerprint"
  /** What `getOrCreateFingerprint` returns when there is no window. */
  const ServerFingerprint: string := "server-fingerprint"
  /** Lifetime, in days, of the access-token cookie. */
  const AccessCookieDays: int := 7
  /** Lifetime, in days, of the refresh-token cookie. */
  const RefreshCookieDays: int := 30

  /** A stored cookie: its name, its stored (percent-encoded) value, and the lifetime it was written with. */
  datatype Cookie = Cookie(name: string, value: string, days: int)

  /** RFC 6265 section 4.1.1 cookie-name characters (a token: visible ASCII, no separators). */
  predicate TokenChar(c: char) {
    '!' <= c <= '~' && c !in "()<>@,;:\\\"/[]?={}"
  }

  predicate CookieName(n: string) {
    n != [] && forall i :: 0 <= i < |n| ==> TokenChar(n[i])
  }

  // ---------------------------------------------------------------------------
  // Reading: `getCookie`
  // ---------------------------------------------------------------------------

  function EntryText(c: Cookie): string {
    c.name + "=" + c.value
  }

  /** The string `document.cookie` reads as. */
  function CookieHeader(jar: seq<Cookie>): string {
    if jar == [] then ""
    else if |jar| == 1 then EntryText(jar[0])
    else EntryText(jar[0]) + "; " + CookieHeader(jar[1..])
  }

  /** JavaScript LineTerminator characters: the ones '.' in a regular expression does not match. */
  predicate IsLineTerminator(c: char) {
    c == '\n' || c == '\r' || c == '\U{2028}' || c == '\U{2029}'
  }

  /**
   * Whether a character of the name, placed in the pattern, matches `c`.
   * With `dotWildcard`, an unescaped '.' matches any character but a line terminator.
   */
  predicate PatternCharMatches(p: char, c: char, dotWildcard: bool) {
    if p == '.' && dotWildcard then !IsLineTerminator(c) else p == c
  }

  /** `(?:^|; )`: position `k` is the start of the string or follows "; ". */
  predicate EntryStart(s: string, k: nat) {
    k == 0 || (2 <= k <= |s| && s[k - 2] == ';' && s[k - 1] == ' ')
  }

  /** The name, read as a pattern, matches the equally long text `t`. */
  predicate PatternMatches(name: string, t: string, dotWildcard: bool)
    requires |t| == |name|
  {
    name == [] || (PatternCharMatches(name[0], t[0], dotWildcard) && PatternMatches(name[1..], t[1..], dotWildcard))
  }

  /** Without the wildcard, a pattern matches exactly the text equal to it. */
  lemma {:induction false} LiteralPattern(name: string, t: string)
    requires |t| == |name|
    ensures PatternMatches(name, t, false) <==> name == t
  {
    if name != [] {
      LiteralPattern(name[1..], t[1..]);
      assert name == [name[0]] + name[1..] && t == [t[0]] + t[1..];
    }
  }

  /** `name=` (with the name as a pattern) occurs at position `k`. */
  predicate NameMatchesAt(s: string, k: nat, name: string, dotWildcard: bool) {
    k + |name| + 1 <= |s|
    && PatternMatches(name, s[k..k + |name|], dotWildcard)
    && s[k + |name|] == '='
  }

  predicate IsMatch(s: string, name: string, dotWildcard: bool, k: nat) {
    EntryStart(s, k) && NameMatchesAt(s, k, name, dotWildcard)
  }

  /** The leftmost match at or after `k`: where the regular expression's match begins its name. */
  function FirstMatch(s: string, name: string, dotWildcard: bool, k: nat): Option<nat>
    decreases |s| + 1 - k
  {
    if k > |s| then None
    else if IsMatch(s, name, dotWildcard, k) then Some(k)
    else FirstMatch(s, name, dotWildcard, k + 1)
  }

  /** The first match is a match, and there is none before it (none at all when there is no first match). */
  lemma {:induction false} FirstMatchSpec(s: string, name: string, dotWildcard: bool, k: nat)
    ensures var r := FirstMatch(s, name, dotWildcard, k);
      (r.Some? ==> k <= r.value && IsMatch(s, name, dotWildcard, r.value))
      && (r.Some? ==> forall j :: k <= j < r.value ==> !IsMatch(s, name, dotWildcard, j))
      && (r.None? ==> forall j :: k <= j ==> !IsMatch(s, name, dotWildcard, j))
    decreases |s| + 1 - k
  {
    if k <= |s| && !IsMatch(s, name, dotWildcard, k) {
      FirstMatchSpec(s, name, dotWildcard, k + 1);
    }
  }

  /** `[^;]*`, greedy: the longest prefix of `t` without a ';'. */
  function UpToSemicolon(t: string): string {
    if t == [] || t[0] == ';' then [] else [t[0]] + UpToSemicolon(t[1..])
  }

  /** `([^;]*)` at position `k`: everything up to the next ';' or the end. */
  function ValueFrom(s: string, k: nat): string
    requires k <= |s|
  {
    UpToSemicolon(s[k..])
  }

  /** The capture is a run without ';' that reaches the end or stops at a ';'. */
  lemma {:induction false} UpToSemicolonSpec(t: string)
    ensures var r := UpToSemicolon(t);
      |r| <= |t| && r == t[..|r|] && ';' !in r && (|r| == |t| || t[|r|] == ';')
  {
    if t != [] && t[0] != ';' {
      UpToSemicolonSpec(t[1..]);
    }
  }

  /** A value without ';' followed by nothing or by a ';' is captured whole. */
  lemma {:induction false} UpToSemicolonOf(value: string, tail: string)
    requires ';' !in value && (tail == [] || tail[0] == ';')
    ensures UpToSemicolon(value + tail) == value
  {
    if value != [] {
      assert (value + tail)[1..] == value[1..] + tail;
      UpToSemicolonOf(value[1..], tail);
    }
  }

  /** A match leaves room for the name and the '='. */
  lemma {:induction false} FirstMatchFits(s: string, name: string, dotWildcard: bool, k: nat)
    ensures FirstMatch(s, name, dotWildcard, k).Some? ==> FirstMatch(s, name, dotWildcard, k).value + |name| + 1 <= |s|
    decreases |s| + 1 - k
  {
    if k <= |s| && !IsMatch(s, name, dotWildcard, k) {
      FirstMatchFits(s, name, dotWildcard, k + 1);
    }
  }

  /** The still-encoded value the pattern captures, if the name matches anywhere. */
  function RawCookie(s: string, name: string, dotWildcard: bool): Option<string> {
    FirstMatchFits(s, name, dotWildcard, 0);
    match FirstMatch(s, name, dotWildcard, 0)
    case None => None
    case Some(j) => Some(ValueFrom(s, j + |name| + 1))
  }

  /** What `getCookie` gives: null, a decoded value, or the URIError `decodeURIComponent` throws. */
  datatype CookieRead = Absent | Present(value: string) | Malformed

  function ReadCookie(document: Option<string>, name: string, dotWildcard: bool): CookieRead {
    match document
    case None => Absent
    case Some(s) =>
      match RawCookie(s, name, dotWildcard)
      case None => Absent
      case Some(v) =>
        match UriCodec.Decode(v)
        case None => Malformed
        case Some(d) => Present(d)
  }

  /**
   * `getCookie` as written: the name is escaped for every metacharacter but '.',
   * which therefore stays a wildcard. `document` is None when there is no document.
   */
  function GetCookieAsWritten(document: Option<string>, name: string): CookieRead {
    ReadCookie(document, name, true)
  }

  /** `getCookie` with every metacharacter of the name escaped: the name is matched literally. */
  function GetCookie(document: Option<string>, name: string): CookieRead {
    ReadCookie(document, name, false)
  }

  /** A name without '.' reads the same as a pattern whether or not '.' is a wildcard. */
  lemma {:induction false} PatternWildcardIrrelevant(name: string, t: string)
    requires |t| == |name| && '.' !in name
    ensures PatternMatches(name, t, true) == PatternMatches(name, t, false)
  {
    if name != [] {
      assert name[0] in name;
      assert forall i :: 0 <= i < |name[1..]| ==> name[1..][i] == name[i + 1];
      PatternWildcardIrrelevant(name[1..], t[1..]);
    }
  }

  lemma {:induction false} FirstMatchWildcardIrrelevant(s: string, name: string, k: nat)
    requires '.' !in name
    ensures FirstMatch(s, name, true, k) == FirstMatch(s, name, false, k)
    decreases |s| + 1 - k
  {
    if k <= |s| {
      if k + |name| + 1 <= |s| {
        PatternWildcardIrrelevant(name, s[k..k + |name|]);
      }
      FirstMatchWildcardIrrelevant(s, name, k + 1);
    }
  }

  /** For a name without '.', `getCookie` as written reads exactly what the corrected reading does. */
  lemma AsWrittenAgrees(document: Option<string>, name: string)
    requires '.' !in name
    ensures GetCookieAsWritten(document, name) == GetCookie(document, name)
  {
    if document.Some? {
      FirstMatchWildcardIrrelevant(document.value, name, 0);
    }
  }

  // ---------------------------------------------------------------------------
  // The jar as a map from names to stored values
  // ---------------------------------------------------------------------------

  function IndexOfName(jar: seq<Cookie>, name: string): (r: Option<nat>)
    ensures r.Some? ==> r.value < |jar| && jar[r.value].name == name
    ensures r.Some? ==> forall i :: 0 <= i < r.value ==> jar[i].name != name
    ensures r.None? ==> forall i :: 0 <= i < |jar| ==> jar[i].name != name
  {
    if jar == [] then None
    else if jar[0].name == name then Some(0)
    else match IndexOfName(jar[1..], name)
      case None => None
      case Some(i) => Some(i + 1)
  }

  /** The stored value of the first cookie called `name`. */
  function Lookup(jar: seq<Cookie>, name: string): (r: Option<string>)
    ensures r.None? <==> IndexOfName(jar, name).None?
    ensures r.Some? ==> r.value == jar[IndexOfName(jar, name).value].value
  {
    if jar == [] then None
    else if jar[0].name == name then Some(jar[0].value)
    else Lookup(jar[1..], name)
  }

  function RemoveFromJar(jar: seq<Cookie>, name: string): (r: seq<Cookie>)
    ensures forall i :: 0 <= i < |r| ==> r[i].name != name && r[i] in jar
  {
    if jar == [] then []
    else (if jar[0].name == name then [] else [jar[0]]) + RemoveFromJar(jar[1..], name)
  }

  /** What the browser does with `document.cookie = "name=value;expires=...;path=/;SameSite=Lax"`. */
  function SetInJar(jar: seq<Cookie>, name: string, value: string, days: int): seq<Cookie> {
    if days <= 0 then RemoveFromJar(jar, name)
    else match IndexOfName(jar, name)
      case Some(i) => jar[i := Cookie(name, value, days)]
      case None => jar + [Cookie(name, value, days)]
  }

  /** A cookie written with a non-positive lifetime is deleted, whatever its value. */
  lemma ExpiredIsRemoved(jar: seq<Cookie>, name: string, value: string)
    ensures SetInJar(jar, name, value, -1) == RemoveFromJar(jar, name)
  {
  }

  /** Names are well formed and distinct; values hold no ';'. */
  ghost predicate WellFormedJar(jar: seq<Cookie>) {
    (forall i :: 0 <= i < |jar| ==> CookieName(jar[i].name) && ';' !in jar[i].value)
    && (forall i, j :: 0 <= i < j < |jar| ==> jar[i].name != jar[j].name)
  }

  lemma {:induction false} LookupRemoved(jar: seq<Cookie>, name: string, other: string)
    ensures Lookup(RemoveFromJar(jar, name), name) == None
    ensures other != name ==> Lookup(RemoveFromJar(jar, name), other) == Lookup(jar, other)
  {
    if jar != [] {
      LookupRemoved(jar[1..], name, other);
      var c := jar[0];
      var tail := RemoveFromJar(jar[1..], name);
      if c.name != name {
        assert RemoveFromJar(jar, name) == [c] + tail;
        assert ([c] + tail)[1..] == tail;
      } else {
        assert RemoveFromJar(jar, name) == tail;
      }
    }
  }

  /** Removing a name that is not in the jar changes nothing. */
  lemma {:induction false} RemoveAbsent(jar: seq<Cookie>, name: string)
    requires forall i :: 0 <= i < |jar| ==> jar[i].name != name
    ensures RemoveFromJar(jar, name) == jar
  {
    if jar != [] {
      RemoveAbsent(jar[1..], name);
      assert [jar[0]] + jar[1..] == jar;
    }
  }

  /** Expiring a cookie twice is expiring it once. */
  lemma RemoveIdempotent(jar: seq<Cookie>, name: string)
    ensures RemoveFromJar(RemoveFromJar(jar, name), name) == RemoveFromJar(jar, name)
  {
    RemoveAbsent(RemoveFromJar(jar, name), name);
  }

  lemma {:induction false} RemovePreservesWellFormed(jar: seq<Cookie>, name: string)
    requires WellFormedJar(jar)
    ensures WellFormedJar(RemoveFromJar(jar, name))
  {
    if jar != [] {
      RemovePreservesWellFormed(jar[1..], name);
      var tail := RemoveFromJar(jar[1..], name);
      if jar[0].name == name {
        assert RemoveFromJar(jar, name) == tail;
      } else {
        forall i | 0 <= i < |tail| ensures tail[i].name != jar[0].name {
          assert tail[i] in jar[1..];
        }
        ConsWellFormed(jar[0], tail);
        assert RemoveFromJar(jar, name) == [jar[0]] + tail;
      }
    }
  }

  lemma ConsWellFormed(c: Cookie, tail: seq<Cookie>)
    requires WellFormedJar(tail) && CookieName(c.name) && ';' !in c.value
    requires forall i :: 0 <= i < |tail| ==> tail[i].name != c.name
    ensures WellFormedJar([c] + tail)
  {
    var r := [c] + tail;
    forall i, j | 0 <= i < j < |r| ensures r[i].name != r[j].name {
      assert r[j] == tail[j - 1];
      if i > 0 {
        assert r[i] == tail[i - 1];
      }
    }
  }

  lemma LookupUpdated(jar: seq<Cookie>, i: nat, c: Cookie, other: string)
    requires i < |jar| && jar[i].name == c.name
    requires forall j :: 0 <= j < |jar| && j != i ==> jar[j].name != c.name
    ensures Lookup(jar[i := c], c.name) == Some(c.value)
    ensures other != c.name ==> Lookup(jar[i := c], other) == Lookup(jar, other)
  {
    var r := jar[i := c];
    assert r[i].name == c.name;
    assert forall j :: 0 <= j < |r| && j != i ==> r[j].name != c.name;
    if other != c.name {
      assert forall j :: 0 <= j < |jar| ==> (r[j].name == other <==> jar[j].name == other);
      assert IndexOfName(r, other) == IndexOfName(jar, other) by {
        IndexOfNameSameNames(r, jar, other);
      }
    }
  }

  lemma {:induction false} IndexOfNameSameNames(a: seq<Cookie>, b: seq<Cookie>, name: string)
    requires |a| == |b| && forall j :: 0 <= j < |a| ==> (a[j].name == name <==> b[j].name == name)
    ensures IndexOfName(a, name) == IndexOfName(b, name)
  {
    if a != [] {
      IndexOfNameSameNames(a[1..], b[1..], name);
    }
  }

  lemma {:induction false} LookupAppended(jar: seq<Cookie>, c: Cookie, other: string)
    requires IndexOfName(jar, c.name).None?
    ensures Lookup(jar + [c], c.name) == Some(c.value)
    ensures other != c.name ==> Lookup(jar + [c], other) == Lookup(jar, other)
    decreases |jar|
  {
    if jar == [] {
      assert [] + [c] == [c];
    } else {
      assert (jar + [c])[1..] == jar[1..] + [c];
      LookupAppended(jar[1..], c, other);
    }
  }

  /** Writing a cookie keeps the jar well formed; reading it back gives what was written (or nothing, once expired) and no other cookie changes. */
  lemma SetInJarSpec(jar: seq<Cookie>, name: string, value: string, days: int, other: string)
    requires WellFormedJar(jar) && CookieName(name) && ';' !in value
    ensures WellFormedJar(SetInJar(jar, name, value, days))
    ensures Lookup(SetInJar(jar, name, value, days), name) == if days > 0 then Some(value) else None
    ensures other != name ==> Lookup(SetInJar(jar, name, value, days), other) == Lookup(jar, other)
  {
    if days <= 0 {
      LookupRemoved(jar, name, other);
      RemovePreservesWellFormed(jar, name);
    } else {
      var c := Cookie(name, value, days);
      var idx := IndexOfName(jar, name);
      if idx.Some? {
        LookupUpdated(jar, idx.value, c, other);
      } else {
        LookupAppended(jar, c, other);
      }
    }
  }

  // ---------------------------------------------------------------------------
  // Parsing `document.cookie` agrees with the jar
  // ---------------------------------------------------------------------------

  /** The text that follows the first entry of a cookie string: nothing, or "; " and the rest. */
  function Tail(rest: seq<Cookie>): string {
    if rest == [] then "" else "; " + CookieHeader(rest)
  }

  lemma HeaderCons(jar: seq<Cookie>)
    requires jar != []
    ensures CookieHeader(jar) == EntryText(jar[0]) + Tail(jar[1..])
  {
  }

  /** The name of an entry with a different token name does not match at its start. */
  lemma NoMatchAtEntryStart(c: Cookie, rest: string, name: string)
    requires CookieName(c.name) && CookieName(name) && c.name != name
    ensures !NameMatchesAt(EntryText(c) + rest, 0, name, false)
  {
    var s := EntryText(c) + rest;
    var m, n := |name|, |c.name|;
    assert s[n] == '=';
    if m + 1 <= |s| {
      LiteralPattern(name, s[..m]);
      if m < n {
        assert s[m] == c.name[m];
        assert TokenChar(c.name[m]);
      } else if n < m {
        assert TokenChar(name[n]);
        assert s[..m][n] == '=';
      } else {
        assert s[..m] == c.name;
      }
    }
  }

  /** No position inside an entry, nor just after it, follows a "; " separator. */
  lemma NotEntryStartInside(c: Cookie, rest: string, j: nat)
    requires CookieName(c.name) && ';' !in c.value
    requires 0 < j <= |EntryText(c)| + 1
    ensures !EntryStart(EntryText(c) + rest, j)
  {
    var a := EntryText(c);
    var s := a + rest;
    if j >= 2 {
      var k := j - 2;
      assert s[k] == a[k];
      if k < |c.name| {
        assert a[k] == c.name[k];
        assert TokenChar(c.name[k]);
      } else if k > |c.name| {
        assert a[k] == c.value[k - |c.name| - 1];
      }
      assert s[k] != ';';
    }
  }

  /** Matches in `p + b` past a "; " separator are the matches of `b`, shifted. */
  lemma MatchShift(p: string, b: string, name: string, j: nat)
    requires |p| >= 2 && p[|p| - 2] == ';' && p[|p| - 1] == ' '
    ensures IsMatch(p + b, name, false, |p| + j) <==> IsMatch(b, name, false, j)
  {
    var s := p + b;
    var k := |p| + j;
    if 2 <= j <= |b| {
      assert s[k - 2] == b[j - 2] && s[k - 1] == b[j - 1];
    }
    if j == 1 {
      assert s[k - 2] == ' ';
    }
    if j + |name| + 1 <= |b| {
      assert s[k..k + |name|] == b[j..j + |name|];
      assert s[k + |name|] == b[j + |name|];
    }
  }

  lemma {:induction false} FirstMatchShift(p: string, b: string, name: string, j: nat)
    requires |p| >= 2 && p[|p| - 2] == ';' && p[|p| - 1] == ' '
    ensures FirstMatch(p + b, name, false, |p| + j) ==
      match FirstMatch(b, name, false, j) case None => None case Some(m) => Some(|p| + m)
    decreases |b| + 1 - j
  {
    MatchShift(p, b, name, j);
    if j <= |b| {
      FirstMatchShift(p, b, name, j + 1);
    }
  }

  lemma {:induction false} FirstMatchSkip(s: string, name: string, k: nat, k': nat)
    requires k <= k'
    requires forall j :: k <= j < k' ==> !IsMatch(s, name, false, j)
    ensures FirstMatch(s, name, false, k) == FirstMatch(s, name, false, k')
    decreases k' - k
  {
    if k < k' {
      FirstMatchSkip(s, name, k + 1, k');
      if k > |s| {
        assert FirstMatch(s, name, false, k') == None;
      }
    }
  }

  lemma ValueFromShift(p: string, b: string, k: nat)
    requires k <= |b|
    ensures ValueFrom(p + b, |p| + k) == ValueFrom(b, k)
  {
    assert (p + b)[|p| + k..] == b[k..];
  }

  /** Past a prefix without matches that ends in "; ", the first match is the first match of the rest, shifted. */
  lemma FirstMatchPastPrefix(p: string, b: string, name: string)
    requires |p| >= 2 && p[|p| - 2] == ';' && p[|p| - 1] == ' '
    requires forall j :: 0 <= j < |p| ==> !IsMatch(p + b, name, false, j)
    ensures FirstMatch(p + b, name, false, 0) ==
      match FirstMatch(b, name, false, 0) case None => None case Some(m) => Some(|p| + m)
  {
    FirstMatchSkip(p + b, name, 0, |p|);
    FirstMatchShift(p, b, name, 0);
  }

  /** When the first match of `p + b` is that of `b` shifted past `p`, so is the capture. */
  lemma RawCookieSkip(p: string, b: string, name: string)
    requires FirstMatch(p + b, name, false, 0) ==
      match FirstMatch(b, name, false, 0) case None => None case Some(m) => Some(|p| + m)
    ensures RawCookie(p + b, name, false) == RawCookie(b, name, false)
  {
    var fb := FirstMatch(b, name, false, 0);
    if fb.Some? {
      var m := fb.value;
      var v := m + |name| + 1;
      MatchBound(b, name, m);
      ValueFromShift(p, b, v);
      RawCookieAt(p + b, name, |p| + m);
      RawCookieAt(b, name, m);
    }
  }

  lemma RawCookieAt(s: string, name: string, m: nat)
    requires FirstMatch(s, name, false, 0) == Some(m)
    ensures m + |name| + 1 <= |s|
    ensures RawCookie(s, name, false) == Some(ValueFrom(s, m + |name| + 1))
  {
    MatchBound(s, name, m);
    CaptureAt(s, name, m);
  }

  lemma MatchBound(s: string, name: string, m: nat)
    requires FirstMatch(s, name, false, 0) == Some(m)
    ensures m + |name| + 1 <= |s|
  {
    FirstMatchFits(s, name, false, 0);
  }

  lemma CaptureAt(s: string, name: string, m: nat)
    requires FirstMatch(s, name, false, 0) == Some(m) && m + |name| + 1 <= |s|
    ensures RawCookie(s, name, false) == Some(ValueFrom(s, m + |name| + 1))
  {
  }

  /** An entry for the name itself is matched at once and its whole value captured. */
  lemma RawCookieHere(c: Cookie, rest: seq<Cookie>)
    requires CookieName(c.name) && ';' !in c.value
    ensures RawCookie(EntryText(c) + Tail(rest), c.name, false) == Some(c.value)
  {
    var a := EntryText(c);
    var s := a + Tail(rest);
    var n := |c.name|;
    assert s[..n] == c.name;
    LiteralPattern(c.name, s[..n]);
    assert IsMatch(s, c.name, false, 0);
    assert FirstMatch(s, c.name, false, 0) == Some(0);
    CaptureAt(s, c.name, 0);
    assert Tail(rest) == [] || Tail(rest)[0] == ';';
    assert s == c.name + "=" + c.value + Tail(rest);
    ValueBeforeSeparator(c.name + "=", c.value, Tail(rest));
  }

  /** The capture after a prefix is a value without ';' when what follows it is nothing or a ';'. */
  lemma ValueBeforeSeparator(p: string, value: string, tail: string)
    requires ';' !in value && (tail == [] || tail[0] == ';')
    ensures ValueFrom(p + value + tail, |p|) == value
  {
    assert (p + value + tail)[|p|..] == value + tail;
    UpToSemicolonOf(value, tail);
  }

  /** Parsing the serialised jar finds exactly the jar's entry for a token name. */
  lemma {:induction false} LookupAgrees(jar: seq<Cookie>, name: string)
    requires WellFormedJar(jar) && CookieName(name)
    ensures RawCookie(CookieHeader(jar), name, false) == Lookup(jar, name)
  {
    if jar == [] {
      assert !IsMatch("", name, false, 0);
    } else {
      var c, rest := jar[0], jar[1..];
      HeaderCons(jar);
      if c.name == name {
        RawCookieHere(c, rest);
      } else {
        assert WellFormedJar(rest);
        LookupAgrees(rest, name);
        assert Lookup(jar, name) == Lookup(rest, name);
        SkipEntry(c, rest, name);
      }
    }
  }

  /** An entry for another name is passed over: the capture is the one in the entries after it. */
  lemma SkipEntry(c: Cookie, rest: seq<Cookie>, name: string)
    requires CookieName(c.name) && ';' !in c.value && CookieName(name) && c.name != name
    ensures RawCookie(EntryText(c) + Tail(rest), name, false) == if rest == [] then None else RawCookie(CookieHeader(rest), name, false)
  {
    if rest == [] {
      SkipLastEntry(c, name);
    } else {
      SkipInnerEntry(c, CookieHeader(rest), name);
    }
  }

  lemma SkipLastEntry(c: Cookie, name: string)
    requires CookieName(c.name) && ';' !in c.value && CookieName(name) && c.name != name
    ensures RawCookie(EntryText(c) + Tail([]), name, false) == None
  {
    var a := EntryText(c);
    assert a + Tail([]) == a + "";
    NoMatchInEntry(c, "", name);
    FirstMatchSkip(a + "", name, 0, |a| + 1);
  }

  lemma SkipInnerEntry(c: Cookie, b: string, name: string)
    requires CookieName(c.name) && ';' !in c.value && CookieName(name) && c.name != name
    ensures RawCookie(EntryText(c) + ("; " + b), name, false) == RawCookie(b, name, false)
  {
    var a := EntryText(c);
    var p := a + "; ";
    NoMatchInEntry(c, "; " + b, name);
    assert a + ("; " + b) == p + b;
    FirstMatchPastPrefix(p, b, name);
    RawCookieSkip(p, b, name);
  }

  /** No match begins inside an entry for another name, nor right after it. */
  lemma NoMatchInEntry(c: Cookie, tail: string, name: string)
    requires CookieName(c.name) && ';' !in c.value && CookieName(name) && c.name != name
    ensures forall j :: 0 <= j <= |EntryText(c)| + 1 ==> !IsMatch(EntryText(c) + tail, name, false, j)
  {
    NoMatchAtEntryStart(c, tail, name);
    forall j | 0 < j <= |EntryText(c)| + 1 ensures !EntryStart(EntryText(c) + tail, j) {
      NotEntryStartInside(c, tail, j);
    }
  }

  predicate DecodableJar(jar: seq<Cookie>) {
    forall i :: 0 <= i < |jar| ==> UriCodec.Decode(jar[i].value).Some?
  }

  /** Writing a decodable value keeps every stored value decodable. */
  lemma SetInJarDecodable(jar: seq<Cookie>, name: string, value: string, days: int)
    requires DecodableJar(jar) && UriCodec.Decode(value).Some?
    ensures DecodableJar(SetInJar(jar, name, value, days))
  {
    var next := SetInJar(jar, name, value, days);
    if days <= 0 {
      forall i | 0 <= i < |next| ensures UriCodec.Decode(next[i].value).Some? {
        assert next[i] in jar;
      }
    } else if IndexOfName(jar, name).None? {
      assert next == jar + [Cookie(name, value, days)];
      forall i | 0 <= i < |next| ensures UriCodec.Decode(next[i].value).Some? {
        if i < |jar| {
          assert next[i] == jar[i];
        }
      }
    }
  }

  /** The two auth cookie names are tokens. */
  lemma AuthKeysAreNames()
    ensures CookieName(AccessTokenKey) && CookieName(RefreshTokenKey)
    ensures '.' !in AccessTokenKey && '.' !in RefreshTokenKey
  {
    AccessKeyIsName();
    RefreshKeyIsName();
  }

  lemma AccessKeyIsName()
    ensures CookieName(AccessTokenKey)
  {
  }

  lemma RefreshKeyIsName()
    ensures CookieName(RefreshTokenKey)
  {
  }

  /** `getCookie` over the serialised jar reads the decoded value of the entry with that name. */
  lemma GetCookieOfJar(jar: seq<Cookie>, name: string)
    requires WellFormedJar(jar) && DecodableJar(jar) && CookieName(name)
    ensures GetCookie(Some(CookieHeader(jar)), name) ==
      match Lookup(jar, name)
      case None => Absent
      case Some(v) => Present(UriCodec.Decode(v).value)
  {
    LookupAgrees(jar, name);
  }

  /** Round trip of `setCookie` then `getCookie`: the value written is the value read, while it lives. */
  lemma {:induction false} SetCookieThenGetCookie(jar: seq<Cookie>, name: string, value: string, days: int)
    requires WellFormedJar(jar) && CookieName(name)
    ensures GetCookie(Some(CookieHeader(SetInJar(jar, name, UriCodec.Encode(value), days))), name)
      == if days > 0 then Present(value) else Absent
  {
    var e := UriCodec.Encode(value);
    var jar' := SetInJar(jar, name, e, days);
    SetInJarSpec(jar, name, e, days, name);
    LookupAgrees(jar', name);
    UriCodec.DecodeEncode(value);
  }

  /** The value a successful `getCookie`, as written, yields; null and a decoding failure both give None. */
  function CookieValue(document: Option<string>, name: string): Option<string> {
    match GetCookieAsWritten(document, name)
    case Present(v) => Some(v)
    case _ => None
  }

  /** A lone decimal digit is its own URI component encoding. */
  lemma DigitDecodes(d: char)
    requires '0' <= d <= '9'
    ensures UriCodec.Decode([d]) == Some([d])
  {
    UriCodec.DecodeEncode([d]);
    assert UriCodec.Encode([d]) == UriCodec.EncodeChar(d) + UriCodec.Encode([]);
  }

  const DotJar := "axb=1; a.b=2"

  lemma DotJarWildcardMatch()
    ensures FirstMatch(DotJar, "a.b", true, 0) == Some(0)
  {
    assert DotJar[0..3] == "axb";
    assert "axb"[1..] == "xb" && "xb"[1..] == "b" && "a.b"[1..] == ".b" && ".b"[1..] == "b";
    assert PatternMatches("b", "b", true);
    assert PatternMatches(".b", "xb", true);
    assert PatternMatches("a.b", "axb", true);
  }

  lemma DotJarValues()
    ensures ValueFrom(DotJar, 4) == "1"
  {
    assert DotJar[4..] == "1" + "; a.b=2";
    UpToSemicolonOf("1", "; a.b=2");
  }

  /**
   * The escape list of `getCookie` as written leaves '.' a wildcard: in the jar
   * "axb=1; a.b=2" the cookie "a.b" reads as "1", the value of "axb".
   */
  lemma DotWildcardMisreads()
    ensures GetCookieAsWritten(Some(DotJar), "a.b") == Present("1")
  {
    DotJarCapture();
    DigitDecodes('1');
  }

  lemma DotJarCapture()
    ensures RawCookie(DotJar, "a.b", true) == Some("1")
  {
    DotJarWildcardMatch();
    DotJarValues();
  }

  // ---------------------------------------------------------------------------
  // The fingerprint in local storage
  // ---------------------------------------------------------------------------

  /** The stored fingerprint, if one is stored and it is not empty (`!fp` treats "" as missing). */
  function StoredFingerprint(storage: map<string, string>): Option<string> {
    if FingerprintKey in storage && storage[FingerprintKey] != "" then Some(storage[FingerprintKey]) else None
  }

  /** `getOrCreateFingerprint` in a window: the fingerprint returned and the storage afterwards. */
  function FingerprintStep(storage: map<string, string>, uuid: string): (string, map<string, string>) {
    match StoredFingerprint(storage)
    case Some(fp) => (fp, storage)
    case None => (uuid, storage[FingerprintKey := uuid])
  }

  /**
   * Get-or-create is idempotent: after one call, any later call (whatever fresh
   * id it would have drawn) returns the same fingerprint and leaves storage alone;
   * an existing fingerprint is never replaced.
   */
  lemma FingerprintIdempotent(storage: map<string, string>, uuid: string, later: string)
    requires uuid != ""
    ensures var (fp, st) := FingerprintStep(storage, uuid);
      StoredFingerprint(st) == Some(fp)
      && FingerprintStep(st, later) == (fp, st)
      && (StoredFingerprint(storage).Some? ==> fp == StoredFingerprint(storage).value && st == storage)
      && (StoredFingerprint(storage).None? ==> fp == uuid)
  {
  }

  // ---------------------------------------------------------------------------
  // The browser: cookie jar and local storage, updated in place
  // ---------------------------------------------------------------------------

  class Browser {
    var jar: seq<Cookie>
    var storage: map<string, string>
    /** `typeof document !== "undefined"` */
    const hasDocument: bool
    /** `typeof window !== "undefined"` */
    const hasWindow: bool

    ghost predicate Valid()
      reads this
    {
      WellFormedJar(jar) && DecodableJar(jar) && (!hasDocument ==> jar == [])
    }

    /** A browser as a page load finds it: the cookies and the storage left by earlier visits. */
    constructor (hasDocument: bool, hasWindow: bool, jar: seq<Cookie>, storage: map<string, string>)
      requires WellFormedJar(jar) && DecodableJar(jar) && (!hasDocument ==> jar == [])
      ensures Valid() && this.jar == jar && this.storage == storage
      ensures this.hasDocument == hasDocument && this.hasWindow == hasWindow
    {
      this.hasDocument := hasDocument;
      this.hasWindow := hasWindow;
      this.jar := jar;
      this.storage := storage;
    }

    /** `document.cookie`, or None without a document. */
    function DocumentCookie(): Option<string>
      reads this
    {
      if hasDocument then Some(CookieHeader(jar)) else None
    }

    /**
     * `getCookie(name)` on this browser, with the regular expression as written;
     * for a name without '.' it is the decoded value stored under that name.
     */
    function GetCookieValue(name: string): (r: Option<string>)
      reads this
      requires Valid() && CookieName(name)
      ensures r.Some? <==> GetCookieAsWritten(DocumentCookie(), name).Present?
      ensures r.Some? ==> GetCookieAsWritten(DocumentCookie(), name) == Present(r.value)
      ensures '.' !in name ==> r == match Lookup(jar, name) case None => None case Some(v) => UriCodec.Decode(v)
    {
      if hasDocument && '.' !in name then
        AsWrittenAgrees(DocumentCookie(), name);
        GetCookieOfJar(jar, name);
        CookieValue(DocumentCookie(), name)
      else CookieValue(DocumentCookie(), name)
    }

    /** `getAccessTokenFromCookie()` */
    function AccessTokenCookie(): Option<string>
      reads this
      requires Valid()
    {
      GetCookieValue(AccessTokenKey)
    }

    /** `setCookie(name, value, days)` */
    method SetCookie(name: string, value: string, days: int)
      requires Valid() && CookieName(name)
      modifies this
      ensures Valid() && storage == old(storage)
      ensures jar == if hasDocument then SetInJar(old(jar), name, UriCodec.Encode(value), days) else old(jar)
    {
      if !hasDocument {
        return;
      }
      var encoded := UriCodec.Encode(value);
      var next := SetInJar(jar, name, encoded, days);
      SetInJarSpec(jar, name, encoded, days, name);
      UriCodec.DecodeEncode(value);
      SetInJarDecodable(jar, name, encoded, days);
      jar := next;
    }

    /** `clearAuthCookies()`: both auth cookies expire. */
    method ClearAuthCookies()
      requires Valid()
      modifies this
      ensures Valid() && storage == old(storage)
      ensures jar == if hasDocument then RemoveFromJar(RemoveFromJar(old(jar), AccessTokenKey), RefreshTokenKey) else old(jar)
    {
      AuthKeysAreNames();
      SetCookie(AccessTokenKey, "", -1);
      ExpiredIsRemoved(old(jar), AccessTokenKey, UriCodec.Encode(""));
      ghost var middle := jar;
      SetCookie(RefreshTokenKey, "", -1);
      ExpiredIsRemoved(middle, RefreshTokenKey, UriCodec.Encode(""));
    }

    /** `setAuthCookies(accessToken, refreshToken?)`: the refresh cookie only for a non-empty refresh token. */
    method SetAuthCookies(accessToken: string, refreshToken: Option<string>)
      requires Valid()
      modifies this
      ensures Valid() && storage == old(storage)
      ensures var afterAccess := SetInJar(old(jar), AccessTokenKey, UriCodec.Encode(accessToken), AccessCookieDays);
        jar == if !hasDocument then old(jar)
               else if TruthyOpt(refreshToken)
               then SetInJar(afterAccess, RefreshTokenKey, UriCodec.Encode(refreshToken.value), RefreshCookieDays)
               else afterAccess
    {
      AuthKeysAreNames();
      SetCookie(AccessTokenKey, accessToken, AccessCookieDays);
      ghost var afterAccess := jar;
      if TruthyOpt(refreshToken) {
        SetCookie(RefreshTokenKey, refreshToken.value, RefreshCookieDays);
        assert jar == if hasDocument then SetInJar(afterAccess, RefreshTokenKey, UriCodec.Encode(refreshToken.value), RefreshCookieDays) else afterAccess;
      }
    }

    /** `setAccessTokenCookie(token)`: the access cookie, for its usual lifetime. */
    method SetAccessTokenCookie(token: string)
      requires Valid()
      modifies this
      ensures Valid() && storage == old(storage)
      ensures jar == if hasDocument then SetInJar(old(jar), AccessTokenKey, UriCodec.Encode(token), AccessCookieDays) else old(jar)
    {
      AuthKeysAreNames();
      SetCookie(AccessTokenKey, token, AccessCookieDays);
    }

    /** `clearAccessTokenCookie()`: the access cookie expires. */
    method ClearAccessTokenCookie()
      requires Valid()
      modifies this
      ensures Valid() && storage == old(storage)
      ensures jar == if hasDocument then RemoveFromJar(old(jar), AccessTokenKey) else old(jar)
    {
      AuthKeysAreNames();
      SetCookie(AccessTokenKey, "", -1);
      ExpiredIsRemoved(old(jar), AccessTokenKey, UriCodec.Encode(""));
    }

    /** `saveServerFingerprint(hash)`: the server-issued hash replaces the stored fingerprint. */
    method SaveServerFingerprint(hash: string)
      requires Valid()
      modifies this
      ensures Valid() && jar == old(jar)
      ensures storage == if hasWindow then old(storage)[FingerprintKey := hash] else old(storage)
    {
      if hasWindow {
        storage := storage[FingerprintKey := hash];
      }
    }

    /** `getOrCreateFingerprint()`; `uuid` is the value `crypto.randomUUID()` would give. */
    method GetOrCreateFingerprint(uuid: string) returns (fp: string)
      requires Valid() && uuid != ""
      modifies this
      ensures Valid() && jar == old(jar)
      ensures !hasWindow ==> fp == ServerFingerprint && storage == old(storage)
      ensures hasWindow ==> (fp, storage) == FingerprintStep(old(storage), uuid)
      ensures fp != ""
    {
      if !hasWindow {
        return ServerFingerprint;
      }
      fp := if FingerprintKey in storage then storage[FingerprintKey] else "";
      if fp == "" {
        fp := uuid;
        storage := storage[FingerprintKey := fp];
      }
    }
  }
}
