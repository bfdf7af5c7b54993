/**
 * Character classes, word boundaries and small string utilities shared by
 * every hand-written pattern matcher of the model.
 *
 * The JavaScript regular expressions of the system carry no `u` flag, so
 * `\b` and `\w` use ASCII word characters only: a Turkish letter such as
 * 'ç' or 'İ' is a NON-word character for `\b`.  `\s` is the JavaScript
 * white-space set and `\d` is ASCII 0-9.
 */
module Text {

  datatype Option<+T> = None | Some(value: T)

  /** A text that JavaScript treats as true: present and not empty. */
  predicate Present(o: Option<string>) { o.Some? && o.value != "" }

  predicate IsDigit(c: char) { '0' <= c <= '9' }

  predicate IsAsciiUpper(c: char) { 'A' <= c <= 'Z' }

  predicate IsAsciiLower(c: char) { 'a' <= c <= 'z' }

  predicate IsAsciiLetter(c: char) { IsAsciiUpper(c) || IsAsciiLower(c) }

  predicate IsAsciiAlnum(c: char) { IsAsciiLetter(c) || IsDigit(c) }

  /** `\w` without the `u` flag: [A-Za-z0-9_]. */
  predicate IsWordChar(c: char) { IsAsciiAlnum(c) || c == '_' }

  /** `\s` in JavaScript: white space and line terminators. */
  predicate IsSpace(c: char) {
    c == ' ' || c == '\t' || c == '\n' || c == '\r' || c == '\U{000B}' || c == '\U{000C}'
    || c == '\U{00A0}' || c == '\U{1680}' || ('\U{2000}' <= c <= '\U{200A}')
    || c == '\U{2028}' || c == '\U{2029}' || c == '\U{202F}' || c == '\U{205F}'
    || c == '\U{3000}' || c == '\U{FEFF}'
  }

  /** `\b` at position i of s (between s[i-1] and s[i]). */
  predicate Boundary(s: string, i: int) {
    0 <= i <= |s| &&
    ((i > 0 && IsWordChar(s[i - 1])) != (i < |s| && IsWordChar(s[i])))
  }

  /** Every character of s[lo..hi] satisfies p. */
  predicate AllIn(s: string, lo: int, hi: int, p: char -> bool) {
    0 <= lo <= hi <= |s| && forall j :: lo <= j < hi ==> p(s[j])
  }

  predicate StartsWithAt(s: string, i: int, w: string) {
    0 <= i && i + |w| <= |s| && s[i..i + |w|] == w
  }

  /** End of the longest run of p-characters starting at i (a greedy `p*`). */
  function Span(s: string, i: nat, p: char -> bool): (e: nat)
    requires i <= |s|
    ensures i <= e <= |s|
    ensures AllIn(s, i, e, p)
    ensures e < |s| ==> !p(s[e])
    decreases |s| - i
  {
    if i < |s| && p(s[i]) then Span(s, i + 1, p) else i
  }

  /** Span is determined by the run: any maximal p-run from i ends where Span says. */
  lemma {:induction false} SpanUnique(s: string, i: nat, e: nat, p: char -> bool)
    requires i <= e <= |s| && AllIn(s, i, e, p) && (e < |s| ==> !p(s[e]))
    ensures Span(s, i, p) == e
    decreases |s| - i
  {
    if i < e {
      SpanUnique(s, i + 1, e, p);
    }
  }

  /**
   * The largest k in [lo, hi] with a word boundary at k: the order in which a
   * greedy quantifier gives characters back while looking for a `\b`.
   */
  function LastBoundary(s: string, lo: int, hi: int): (r: Option<nat>)
    ensures r.Some? ==> lo <= r.value <= hi && Boundary(s, r.value)
    ensures r.Some? ==> forall k :: r.value < k <= hi ==> !Boundary(s, k)
    ensures r.None? ==> forall k :: lo <= k <= hi ==> !Boundary(s, k)
    decreases hi - lo
  {
    if hi < lo then None
    else if Boundary(s, hi) then Some(hi)
    else LastBoundary(s, lo, hi - 1)
  }

  function Repeat(c: char, n: nat): (r: string)
    ensures |r| == n
    ensures forall j :: 0 <= j < n ==> r[j] == c
  {
    if n == 0 then [] else [c] + Repeat(c, n - 1)
  }

  function Stars(n: nat): (r: string)
    ensures |r| == n && forall j :: 0 <= j < n ==> r[j] == '*'
  {
    Repeat('*', n)
  }

  function Min(a: int, b: int): int { if a <= b then a else b }

  /** JavaScript `s.substring(0, n)` (and `a.slice(0, n)`) for n >= 0. */
  function Prefix<T>(s: seq<T>, n: nat): (r: seq<T>)
    ensures |r| == Min(|s|, n) && r == s[..|r|]
  {
    if |s| <= n then s else s[..n]
  }

  /** Does w occur in s (JavaScript `s.includes(w)`)? */
  predicate Contains(s: string, w: string) {
    exists i :: 0 <= i <= |s| - |w| && StartsWithAt(s, i, w)
  }

  function DigitChar(d: nat): (c: char)
    requires d < 10
    ensures IsDigit(c)
  {
    ['0', '1', '2', '3', '4', '5', '6', '7', '8', '9'][d]
  }

  function DigitValue(c: char): (d: nat)
    requires IsDigit(c)
    ensures d < 10
  {
    (c as int - '0' as int) as nat
  }

  lemma DigitRoundTrip(d: nat)
    requires d < 10
    ensures DigitValue(DigitChar(d)) == d
  {
  }

  /** Decimal rendering of a natural number, as JavaScript template literals print it. */
  function NatToString(n: nat): (r: string)
    ensures |r| > 0
    ensures forall j :: 0 <= j < |r| ==> IsDigit(r[j])
    decreases n
  {
    if n < 10 then [DigitChar(n)] else NatToString(n / 10) + [DigitChar(n % 10)]
  }

  /** Value of a string of decimal digits. */
  function DigitsValue(s: string): nat
    requires forall j :: 0 <= j < |s| ==> IsDigit(s[j])
    decreases |s|
  {
    if s == [] then 0 else DigitsValue(s[..|s| - 1]) * 10 + DigitValue(s[|s| - 1])
  }

  /** Reading back what NatToString printed gives the number. */
  lemma {:induction false} NatToStringRoundTrip(n: nat)
    ensures DigitsValue(NatToString(n)) == n
    decreases n
  {
    var r := NatToString(n);
    if n < 10 {
      DigitRoundTrip(n);
    } else {
      NatToStringRoundTrip(n / 10);
      assert r[..|r| - 1] == NatToString(n / 10);
      DigitRoundTrip(n % 10);
    }
  }

  /** [0-9a-fA-F] */
  predicate IsHexDigit(c: char) { IsDigit(c) || 'a' <= c <= 'f' || 'A' <= c <= 'F' }

  function HexValue(c: char): (d: nat)
    requires IsHexDigit(c)
    ensures d < 16
  {
    if IsDigit(c) then DigitValue(c)
    else if 'a' <= c <= 'f' then (c as int - 'a' as int + 10) as nat
    else (c as int - 'A' as int + 10) as nat
  }

  /** Value of a string of hexadecimal digits. */
  function HexDigitsValue(s: string): nat
    requires forall j :: 0 <= j < |s| ==> IsHexDigit(s[j])
    decreases |s|
  {
    if s == [] then 0 else HexDigitsValue(s[..|s| - 1]) * 16 + HexValue(s[|s| - 1])
  }

  /** "0x" or "0X": `parseInt` without a radix then reads hexadecimal. */
  predicate HexPrefix(s: string) { |s| >= 2 && s[0] == '0' && (s[1] == 'x' || s[1] == 'X') }

  /**
   * The unsigned part of `parseInt` without a radix: after a "0x"/"0X" prefix the
   * longest run of hexadecimal digits, otherwise the longest run of decimal
   * digits; what follows the run is ignored, and no digit at all is NaN (None).
   */
  function ParseMagnitude(s: string): (r: Option<nat>)
    ensures r.Some? <==> if HexPrefix(s) then |s| > 2 && IsHexDigit(s[2]) else |s| > 0 && IsDigit(s[0])
  {
    if HexPrefix(s) then
      var e := Span(s, 2, IsHexDigit);
      if e == 2 then None else Some(HexDigitsValue(s[2..e]))
    else
      var e := Span(s, 0, IsDigit);
      if e == 0 then None else Some(DigitsValue(s[..e]))
  }

  /** An optional sign before the magnitude; '-' negates it. */
  function ParseSigned(s: string): Option<int> {
    if |s| > 0 && (s[0] == '-' || s[0] == '+') then
      match ParseMagnitude(s[1..])
      case None => None
      case Some(n) => Some(if s[0] == '-' then -(n as int) else n as int)
    else
      match ParseMagnitude(s)
      case None => None
      case Some(n) => Some(n)
  }

  /** JavaScript `parseInt(s)` with no radix: leading `\s` is skipped. */
  function ParseInt(s: string): Option<int> {
    ParseSigned(s[TrimStartIndex(s)..])
  }

  /** A string of decimal digits is read whole, in base ten. */
  lemma ParseIntOfDigits(d: string)
    requires |d| > 0 && forall j :: 0 <= j < |d| ==> IsDigit(d[j])
    ensures ParseInt(d) == Some(DigitsValue(d))
  {
    SpanUnique(d, 0, 0, IsSpace);
    assert d[0..] == d;
    SpanUnique(d, 0, |d|, IsDigit);
    assert d[..|d|] == d;
  }

  /** After "0x" a string of hexadecimal digits is read whole, in base sixteen. */
  lemma ParseIntOfHex(x: char, h: string)
    requires x == 'x' || x == 'X'
    requires |h| > 0 && forall j :: 0 <= j < |h| ==> IsHexDigit(h[j])
    ensures ParseInt(['0', x] + h) == Some(HexDigitsValue(h))
  {
    var s := ['0', x] + h;
    assert s[2..] == h;
    HexMagnitude(s);
    SpanUnique(s, 0, 0, IsSpace);
    assert s[0..] == s;
  }

  lemma HexMagnitude(s: string)
    requires HexPrefix(s) && |s| > 2 && AllIn(s, 2, |s|, IsHexDigit)
    ensures ParseMagnitude(s) == Some(HexDigitsValue(s[2..]))
  {
    SpanUnique(s, 2, |s|, IsHexDigit);
    assert s[2..|s|] == s[2..];
  }

  /** A leading '-' negates what follows, NaN staying NaN. */
  lemma ParseIntNegated(s: string)
    requires |s| > 0 && !IsSpace(s[0]) && s[0] != '-' && s[0] != '+'
    ensures ParseInt("-" + s) == match ParseInt(s) case None => None case Some(n) => Some(-n)
  {
    var m := "-" + s;
    SpanUnique(m, 0, 0, IsSpace);
    SpanUnique(s, 0, 0, IsSpace);
    assert m[0..] == m && s[0..] == s && m[1..] == s;
  }

  /** `parseInt("0x1f")` is 31 and `parseInt("-0x1f")` is -31. */
  lemma ParseIntHexExample()
    ensures ParseInt("0x1f") == Some(31) && ParseInt("-0x1f") == Some(-31)
  {
    ParseIntOfHex('x', "1f");
    assert ['0', 'x'] + "1f" == "0x1f";
    assert HexDigitsValue("1f") == 31 by {
      assert "1f"[..1] == "1" && "1"[..0] == "";
    }
    ParseIntNegated("0x1f");
    assert "-" + "0x1f" == "-0x1f";
  }

  /** A "0x" prefix with no hexadecimal digit after it is NaN, though "0" alone is a number. */
  lemma ParseIntBareHexPrefix()
    ensures ParseInt("0x") == None && ParseInt("0X") == None
  {
    SpanUnique("0x", 0, 0, IsSpace);
    assert "0x"[0..] == "0x";
    SpanUnique("0X", 0, 0, IsSpace);
    assert "0X"[0..] == "0X";
  }

  /** The first character that is not a digit ends a decimal number. */
  lemma ParseIntStopsAtLetter()
    ensures ParseInt("12abc") == Some(12)
  {
    var t := "12abc";
    SpanUnique(t, 0, 0, IsSpace);
    assert t[0..] == t;
    SpanUnique(t, 0, 2, IsDigit);
    assert t[..2] == "12" && "12"[..1] == "1" && "1"[..0] == "";
  }

  /** parseInt reads back any number printed in decimal. */
  lemma ParseIntOfNat(n: nat)
    ensures ParseInt(NatToString(n)) == Some(n)
  {
    ParseIntOfDigits(NatToString(n));
    NatToStringRoundTrip(n);
  }

  /** JavaScript `trim`: drop leading and trailing `\s` characters. */
  function TrimStartIndex(s: string): (a: nat)
    ensures a <= |s| && AllIn(s, 0, a, IsSpace) && (a < |s| ==> !IsSpace(s[a]))
  {
    Span(s, 0, IsSpace)
  }

  function TrimEndIndex(s: string, a: nat): (b: nat)
    requires a <= |s|
    ensures a <= b <= |s| && AllIn(s, b, |s|, IsSpace) && (b > a ==> !IsSpace(s[b - 1]))
    decreases |s|
  {
    if |s| > a && IsSpace(s[|s| - 1]) then
      var b := TrimEndIndex(s[..|s| - 1], a);
      assert forall j :: b <= j < |s| - 1 ==> s[..|s| - 1][j] == s[j];
      b
    else |s|
  }

  function Trim(s: string): (r: string)
    ensures |r| == 0 || (!IsSpace(r[0]) && !IsSpace(r[|r| - 1]))
    ensures exists a, b :: 0 <= a <= b <= |s| && AllIn(s, 0, a, IsSpace) && AllIn(s, b, |s|, IsSpace) && r == s[a..b]
  {
    var a := TrimStartIndex(s);
    var b := TrimEndIndex(s, a);
    s[a..b]
  }

  // ---------------------------------------------------------------------------
  // Short ids cut from a UUID (client/src/App.js:78, routes/chat.js:85)

  /** `s.replace(/-/g, '')` */
  function RemoveDashes(s: string): (r: string)
    ensures |r| <= |s| && forall j :: 0 <= j < |r| ==> r[j] != '-'
    ensures forall c :: c in r ==> c in s
  {
    if s == [] then []
    else (if s[0] == '-' then [] else [s[0]]) + RemoveDashes(s[1..])
  }

  /** Dashes aside, nothing is dropped, added or reordered. */
  lemma {:induction false} RemoveDashesKeeps(s: string)
    requires forall j :: 0 <= j < |s| ==> s[j] != '-'
    ensures RemoveDashes(s) == s
  {
    if s != [] {
      RemoveDashesKeeps(s[1..]);
    }
  }

  lemma {:induction false} RemoveDashesConcat(a: string, b: string)
    ensures RemoveDashes(a + b) == RemoveDashes(a) + RemoveDashes(b)
  {
    if a != [] {
      var h := if a[0] == '-' then [] else [a[0]];
      assert (a + b)[0] == a[0] && (a + b)[1..] == a[1..] + b;
      assert RemoveDashes(a + b) == h + RemoveDashes(a[1..] + b);
      RemoveDashesConcat(a[1..], b);
      assert RemoveDashes(a) == h + RemoveDashes(a[1..]);
    } else {
      assert a + b == b;
    }
  }

  /** `uuid.replace(/-/g, '').substring(0, 8)` */
  function ShortUuid(uuid: string): (r: string)
    ensures |r| <= 8 && forall j :: 0 <= j < |r| ==> r[j] != '-'
  {
    Prefix(RemoveDashes(uuid), 8)
  }

  /** For a UUID in its usual form the short id is its first block of eight characters. */
  lemma ShortUuidOfCanonical(uuid: string)
    requires |uuid| >= 8 && forall j :: 0 <= j < 8 ==> uuid[j] != '-'
    ensures ShortUuid(uuid) == uuid[..8]
  {
    assert uuid == uuid[..8] + uuid[8..];
    RemoveDashesConcat(uuid[..8], uuid[8..]);
    RemoveDashesKeeps(uuid[..8]);
  }
}
