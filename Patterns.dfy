/**
 * The regular expressions of the redaction engine (utils/privacyUtils.js,
 * client/src/App.js) and of the answer formatter (routes/chat.js), each one
 * matched by hand, and JavaScript's `String.prototype.replace` with a global
 * regular expression as the scan ReplaceAll.
 *
 * A matcher answers: does the pattern match at position i of s, and if so,
 * where does the match end and what replaces it.  Greedy quantifiers and
 * alternations are resolved in the order a backtracking engine tries them;
 * the completeness lemmas below show that nothing the declarative reading of
 * a pattern admits is missed.
 */
module Patterns {
  import opened Text

  datatype Hit = Hit(end: nat, replacement: string)

  datatype Pattern =
      // names (utils/privacyUtils.js:14-22, in array order)
    | FullName | Honorific | TitledName | Respectful | Initialed
      // e-mail (utils/privacyUtils.js:59)
    | Email
      // phones (utils/privacyUtils.js:80-84)
    | MobilePhone | IntlPhone | BarePhone
      // national identity number (utils/privacyUtils.js:116)
    | Tckn
      // addresses (utils/privacyUtils.js:134-138)
    | StreetName | DoorNumber | PostalCode
      // answer formatting (routes/chat.js:102-114): c{3,} -> cc, lone '*', headings
    | Collapse(c: char) | LoneStar | NumberedHeading | CapsHeading

  // ---------------------------------------------------------------------------
  // Character classes of the patterns

  /** [A-ZÇĞIİÖŞÜ] */
  predicate IsNameUpper(c: char) {
    IsAsciiUpper(c) || c == 'Ç' || c == 'Ğ' || c == 'İ' || c == 'Ö' || c == 'Ş' || c == 'Ü'
  }

  /** [a-zçğıiöşü] */
  predicate IsNameLower(c: char) {
    IsAsciiLower(c) || c == 'ç' || c == 'ğ' || c == 'ı' || c == 'ö' || c == 'ş' || c == 'ü'
  }

  /** [a-zA-Z0-9._%+-] */
  predicate IsLocalChar(c: char) {
    IsAsciiAlnum(c) || c == '.' || c == '_' || c == '%' || c == '+' || c == '-'
  }

  /** [a-zA-Z0-9.-] */
  predicate IsDomainChar(c: char) { IsAsciiAlnum(c) || c == '.' || c == '-' }

  /** [A-ZĞÜŞİÖÇ\s] */
  predicate IsHeadingChar(c: char) {
    IsAsciiUpper(c) || c == 'Ğ' || c == 'Ü' || c == 'Ş' || c == 'İ' || c == 'Ö' || c == 'Ç' || IsSpace(c)
  }

  predicate DigitsAt(s: string, k: int, n: nat) { AllIn(s, k, k + n, IsDigit) }

  /** Number of consecutive c characters from position i. */
  function RunFrom(s: string, i: nat, c: char): (n: nat)
    requires i <= |s|
    ensures i + n <= |s|
    ensures forall j :: i <= j < i + n ==> s[j] == c
    ensures i + n < |s| ==> s[i + n] != c
    decreases |s| - i
  {
    if i < |s| && s[i] == c then 1 + RunFrom(s, i + 1, c) else 0
  }

  lemma {:induction false} SpanCovers(s: string, i: nat, e: nat, p: char -> bool)
    requires AllIn(s, i, e, p)
    ensures Span(s, i, p) >= e
    decreases |s| - i
  {
    if i < e {
      SpanCovers(s, i + 1, e, p);
    }
  }

  // ---------------------------------------------------------------------------
  // Name words: [A-ZÇĞIİÖŞÜ][a-zçğıiöşü]+

  /**
   * A capitalised word at b that must be followed by \b: the lower-case run gives
   * characters back until a boundary is found (largest end first).
   */
  function LastWord(s: string, b: nat): (r: Option<nat>)
    ensures r.Some? ==> b + 2 <= r.value <= |s| && IsNameUpper(s[b])
                        && AllIn(s, b + 1, r.value, IsNameLower) && Boundary(s, r.value)
  {
    if b < |s| && IsNameUpper(s[b]) then
      var e := Span(s, b + 1, IsNameLower);
      LastBoundary(s, b + 2, e)
    else None
  }

  /** Any end the pattern admits is found, and the one found is the largest. */
  lemma LastWordComplete(s: string, b: nat, e: nat)
    requires b < |s| && IsNameUpper(s[b]) && b + 2 <= e <= |s|
    requires AllIn(s, b + 1, e, IsNameLower) && Boundary(s, e)
    ensures LastWord(s, b).Some? && e <= LastWord(s, b).value
  {
    SpanCovers(s, b + 1, e, IsNameLower);
  }

  datatype NamePair = NamePair(firstEnd: nat, secondStart: nat, end: nat)

  /** s[j..e] reads `U L+ \s+ U L+` followed by \b, the second word starting at b. */
  ghost predicate TwoNamesAt(s: string, j: nat, a: nat, b: nat, e: nat) {
    j + 2 <= a < b && b + 2 <= e <= |s|
    && IsNameUpper(s[j]) && AllIn(s, j + 1, a, IsNameLower)
    && AllIn(s, a, b, IsSpace)
    && IsNameUpper(s[b]) && AllIn(s, b + 1, e, IsNameLower) && Boundary(s, e)
  }

  /** `([A-ZÇĞIİÖŞÜ][a-zçğıiöşü]+)\s+([A-ZÇĞIİÖŞÜ][a-zçğıiöşü]+)\b` from j. */
  function TwoNames(s: string, j: nat): (r: Option<NamePair>)
    ensures r.Some? ==> TwoNamesAt(s, j, r.value.firstEnd, r.value.secondStart, r.value.end)
  {
    if j < |s| && IsNameUpper(s[j]) then
      var a := Span(s, j + 1, IsNameLower);
      if a == j + 1 then None
      else
        var b := Span(s, a, IsSpace);
        if b == a then None
        else
          match LastWord(s, b)
          case None => None
          case Some(e) => Some(NamePair(a, b, e))
    else None
  }

  lemma TwoNamesComplete(s: string, j: nat, a: nat, b: nat, e: nat)
    requires TwoNamesAt(s, j, a, b, e)
    ensures TwoNames(s, j).Some?
    ensures TwoNames(s, j).value.firstEnd == a && TwoNames(s, j).value.secondStart == b
    ensures e <= TwoNames(s, j).value.end
  {
    SpanUnique(s, j + 1, a, IsNameLower);
    SpanUnique(s, a, b, IsSpace);
    LastWordComplete(s, b, e);
  }

  lemma TwoNamesCompleteAll(s: string, j: nat)
    ensures forall a: nat, b: nat, e: nat :: TwoNamesAt(s, j, a, b, e) ==>
      TwoNames(s, j).Some? && TwoNames(s, j).value.secondStart == b && e <= TwoNames(s, j).value.end
  {
    forall a: nat, b: nat, e: nat | TwoNamesAt(s, j, a, b, e)
      ensures TwoNames(s, j).Some? && TwoNames(s, j).value.secondStart == b && e <= TwoNames(s, j).value.end
    {
      TwoNamesComplete(s, j, a, b, e);
    }
  }

  // ---------------------------------------------------------------------------
  // Alternations `(w1|w2|...)`: when no two alternatives can match at the same
  // place, the order in which a backtracking engine tries them does not matter

  /** x and y disagree at a position both have: they cannot both be read at one place. */
  predicate Differ(x: string, y: string)
    decreases |x|
  {
    |x| > 0 && |y| > 0 && (x[0] != y[0] || Differ(x[1..], y[1..]))
  }

  /** x ends in a word character where y goes on with one: where y is read, no `\b` follows x. */
  predicate Overruns(x: string, y: string) {
    0 < |x| < |y| && IsWordChar(x[|x| - 1]) && IsWordChar(y[|x|])
  }

  /** x and y cannot both be read at one place and each followed by `\b`. */
  predicate Apart(x: string, y: string) { Differ(x, y) || Overruns(x, y) || Overruns(y, x) }

  predicate PairwiseDiffer(ws: seq<string>) {
    forall m, n :: 0 <= m < n < |ws| ==> Differ(ws[m], ws[n])
  }

  predicate PairwiseApart(ws: seq<string>) {
    forall m, n :: 0 <= m < n < |ws| ==> Apart(ws[m], ws[n])
  }

  /** Keywords that exclude one another and begin with a capital (so never with white space). */
  predicate Keywords(ws: seq<string>) {
    PairwiseApart(ws) && forall n :: 0 <= n < |ws| ==> |ws[n]| > 0 && IsAsciiUpper(ws[n][0])
  }

  lemma {:induction false} DifferExcludes(s: string, b: nat, x: string, y: string)
    requires Differ(x, y)
    ensures !(StartsWithAt(s, b, x) && StartsWithAt(s, b, y))
    decreases |x|
  {
    if StartsWithAt(s, b, x) && StartsWithAt(s, b, y) {
      assert s[b] == s[b..b + |x|][0] == x[0] && s[b] == s[b..b + |y|][0] == y[0];
      assert s[b + 1..b + |x|] == s[b..b + |x|][1..];
      assert s[b + 1..b + |y|] == s[b..b + |y|][1..];
      DifferExcludes(s, b + 1, x[1..], y[1..]);
    }
  }

  lemma ApartExcludes(s: string, b: nat, x: string, y: string)
    requires Apart(x, y) && StartsWithAt(s, b, x) && StartsWithAt(s, b, y)
    ensures !(Boundary(s, b + |x|) && Boundary(s, b + |y|))
  {
    if Differ(x, y) {
      DifferExcludes(s, b, x, y);
    } else if Overruns(x, y) {
      assert s[b + |x| - 1] == s[b..b + |y|][|x| - 1] == x[|x| - 1];
      assert s[b + |x|] == s[b..b + |y|][|x|] == y[|x|];
    } else {
      assert s[b + |y| - 1] == s[b..b + |x|][|y| - 1] == y[|y| - 1];
      assert s[b + |y|] == s[b..b + |x|][|y|] == x[|y|];
    }
  }

  /** The first alternative w of ws found at b and followed by \b. */
  function FirstWord(s: string, b: nat, ws: seq<string>): (r: Option<string>)
    ensures r.Some? ==> r.value in ws && StartsWithAt(s, b, r.value) && Boundary(s, b + |r.value|)
  {
    if ws == [] then None
    else if StartsWithAt(s, b, ws[0]) && Boundary(s, b + |ws[0]|) then Some(ws[0])
    else FirstWord(s, b, ws[1..])
  }

  /** Among alternatives that exclude one another, whichever can be read at b is the one found. */
  lemma {:induction false} FirstWordFinds(s: string, b: nat, ws: seq<string>, n: nat)
    requires PairwiseApart(ws) && n < |ws| && StartsWithAt(s, b, ws[n]) && Boundary(s, b + |ws[n]|)
    ensures FirstWord(s, b, ws) == Some(ws[n])
    decreases |ws|
  {
    if StartsWithAt(s, b, ws[0]) && Boundary(s, b + |ws[0]|) {
      if n > 0 {
        ApartExcludes(s, b, ws[0], ws[n]);
      }
    } else {
      var rest := ws[1..];
      forall m, k | 0 <= m < k < |rest| ensures Apart(rest[m], rest[k]) {
        assert rest[m] == ws[m + 1] && rest[k] == ws[k + 1];
      }
      assert rest[n - 1] == ws[n];
      FirstWordFinds(s, b, rest, n - 1);
    }
  }

  // ---------------------------------------------------------------------------
  // The five name patterns

  /**
   * `\b(U L+)\s+(U L+)\b` replaced by `F*** S****`: first letters kept, fixed
   * widths of three and four asterisks whatever the lengths of the words; the
   * match found is the one a backtracking engine returns (the longest).
   */
  function MatchFullName(s: string, i: nat): (r: Option<Hit>)
    ensures r.Some? ==> exists a: nat, b: nat :: Boundary(s, i) && TwoNamesAt(s, i, a, b, r.value.end)
                          && r.value.replacement == [s[i]] + "*** " + [s[b]] + "****"
    ensures r.Some? ==> forall a: nat, b: nat, e: nat :: Boundary(s, i) && TwoNamesAt(s, i, a, b, e) ==> e <= r.value.end
    ensures r.None? ==> forall a: nat, b: nat, e: nat :: !(Boundary(s, i) && TwoNamesAt(s, i, a, b, e))
  {
    TwoNamesCompleteAll(s, i);
    if !Boundary(s, i) then None
    else
      match TwoNames(s, i)
      case None => None
      case Some(t) => Some(Hit(t.end, [s[i]] + "*** " + [s[t.secondStart]] + "****"))
  }

  /** MatchFullName replaces what TwoNames reads, at a boundary. */
  lemma MatchFullNameOfTwoNames(s: string, i: nat)
    requires Boundary(s, i) && TwoNames(s, i).Some?
    ensures var t := TwoNames(s, i).value;
            MatchFullName(s, i) == Some(Hit(t.end, [s[i]] + "*** " + [s[t.secondStart]] + "****"))
  {
  }

  const Honorifics: seq<string> := ["Bey", "Hanım", "Efendi"]

  lemma HonorificsAreKeywords()
    ensures Keywords(Honorifics)
  {
  }

  /** `\b(U L+)\s+w\b` read at i: the capitalised word ends at a, the keyword w starts at b. */
  ghost predicate KeywordAt(s: string, i: nat, a: nat, b: nat, w: string) {
    Boundary(s, i) && i < |s| && IsNameUpper(s[i]) && i + 2 <= a < b
    && AllIn(s, i + 1, a, IsNameLower) && AllIn(s, a, b, IsSpace)
    && StartsWithAt(s, b, w) && Boundary(s, b + |w|)
  }

  /**
   * `\b(U L+)\s+(W1|W2|...)\b` from i: a capitalised word, white space, and the
   * first alternative that is followed by a boundary.  Gives the start of the
   * alternative and the alternative.
   */
  function WordThenKeyword(s: string, i: nat, ws: seq<string>): (r: Option<(nat, string)>)
    ensures r.Some? ==> i < |s| && r.value.1 in ws
                        && KeywordAt(s, i, Span(s, i + 1, IsNameLower), r.value.0, r.value.1)
  {
    if !Boundary(s, i) || i >= |s| || !IsNameUpper(s[i]) then None
    else
      var a := Span(s, i + 1, IsNameLower);
      if a == i + 1 then None
      else
        var b := Span(s, a, IsSpace);
        if b == a then None
        else
          match FirstWord(s, b, ws)
          case None => None
          case Some(w) => Some((b, w))
  }

  /**
   * Every reading of the pattern is found: the word and the white space can only
   * be read whole, and the keywords exclude one another.
   */
  lemma WordThenKeywordFinds(s: string, i: nat, a: nat, b: nat, w: string, ws: seq<string>)
    requires Keywords(ws) && w in ws && KeywordAt(s, i, a, b, w)
    ensures WordThenKeyword(s, i, ws) == Some((b, w))
  {
    var n :| 0 <= n < |ws| && ws[n] == w;
    assert IsSpace(s[a]);
    SpanUnique(s, i + 1, a, IsNameLower);
    assert s[b] == s[b..b + |w|][0] == w[0];
    SpanUnique(s, a, b, IsSpace);
    FirstWordFinds(s, b, ws, n);
  }

  /**
   * `\b(U L+)\s+(W1|W2|...)\b` replaced by `F*** ` and the keyword: the honorific
   * pattern (utils/privacyUtils.js:16) and the street pattern (utils/privacyUtils.js:136).
   */
  function MatchKeyword(s: string, i: nat, ws: seq<string>): (r: Option<Hit>)
    ensures r.Some? ==> i < r.value.end <= |s| && i < |s| && IsNameUpper(s[i])
  {
    match WordThenKeyword(s, i, ws)
    case None => None
    case Some((b, w)) =>
      Some(Hit(b + |w|, [s[i]] + "*** " + w))
  }

  /** A match is a capitalised word and a keyword: the word is masked, the keyword kept. */
  lemma MatchKeywordSound(s: string, i: nat, ws: seq<string>)
    requires MatchKeyword(s, i, ws).Some?
    ensures exists a: nat, b: nat, w :: w in ws && KeywordAt(s, i, a, b, w)
              && MatchKeyword(s, i, ws).value == Hit(b + |w|, [s[i]] + "*** " + w)
  {
    var (b, w) := WordThenKeyword(s, i, ws).value;
    assert KeywordAt(s, i, Span(s, i + 1, IsNameLower), b, w);
  }

  /** Every capitalised word followed by one of the keywords (and a boundary) is masked. */
  lemma MatchKeywordComplete(s: string, i: nat, a: nat, b: nat, w: string, ws: seq<string>)
    requires Keywords(ws) && w in ws && KeywordAt(s, i, a, b, w)
    ensures MatchKeyword(s, i, ws) == Some(Hit(b + |w|, [s[i]] + "*** " + w))
  {
    WordThenKeywordFinds(s, i, a, b, w, ws);
  }

  const Titles: seq<string> := ["Av.", "Dr.", "Prof.", "Doç.", "Yrd. Doç."]
  const Addresses: seq<string> := ["Sayın", "Değerli"]

  /** No two titles, and no two forms of address, can be read at the same place. */
  lemma TitlesDiffer()
    ensures PairwiseDiffer(Titles) && PairwiseDiffer(Addresses)
  {
  }

  /** `\b(t)\s+(U L+)\s+(U L+)\b` read at i with the title t, the names read from j as TwoNamesAt says. */
  ghost predicate TitledAt(s: string, i: nat, t: string, j: nat, a: nat, b: nat, e: nat) {
    Boundary(s, i) && StartsWithAt(s, i, t) && i + |t| < j && AllIn(s, i + |t|, j, IsSpace)
    && TwoNamesAt(s, j, a, b, e)
  }

  /**
   * `\b(T1|T2|...)\s+(U L+)\s+(U L+)\b`: the alternatives are tried in order and
   * the first one for which the rest of the pattern matches wins.
   */
  function PrefixedNames(s: string, i: nat, ts: seq<string>): (r: Option<(string, nat, NamePair)>)
    ensures r.Some? ==> r.value.0 in ts && StartsWithAt(s, i, r.value.0)
                        && i + |r.value.0| < r.value.1 <= |s| && AllIn(s, i + |r.value.0|, r.value.1, IsSpace)
                        && TwoNamesAt(s, r.value.1, r.value.2.firstEnd, r.value.2.secondStart, r.value.2.end)
  {
    if ts == [] then None
    else
      var t := ts[0];
      var rest := PrefixedNames(s, i, ts[1..]);
      if StartsWithAt(s, i, t) then
        var j := Span(s, i + |t|, IsSpace);
        if j == i + |t| then rest
        else
          match TwoNames(s, j)
          case Some(p) => Some((t, j, p))
          case None => rest
      else rest
  }

  /** When the titles exclude one another, the one that can be read is the one found. */
  lemma {:induction false} PrefixedNamesFinds(s: string, i: nat, ts: seq<string>, n: nat, j: nat, a: nat, b: nat, e: nat)
    requires PairwiseDiffer(ts) && n < |ts|
    requires StartsWithAt(s, i, ts[n]) && i + |ts[n]| < j && AllIn(s, i + |ts[n]|, j, IsSpace) && TwoNamesAt(s, j, a, b, e)
    ensures TwoNames(s, j).Some? && PrefixedNames(s, i, ts) == Some((ts[n], j, TwoNames(s, j).value))
    decreases |ts|
  {
    if n == 0 {
      assert !IsSpace(s[j]);
      SpanUnique(s, i + |ts[0]|, j, IsSpace);
      TwoNamesComplete(s, j, a, b, e);
    } else {
      DifferExcludes(s, i, ts[0], ts[n]);
      var rest := ts[1..];
      forall m, k | 0 <= m < k < |rest| ensures Differ(rest[m], rest[k]) {
        assert rest[m] == ts[m + 1] && rest[k] == ts[k + 1];
      }
      assert rest[n - 1] == ts[n];
      PrefixedNamesFinds(s, i, rest, n - 1, j, a, b, e);
    }
  }

  /**
   * `\b(Av\.|Dr\.|Prof\.|Doç\.|Yrd\. Doç\.)\s+(U L+)\s+(U L+)\b` -> `T F*** S****`,
   * and the same with `Sayın|Değerli`.
   */
  function MatchTitledName(s: string, i: nat, ts: seq<string>): (r: Option<Hit>)
    ensures r.Some? ==> Boundary(s, i) && i < r.value.end <= |s|
  {
    if !Boundary(s, i) then None
    else
      match PrefixedNames(s, i, ts)
      case None => None
      case Some((t, j, p)) => Some(Hit(p.end, t + " " + [s[j]] + "*** " + [s[p.secondStart]] + "****"))
  }

  /** A match is a title and two names: the title is kept, each name reduced to its initial. */
  lemma MatchTitledNameSound(s: string, i: nat, ts: seq<string>)
    requires MatchTitledName(s, i, ts).Some?
    ensures exists t, j: nat, a: nat, b: nat :: t in ts && TitledAt(s, i, t, j, a, b, MatchTitledName(s, i, ts).value.end)
              && MatchTitledName(s, i, ts).value.replacement == t + " " + [s[j]] + "*** " + [s[b]] + "****"
  {
    var (t, j, p) := PrefixedNames(s, i, ts).value;
    assert TitledAt(s, i, t, j, p.firstEnd, p.secondStart, p.end);
  }

  /** Every title followed by two names is masked, the surname read as far as a boundary allows. */
  lemma MatchTitledNameComplete(s: string, i: nat, ts: seq<string>, t: string, j: nat, a: nat, b: nat, e: nat)
    requires PairwiseDiffer(ts) && t in ts && TitledAt(s, i, t, j, a, b, e)
    ensures MatchTitledName(s, i, ts).Some? && e <= MatchTitledName(s, i, ts).value.end
    ensures MatchTitledName(s, i, ts).value.replacement == t + " " + [s[j]] + "*** " + [s[b]] + "****"
  {
    var n :| 0 <= n < |ts| && ts[n] == t;
    PrefixedNamesFinds(s, i, ts, n, j, a, b, e);
    TwoNamesComplete(s, j, a, b, e);
  }

  /** `\b([A-ZÇĞIİÖŞÜ])\.\s+(U L+)\b` read at i, the surname from b to e. */
  ghost predicate InitialedAt(s: string, i: nat, b: nat, e: nat) {
    Boundary(s, i) && i + 1 < |s| && IsNameUpper(s[i]) && s[i + 1] == '.'
    && i + 2 < b && AllIn(s, i + 2, b, IsSpace)
    && b + 2 <= e <= |s| && IsNameUpper(s[b]) && AllIn(s, b + 1, e, IsNameLower) && Boundary(s, e)
  }

  /** `\b([A-ZÇĞIİÖŞÜ])\.\s+(U L+)\b` replaced by `X. S****`. */
  function MatchInitialed(s: string, i: nat): (r: Option<Hit>)
    ensures r.Some? ==> Boundary(s, i) && i + 1 < |s| && IsNameUpper(s[i]) && s[i + 1] == '.'
    ensures r.Some? ==> i < r.value.end <= |s|
  {
    if !Boundary(s, i) || i + 1 >= |s| || !IsNameUpper(s[i]) || s[i + 1] != '.' then None
    else
      var b := Span(s, i + 2, IsSpace);
      if b == i + 2 then None
      else
        match LastWord(s, b)
        case None => None
        case Some(e) => Some(Hit(e, [s[i]] + ". " + [s[b]] + "****"))
  }

  /** A match is an initial and a surname: the initial is kept, the surname reduced to its first letter. */
  lemma MatchInitialedSound(s: string, i: nat)
    requires MatchInitialed(s, i).Some?
    ensures exists b: nat :: InitialedAt(s, i, b, MatchInitialed(s, i).value.end)
              && MatchInitialed(s, i).value.replacement == [s[i]] + ". " + [s[b]] + "****"
  {
    assert InitialedAt(s, i, Span(s, i + 2, IsSpace), MatchInitialed(s, i).value.end);
  }

  /** Every initial followed by a surname is masked, the surname read as far as a boundary allows. */
  lemma MatchInitialedComplete(s: string, i: nat, b: nat, e: nat)
    requires InitialedAt(s, i, b, e)
    ensures MatchInitialed(s, i).Some? && e <= MatchInitialed(s, i).value.end
    ensures MatchInitialed(s, i).value.replacement == [s[i]] + ". " + [s[b]] + "****"
  {
    assert !IsSpace(s[b]);
    SpanUnique(s, i + 2, b, IsSpace);
    LastWordComplete(s, b, e);
  }

  // ---------------------------------------------------------------------------
  // E-mail: \b([a-zA-Z0-9._%+-]+)@([a-zA-Z0-9.-]+\.[a-zA-Z]{2,})\b

  /**
   * s[i..e] is an address: user part s[i..at], '@', domain s[at+1..e] whose last
   * '.' before the final letters is at p.
   */
  ghost predicate EmailAt(s: string, i: nat, at: nat, p: nat, e: nat) {
    Boundary(s, i) && i < at && AllIn(s, i, at, IsLocalChar) && at < |s| && s[at] == '@'
    && at + 2 <= p && AllIn(s, at + 1, p, IsDomainChar) && p < |s| && s[p] == '.'
    && p + 3 <= e && AllIn(s, p + 1, e, IsAsciiLetter) && Boundary(s, e)
  }

  /**
   * The greedy domain part: the last '.' at or before q (q going down) after which
   * two or more letters end at a word boundary; the end given back is the largest.
   */
  function DomainEnd(s: string, at: nat, q: int): (r: Option<(nat, nat)>)
    requires q < |s| && AllIn(s, at + 1, q + 1, IsDomainChar)
    ensures r.Some? ==> at + 2 <= r.value.0 <= q && s[r.value.0] == '.'
                        && r.value.0 + 3 <= r.value.1 && AllIn(s, r.value.0 + 1, r.value.1, IsAsciiLetter)
                        && Boundary(s, r.value.1)
    decreases q
  {
    if q < at + 2 then None
    else if s[q] == '.' then
      match LastBoundary(s, q + 3, Span(s, q + 1, IsAsciiLetter))
      case Some(e) => Some((q, e))
      case None => DomainEnd(s, at, q - 1)
    else DomainEnd(s, at, q - 1)
  }

  lemma {:induction false} DomainEndComplete(s: string, at: nat, q: int, p: nat, e: nat)
    requires q < |s| && AllIn(s, at + 1, q + 1, IsDomainChar)
    requires at + 2 <= p <= q && s[p] == '.' && p + 3 <= e && AllIn(s, p + 1, e, IsAsciiLetter) && Boundary(s, e)
    ensures DomainEnd(s, at, q).Some? && e <= DomainEnd(s, at, q).value.1
    decreases q
  {
    if q == p {
      SpanCovers(s, p + 1, e, IsAsciiLetter);
    } else if s[q] == '.' && LastBoundary(s, q + 3, Span(s, q + 1, IsAsciiLetter)).Some? {
    } else {
      DomainEndComplete(s, at, q - 1, p, e);
    }
  }

  /** The user part kept with its first and last characters, the rest hidden. */
  function MaskUser(u: string): (m: string)
    requires |u| > 0
    ensures |u| > 2 ==> |m| == |u| && m[0] == u[0] && m[|m| - 1] == u[|u| - 1]
    ensures |u| > 2 ==> forall j :: 0 < j < |m| - 1 ==> m[j] == '*'
    ensures |u| <= 2 ==> m == [u[0], '*']
  {
    if |u| > 2 then [u[0]] + Stars(|u| - 2) + [u[|u| - 1]] else [u[0]] + "*"
  }

  /** Where the address at i splits: the '@', the last '.' of the domain and the end. */
  function EmailParts(s: string, i: nat): (r: Option<(nat, nat, nat)>)
    requires i <= |s|
    ensures r.Some? ==> EmailAt(s, i, r.value.0, r.value.1, r.value.2)
  {
    var at := Span(s, i, IsLocalChar);
    if !Boundary(s, i) || at == i || at == |s| || s[at] != '@' then None
    else
      var d := Span(s, at + 1, IsDomainChar);
      if d == at + 1 then None
      else
        match DomainEnd(s, at, d - 1)
        case None => None
        case Some((p, e)) => Some((at, p, e))
  }

  /** An address is replaced by its masked user part and its domain unchanged. */
  function MatchEmail(s: string, i: nat): (r: Option<Hit>)
    requires i <= |s|
    ensures r.Some? ==> i < r.value.end <= |s|
  {
    match EmailParts(s, i)
    case None => None
    case Some((at, p, e)) => Some(Hit(e, MaskUser(s[i..at]) + "@" + s[at + 1..e]))
  }

  /** A match is an address: its user part is masked and its domain kept. */
  lemma MatchEmailSound(s: string, i: nat)
    requires i <= |s| && MatchEmail(s, i).Some?
    ensures exists at: nat, p: nat :: EmailAt(s, i, at, p, MatchEmail(s, i).value.end)
              && MatchEmail(s, i).value.replacement == MaskUser(s[i..at]) + "@" + s[at + 1..MatchEmail(s, i).value.end]
  {
    var (at, p, e) := EmailParts(s, i).value;
    assert EmailAt(s, i, at, p, e);
  }

  /** Every address the pattern admits at i is found, and the longest domain wins. */
  lemma MatchEmailComplete(s: string, i: nat, at: nat, p: nat, e: nat)
    requires EmailAt(s, i, at, p, e)
    ensures MatchEmail(s, i).Some? && e <= MatchEmail(s, i).value.end
    ensures MatchEmail(s, i).value.replacement == MaskUser(s[i..at]) + "@" + s[at + 1..MatchEmail(s, i).value.end]
  {
    EmailPartsComplete(s, i, at, p, e);
    MatchEmailOfParts(s, i);
  }

  lemma MatchEmailOfParts(s: string, i: nat)
    requires i <= |s| && EmailParts(s, i).Some?
    ensures var (at, _, e) := EmailParts(s, i).value;
            MatchEmail(s, i) == Some(Hit(e, MaskUser(s[i..at]) + "@" + s[at + 1..e]))
  {
  }

  lemma EmailPartsComplete(s: string, i: nat, at: nat, p: nat, e: nat)
    requires EmailAt(s, i, at, p, e)
    ensures EmailParts(s, i).Some? && EmailParts(s, i).value.0 == at && e <= EmailParts(s, i).value.2
  {
    SpanUnique(s, i, at, IsLocalChar);
    var d := Span(s, at + 1, IsDomainChar);
    SpanCovers(s, at + 1, p + 1, IsDomainChar);
    DomainEndComplete(s, at, d - 1, p, e);
  }

  // ---------------------------------------------------------------------------
  // Phones, identity numbers, postal codes: digit groups separated by \s*

  /**
   * A phone number read from k: a group of `first` digits, then groups of 3, 2
   * and 2 digits starting at b, c and d, with only white space between groups,
   * then \b.
   */
  ghost predicate PhoneAt(s: string, k: nat, first: nat, b: nat, c: nat, d: nat) {
    DigitsAt(s, k, first) && AllIn(s, k + first, b, IsSpace) && DigitsAt(s, b, 3)
    && AllIn(s, b + 3, c, IsSpace) && DigitsAt(s, c, 2) && AllIn(s, c + 2, d, IsSpace)
    && DigitsAt(s, d, 2) && Boundary(s, d + 2)
  }

  /**
   * The phone number whose first group starts at k, as `\d{n}\s*` reads it: each
   * `\s*` is followed by a digit, so it takes all the white space there is.
   * Gives the start of the last group.
   */
  function Phone(s: string, k: nat, first: nat): (r: Option<nat>)
    ensures r.Some? ==> k + first + 5 <= r.value && r.value + 2 <= |s|
    ensures r.Some? ==> DigitsAt(s, k, first) && DigitsAt(s, r.value, 2) && Boundary(s, r.value + 2)
  {
    if !DigitsAt(s, k, first) then None
    else
      var b := Span(s, k + first, IsSpace);
      if !DigitsAt(s, b, 3) then None
      else
        var c := Span(s, b + 3, IsSpace);
        if !DigitsAt(s, c, 2) then None
        else
          var d := Span(s, c + 2, IsSpace);
          if DigitsAt(s, d, 2) && Boundary(s, d + 2) then Some(d) else None
  }

  /** What Phone finds is a phone number, separators included. */
  lemma PhoneSound(s: string, k: nat, first: nat)
    requires Phone(s, k, first).Some?
    ensures exists b: nat, c: nat :: PhoneAt(s, k, first, b, c, Phone(s, k, first).value)
  {
    var b := Span(s, k + first, IsSpace);
    var c := Span(s, b + 3, IsSpace);
    assert PhoneAt(s, k, first, b, c, Phone(s, k, first).value);
  }

  /** Every phone number of that shape at k is the one found: the groups can be read in one way only. */
  lemma PhoneComplete(s: string, k: nat, first: nat, b: nat, c: nat, d: nat)
    requires PhoneAt(s, k, first, b, c, d)
    ensures Phone(s, k, first) == Some(d)
  {
    SpaceBeforeDigit(s, k + first, b);
    SpaceBeforeDigit(s, b + 3, c);
    SpaceBeforeDigit(s, c + 2, d);
  }

  /** `\s*` followed by a digit takes all the white space there is. */
  lemma SpaceBeforeDigit(s: string, lo: nat, hi: nat)
    requires AllIn(s, lo, hi, IsSpace) && hi < |s| && IsDigit(s[hi])
    ensures Span(s, lo, IsSpace) == hi
  {
    SpanUnique(s, lo, hi, IsSpace);
  }

  /** The replacement `${first} *** ** ${last}` of the three phone patterns. */
  function PhoneMask(first: string, last: string): string {
    first + " *** ** " + last
  }

  /** `\b(05\d{2})\s*(\d{3})\s*(\d{2})\s*(\d{2})\b` read at i, the later groups starting at b, c, d. */
  ghost predicate MobileAt(s: string, i: nat, b: nat, c: nat, d: nat) {
    Boundary(s, i) && StartsWithAt(s, i, "05") && PhoneAt(s, i, 4, b, c, d)
  }

  /** `\b(05\d{2})\s*(\d{3})\s*(\d{2})\s*(\d{2})\b` -> `05XX *** ** XX`. */
  function MatchMobile(s: string, i: nat): (r: Option<Hit>)
    ensures r.Some? ==> i + 11 <= r.value.end <= |s| && Boundary(s, i) && StartsWithAt(s, i, "05")
    ensures r.Some? ==> DigitsAt(s, i, 4) && DigitsAt(s, r.value.end - 2, 2)
                        && r.value.replacement == PhoneMask(s[i..i + 4], s[r.value.end - 2..r.value.end])
  {
    if !Boundary(s, i) || !StartsWithAt(s, i, "05") then None
    else
      match Phone(s, i, 4)
      case None => None
      case Some(d) => Some(Hit(d + 2, PhoneMask(s[i..i + 4], s[d..d + 2])))
  }

  /** A mobile number is masked only where the pattern reads one, groups and separators included. */
  lemma MatchMobileSound(s: string, i: nat)
    requires MatchMobile(s, i).Some?
    ensures exists b: nat, c: nat, d: nat :: MobileAt(s, i, b, c, d) && d + 2 == MatchMobile(s, i).value.end
  {
    PhoneSound(s, i, 4);
    var d := Phone(s, i, 4).value;
    var b: nat, c: nat :| PhoneAt(s, i, 4, b, c, d);
    assert MobileAt(s, i, b, c, d);
  }

  /** Every mobile number the pattern admits at i is masked, and in only one way. */
  lemma MatchMobileComplete(s: string, i: nat, b: nat, c: nat, d: nat)
    requires MobileAt(s, i, b, c, d)
    ensures MatchMobile(s, i) == Some(Hit(d + 2, PhoneMask(s[i..i + 4], s[d..d + 2])))
  {
    PhoneComplete(s, i, 4, b, c, d);
  }

  /** `\b(\+90)\s*(5\d{2})\s*(\d{3})\s*(\d{2})\s*(\d{2})\b` read at i, the groups starting at k, b, c, d. */
  ghost predicate IntlAt(s: string, i: nat, k: nat, b: nat, c: nat, d: nat) {
    Boundary(s, i) && StartsWithAt(s, i, "+90") && i + 3 <= k && AllIn(s, i + 3, k, IsSpace)
    && PhoneAt(s, k, 3, b, c, d) && s[k] == '5'
  }

  /**
   * `\b(\+90)\s*(5\d{2})\s*(\d{3})\s*(\d{2})\s*(\d{2})\b` -> `+90 5XX *** ** XX`.
   * As '+' is not a word character, `\b` before it needs a word character just before.
   */
  function MatchIntl(s: string, i: nat): (r: Option<Hit>)
    ensures r.Some? ==> i + 13 <= r.value.end <= |s| && Boundary(s, i) && StartsWithAt(s, i, "+90")
  {
    if !Boundary(s, i) || !StartsWithAt(s, i, "+90") then None
    else
      var k := Span(s, i + 3, IsSpace);
      if k == |s| || s[k] != '5' then None
      else
        match Phone(s, k, 3)
        case None => None
        case Some(d) => Some(Hit(d + 2, PhoneMask("+90 " + s[k..k + 3], s[d..d + 2])))
  }

  /** A +90 number is masked only where the pattern reads one. */
  lemma MatchIntlSound(s: string, i: nat)
    requires MatchIntl(s, i).Some?
    ensures exists k: nat, b: nat, c: nat, d: nat :: IntlAt(s, i, k, b, c, d) && d + 2 == MatchIntl(s, i).value.end
  {
    var k := Span(s, i + 3, IsSpace);
    PhoneSound(s, k, 3);
    var d := Phone(s, k, 3).value;
    var b: nat, c: nat :| PhoneAt(s, k, 3, b, c, d);
    assert IntlAt(s, i, k, b, c, d);
  }

  /** Every +90 number the pattern admits at i is masked, keeping `+90 `, the `5XX` group and the last two digits. */
  lemma MatchIntlComplete(s: string, i: nat, k: nat, b: nat, c: nat, d: nat)
    requires IntlAt(s, i, k, b, c, d)
    ensures MatchIntl(s, i) == Some(Hit(d + 2, PhoneMask("+90 " + s[k..k + 3], s[d..d + 2])))
  {
    IntlParts(s, i, k, b, c, d);
  }

  lemma IntlParts(s: string, i: nat, k: nat, b: nat, c: nat, d: nat)
    requires IntlAt(s, i, k, b, c, d)
    ensures Boundary(s, i) && StartsWithAt(s, i, "+90") && Span(s, i + 3, IsSpace) == k
    ensures k < |s| && s[k] == '5' && Phone(s, k, 3) == Some(d)
  {
    SpanUnique(s, i + 3, k, IsSpace);
    PhoneComplete(s, k, 3, b, c, d);
  }

  /**
   * "+90" is only masked right after a word character: at the start of the text or
   * after a space the `\b` before '+' fails, and the international number is left
   * to the other patterns.
   */
  lemma IntlNeedsWordBefore(s: string, i: nat)
    requires MatchIntl(s, i).Some?
    ensures i > 0 && IsWordChar(s[i - 1])
  {
    PlusNeedsWordBefore(s, i);
  }

  lemma IntlStartsWithPlus(s: string, i: nat)
    ensures MatchIntl(s, i).Some? ==> i < |s| && s[i] == '+'
  {
    if MatchIntl(s, i).Some? {
      assert s[i] == s[i..i + 3][0];
    }
  }

  lemma PlusNeedsWordBefore(s: string, i: nat)
    requires Boundary(s, i) && StartsWithAt(s, i, "+90")
    ensures i > 0 && IsWordChar(s[i - 1])
  {
    assert s[i] == s[i..i + 3][0] == '+';
  }

  /** `\b(5\d{2})\s*(\d{3})\s*(\d{2})\s*(\d{2})\b` read at i, the later groups starting at b, c, d. */
  ghost predicate BareAt(s: string, i: nat, b: nat, c: nat, d: nat) {
    Boundary(s, i) && PhoneAt(s, i, 3, b, c, d) && s[i] == '5'
  }

  /** `\b(5\d{2})\s*(\d{3})\s*(\d{2})\s*(\d{2})\b` -> `5XX *** ** XX`. */
  function MatchBare(s: string, i: nat): (r: Option<Hit>)
    ensures r.Some? ==> i + 10 <= r.value.end <= |s| && Boundary(s, i) && s[i] == '5'
    ensures r.Some? ==> DigitsAt(s, i, 3) && DigitsAt(s, r.value.end - 2, 2)
                        && r.value.replacement == PhoneMask(s[i..i + 3], s[r.value.end - 2..r.value.end])
  {
    if !Boundary(s, i) || i >= |s| || s[i] != '5' then None
    else
      match Phone(s, i, 3)
      case None => None
      case Some(d) => Some(Hit(d + 2, PhoneMask(s[i..i + 3], s[d..d + 2])))
  }

  /** A bare number is masked only where the pattern reads one. */
  lemma MatchBareSound(s: string, i: nat)
    requires MatchBare(s, i).Some?
    ensures exists b: nat, c: nat, d: nat :: BareAt(s, i, b, c, d) && d + 2 == MatchBare(s, i).value.end
  {
    PhoneSound(s, i, 3);
    var d := Phone(s, i, 3).value;
    var b: nat, c: nat :| PhoneAt(s, i, 3, b, c, d);
    assert BareAt(s, i, b, c, d);
  }

  /** Every number of the bare shape at i is masked, and in only one way. */
  lemma MatchBareComplete(s: string, i: nat, b: nat, c: nat, d: nat)
    requires BareAt(s, i, b, c, d)
    ensures MatchBare(s, i) == Some(Hit(d + 2, PhoneMask(s[i..i + 3], s[d..d + 2])))
  {
    PhoneComplete(s, i, 3, b, c, d);
  }

  /** `\b(\d{3})(\d{3})(\d{3})(\d{2})\b`: exactly eleven digits between boundaries. */
  function MatchTckn(s: string, i: nat): (r: Option<Hit>)
    ensures r.Some? <==> Boundary(s, i) && DigitsAt(s, i, 11) && Boundary(s, i + 11)
    ensures r.Some? ==> r.value.end == i + 11
                        && r.value.replacement == s[i..i + 3] + " *** *** " + s[i + 9..i + 11]
  {
    if Boundary(s, i) && DigitsAt(s, i, 11) && Boundary(s, i + 11) then
      Some(Hit(i + 11, s[i..i + 3] + " *** *** " + s[i + 9..i + 11]))
    else None
  }

  const StreetWords: seq<string> := ["Sokak", "Sokağı", "Cadde", "Caddesi", "Mahalle", "Mahallesi"]

  /** "Sokak" and "Sokağı" differ in their fifth letter; "Cadde" is no word by itself inside "Caddesi". */
  lemma StreetWordsAreKeywords()
    ensures Keywords(StreetWords)
  {
    StreetWordsApartFrom(0);
    StreetWordsApartFrom(1);
    StreetWordsApartFrom(2);
    StreetWordsApartFrom(3);
    StreetWordsApartFrom(4);
  }

  lemma StreetWordsApartFrom(m: nat)
    requires m < 5
    ensures forall n :: m < n < |StreetWords| ==> Apart(StreetWords[m], StreetWords[n])
  {
  }

  /**
   * `\b(No:|No\s*:?\s*)(\d+)\b` read at i: white space up to w, then a ':' when c
   * is w + 1, white space up to j, and the digits from j to e.  The first
   * alternative is the case w == i + 2, c == j == i + 3 of the second.
   */
  ghost predicate DoorAt(s: string, i: nat, w: nat, c: nat, j: nat, e: nat) {
    Boundary(s, i) && StartsWithAt(s, i, "No") && AllIn(s, i + 2, w, IsSpace)
    && (c == w || (c == w + 1 && w < |s| && s[w] == ':')) && AllIn(s, c, j, IsSpace)
    && j < e && AllIn(s, j, e, IsDigit) && Boundary(s, e)
  }

  /**
   * `\b(No:|No\s*:?\s*)(\d+)\b`: "No", optional spaces, an optional ':', optional
   * spaces, then digits; the digits become " ***" and the prefix is kept as written.
   */
  function MatchDoor(s: string, i: nat): (r: Option<Hit>)
    ensures r.Some? ==> Boundary(s, i) && StartsWithAt(s, i, "No") && i < r.value.end <= |s|
  {
    if !Boundary(s, i) || !StartsWithAt(s, i, "No") then None
    else
      var w := Span(s, i + 2, IsSpace);
      var c := if w < |s| && s[w] == ':' then w + 1 else w;
      var j := Span(s, c, IsSpace);
      var d := Span(s, j, IsDigit);
      if d > j && Boundary(s, d) then Some(Hit(d, s[i..j] + " ***")) else None
  }

  /** A match is a door number: the prefix up to the digits is kept and the digits hidden. */
  lemma MatchDoorSound(s: string, i: nat)
    requires MatchDoor(s, i).Some?
    ensures exists w: nat, c: nat, j: nat :: DoorAt(s, i, w, c, j, MatchDoor(s, i).value.end)
              && MatchDoor(s, i).value.replacement == s[i..j] + " ***"
  {
    var w := Span(s, i + 2, IsSpace);
    var c := if w < |s| && s[w] == ':' then w + 1 else w;
    assert DoorAt(s, i, w, c, Span(s, c, IsSpace), MatchDoor(s, i).value.end);
  }

  /** Every door number is masked whole, whichever way its prefix is spaced. */
  lemma MatchDoorComplete(s: string, i: nat, w: nat, c: nat, j: nat, e: nat)
    requires DoorAt(s, i, w, c, j, e)
    ensures MatchDoor(s, i) == Some(Hit(e, s[i..j] + " ***"))
  {
    assert IsDigit(s[j]) && IsWordChar(s[e - 1]);
    if c == w + 1 {
      SpanUnique(s, i + 2, w, IsSpace);
      SpaceBeforeDigit(s, c, j);
    } else {
      assert AllIn(s, i + 2, j, IsSpace);
      SpaceBeforeDigit(s, i + 2, j);
      SpaceBeforeDigit(s, j, j);
    }
    SpanUnique(s, j, e, IsDigit);
  }

  /** `\b(\d{5})\b` -> its first two digits and `***`. */
  function MatchPostal(s: string, i: nat): (r: Option<Hit>)
    ensures r.Some? <==> Boundary(s, i) && DigitsAt(s, i, 5) && Boundary(s, i + 5)
    ensures r.Some? ==> r.value.end == i + 5 && r.value.replacement == s[i..i + 2] + "***"
  {
    if Boundary(s, i) && DigitsAt(s, i, 5) && Boundary(s, i + 5) then
      Some(Hit(i + 5, s[i..i + 2] + "***"))
    else None
  }

  // ---------------------------------------------------------------------------
  // Answer formatting patterns (routes/chat.js:102-114)

  /** `c{3,}` -> `cc`: a run of three or more c's, taken whole. */
  function MatchCollapse(c: char, s: string, i: nat): (r: Option<Hit>)
    requires i <= |s|
    ensures r.Some? <==> RunFrom(s, i, c) >= 3
    ensures r.Some? ==> r.value == Hit(i + RunFrom(s, i, c), [c, c])
  {
    var n := RunFrom(s, i, c);
    if n >= 3 then Some(Hit(i + n, [c, c])) else None
  }

  /** `(?<!\*)\*(?!\*)` -> "": a '*' with no '*' on either side. */
  function MatchLoneStar(s: string, i: nat): (r: Option<Hit>)
    ensures r.Some? <==> i < |s| && s[i] == '*' && (i == 0 || s[i - 1] != '*') && (i + 1 == |s| || s[i + 1] != '*')
    ensures r.Some? ==> r.value == Hit(i + 1, "")
  {
    if i < |s| && s[i] == '*' && (i == 0 || s[i - 1] != '*') && (i + 1 >= |s| || s[i + 1] != '*') then
      Some(Hit(i + 1, ""))
    else None
  }

  /** The replacement `\n\n**$1**\n` of both heading patterns. */
  function HeadingMarkup(body: string): string {
    "\n\n**" + body + "**\n"
  }

  /** After a heading body ending at h: `:?\*\*`. Gives the end of the group and of the match. */
  function HeadingClose(s: string, h: nat): (r: Option<(nat, nat)>)
    ensures r.Some? ==> h <= r.value.0 <= h + 1 && r.value.1 == r.value.0 + 2 <= |s|
                        && StartsWithAt(s, r.value.0, "**") && (r.value.0 == h + 1 ==> s[h] == ':')
  {
    if h < |s| && s[h] == ':' && StartsWithAt(s, h + 1, "**") then Some((h + 1, h + 3))
    else if StartsWithAt(s, h, "**") then Some((h, h + 2))
    else None
  }

  /** `:?\*\*` read after a heading body ending at h, the group ending at g. */
  ghost predicate CloseAt(s: string, h: nat, g: nat) {
    (g == h || (g == h + 1 && h < |s| && s[h] == ':')) && StartsWithAt(s, g, "**")
  }

  /** Neither ':' nor '*' is a heading character, so the body ends where the closing starts. */
  lemma HeadingCloseFinds(s: string, h: nat, g: nat)
    requires CloseAt(s, h, g)
    ensures HeadingClose(s, h) == Some((g, g + 2)) && h < |s| && !IsHeadingChar(s[h])
  {
    assert s[g] == s[g..g + 2][0] == '*';
  }

  /** `\*\*(\d+\.\s*[A-ZĞÜŞİÖÇ\s]+:?)\*\*` read at i: digits up to d, '.', the body up to h, the group ending at g. */
  ghost predicate NumberedAt(s: string, i: nat, d: nat, h: nat, g: nat) {
    StartsWithAt(s, i, "**") && i + 2 < d && AllIn(s, i + 2, d, IsDigit) && d < |s| && s[d] == '.'
    && d + 1 < h && AllIn(s, d + 1, h, IsHeadingChar) && CloseAt(s, h, g)
  }

  /** `\*\*(\d+\.\s*[A-ZĞÜŞİÖÇ\s]+:?)\*\*` -> `\n\n**$1**\n`. */
  function MatchNumberedHeading(s: string, i: nat): (r: Option<Hit>)
    ensures r.Some? ==> StartsWithAt(s, i, "**") && i < r.value.end <= |s|
  {
    if !StartsWithAt(s, i, "**") then None
    else
      var d := Span(s, i + 2, IsDigit);
      if d == i + 2 || d == |s| || s[d] != '.' then None
      else
        var h := Span(s, d + 1, IsHeadingChar);
        if h == d + 1 then None
        else
          match HeadingClose(s, h)
          case None => None
          case Some((g, e)) => Some(Hit(e, HeadingMarkup(s[i + 2..g])))
  }

  /** A match is a numbered heading set on a line of its own. */
  lemma MatchNumberedHeadingSound(s: string, i: nat)
    requires MatchNumberedHeading(s, i).Some?
    ensures exists d: nat, h: nat, g: nat :: NumberedAt(s, i, d, h, g)
              && MatchNumberedHeading(s, i).value == Hit(g + 2, HeadingMarkup(s[i + 2..g]))
  {
    var d := Span(s, i + 2, IsDigit);
    var h := Span(s, d + 1, IsHeadingChar);
    var g := HeadingClose(s, h).value.0;
    assert NumberedAt(s, i, d, h, g);
  }

  /** Every numbered heading is set on a line of its own, the optional ':' kept. */
  lemma MatchNumberedHeadingComplete(s: string, i: nat, d: nat, h: nat, g: nat)
    requires NumberedAt(s, i, d, h, g)
    ensures MatchNumberedHeading(s, i) == Some(Hit(g + 2, HeadingMarkup(s[i + 2..g])))
  {
    SpanUnique(s, i + 2, d, IsDigit);
    HeadingCloseFinds(s, h, g);
    SpanUnique(s, d + 1, h, IsHeadingChar);
  }

  /** `\*\*([A-ZĞÜŞİÖÇ\s]{3,}:?)\*\*` read at i: the body up to h, the group ending at g. */
  ghost predicate CapsAt(s: string, i: nat, h: nat, g: nat) {
    StartsWithAt(s, i, "**") && i + 5 <= h && AllIn(s, i + 2, h, IsHeadingChar) && CloseAt(s, h, g)
  }

  /** `\*\*([A-ZĞÜŞİÖÇ\s]{3,}:?)\*\*` -> `\n\n**$1**\n`. */
  function MatchCapsHeading(s: string, i: nat): (r: Option<Hit>)
    ensures r.Some? ==> StartsWithAt(s, i, "**") && i < r.value.end <= |s|
  {
    if !StartsWithAt(s, i, "**") then None
    else
      var h := Span(s, i + 2, IsHeadingChar);
      if h < i + 5 then None
      else
        match HeadingClose(s, h)
        case None => None
        case Some((g, e)) => Some(Hit(e, HeadingMarkup(s[i + 2..g])))
  }

  /** A match is a capitalised heading set on a line of its own. */
  lemma MatchCapsHeadingSound(s: string, i: nat)
    requires MatchCapsHeading(s, i).Some?
    ensures exists h: nat, g: nat :: CapsAt(s, i, h, g)
              && MatchCapsHeading(s, i).value == Hit(g + 2, HeadingMarkup(s[i + 2..g]))
  {
    var h := Span(s, i + 2, IsHeadingChar);
    assert CapsAt(s, i, h, HeadingClose(s, h).value.0);
  }

  /** Every capitalised heading of three or more characters is set on a line of its own. */
  lemma MatchCapsHeadingComplete(s: string, i: nat, h: nat, g: nat)
    requires CapsAt(s, i, h, g)
    ensures MatchCapsHeading(s, i) == Some(Hit(g + 2, HeadingMarkup(s[i + 2..g])))
  {
    HeadingCloseFinds(s, h, g);
    SpanUnique(s, i + 2, h, IsHeadingChar);
  }

  // ---------------------------------------------------------------------------
  // Global replacement

  function MatchAt(p: Pattern, s: string, i: nat): (r: Option<Hit>)
    requires i < |s|
    ensures r.Some? ==> i < r.value.end <= |s|
  {
    match p
    case FullName => MatchFullName(s, i)
    case Honorific => MatchKeyword(s, i, Honorifics)
    case TitledName => MatchTitledName(s, i, Titles)
    case Respectful => MatchTitledName(s, i, Addresses)
    case Initialed => MatchInitialed(s, i)
    case Email => MatchEmail(s, i)
    case MobilePhone => MatchMobile(s, i)
    case IntlPhone => MatchIntl(s, i)
    case BarePhone => MatchBare(s, i)
    case Tckn => MatchTckn(s, i)
    case StreetName => MatchKeyword(s, i, StreetWords)
    case DoorNumber => MatchDoor(s, i)
    case PostalCode => MatchPostal(s, i)
    case Collapse(c) => MatchCollapse(c, s, i)
    case LoneStar => MatchLoneStar(s, i)
    case NumberedHeading => MatchNumberedHeading(s, i)
    case CapsHeading => MatchCapsHeading(s, i)
  }

  /**
   * `s.replace(/p/g, f)` from position i: matches are looked for left to right in
   * the ORIGINAL string; a match is replaced and the scan resumes after it, and a
   * position where nothing matches is copied.
   */
  function ReplaceFrom(p: Pattern, s: string, i: nat): string
    requires i <= |s|
    decreases |s| - i
  {
    if i == |s| then []
    else
      match MatchAt(p, s, i)
      case Some(h) => h.replacement + ReplaceFrom(p, s, h.end)
      case None => [s[i]] + ReplaceFrom(p, s, i + 1)
  }

  function ReplaceAll(p: Pattern, s: string): string {
    ReplaceFrom(p, s, 0)
  }

  /** Patterns applied one after the other, each to the previous one's output. */
  function ApplyAll(ps: seq<Pattern>, s: string): string
    decreases |ps|
  {
    if ps == [] then s else ReplaceAll(ps[|ps| - 1], ApplyAll(ps[..|ps| - 1], s))
  }

  /** Where the pattern matches nowhere, the replacement leaves the text as it is. */
  lemma {:induction false} ReplaceFromNoMatch(p: Pattern, s: string, i: nat)
    requires i <= |s|
    requires forall k :: i <= k < |s| ==> MatchAt(p, s, k).None?
    ensures ReplaceFrom(p, s, i) == s[i..]
    decreases |s| - i
  {
    if i < |s| {
      ReplaceFromNoMatch(p, s, i + 1);
      assert s[i..] == [s[i]] + s[i + 1..];
    }
  }

  /** A single match at the start, nothing after it: only that match is replaced. */
  lemma ReplaceFirstOnly(p: Pattern, s: string, e: nat, m: string)
    requires |s| > 0 && MatchAt(p, s, 0) == Some(Hit(e, m))
    requires forall k :: e <= k < |s| ==> MatchAt(p, s, k).None?
    ensures ReplaceAll(p, s) == m + s[e..]
  {
    ReplaceFromNoMatch(p, s, e);
  }

  /** A match that takes the whole text: the text becomes its replacement. */
  lemma ReplaceWhole(p: Pattern, s: string, h: Hit)
    requires |s| > 0 && MatchAt(p, s, 0) == Some(h) && h.end == |s|
    ensures ReplaceAll(p, s) == h.replacement
  {
    assert ReplaceFrom(p, s, |s|) == [];
  }

  /** Applying a list of patterns and then another is applying their concatenation. */
  lemma {:induction false} ApplyAllConcat(a: seq<Pattern>, b: seq<Pattern>, s: string)
    ensures ApplyAll(a + b, s) == ApplyAll(b, ApplyAll(a, s))
    decreases |b|
  {
    if b == [] {
      assert a + b == a;
    } else {
      ApplyAllConcat(a, b[..|b| - 1], s);
      assert (a + b)[..|a + b| - 1] == a + b[..|b| - 1];
    }
  }

  /** No pattern changes the empty text. */
  lemma {:induction false} ApplyAllEmpty(ps: seq<Pattern>)
    ensures ApplyAll(ps, "") == ""
    decreases |ps|
  {
    if ps != [] {
      ApplyAllEmpty(ps[..|ps| - 1]);
    }
  }

  /** A text in which none of the patterns matches anywhere comes out unchanged. */
  lemma {:induction false} ApplyAllInert(ps: seq<Pattern>, s: string)
    requires forall p, k :: p in ps && 0 <= k < |s| ==> MatchAt(p, s, k).None?
    ensures ApplyAll(ps, s) == s
    decreases |ps|
  {
    if ps != [] {
      ApplyAllInert(ps[..|ps| - 1], s);
      ReplaceFromNoMatch(ps[|ps| - 1], s, 0);
    }
  }

  // ---------------------------------------------------------------------------
  // Collapsing runs: after `c{3,}` -> `cc` no three c's follow each other

  predicate NoTriple(t: string, c: char) {
    forall k :: 0 <= k < |t| - 2 ==> !(t[k] == c && t[k + 1] == c && t[k + 2] == c)
  }

  /** The number of c's the text starts with. */
  function Lead(t: string, c: char): nat
    decreases |t|
  {
    if |t| > 0 && t[0] == c then 1 + Lead(t[1..], c) else 0
  }

  lemma ConsNoTriple(x: char, rest: string, c: char)
    requires NoTriple(rest, c) && (x == c ==> Lead(rest, c) <= 1)
    ensures NoTriple([x] + rest, c)
    ensures Lead([x] + rest, c) == if x == c then 1 + Lead(rest, c) else 0
  {
    var t := [x] + rest;
    assert t[1..] == rest;
    forall k | 0 <= k < |t| - 2 ensures !(t[k] == c && t[k + 1] == c && t[k + 2] == c) {
      if k == 0 {
        if x == c && rest[0] == c {
          assert rest[1..][0] == rest[1];
        }
      } else {
        assert t[k] == rest[k - 1] && t[k + 1] == rest[k] && t[k + 2] == rest[k + 1];
      }
    }
  }

  lemma {:induction false} CollapseFrom(s: string, i: nat, c: char)
    requires i <= |s|
    ensures NoTriple(ReplaceFrom(Collapse(c), s, i), c)
    ensures Lead(ReplaceFrom(Collapse(c), s, i), c) == Min(RunFrom(s, i, c), 2)
    decreases |s| - i
  {
    if i < |s| {
      var n := RunFrom(s, i, c);
      if n >= 3 {
        var rest := ReplaceFrom(Collapse(c), s, i + n);
        CollapseFrom(s, i + n, c);
        ConsNoTriple(c, rest, c);
        ConsNoTriple(c, [c] + rest, c);
        CollapseRunStep(s, i, c);
      } else {
        var rest := ReplaceFrom(Collapse(c), s, i + 1);
        CollapseFrom(s, i + 1, c);
        ConsNoTriple(s[i], rest, c);
        CollapseCharStep(s, i, c);
      }
    }
  }

  lemma CollapseRunStep(s: string, i: nat, c: char)
    requires i < |s| && RunFrom(s, i, c) >= 3
    ensures ReplaceFrom(Collapse(c), s, i) == [c] + ([c] + ReplaceFrom(Collapse(c), s, i + RunFrom(s, i, c)))
  {
    assert MatchAt(Collapse(c), s, i) == Some(Hit(i + RunFrom(s, i, c), [c, c]));
  }

  lemma CollapseCharStep(s: string, i: nat, c: char)
    requires i < |s| && RunFrom(s, i, c) < 3
    ensures ReplaceFrom(Collapse(c), s, i) == [s[i]] + ReplaceFrom(Collapse(c), s, i + 1)
  {
    assert MatchAt(Collapse(c), s, i).None?;
  }

  /** `s.replace(/c{3,}/g, cc)` leaves no run of three c's. */
  lemma CollapseNoTriple(s: string, c: char)
    ensures NoTriple(ReplaceAll(Collapse(c), s), c)
  {
    CollapseFrom(s, 0, c);
  }

  /** A slice of a text without three c's in a row has none either. */
  lemma NoTripleSlice(t: string, c: char, a: nat, b: nat)
    requires a <= b <= |t| && NoTriple(t, c)
    ensures NoTriple(t[a..b], c)
  {
    forall k | 0 <= k < b - a - 2
      ensures !(t[a..b][k] == c && t[a..b][k + 1] == c && t[a..b][k + 2] == c)
    {
      assert t[a..b][k] == t[a + k] && t[a..b][k + 1] == t[a + k + 1] && t[a..b][k + 2] == t[a + k + 2];
    }
  }
}
