/**
 * The server's personal-data redaction (utils/privacyUtils.js): five
 * sanitizers, each a fold of global replacements over its pattern list, their
 * composition, and the walk over nested records that redacts the fields whose
 * names look personal.
 */
module Privacy {
  import opened Text
  import opened Patterns

  /** A JavaScript value as the sanitizers see it; an array is the object keyed "0", "1", ... */
  datatype Value =
    | Undefined
    | Null
    | Bool(b: bool)
    | Num(n: int)
    | Str(s: string)
    | Obj(fields: seq<Field>)

  datatype Field = Field(key: string, value: Value)

  /** Passes the guard `if (!text || typeof text !== 'string') return text`. */
  predicate IsText(v: Value) { v.Str? && v.s != "" }

  /** The patterns applied in order to a value that passes the guard; anything else is returned as it is. */
  function Guarded(ps: seq<Pattern>, v: Value): Value {
    if IsText(v) then Str(ApplyAll(ps, v.s)) else v
  }

  const NamePatterns: seq<Pattern> := [FullName, Honorific, TitledName, Respectful, Initialed]
  const PhonePatterns: seq<Pattern> := [MobilePhone, IntlPhone, BarePhone]
  const AddressPatterns: seq<Pattern> := [StreetName, DoorNumber, PostalCode]

  /** sanitizeAllPersonalData: names, then e-mails, phones, identity numbers, addresses. */
  const ServerPipeline: seq<Pattern> := NamePatterns + [Email] + PhonePatterns + [Tckn] + AddressPatterns

  /** `patterns.forEach(p => text = text.replace(p, ...))` */
  method RunPatterns(ps: seq<Pattern>, s: string) returns (t: string)
    ensures t == ApplyAll(ps, s)
  {
    t := s;
    var k := 0;
    while k < |ps|
      invariant 0 <= k <= |ps|
      invariant t == ApplyAll(ps[..k], s)
    {
      assert ps[..k + 1][..k] == ps[..k];
      t := ReplaceAll(ps[k], t);
      k := k + 1;
    }
    assert ps[..k] == ps;
  }

  method SanitizeNames(text: Value) returns (r: Value)
    ensures r == Guarded(NamePatterns, text)
  {
    if !IsText(text) {
      return text;
    }
    var t := RunPatterns(NamePatterns, text.s);
    r := Str(t);
  }

  /**
   * The guard, then one global replace.  A lone address is masked
   * (EmailAlone), and a text without `@` is kept (EmailNeedsAt).
   */
  function SanitizeEmails(text: Value): Value {
    if !IsText(text) then text else Str(ReplaceAll(Email, text.s))
  }

  method SanitizePhoneNumbers(text: Value) returns (r: Value)
    ensures r == Guarded(PhonePatterns, text)
  {
    if !IsText(text) {
      return text;
    }
    var t := RunPatterns(PhonePatterns, text.s);
    r := Str(t);
  }

  /**
   * The guard, then one global replace.  Eleven lone digits are masked
   * (TcknAlone), and twelve are kept (TwelveDigitsKept).
   */
  function SanitizeTckn(text: Value): Value {
    if !IsText(text) then text else Str(ReplaceAll(Tckn, text.s))
  }

  method SanitizeAddresses(text: Value) returns (r: Value)
    ensures r == Guarded(AddressPatterns, text)
  {
    if !IsText(text) {
      return text;
    }
    var t := RunPatterns(AddressPatterns, text.s);
    r := Str(t);
  }

  // ---------------------------------------------------------------------------
  // Each sanitizer on a text holding one item and nothing else

  /** An address standing alone: the user part is masked, the domain kept. */
  lemma EmailAlone(s: string, at: nat, p: nat)
    requires EmailAt(s, 0, at, p, |s|)
    ensures SanitizeEmails(Str(s)) == Str(MaskUser(s[..at]) + "@" + s[at + 1..])
  {
    EmailReplacedWhole(s, at, p);
  }

  lemma EmailReplacedWhole(s: string, at: nat, p: nat)
    requires EmailAt(s, 0, at, p, |s|)
    ensures ReplaceAll(Email, s) == MaskUser(s[..at]) + "@" + s[at + 1..]
  {
    MatchEmailComplete(s, 0, at, p, |s|);
    assert MatchAt(Email, s, 0) == MatchEmail(s, 0);
    ReplaceWhole(Email, s, MatchEmail(s, 0).value);
    assert s[0..at] == s[..at] && s[at + 1..|s|] == s[at + 1..];
  }

  /** A text without '@' passes the e-mail step unchanged. */
  lemma EmailNeedsAt(s: string)
    requires forall j :: 0 <= j < |s| ==> s[j] != '@'
    ensures SanitizeEmails(Str(s)) == Str(s)
  {
    forall k | 0 <= k < |s|
      ensures MatchAt(Email, s, k).None?
    {
      if MatchEmail(s, k).Some? {
        MatchEmailSound(s, k);
      }
    }
    ReplaceFromNoMatch(Email, s, 0);
  }

  /** Eleven digits standing alone: the first three and the last two are kept. */
  lemma TcknAlone(s: string)
    requires |s| == 11 && forall j :: 0 <= j < 11 ==> IsDigit(s[j])
    ensures SanitizeTckn(Str(s)) == Str(s[..3] + " *** *** " + s[9..])
  {
    assert s[0..3] == s[..3] && s[9..11] == s[9..] && s[11..] == [];
    ReplaceFirstOnly(Tckn, s, 11, s[..3] + " *** *** " + s[9..]);
  }

  /** Twelve digits in a row are no identity number: `\b` is needed after exactly eleven. */
  lemma TwelveDigitsKept(s: string)
    requires |s| == 12 && forall j :: 0 <= j < 12 ==> IsDigit(s[j])
    ensures SanitizeTckn(Str(s)) == Str(s)
  {
    assert !Boundary(s, 1) && !Boundary(s, 11);
    ReplaceFromNoMatch(Tckn, s, 0);
  }

  /** A mobile number standing alone comes out of the phone step as `05XX *** ** XX`. */
  lemma MobileAlone(s: string, b: nat, c: nat, d: nat)
    requires MobileAt(s, 0, b, c, d) && d + 2 == |s|
    ensures Guarded(PhonePatterns, Str(s)) == Str(PhoneMask(s[..4], s[d..]))
  {
    var m := PhoneMask(s[..4], s[d..]);
    MobileWhole(s, b, c, d);
    assert s[|s|..] == [];
    ReplaceFirstOnly(MobilePhone, s, |s|, m);
    assert m + [] == m;
    MobileMaskInert(m, s[..4], s[d..]);
    ReplaceFromNoMatch(IntlPhone, m, 0);
    ReplaceFromNoMatch(BarePhone, m, 0);
    assert m[0..] == m;
    PhoneSteps(s);
  }

  lemma MobileWhole(s: string, b: nat, c: nat, d: nat)
    requires MobileAt(s, 0, b, c, d) && d + 2 == |s|
    ensures MatchAt(MobilePhone, s, 0) == Some(Hit(|s|, PhoneMask(s[..4], s[d..])))
    ensures |s[..4]| == 4 && s[..4][0] == '0' && DigitsAt(s[..4], 0, 4) && |s[d..]| == 2 && DigitsAt(s[d..], 0, 2)
  {
    MatchMobileComplete(s, 0, b, c, d);
    assert s[0..4] == s[..4] && s[d..d + 2] == s[d..];
    assert s[0] == s[0..2][0] == '0';
  }

  lemma PhoneSteps(s: string)
    ensures ApplyAll(PhonePatterns, s) == ReplaceAll(BarePhone, ReplaceAll(IntlPhone, ReplaceAll(MobilePhone, s)))
  {
    var p2: seq<Pattern> := [MobilePhone, IntlPhone];
    var p1: seq<Pattern> := [MobilePhone];
    assert PhonePatterns[..2] == p2 && p2[..1] == p1 && p1[..0] == [];
  }

  /** `05XX *** ** XX` holds no '+' and no bare number: the later phone patterns leave it alone. */
  lemma MobileMaskInert(m: string, first: string, last: string)
    requires m == PhoneMask(first, last) && |first| == 4 && |last| == 2 && first[0] == '0'
    requires DigitsAt(first, 0, 4) && DigitsAt(last, 0, 2)
    ensures forall k :: 0 <= k < |m| ==> MatchAt(IntlPhone, m, k).None? && MatchAt(BarePhone, m, k).None?
  {
    assert |m| == 14;
    assert forall j :: 0 <= j < 4 ==> m[j] == first[j];
    assert m[4] == ' ' && m[5] == '*' && m[8] == ' ' && m[9] == '*' && m[11] == ' ';
    assert forall j :: 4 <= j < 12 ==> !IsDigit(m[j]) && m[j] != '+';
    assert forall j :: 12 <= j < 14 ==> m[j] == last[j - 12];
    forall k | 0 <= k < |m|
      ensures MatchIntl(m, k).None? && MatchBare(m, k).None?
    {
      IntlStartsWithPlus(m, k);
      if 0 < k < 4 {
        assert IsWordChar(m[k - 1]) && IsWordChar(m[k]);
      }
    }
  }

  /** Guarded steps compose: the guard of a later step only ever sees "" where the earlier one produced it. */
  lemma GuardedThen(a: seq<Pattern>, b: seq<Pattern>, v: Value)
    ensures Guarded(b, Guarded(a, v)) == Guarded(a + b, v)
  {
    if IsText(v) {
      ApplyAllConcat(a, b, v.s);
      ApplyAllEmpty(b);
    }
  }

  /** The five sanitizers in the server's order, and nothing else. */
  method SanitizeAllPersonalData(text: Value) returns (r: Value)
    ensures r == Guarded(ServerPipeline, text)
  {
    if !IsText(text) {
      return text;
    }
    var t := SanitizeNames(text);
    t := SanitizeEmails(t);
    t := SanitizePhoneNumbers(t);
    t := SanitizeTckn(t);
    t := SanitizeAddresses(t);
    r := t;
    GuardedThen(NamePatterns, [Email], text);
    GuardedThen(NamePatterns + [Email], PhonePatterns, text);
    GuardedThen(NamePatterns + [Email] + PhonePatterns, [Tckn], text);
    GuardedThen(NamePatterns + [Email] + PhonePatterns + [Tckn], AddressPatterns, text);
  }

  // ---------------------------------------------------------------------------
  // Properties of the cascade

  /** Every name pattern needs a lower-case letter somewhere in its match. */
  lemma NameMatchHasLower(p: Pattern, t: string, k: nat)
    requires p in NamePatterns && k < |t| && MatchAt(p, t, k).Some?
    ensures exists j :: 0 <= j < |t| && IsNameLower(t[j])
  {
    match p {
      case FullName => FullNameHasLower(t, k);
      case Honorific => HonorificHasLower(t, k);
      case TitledName => TitledHasLower(t, k, TitledName, Titles);
      case Respectful => TitledHasLower(t, k, Respectful, Addresses);
      case Initialed => InitialedHasLower(t, k);
    }
  }

  lemma FullNameHasLower(t: string, k: nat)
    requires k < |t| && MatchAt(FullName, t, k).Some?
    ensures exists j :: 0 <= j < |t| && IsNameLower(t[j])
  {
    var a: nat, b: nat :| TwoNamesAt(t, k, a, b, MatchFullName(t, k).value.end);
    assert IsNameLower(t[k + 1]);
  }

  lemma HonorificHasLower(t: string, k: nat)
    requires k < |t| && MatchAt(Honorific, t, k).Some?
    ensures exists j :: 0 <= j < |t| && IsNameLower(t[j])
  {
    assert WordThenKeyword(t, k, Honorifics).Some?;
    assert IsNameLower(t[k + 1]);
  }

  lemma TitledHasLower(t: string, k: nat, p: Pattern, ts: seq<string>)
    requires k < |t| && ((p == TitledName && ts == Titles) || (p == Respectful && ts == Addresses))
    requires MatchAt(p, t, k).Some?
    ensures exists j :: 0 <= j < |t| && IsNameLower(t[j])
  {
    assert MatchTitledName(t, k, ts).Some?;
    var q := PrefixedNames(t, k, ts).value;
    assert IsNameLower(t[q.1 + 1]);
  }

  lemma InitialedHasLower(t: string, k: nat)
    requires k < |t| && MatchAt(Initialed, t, k).Some?
    ensures exists j :: 0 <= j < |t| && IsNameLower(t[j])
  {
    var b := Span(t, k + 2, IsSpace);
    assert IsNameLower(t[b + 1]);
  }

  /** A text without a lower-case letter passes the name step, or any part of it, unchanged. */
  lemma NamesNeedLowercase(ps: seq<Pattern>, t: string)
    requires forall p :: p in ps ==> p in NamePatterns
    requires forall k :: 0 <= k < |t| ==> !IsNameLower(t[k])
    ensures ApplyAll(ps, t) == t
  {
    forall p, k | p in ps && 0 <= k < |t|
      ensures MatchAt(p, t, k).None?
    {
      if MatchAt(p, t, k).Some? {
        NameMatchHasLower(p, t, k);
      }
    }
    ApplyAllInert(ps, t);
  }

  /** A capitalised word as the name patterns read it: [A-ZÇĞIİÖŞÜ][a-zçğıiöşü]+ */
  predicate IsNameWord(w: string) {
    |w| >= 2 && IsNameUpper(w[0]) && forall j :: 1 <= j < |w| ==> IsNameLower(w[j])
  }

  /** Where the text starts with two name words, the pattern can only read them as they stand. */
  lemma TwoNamesAtStartUnique(s: string, a: nat, e: nat, a': nat, b': nat, e': nat)
    requires 2 <= a && a + 3 <= e <= |s| && AllIn(s, 1, a, IsNameLower) && s[a] == ' '
    requires IsNameUpper(s[a + 1]) && AllIn(s, a + 2, e, IsNameLower) && (e < |s| ==> !IsNameLower(s[e]))
    requires TwoNamesAt(s, 0, a', b', e')
    ensures a' == a && b' == a + 1 && e' <= e
  {
    assert IsSpace(s[a']);
    SpanUnique(s, 1, a', IsNameLower);
    SpanUnique(s, 1, a, IsNameLower);
    SpanUnique(s, a, b', IsSpace);
    SpanUnique(s, a, a + 1, IsSpace);
    SpanCovers(s, a + 2, e', IsNameLower);
    SpanUnique(s, a + 2, e, IsNameLower);
  }

  /**
   * Two words at the start of the text, the first beginning with an ASCII capital
   * (so that `\b` holds before it) and the second ending with an ASCII letter and
   * followed by neither a letter nor a word character: the full-name pattern takes
   * exactly the two words.
   */
  lemma FullNameAtStart(w1: string, w2: string, rest: string)
    requires IsNameWord(w1) && IsNameWord(w2) && IsAsciiUpper(w1[0]) && IsAsciiLower(w2[|w2| - 1])
    requires rest == [] || (!IsNameLower(rest[0]) && !IsWordChar(rest[0]))
    ensures MatchFullName(w1 + " " + w2 + rest, 0)
            == Some(Hit(|w1| + 1 + |w2|, [w1[0]] + "*** " + [w2[0]] + "****"))
  {
    var s := w1 + " " + w2 + rest;
    var a, b, e := |w1|, |w1| + 1, |w1| + 1 + |w2|;
    TwoWordsLayout(w1, w2, rest, s);
    FullNameOfLayout(s, a, e);
  }

  lemma FullNameOfLayout(s: string, a: nat, e: nat)
    requires TwoNamesAt(s, 0, a, a + 1, e) && Boundary(s, 0)
    requires AllIn(s, 1, a, IsNameLower) && s[a] == ' ' && AllIn(s, a + 2, e, IsNameLower)
    requires e < |s| ==> !IsNameLower(s[e])
    ensures MatchFullName(s, 0) == Some(Hit(e, [s[0]] + "*** " + [s[a + 1]] + "****"))
  {
    assert TwoNames(s, 0).Some? && TwoNames(s, 0).value.secondStart == a + 1 && TwoNames(s, 0).value.end == e by {
      TwoNamesComplete(s, 0, a, a + 1, e);
      var t := TwoNames(s, 0).value;
      TwoNamesAtStartUnique(s, a, e, t.firstEnd, t.secondStart, t.end);
    }
    MatchFullNameOfTwoNames(s, 0);
  }

  /** How two name words and what follows them lie in the text. */
  lemma TwoWordsLayout(w1: string, w2: string, rest: string, s: string)
    requires IsNameWord(w1) && IsNameWord(w2) && IsAsciiUpper(w1[0]) && IsAsciiLower(w2[|w2| - 1])
    requires rest == [] || (!IsNameLower(rest[0]) && !IsWordChar(rest[0]))
    requires s == w1 + " " + w2 + rest
    ensures var a, b, e := |w1|, |w1| + 1, |w1| + 1 + |w2|;
            TwoNamesAt(s, 0, a, b, e) && Boundary(s, 0) && s[0] == w1[0] && s[b] == w2[0]
            && AllIn(s, 1, a, IsNameLower) && s[a] == ' ' && AllIn(s, b + 1, e, IsNameLower)
            && (e < |s| ==> !IsNameLower(s[e]))
  {
    var a, b, e := |w1|, |w1| + 1, |w1| + 1 + |w2|;
    assert forall j :: 0 <= j < a ==> s[j] == w1[j];
    assert s[a] == ' ';
    assert forall j :: b <= j < e ==> s[j] == w2[j - b];
    assert e < |s| ==> s[e] == rest[0];
    assert TwoNamesAt(s, 0, a, b, e);
  }

  /** Two spaceless words standing alone are masked to `F*** S****`. */
  lemma FullNameWhole(w1: string, w2: string)
    requires IsNameWord(w1) && IsNameWord(w2) && IsAsciiUpper(w1[0]) && IsAsciiLower(w2[|w2| - 1])
    ensures ReplaceAll(FullName, w1 + " " + w2) == [w1[0]] + "*** " + [w2[0]] + "****"
  {
    var s := w1 + " " + w2;
    FullNameAtStart(w1, w2, []);
    assert s + [] == s;
    assert MatchAt(FullName, s, 0) == Some(Hit(|s|, [w1[0]] + "*** " + [w2[0]] + "****"));
    assert ReplaceFrom(FullName, s, |s|) == [];
  }

  lemma HonorificsAreWords(h: string)
    requires h in Honorifics
    ensures IsNameWord(h) && IsAsciiLower(h[|h| - 1])
  {
    assert h == "Bey" || h == "Hanım" || h == "Efendi";
  }

  /**
   * The honorific pattern never fires on a name followed by its honorific: the
   * full-name pattern runs first and takes the honorific for a surname, so
   * "Ahmet Bey" becomes "A*** B****".
   */
  lemma HonorificShadowed(w: string, h: string)
    requires IsNameWord(w) && IsAsciiUpper(w[0]) && h in Honorifics
    ensures Guarded(NamePatterns, Str(w + " " + h)) == Str([w[0]] + "*** " + [h[0]] + "****")
  {
    var s := w + " " + h;
    var m := [w[0]] + "*** " + [h[0]] + "****";
    HonorificsAreWords(h);
    FullNameWhole(w, h);
    MaskHasNoLower(w[0], h[0]);
    var rest := NamePatterns[1..];
    assert NamePatterns == [FullName] + rest;
    ApplyAllConcat([FullName], rest, s);
    assert [FullName][..0] == [];
    assert ApplyAll([FullName], s) == m;
    NamesNeedLowercase(rest, m);
  }

  /** `F*** S****` holds no lower-case letter. */
  lemma MaskHasNoLower(x: char, y: char)
    requires IsNameUpper(x) && IsNameUpper(y)
    ensures var m := [x] + "*** " + [y] + "****"; forall k :: 0 <= k < |m| ==> !IsNameLower(m[k])
  {
  }

  lemma AhmetBey(text: string)
    requires text == "Ahmet Bey"
    ensures Guarded(NamePatterns, Str(text)) == Str("A*** B****")
  {
    var w, h := "Ahmet", "Bey";
    assert IsNameWord(w);
    assert w + " " + h == text;
    HonorificShadowed(w, h);
    assert [w[0]] + "*** " + [h[0]] + "****" == "A*** B****";
  }

  /** A two-name match needs white space after a lower-case letter. */
  lemma TwoNamesBeforeSpaceless(t: string, n: nat)
    requires forall j :: n <= j < |t| ==> !IsSpace(t[j])
    ensures forall j: nat, a: nat, b: nat, e: nat :: TwoNamesAt(t, j, a, b, e) ==> j + 2 <= a < n
  {
    forall j: nat, a: nat, b: nat, e: nat | TwoNamesAt(t, j, a, b, e)
      ensures j + 2 <= a < n
    {
      assert IsSpace(t[a]);
    }
  }

  /**
   * What any name match needs: a lower-case letter followed, later on, by white
   * space, or (for the initial) a '.' right after its first character.
   */
  lemma NameMatchNeeds(p: Pattern, t: string, k: nat)
    requires p in NamePatterns && k < |t| && MatchAt(p, t, k).Some?
    ensures (exists l: nat, a: nat :: l < a < |t| && IsNameLower(t[l]) && IsSpace(t[a]))
            || (k + 1 < |t| && t[k + 1] == '.')
  {
    match p {
      case FullName => FullNameNeeds(t, k);
      case Honorific => HonorificNeeds(t, k);
      case TitledName => TitledNeeds(t, k, TitledName, Titles);
      case Respectful => TitledNeeds(t, k, Respectful, Addresses);
      case Initialed => InitialedNeeds(t, k);
    }
  }

  lemma InitialedNeeds(t: string, k: nat)
    requires k < |t| && MatchAt(Initialed, t, k).Some?
    ensures k + 1 < |t| && t[k + 1] == '.'
  {
    assert MatchInitialed(t, k).Some?;
  }

  lemma FullNameNeeds(t: string, k: nat)
    requires k < |t| && MatchAt(FullName, t, k).Some?
    ensures exists l: nat, a: nat :: l < a < |t| && IsNameLower(t[l]) && IsSpace(t[a])
  {
    var a: nat, b: nat :| TwoNamesAt(t, k, a, b, MatchFullName(t, k).value.end);
    assert IsNameLower(t[k + 1]) && IsSpace(t[a]);
  }

  lemma HonorificNeeds(t: string, k: nat)
    requires k < |t| && MatchAt(Honorific, t, k).Some?
    ensures exists l: nat, a: nat :: l < a < |t| && IsNameLower(t[l]) && IsSpace(t[a])
  {
    assert WordThenKeyword(t, k, Honorifics).Some?;
    var b := WordThenKeyword(t, k, Honorifics).value.0;
    var a := Span(t, k + 1, IsNameLower);
    assert k + 2 <= a < b && AllIn(t, a, b, IsSpace);
    assert IsNameLower(t[k + 1]) && IsSpace(t[a]);
  }

  lemma TitledNeeds(t: string, k: nat, p: Pattern, ts: seq<string>)
    requires k < |t| && ((p == TitledName && ts == Titles) || (p == Respectful && ts == Addresses))
    requires MatchAt(p, t, k).Some?
    ensures exists l: nat, a: nat :: l < a < |t| && IsNameLower(t[l]) && IsSpace(t[a])
  {
    assert MatchTitledName(t, k, ts).Some?;
    var q := PrefixedNames(t, k, ts).value;
    assert IsNameLower(t[q.1 + 1]) && IsSpace(t[q.2.firstEnd]);
  }

  /**
   * A text made of masked or capital-only material followed by one word without
   * white space passes the name step unchanged: there is no second word to pair
   * the last word with.
   */
  lemma NameTailInert(ps: seq<Pattern>, t: string, n: nat)
    requires forall p :: p in ps ==> p in NamePatterns
    requires n <= |t| && forall j :: 0 <= j < n ==> !IsNameLower(t[j])
    requires forall j :: n <= j < |t| ==> !IsSpace(t[j])
    requires forall j :: 0 <= j < |t| ==> t[j] != '.'
    ensures ApplyAll(ps, t) == t
  {
    forall p, k | p in ps && 0 <= k < |t|
      ensures MatchAt(p, t, k).None?
    {
      if MatchAt(p, t, k).Some? {
        NameMatchNeeds(p, t, k);
      }
    }
    ApplyAllInert(ps, t);
  }

  lemma AddressesAreWords(w: string)
    requires w in Addresses
    ensures IsNameWord(w) && IsAsciiUpper(w[0]) && IsAsciiLower(w[|w| - 1])
  {
    assert w == "Sayın" || w == "Değerli";
  }

  /** No full-name match starts at or after n when no white space follows n. */
  lemma FullNameNoneInTail(s: string, n: nat)
    requires n < |s| && IsNameWord(s[n + 1..])
    ensures forall k :: n <= k < |s| ==> MatchAt(FullName, s, k).None?
  {
    forall j | n + 1 <= j < |s|
      ensures !IsSpace(s[j])
    {
      assert s[j] == s[n + 1..][j - n - 1];
    }
    TwoNamesBeforeSpaceless(s, n + 1);
  }

  /** Two name words and a third: the full-name pattern masks the first two and leaves the third. */
  lemma FullNameThenWord(w1: string, w2: string, w3: string)
    requires IsNameWord(w1) && IsAsciiUpper(w1[0]) && IsNameWord(w2) && IsAsciiLower(w2[|w2| - 1])
    requires IsNameWord(w3)
    ensures ReplaceAll(FullName, w1 + " " + w2 + " " + w3) == [w1[0]] + "*** " + [w2[0]] + "****" + " " + w3
  {
    var p, tail := w1 + " " + w2, " " + w3;
    var s := p + tail;
    var m := [w1[0]] + "*** " + [w2[0]] + "****";
    FullNameAtStart(w1, w2, tail);
    assert MatchAt(FullName, s, 0) == Some(Hit(|p|, m));
    SplitAtSpace(p, w3);
    FullNameNoneInTail(s, |p|);
    ReplaceFirstOnly(FullName, s, |p|, m);
    assert m + tail == m + " " + w3;
  }

  lemma SplitAtSpace(p: string, w: string)
    ensures var s := p + (" " + w);
            s[|p|..] == " " + w && s[|p| + 1..] == w && s == p + " " + w
  {
  }

  /** The name step is the full-name pattern followed by the other four. */
  lemma NameStepSplit(s: string, t: string)
    requires ReplaceAll(FullName, s) == t && ApplyAll(NamePatterns[1..], t) == t
    ensures ApplyAll(NamePatterns, s) == t
  {
    var rest := NamePatterns[1..];
    assert NamePatterns == [FullName] + rest;
    ApplyAllConcat([FullName], rest, s);
    assert [FullName][..0] == [];
  }

  /** A masked pair followed by one more word is left alone by the other four name patterns. */
  lemma MaskThenWordInert(x: char, y: char, w3: string)
    requires IsNameUpper(x) && IsNameUpper(y) && IsNameWord(w3)
    ensures var t := [x] + "*** " + [y] + "****" + " " + w3;
            ApplyAll(NamePatterns[1..], t) == t
  {
    var m1 := [x] + "*** " + [y] + "****";
    var t := m1 + " " + w3;
    MaskHasNoLower(x, y);
    assert forall j :: |m1| + 1 <= j < |t| ==> t[j] == w3[j - |m1| - 1];
    NameTailInert(NamePatterns[1..], t, |m1| + 1);
  }

  /**
   * "Sayın Ahmet Yılmaz" never reaches the respectful-address pattern: the
   * full-name pattern runs first and pairs the form of address with the first
   * name, and the surname, left alone, is not masked at all.
   */
  lemma RespectfulLeaksSurname(t0: string, w2: string, w3: string)
    requires t0 in Addresses && IsNameWord(w2) && IsAsciiLower(w2[|w2| - 1]) && IsNameWord(w3)
    ensures Guarded(NamePatterns, Str(t0 + " " + w2 + " " + w3))
            == Str([t0[0]] + "*** " + [w2[0]] + "**** " + w3)
  {
    AddressesAreWords(t0);
    FullNameThenWord(t0, w2, w3);
    MaskThenWordInert(t0[0], w2[0], w3);
    NameStepSplit(t0 + " " + w2 + " " + w3, [t0[0]] + "*** " + [w2[0]] + "****" + " " + w3);
    assert [t0[0]] + "*** " + [w2[0]] + "****" + " " + w3 == [t0[0]] + "*** " + [w2[0]] + "**** " + w3;
  }

  lemma SayinAhmetYilmaz(text: string)
    requires text == "Sayın Ahmet Yılmaz"
    ensures Guarded(NamePatterns, Str(text)) == Str("S*** A**** Yılmaz")
  {
    var t0, w2, w3 := "Sayın", "Ahmet", "Yılmaz";
    SayinAhmetYilmazParts(t0, w2, w3);
    RespectfulLeaksSurname(t0, w2, w3);
  }

  lemma SayinAhmetYilmazParts(t0: string, w2: string, w3: string)
    requires t0 == "Sayın" && w2 == "Ahmet" && w3 == "Yılmaz"
    ensures t0 in Addresses && IsNameWord(w2) && IsAsciiLower(w2[|w2| - 1]) && IsNameWord(w3)
    ensures t0 + " " + w2 + " " + w3 == "Sayın Ahmet Yılmaz"
    ensures [t0[0]] + "*** " + [w2[0]] + "**** " + w3 == "S*** A**** Yılmaz"
  {
    assert Addresses[0] == t0;
  }

  // ---------------------------------------------------------------------------
  // sanitizeObject (utils/privacyUtils.js:186-220)

  const PersonalFields: seq<string> := [
    "name", "fullName", "full_name", "firstName", "first_name",
    "lastName", "last_name", "username", "user_name",
    "email", "phone", "telephone", "mobile", "gsm",
    "address", "adres", "street", "sokak", "cadde",
    "tckn", "tc", "kimlik", "identity", "passport",
    "basvurucu", "davaci", "davali", "müvekkil", "avukat",
    "raportor", "üye", "hakim", "savci"]

  /** `toLowerCase` on ASCII and the Turkish capitals; 'İ' becomes "i" and a combining dot. */
  function LowerChar(c: char): (r: string)
    ensures |r| >= 1
  {
    if IsAsciiUpper(c) then [(c as int + 32) as char]
    else if c == 'Ç' then "ç"
    else if c == 'Ğ' then "ğ"
    else if c == 'Ö' then "ö"
    else if c == 'Ş' then "ş"
    else if c == 'Ü' then "ü"
    else if c == 'İ' then "i\U{0307}"
    else [c]
  }

  function ToLower(s: string): (r: string)
    ensures |r| >= |s|
  {
    if s == [] then [] else LowerChar(s[0]) + ToLower(s[1..])
  }

  /** `personalDataFields.some(f => lowerKey.includes(f) || f.includes(lowerKey))` */
  predicate IsPersonalKey(key: string) {
    var k := ToLower(key);
    exists i :: 0 <= i < |PersonalFields| && (Contains(k, PersonalFields[i]) || Contains(PersonalFields[i], k))
  }

  /** What sanitizeObject produces: a copy in which each field is treated on its own. */
  function SanitizedValue(v: Value): Value
    decreases v, 1
  {
    match v
    case Obj(fs) => Obj(seq(|fs|, j requires 0 <= j < |fs| => SanitizedField(fs[j])))
    case _ => v
  }

  /** A personal string is redacted, a nested object is walked, anything else is copied. */
  function SanitizedField(f: Field): Field
    decreases f, 0
  {
    if IsPersonalKey(f.key) && f.value.Str? then Field(f.key, Guarded(ServerPipeline, f.value))
    else if f.value.Obj? then Field(f.key, SanitizedValue(f.value))
    else f
  }

  /** `{ ...obj }` and then `Object.keys(sanitized).forEach(...)` overwriting fields of the copy. */
  method SanitizeObject(obj: Value) returns (r: Value)
    ensures r == SanitizedValue(obj)
    decreases obj
  {
    if !obj.Obj? {
      return obj;
    }
    var fs := obj.fields;
    var i := 0;
    while i < |fs|
      invariant 0 <= i <= |fs| == |obj.fields|
      invariant forall j :: 0 <= j < i ==> fs[j] == SanitizedField(obj.fields[j])
      invariant forall j :: i <= j < |fs| ==> fs[j] == obj.fields[j]
    {
      var f := fs[i];
      if IsPersonalKey(f.key) && f.value.Str? {
        var v := SanitizeAllPersonalData(f.value);
        fs := fs[i := Field(f.key, v)];
      } else if f.value.Obj? {
        assert f.value < f < obj;
        var v := SanitizeObject(f.value);
        fs := fs[i := Field(f.key, v)];
      }
      i := i + 1;
    }
    r := Obj(fs);
  }

  /** The value with every string emptied: its keys, nesting and non-string values. */
  function Skeleton(v: Value): Value
    decreases v
  {
    match v
    case Str(_) => Str("")
    case Obj(fs) => Obj(seq(|fs|, j requires 0 <= j < |fs| => Field(fs[j].key, Skeleton(fs[j].value))))
    case _ => v
  }

  /** sanitizeObject changes strings only: no key, no nesting and no other value. */
  lemma {:induction false} SanitizePreservesSkeleton(v: Value)
    ensures Skeleton(SanitizedValue(v)) == Skeleton(v)
    decreases v
  {
    if v.Obj? {
      var fs := v.fields;
      forall j | 0 <= j < |fs|
        ensures Skeleton(SanitizedField(fs[j]).value) == Skeleton(fs[j].value)
      {
        assert fs[j].value < fs[j] < v;
        SanitizePreservesSkeleton(fs[j].value);
      }
    }
  }

  /** No key at any depth looks personal. */
  predicate NoPersonalKeys(v: Value)
    decreases v
  {
    v.Obj? ==> forall j :: 0 <= j < |v.fields| ==>
      !IsPersonalKey(v.fields[j].key) && NoPersonalKeys(v.fields[j].value)
  }

  /** A record without personal keys comes back equal to the input. */
  lemma {:induction false} NoPersonalKeysUnchanged(v: Value)
    requires NoPersonalKeys(v)
    ensures SanitizedValue(v) == v
    decreases v
  {
    if v.Obj? {
      var fs := v.fields;
      forall j | 0 <= j < |fs|
        ensures SanitizedField(fs[j]) == fs[j]
      {
        assert fs[j].value < fs[j] < v;
        NoPersonalKeysUnchanged(fs[j].value);
      }
      assert SanitizedValue(v).fields == fs;
    }
  }

  /**
   * The test runs both ways: the empty key and keys that are parts of a listed
   * name (such as "id", part of "identity") count as personal.
   */
  lemma ShortKeysArePersonal()
    ensures IsPersonalKey("") && IsPersonalKey("id")
  {
    assert PersonalFields[0] == "name" && StartsWithAt("name", 0, "");
    assert ToLower("") == "" && Contains(PersonalFields[0], "");
    assert PersonalFields[22] == "identity" && StartsWithAt("identity", 0, "id");
    assert ToLower("id") == "id" && Contains(PersonalFields[22], "id");
  }

  /** Any key containing "tc" is personal, such as "fetchedAt". */
  lemma FetchedAtIsPersonal(key: string)
    requires key == "fetchedAt"
    ensures IsPersonalKey(key)
  {
    var a, b, c := key[..7], key[7..8], key[8..];
    assert key == a + b + c;
    ToLowerConcat(a + b, c);
    ToLowerConcat(a, b);
    ToLowerOfLower(a);
    ToLowerOfLower(c);
    assert ToLower(b) == LowerChar(b[0]) + ToLower(b[1..]);
    var k := ToLower(key);
    assert k == a + "a" + c;
    var tc := PersonalFields[20];
    assert tc == "tc";
    assert a[2] == key[2] == 't' && a[3] == key[3] == 'c';
    assert k[2] == 't' && k[3] == 'c';
    assert k[2..4] == tc;
    assert StartsWithAt(k, 2, tc);
    PersonalByField(key, 20);
  }

  /** The key is lower-cased first: "EMAIL" is personal. */
  lemma UpperCaseKeyIsPersonal()
    ensures IsPersonalKey("EMAIL")
  {
    var key := "EMAIL";
    ToLowerOfUpper(key);
    var k := ToLower(key);
    assert k[0] == 'e' && k[1] == 'm' && k[2] == 'a' && k[3] == 'i' && k[4] == 'l';
    assert k == "email";
    assert PersonalFields[9] == "email" && StartsWithAt("email", 0, "email");
    PersonalByField(key, 9);
  }

  /** ASCII capitals are lowered one for one, each to the letter 32 code points further. */
  lemma {:induction false} ToLowerOfUpper(s: string)
    requires forall j :: 0 <= j < |s| ==> IsAsciiUpper(s[j])
    ensures |ToLower(s)| == |s|
    ensures forall j :: 0 <= j < |s| ==> ToLower(s)[j] as int == s[j] as int + 32
    decreases |s|
  {
    if s != [] {
      ToLowerOfUpper(s[1..]);
    }
  }

  /** A key whose lower-case form contains one of the listed fields is personal. */
  lemma PersonalByField(key: string, i: nat)
    requires i < |PersonalFields| && Contains(ToLower(key), PersonalFields[i])
    ensures IsPersonalKey(key)
  {
  }

  /** `toLowerCase` works character by character. */
  lemma {:induction false} ToLowerConcat(a: string, b: string)
    ensures ToLower(a + b) == ToLower(a) + ToLower(b)
    decreases |a|
  {
    if a == [] {
      assert a + b == b;
    } else {
      assert (a + b)[0] == a[0] && (a + b)[1..] == a[1..] + b;
      ToLowerConcat(a[1..], b);
    }
  }

  /** Lower-case ASCII text is left as it is. */
  lemma {:induction false} ToLowerOfLower(s: string)
    requires forall j :: 0 <= j < |s| ==> IsAsciiLower(s[j])
    ensures ToLower(s) == s
    decreases |s|
  {
    if s != [] {
      ToLowerOfLower(s[1..]);
      assert [s[0]] + s[1..] == s;
    }
  }
}
