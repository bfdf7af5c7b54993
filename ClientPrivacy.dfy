/**
 * The browser's copy of the redaction (client/src/App.js:8-57) and its user
 * id (client/src/App.js:76-81).  The client's `sanitizeNames` has the same
 * five patterns and templates as the server's, so it is Privacy.SanitizeNames;
 * its `sanitizeAllPersonalData` runs a different, shorter cascade.
 */
module ClientPrivacy {
  import opened Text
  import opened Patterns
  import opened Privacy

  /** E-mails, the two phone forms, identity numbers, and names last; no bare phones, no addresses. */
  const ClientPipeline: seq<Pattern> := ClientFirst + NamePatterns

  method ClientSanitizeAllPersonalData(text: Value) returns (r: Value)
    ensures r == Guarded(ClientPipeline, text)
  {
    if !IsText(text) {
      return text;
    }
    var t := ReplaceAll(Email, text.s);
    t := ReplaceAll(MobilePhone, t);
    t := ReplaceAll(IntlPhone, t);
    t := ReplaceAll(Tckn, t);
    r := SanitizeNames(Str(t));
    ClientFirstSteps(text.s);
    GuardedThen(ClientFirst, NamePatterns, text);
  }

  const ClientFirst: seq<Pattern> := [Email, MobilePhone, IntlPhone, Tckn]

  lemma ClientFirstSteps(s: string)
    ensures ApplyAll(ClientFirst, s)
            == ReplaceAll(Tckn, ReplaceAll(IntlPhone, ReplaceAll(MobilePhone, ReplaceAll(Email, s))))
  {
    var f4: seq<Pattern> := [Email, MobilePhone, IntlPhone, Tckn];
    var f3: seq<Pattern> := [Email, MobilePhone, IntlPhone];
    var f2: seq<Pattern> := [Email, MobilePhone];
    var f1: seq<Pattern> := [Email];
    assert f4[..3] == f3 && f3[..2] == f2 && f2[..1] == f1 && f1[..0] == [];
    assert ApplyAll(f1, s) == ReplaceAll(Email, s);
    assert ApplyAll(f2, s) == ReplaceAll(MobilePhone, ApplyAll(f1, s));
    assert ApplyAll(f3, s) == ReplaceAll(IntlPhone, ApplyAll(f2, s));
    assert ApplyAll(f4, s) == ReplaceAll(Tckn, ApplyAll(f3, s));
  }

  // ---------------------------------------------------------------------------
  // The two cascades differ: a postal code is masked by the server only

  /** The patterns of either cascade but the server's last one, the postal code. */
  const OtherThanPostal: seq<Pattern> := [Email, MobilePhone, IntlPhone, BarePhone, Tckn, StreetName, DoorNumber]

  lemma PipelinesBeforePostal(p: Pattern)
    requires p in ClientPipeline || p in ServerPipeline[..|ServerPipeline| - 1]
    ensures p in NamePatterns || p in OtherThanPostal
  {
    assert ServerPipeline[..|ServerPipeline| - 1] == NamePatterns + OtherThanPostal;
    assert ClientPipeline == ClientFirst + NamePatterns;
  }

  /** Every pattern but the postal code needs a non-digit or at least ten characters. */
  lemma DigitMatchNeeds(p: Pattern, s: string, k: nat)
    requires p in NamePatterns || p in OtherThanPostal
    requires k < |s| && MatchAt(p, s, k).Some?
    ensures |s| >= 10 || exists j :: 0 <= j < |s| && !IsDigit(s[j])
  {
    if p in NamePatterns {
      NameMatchHasLower(p, s, k);
    } else {
      match p {
        case Email => EmailNeedsNonDigit(s, k);
        case MobilePhone => assert MatchMobile(s, k).Some?;
        case IntlPhone => IntlNeedsNonDigit(s, k);
        case BarePhone => assert MatchBare(s, k).Some?;
        case Tckn => assert MatchTckn(s, k).Some?;
        case StreetName => StreetNeedsNonDigit(s, k);
        case DoorNumber => DoorNeedsNonDigit(s, k);
      }
    }
  }

  lemma EmailNeedsNonDigit(s: string, k: nat)
    requires k < |s| && MatchAt(Email, s, k).Some?
    ensures exists j :: 0 <= j < |s| && !IsDigit(s[j])
  {
    var at := EmailParts(s, k).value.0;
    assert !IsDigit(s[at]);
  }

  lemma IntlNeedsNonDigit(s: string, k: nat)
    requires k < |s| && MatchAt(IntlPhone, s, k).Some?
    ensures exists j :: 0 <= j < |s| && !IsDigit(s[j])
  {
    assert MatchIntl(s, k).Some?;
    assert s[k] == s[k..k + 3][0];
  }

  lemma StreetNeedsNonDigit(s: string, k: nat)
    requires k < |s| && MatchAt(StreetName, s, k).Some?
    ensures exists j :: 0 <= j < |s| && !IsDigit(s[j])
  {
    assert MatchKeyword(s, k, StreetWords).Some?;
    assert !IsDigit(s[k]);
  }

  lemma DoorNeedsNonDigit(s: string, k: nat)
    requires k < |s| && MatchAt(DoorNumber, s, k).Some?
    ensures exists j :: 0 <= j < |s| && !IsDigit(s[j])
  {
    assert MatchDoor(s, k).Some?;
    assert s[k] == s[k..k + 2][0];
  }

  /** A text of fewer than ten digits passes every step but the postal code unchanged. */
  lemma ShortDigitsInert(ps: seq<Pattern>, s: string)
    requires forall p :: p in ps ==> p in ClientPipeline || p in ServerPipeline[..|ServerPipeline| - 1]
    requires |s| < 10 && forall j :: 0 <= j < |s| ==> IsDigit(s[j])
    ensures ApplyAll(ps, s) == s
  {
    forall p, k | p in ps && 0 <= k < |s|
      ensures MatchAt(p, s, k).None?
    {
      if MatchAt(p, s, k).Some? {
        PipelinesBeforePostal(p);
        DigitMatchNeeds(p, s, k);
      }
    }
    ApplyAllInert(ps, s);
  }

  /** Five digits standing alone are a postal code: the first two are kept. */
  lemma PostalCodeAlone(s: string)
    requires |s| == 5 && forall j :: 0 <= j < 5 ==> IsDigit(s[j])
    ensures ReplaceAll(PostalCode, s) == s[..2] + "***"
  {
    assert !Boundary(s, 1) && !Boundary(s, 2) && !Boundary(s, 3) && !Boundary(s, 4);
    assert MatchAt(PostalCode, s, 0) == Some(Hit(5, s[..2] + "***"));
    ReplaceFirstOnly(PostalCode, s, 5, s[..2] + "***");
  }

  /**
   * A five-digit postal code is masked by the server's cascade and passes the
   * client's unchanged: the client has no address step.
   */
  lemma PostalCodeServerOnly(s: string)
    requires |s| == 5 && forall j :: 0 <= j < 5 ==> IsDigit(s[j])
    ensures Guarded(ServerPipeline, Str(s)) == Str(s[..2] + "***")
    ensures Guarded(ClientPipeline, Str(s)) == Str(s)
  {
    var n := |ServerPipeline| - 1;
    assert ServerPipeline == ServerPipeline[..n] + [PostalCode];
    ShortDigitsInert(ServerPipeline[..n], s);
    ApplyAllConcat(ServerPipeline[..n], [PostalCode], s);
    assert [PostalCode][..0] == [];
    PostalCodeAlone(s);
    ShortDigitsInert(ClientPipeline, s);
  }

  // ---------------------------------------------------------------------------
  // Client user id

  /** `client_${Date.now()}_${shortUuid}`, the clock and the UUID given. */
  function ClientUserId(timestamp: nat, uuid: string): (id: string)
    ensures |id| > 8 && id[..7] == "client_"
  {
    "client_" + NatToString(timestamp) + "_" + ShortUuid(uuid)
  }
}
