/** The names the contracts are written in: fields, statuses, vocabularies, and the shape of a timestamp. */
module Vocabulary {
  import opened Options
  import opened SafeIntegers
  import opened RightsScope
  import opened Json
  import Decimal
  import LicenseTerms
  import LicenseJson
  import AccessGrant
  import EvidenceCorrelation
  import ResourceRefs

  // ---- Fields ----------------------------------------------------------------------

  lemma LicenseTermsAreNamed(c: Json)
    ensures var f := LicenseJson.TermsFieldsOf(c);
      && f.rights == Get(c, "rights") && f.licenseeRef == Get(c, "licenseeRef") && f.permittedUses == Get(c, "permittedUses")
      && f.exclusivity == Get(c, "exclusivity") && f.rightsScope == Get(c, "rightsScope")
      && f.executorRef == Get(c, "executorRef") && f.constraints == Get(c, "constraints")
  {
  }

  lemma LicenseConstraintsAreNamed(c: Json)
    ensures var f := LicenseJson.ConstraintFieldsOf(c);
      && f.prohibitedUses == Get(c, "prohibitedUses") && f.permittedContexts == Get(c, "permittedContexts")
      && f.maximumLicenseTermEndsAt == Get(c, "maximumLicenseTermEndsAt") && f.maximumLicensedUnits == Get(c, "maximumLicensedUnits")
      && f.sublicensing == Get(c, "sublicensing") && f.assignment == Get(c, "assignment")
      && f.additionalLicensesAllowed == Get(c, "additionalLicensesAllowed")
      && f.externalAgreementReferenceRequired == Get(c, "externalAgreementReferenceRequired")
  {
  }

  lemma AccessGrantsAreNamed(c: Json)
    ensures var f := AccessGrant.FieldsOf(c);
      && f.schemaVersion == Get(c, "schemaVersion") && f.id == Get(c, "id") && f.status == Get(c, "status")
      && f.resource == Get(c, "resource") && f.decisionRef == Get(c, "decisionRef") && f.principalId == Get(c, "principalId")
      && f.issuedAt == Get(c, "issuedAt") && f.expiresAt == Get(c, "expiresAt") && f.correlationId == Get(c, "correlationId")
      && f.issuerRef == Get(c, "issuerRef") && f.obligationRefs == Get(c, "obligationRefs") && f.auditRefs == Get(c, "auditRefs")
  {
  }

  lemma CorrelationsAreNamed(c: Json)
    ensures var f := EvidenceCorrelation.FieldsOf(c);
      && f.schemaVersion == Get(c, "schemaVersion") && f.id == Get(c, "id") && f.resource == Get(c, "resource")
      && f.decisionRefs == Get(c, "decisionRefs") && f.correlatedAt == Get(c, "correlatedAt")
      && f.obligationRefs == Get(c, "obligationRefs") && f.grantRefs == Get(c, "grantRefs") && f.usageRefs == Get(c, "usageRefs")
      && f.revocationRefs == Get(c, "revocationRefs") && f.metadata == Get(c, "metadata") && f.description == Get(c, "description")
  {
  }

  lemma ResourcesAreNamed(c: Json)
    ensures var f := ResourceRefs.FieldsOf(c);
      f.kind == Get(c, "kind") && f.id == Get(c, "id") && f.tenantId == Get(c, "tenantId") && f.attributes == Get(c, "attributes")
  {
  }

  // ---- Words --------------------------------------------------------------------------

  lemma StatusesAreNamed()
    ensures AccessGrant.StatusName(AccessGrant.Active) == "active" && AccessGrant.StatusName(AccessGrant.Revoked) == "revoked"
  {
  }

  lemma TermsAreWorded()
    ensures LicenseJson.ExclusivityName(LicenseTerms.NonExclusive) == "non-exclusive"
    ensures LicenseJson.ExclusivityName(LicenseTerms.Sole) == "sole" && LicenseJson.ExclusivityName(LicenseTerms.Exclusive) == "exclusive"
    ensures LicenseJson.DispositionName(LicenseTerms.Prohibited) == "prohibited"
    ensures LicenseJson.DispositionName(LicenseTerms.ApprovalRequired) == "approval-required"
    ensures LicenseJson.DispositionName(LicenseTerms.Permitted) == "permitted"
  {
  }

  lemma UsesAre(use: string)
    ensures use in LicenseTerms.USE_TYPES <==>
      use in ["display", "reproduce", "distribute", "broadcast", "modify", "derivative-work", "internal-use", "commercial-use", "model-training"]
  {
  }

  lemma RightsAre(right: string)
    ensures right in RIGHT_TYPES <==>
      right in ["economic-interest", "revenue-right", "ownership-interest", "usage-right", "contractual-claim"]
  {
  }

  /** A whole is ten thousand basis points, and a safe integer one whose double is exact. */
  lemma BoundsAre(n: int)
    ensures FULL_BASIS_POINTS == 10_000
    ensures IsSafe(n) <==> -9_007_199_254_740_991 <= n <= 9_007_199_254_740_991
  {
  }

  // ---- Timestamps -----------------------------------------------------------------------

  predicate Digit(c: char) {
    c in {'0', '1', '2', '3', '4', '5', '6', '7', '8', '9'}
  }

  /** Z, or an offset in hours and minutes. */
  predicate Zone(s: string) {
    || s == ['Z']
    || (|s| == 6 && s[0] in {'+', '-'} && Digit(s[1]) && Digit(s[2]) && s[3] == ':' && Digit(s[4]) && Digit(s[5]))
  }

  /** A point, `n` digits, and a zone. */
  predicate FractionAndZone(s: string, n: nat) {
    && 1 <= n < |s| - 1
    && s[0] == '.' && (forall i | 1 <= i <= n :: Digit(s[i])) && Zone(s[n + 1..])
  }

  /** A zone, after a fraction of any length if there is one. */
  predicate Ending(s: string) {
    Zone(s) || exists n: nat | n < |s| :: FractionAndZone(s, n)
  }

  /** Date and time, character by character. */
  predicate Timestamp(s: string) {
    && |s| >= 20
    && Digit(s[0]) && Digit(s[1]) && Digit(s[2]) && Digit(s[3]) && s[4] == '-'
    && Digit(s[5]) && Digit(s[6]) && s[7] == '-' && Digit(s[8]) && Digit(s[9]) && s[10] == 'T'
    && Digit(s[11]) && Digit(s[12]) && s[13] == ':' && Digit(s[14]) && Digit(s[15]) && s[16] == ':' && Digit(s[17]) && Digit(s[18])
    && Ending(s[19..])
  }

  lemma ZoneIff(s: string)
    ensures IsZone(s) <==> Zone(s)
  {
    assert "Z" == ['Z'];
  }

  lemma FractionIff(s: string, n: nat)
    requires |s| >= 20 && 1 <= n < |s| - 20
    ensures FractionAndZone(s[19..], n) <==> s[19] == '.' && Decimal.AllDigits(s[20..n + 20]) && IsZone(s[n + 20..])
  {
    var t, digits := s[19..], s[20..n + 20];
    assert t[n + 1..] == s[n + 20..];
    ZoneIff(s[n + 20..]);
    if FractionAndZone(t, n) {
      forall i | 0 <= i < |digits| ensures Decimal.IsDigit(digits[i]) { assert Digit(t[i + 1]); }
    }
    if Decimal.AllDigits(s[20..n + 20]) {
      forall i | 1 <= i <= n ensures Digit(t[i]) { assert Decimal.IsDigit(digits[i - 1]); }
    }
  }

  lemma EndingIff(s: string)
    requires |s| >= 20
    ensures Ending(s[19..]) <==>
      IsZone(s[19..]) || (s[19] == '.' && exists k | 21 <= k < |s| :: Decimal.AllDigits(s[20..k]) && IsZone(s[k..]))
  {
    ZoneIff(s[19..]);
    if n: nat :| n < |s[19..]| && FractionAndZone(s[19..], n) {
      FractionIff(s, n);
      assert Decimal.AllDigits(s[20..n + 20]) && IsZone(s[n + 20..]);
    }
    if s[19] == '.' {
      if k :| 21 <= k < |s| && Decimal.AllDigits(s[20..k]) && IsZone(s[k..]) {
        FractionIff(s, k - 20);
      }
    }
  }

  lemma DateAndTimeIff(s: string)
    requires |s| == 19
    ensures Matches(s, "dddd-dd-ddTdd:dd:dd") <==>
      && Digit(s[0]) && Digit(s[1]) && Digit(s[2]) && Digit(s[3]) && s[4] == '-'
      && Digit(s[5]) && Digit(s[6]) && s[7] == '-' && Digit(s[8]) && Digit(s[9]) && s[10] == 'T'
      && Digit(s[11]) && Digit(s[12]) && s[13] == ':' && Digit(s[14]) && Digit(s[15]) && s[16] == ':' && Digit(s[17]) && Digit(s[18])
  {
  }

  /** The pattern every contract checks timestamps against, character by character. */
  lemma TimestampIff(s: string)
    ensures IsIsoTimestamp(s) <==> Timestamp(s)
  {
    if |s| >= 20 {
      EndingIff(s);
      DateAndTimeIff(s[..19]);
    }
  }
}
