/**
 A term ceiling the validator accepts and no clock can read: a concrete license
 that passes the containment test, and authorizes what it was to exclude.
 */
module LicenseCeilings {
  import opened Options
  import opened Instants
  import opened Json
  import opened RightsScope
  import opened AuthorizationArtifact
  import opened LicenseTerms
  import opened LicenseMandate
  import opened LicenseJson
  import opened LicenseRoundTrip
  import opened LicensePrinting

  const START := "2024-01-01T00:00:00Z"
  const CEILING := "2025-01-01T00:00:00Z"
  const LATER := "2026-01-01T00:00:00Z"

  /** Its month does not exist. */
  const MONTH_THIRTEEN := "2024-13-01T00:00:00Z"

  /** How a clock reads the four strings. */
  predicate ReadsDates(parse: string -> Instant) {
    && Less(parse(START), parse(CEILING)) && Less(parse(CEILING), parse(LATER))
    && parse(MONTH_THIRTEEN) == Unreadable
  }

  lemma Zoned(s: string)
    requires Matches(s, "dddd-dd-ddTdd:dd:dd")
    ensures IsIsoTimestamp(s + "Z")
  {
    assert (s + "Z")[..19] == s;
  }

  /** The pattern constrains digits only, so month thirteen passes it like any date. */
  lemma PatternAcceptsMonthThirteen()
    ensures IsIsoTimestamp(MONTH_THIRTEEN)
  {
    Zoned("2024-13-01T00:00:00");
  }

  lemma PatternAcceptsCeiling()
    ensures IsIsoTimestamp(CEILING)
  {
    Zoned("2025-01-01T00:00:00");
  }

  lemma PatternAcceptsLater()
    ensures IsIsoTimestamp(LATER)
  {
    Zoned("2026-01-01T00:00:00");
  }

  // ---- The terms, for any right, use and licensee ----------------------------------

  function TermsFor(right: string, use: string, licenseeRef: string, end: string): Terms {
    Terms([right], licenseeRef, [use], NonExclusive, None, None, Constraints(None, None, Some(end), None, Prohibited, Prohibited, true, None))
  }

  function License(right: string, use: string, licenseeRef: string, at: string, end: string): Attempt {
    Attempt(licenseeRef, licenseeRef, [right], [use], NonExclusive, at, None, None, Some(end), None, None, None)
  }

  lemma TermsAreWellFormed(right: string, use: string, licenseeRef: string, end: string)
    requires right in RIGHT_TYPES && use in USE_TYPES && licenseeRef != "" && IsIsoTimestamp(end)
    ensures WellFormedTerms(TermsFor(right, use, licenseeRef, end))
  {
  }

  lemma TermsAreAccepted(right: string, use: string, licenseeRef: string, end: string)
    requires right in RIGHT_TYPES && use in USE_TYPES && licenseeRef != "" && IsIsoTimestamp(end)
    ensures TermsIssues(Serialize(TermsFor(right, use, licenseeRef, end))) == []
  {
    TermsAreWellFormed(right, use, licenseeRef, end);
    RoundTrip(TermsFor(right, use, licenseeRef, end));
  }

  lemma CeilingsDecideContainment(parse: string -> Instant, right: string, use: string, licenseeRef: string, inner: string, outer: string)
    ensures TermsWithin(parse, TermsFor(right, use, licenseeRef, inner), TermsFor(right, use, licenseeRef, outer))
      <==> !Greater(parse(inner), parse(outer))
  {
  }

  lemma CeilingDecidesTheLicense(
    parse: string -> Instant, right: string, use: string, licenseeRef: string, start: string, expiry: string, ceiling: string, end: string)
    requires Less(parse(start), parse(expiry))
    ensures Refusal(parse, Mandate(Active, start, expiry, TermsFor(right, use, licenseeRef, ceiling)), License(right, use, licenseeRef, start, end))
      == if Greater(parse(end), parse(ceiling)) then Some(LICENSE_TERM_EXCEEDS_MANDATE) else None
  {
  }

  // ---- The license -------------------------------------------------------------------

  /** Well-formed terms inside well-formed terms, under which more is authorized. */
  ghost predicate Escapes(parse: string -> Instant, inner: Mandate, outer: Mandate, attempt: Attempt) {
    && WellFormedTerms(inner.terms) && WellFormedTerms(outer.terms) && SameStatusAndWindow(inner, outer)
    && TermsWithin(parse, inner.terms, outer.terms)
    && Authorizes(parse, inner, attempt)
    && Refusal(parse, outer, attempt) == Some(LICENSE_TERM_EXCEEDS_MANDATE)
  }

  lemma UnreadableEscapes(
    parse: string -> Instant, right: string, use: string, licenseeRef: string, start: string, ceiling: string, later: string, unreadable: string)
    requires right in RIGHT_TYPES && use in USE_TYPES && licenseeRef != "" && IsIsoTimestamp(unreadable) && IsIsoTimestamp(ceiling)
    requires Less(parse(start), parse(later)) && Less(parse(ceiling), parse(later)) && parse(unreadable) == Unreadable
    ensures Escapes(parse, Mandate(Active, start, later, TermsFor(right, use, licenseeRef, unreadable)),
                    Mandate(Active, start, later, TermsFor(right, use, licenseeRef, ceiling)), License(right, use, licenseeRef, start, later))
  {
    TermsAreWellFormed(right, use, licenseeRef, unreadable);
    TermsAreWellFormed(right, use, licenseeRef, ceiling);
    CeilingsDecideContainment(parse, right, use, licenseeRef, unreadable, ceiling);
    CeilingDecidesTheLicense(parse, right, use, licenseeRef, start, later, unreadable, later);
    CeilingDecidesTheLicense(parse, right, use, licenseeRef, start, later, ceiling, later);
  }

  /** Granted terms the validator accepts, inside the requested ones, authorize a license the requested ones refuse. */
  lemma UnreadableCeilingAuthorizesMore(parse: string -> Instant, right: string, use: string, licenseeRef: string)
    requires ReadsDates(parse) && right in RIGHT_TYPES && use in USE_TYPES && licenseeRef != ""
    ensures TermsIssues(Serialize(TermsFor(right, use, licenseeRef, MONTH_THIRTEEN))) == []
    ensures Escapes(parse, Mandate(Active, START, LATER, TermsFor(right, use, licenseeRef, MONTH_THIRTEEN)),
                    Mandate(Active, START, LATER, TermsFor(right, use, licenseeRef, CEILING)), License(right, use, licenseeRef, START, LATER))
  {
    PatternAcceptsMonthThirteen();
    PatternAcceptsCeiling();
    UnreadableEscapes(parse, right, use, licenseeRef, START, CEILING, LATER, MONTH_THIRTEEN);
    TermsAreAccepted(right, use, licenseeRef, MONTH_THIRTEEN);
  }

  /** The same string lets a later ceiling pass through the middle of a chain. */
  lemma UnreadableCeilingBreaksTheChain(parse: string -> Instant, right: string, use: string, licenseeRef: string)
    requires ReadsDates(parse) && right in RIGHT_TYPES && use in USE_TYPES && licenseeRef != ""
    ensures var late, middle, early := TermsFor(right, use, licenseeRef, LATER), TermsFor(right, use, licenseeRef, MONTH_THIRTEEN),
                                       TermsFor(right, use, licenseeRef, CEILING);
      && WellFormedTerms(late) && WellFormedTerms(middle) && WellFormedTerms(early)
      && TermsWithin(parse, late, middle) && TermsWithin(parse, middle, early) && !TermsWithin(parse, late, early)
  {
    PatternAcceptsMonthThirteen();
    PatternAcceptsCeiling();
    PatternAcceptsLater();
    TermsAreWellFormed(right, use, licenseeRef, LATER);
    TermsAreWellFormed(right, use, licenseeRef, MONTH_THIRTEEN);
    TermsAreWellFormed(right, use, licenseeRef, CEILING);
    CeilingsDecideContainment(parse, right, use, licenseeRef, LATER, MONTH_THIRTEEN);
    CeilingsDecideContainment(parse, right, use, licenseeRef, MONTH_THIRTEEN, CEILING);
    CeilingsDecideContainment(parse, right, use, licenseeRef, LATER, CEILING);
  }

  // ---- The end a license reports -------------------------------------------------------

  /** The license reports an end, which can be read and is no later than the ceiling. */
  predicate EndsBy(parse: string -> Instant, attempt: Attempt, ceiling: Instant) {
    && attempt.licenseExpiresAt.Some? && parse(attempt.licenseExpiresAt.value).At?
    && ceiling.At? && parse(attempt.licenseExpiresAt.value).ms <= ceiling.ms
  }

  /** Under a readable ceiling an authorized license always reports an end, and ends by the ceiling exactly when that end can be read. */
  lemma AuthorizedEndsByTheCeilingIff(parse: string -> Instant, mandate: Mandate, attempt: Attempt)
    requires Authorizes(parse, mandate, attempt)
    requires mandate.terms.constraints.maximumLicenseTermEndsAt.Some? && !UnreadableTermEnd(parse, mandate.terms)
    ensures attempt.licenseExpiresAt.Some?
    ensures EndsBy(parse, attempt, parse(mandate.terms.constraints.maximumLicenseTermEndsAt.value))
      <==> parse(attempt.licenseExpiresAt.value).At?
  {
  }

  /** A license that reports month thirteen as its end is authorized under a ceiling that can be read. */
  lemma UnreadableEndIsAuthorized(parse: string -> Instant, right: string, use: string, licenseeRef: string)
    requires ReadsDates(parse) && right in RIGHT_TYPES && use in USE_TYPES && licenseeRef != ""
    ensures var mandate, attempt :=
        Mandate(Active, START, LATER, TermsFor(right, use, licenseeRef, CEILING)), License(right, use, licenseeRef, START, MONTH_THIRTEEN);
      && WellFormedTerms(mandate.terms) && IsIsoTimestamp(MONTH_THIRTEEN)
      && Authorizes(parse, mandate, attempt) && !EndsBy(parse, attempt, parse(CEILING))
  {
    PatternAcceptsMonthThirteen();
    PatternAcceptsCeiling();
    TermsAreWellFormed(right, use, licenseeRef, CEILING);
    CeilingDecidesTheLicense(parse, right, use, licenseeRef, START, LATER, CEILING, MONTH_THIRTEEN);
  }
}
