# Soberanía Enterprise: a verified model of its governance core

This project models five connected parts of the repository and proves what they promise.

1. **Execution grants.** The runtime host validates a grant with several awaited store reads and consumes it with one atomic mark. Every call is a process with a program counter, every store, signer or sink access is one atomic step, and a run interleaves the steps of any number of calls in any order (`ExecutionGrants`). What holds in every run is in `ExecutionGrantSafety`, what each reason code says of the store and the grant in `ExecutionGrantGrounds`, what one verdict stands for in `ExecutionGrantVerdicts`, and `RuntimeHost` is the imperative host over its demonstration stores, each method proved equal to driving the same call through the protocol.
2. **Governed quantities and mandates.** Scopes as a partial commutative sum with rounding (`SafeIntegers`, `RightsScope`), collateral terms, authorization and the running total (`CollateralMandate`, `CollateralLedger`, `CollateralStore`), license terms and authorization (`LicenseTerms`, `LicenseMandate`), and the license validator, reader and printer over untyped input (`LicenseJson`, `LicenseIssues`, `LicenseRoundTrip`, `LicenseValidator`, `LicensePrinting`, `LicenseCeilings`).
3. **Authority chains and constraints.** Redelegation containment over chains of any length (`RepresentativeAuthority`), the representation store and when it grants and withdraws (`RepresentationStore`, `RepresentationAdmission`), the walker that resolves a request through it (`RepresentationResolver`, `RepresentationRuns`), also while the store goes on changing between its reads (`RepresentationRaces`, `RepresentationRaceCases`), what each of its answers says (`RepresentationVerdicts`), the constraint classifier and the policy view (`ConstraintApplicability`, `ConstraintPolicy`).
4. **Control plane.** The request, decision and grant records and the append-only audit log (`ControlPlane`, `ControlPlaneInvariants`, `ControlPlaneService`), and who may decide and revoke (`ControlPlaneEffects`).
5. **Canonical printing and parsing.** Sorting and record equality (`Ordering`, `Records`, `Lists`), untyped values (`Json`), access grants (`AccessGrant`, `AccessGrantPrinting`, `AccessGrantValidator`), evidence correlation (`EvidenceCorrelation`, `EvidenceCorrelationPrinting`, `EvidenceCorrelationValidator`, `ReferenceLists`, `ResourceRefs`) the words all of these are written in (`Vocabulary`) and length-prefixed keys (`Decimal`, `PositionKey`).

Conventions. An instant is the number a timestamp parses to, or no number (`Instants`): the timestamp pattern admits strings such as `2024-13-01T00:00:00Z` that parse to nothing, and every comparison with those is false. Where strings are kept, parsing is a parameter `parse`. Strings are sequences of code units. Random identifiers are parameters, assumed fresh where the source draws them. An object is the sequence of its entries with distinct keys.

## What was found

The code is modelled as it stands. Where it does less than its comments or the obvious reading promise, the exact condition is proved.

- The array comparison the packages call duplicate-insensitive compares sorted copies, so repetition counts: it is multiset equality (`Ordering.StringArrayEqualsIsMultisetEquality`, `Ordering.RepetitionIsNotIgnored`), and set equality only on lists without repetition.
- License containment compares two term ceilings by `>` on parsed instants. An unreadable granted ceiling therefore passes as contained in a readable one, and such a mandate authorizes what the requested terms refuse. Containment is sound, and chains, exactly when that case is excluded (`LicenseMandate.ContainmentIsSoundIff`, `LicenseTerms.TransitiveThroughIff`). The concrete terms, and the license they let through, are in `LicenseCeilings.UnreadableCeilingAuthorizesMore`.
- In the same way a license that reports an end which cannot be read passes every ceiling. Under a readable ceiling an authorized license ends by it exactly when its reported end can be read (`LicenseCeilings.AuthorizedEndsByTheCeilingIff`, `LicenseCeilings.UnreadableEndIsAuthorized`).
- The same holds of redelegation windows (`RepresentativeAuthority.WindowInheritedIff`, `RepresentativeAuthority.ThroughLinkIff`). The representation store refuses unreadable timestamps, so over stored records the results are unconditional (`RepresentationResolver.RepresentsIff`).
- A constraint constrains at some instant exactly when it stands and its effective instant can be read. A bound one whose instant cannot be read is reported as not constraining at every instant, and never as invalid, even when nothing classifies it (`ConstraintApplicability.NeverConstrainingIff`).
- Whether a call reports a revocation is decided by the store at the instant of its own read. A revocation that completes between that read and the mark does not prevent the consumption (`ExecutionGrantVerdicts.RevocationBetweenReadAndMark`); a call that begins after it is always refused.
- A request is resolved through several awaited reads, and its answer need not be that of any one instant: a delegation that comes to stand late lets through a request the store would have refused at every read (`RepresentationRaceCases.LateDelegationRepresents`), and a representation granted after the listing is missed although at every read some record warrants the request (`RepresentationRaceCases.LateGrantIsMissed`). While delegations only lapse, the answer is no more than that of the beginning and no less than that of the end for the records held at the beginning (`RepresentationRaces.RacedLiesBetween`); if moreover nothing new is bound as asked, it is the answer of the beginning or of the end (`RepresentationRaces.RacedIsTheBeginningOrTheEnd`). Under any interleaving, no withdrawal that completed before a link was read is missed (`RepresentationRaces.WithdrawnBeforeItsRead`).
- Recording a collateral execution does not run the evidence validator. Evidence it would refuse, a negative quantity, is authorized and lowers the total (`CollateralLedger.UnvalidatedEvidenceCanLowerTheTotal`); from a total that is a safe integer, an accepted execution never lowers it exactly when its quantity is not negative (`CollateralLedger.TotalNeverFallsIff`).
- The access-grant and correlation validators do not look at `resource.tenantId` and `resource.attributes`; a candidate decodes to a valid value exactly when it passes and those are well-typed (`AccessGrantPrinting.AcceptedAndTypedIff`, `AccessGrantPrinting.UntypedTenantIsAccepted`).
- A correlation graph holding the number that is not one differs from itself although it prints alike (`EvidenceCorrelationPrinting.EqualIffPrintedAlike`); validation excludes that value.
- The serializers copy attributes and metadata by assignment, and assigning to `__proto__` makes no entry. A valid grant or graph that holds that name, as a parsed one can, is printed and read back without it and without an error: the round trip returns an equal value exactly when the name is absent (`AccessGrantPrinting.RoundTrip`, `EvidenceCorrelationPrinting.RoundTrip`), and two unequal grants print alike (`AccessGrantPrinting.LostAttributePrintsAlike`).

## Model

| member | source | states |
|---|---|---|
| `ExecutionGrantSafety.AtMostOneConsumption` | src/runtime/host.ts:270-302 | in every run, over all interleavings, at most one consumption per grant returns valid, and then the grant is persisted and marked |
| `ExecutionGrantSafety.ConsumedIffHeld` | examples/enterprise-runtime-host/mock-ports.ts:43-47 | consumed ids are persisted ids, and an id is consumed exactly when one call holds its mark |
| `ExecutionGrantSafety.ConsumptionEventsBalance` | src/runtime/host.ts:285-301 | per grant, delivered, undelivered and pending consumption events add up to the mark at every instant |
| `ExecutionGrantSafety.LogMatchesConsumptions` | src/runtime/host.ts:140-168 | with a sink that delivers, once calls settle the log holds one consumption event per mark and no other |
| `ExecutionGrantSafety.NonceKeyInjective` | examples/enterprise-runtime-host/mock-ports.ts:99-118 | the three scopes never share a stored nonce key, whatever the nonces contain |
| `ExecutionGrantSafety.IssuedNoncesDistinct` | src/runtime/host.ts:231-234 | two calls that both issued in one scope carry different nonces, in every run |
| `ExecutionGrantSafety.StepTakesWhatItHolds` | src/runtime/context.ts:85-90 | a call wins a mark or a nonce exactly at the atomic step that takes it |
| `ExecutionGrantSafety.RunKeeps` | src/runtime/host.ts:215-312 | the invariant holds, and stores only grow, along every run |
| `ExecutionGrantVerdicts.BegunTooLate` | src/runtime/host.ts:248-268 | a call that begins once its grant is revoked, consumed or expired settles only with a refusal naming that reason, whatever else is in flight |
| `ExecutionGrantVerdicts.CompletedCallsContradict` | src/runtime/host.ts:285-312 | a completed revocation or consumption is such a reason |
| `ExecutionGrantVerdicts.RevocationReadDecides` | src/runtime/host.ts:252-256 | a verdict reports revocation exactly when the store said so at the call's own read |
| `ExecutionGrantVerdicts.RevocationBetweenReadAndMark` | src/runtime/host.ts:270-301 | a reachable run in which a revocation completes after the read and the consumption still succeeds |
| `ExecutionGrantVerdicts.LevelsWerePassed` | src/runtime/host.ts:248-302 | a call gets only as far as the checks it passed, each at an instant of its own run |
| `ExecutionGrantVerdicts.ValidConsumptionPassedEveryCheck` | src/runtime/host.ts:270-302 | a successful consumption passed key, signature, storage and expiry, revocation, consumption and scope checks, and then an unconsumed mark |
| `ExecutionGrantVerdicts.ValidValidationPassedEveryCheck` | src/runtime/host.ts:248-268 | a clean validation passed the first five, the last being that every expected scope is among the granted ones |
| `ExecutionGrantGrounds.ScopeAcceptedIff` | src/runtime/host.ts:88-92 | a presented scope passes exactly when every expected scope was granted, whether several, one or none are expected |
| `ExecutionGrantGrounds.DeliveryDecides` | src/runtime/host.ts:140-178 | an event that cannot be delivered is reported once as a lifecycle error; only if that fails too, and delivery is enforced, does the call fail |
| `ExecutionGrantGrounds.IssueIsReportedIff` | src/runtime/host.ts:215-246 | what an issuing call leaves in the store and the log, by how its event is delivered |
| `ExecutionGrantGrounds.RefusedConsumptionIsReported` | src/runtime/host.ts:270-284 | a consumption refused for its codes is reported once more, as a replay exactly when it is one |
| `ExecutionGrantGrounds.NonceKeyReads` | src/runtime/host.ts:128-130 | the scope each kind of nonce is kept under |
| `RuntimeHost.DriveIsARun` | src/runtime/host.ts:215-312 | an uninterrupted call is a run of the protocol in which only that call moves, and it settles |
| `RuntimeHost.DriveToVerdict` | src/runtime/host.ts:248-268 | uninterrupted, the verdict is the reason codes of one state in the order they are pushed |
| `RuntimeHost.DriveToConsumption` | src/runtime/host.ts:270-302 | uninterrupted, a consumption ends with its verdict, its two events, and a mark exactly when no reason code was found |
| `RuntimeHost.ValidExactlyWhenNothingSpeaksAgainst` | src/runtime/host.ts:248-268 | uninterrupted, a grant is valid exactly when its key is one of the trusted ones, its signature holds, it is stored and neither revoked nor consumed, no readable expiry has come, and the expected scopes are a subset of the granted ones |
| `RuntimeHost.CodesAreGrounds` | src/runtime/host.ts:248-268 | uninterrupted, each reason code is reported exactly on its own ground, stated apart from the checks, in their order and once |
| `RuntimeHost.DemoExecutionGrantStore.MarkGrantConsumed` | examples/enterprise-runtime-host/mock-ports.ts:43-47 | test and set: the first mark succeeds, every later one reports a replay and changes nothing |
| `RuntimeHost.DemoExecutionGrantStore.PersistGrant` | examples/enterprise-runtime-host/mock-ports.ts:37-39 | the grant is stored under its id |
| `RuntimeHost.DemoExecutionGrantStore.RevokeGrant` | examples/enterprise-runtime-host/mock-ports.ts:51-53 | the id joins the revoked set |
| `RuntimeHost.DemoReplayProtection.RecordNonce` | examples/enterprise-runtime-host/mock-ports.ts:102-107 | a nonce is recorded exactly when its scoped key is new |
| `RuntimeHost.AocEnterpriseRuntime.IssueExecutionGrant` | src/runtime/host.ts:215-246 | issuing has exactly the effect of driving the issuing call through the protocol |
| `RuntimeHost.AocEnterpriseRuntime.IssueDelegatedCapability` | src/runtime/host.ts:314-373 | the same for delegations, with the lineage verdict as answer |
| `RuntimeHost.AocEnterpriseRuntime.CreateCapabilityClaim` | src/runtime/host.ts:434-459 | the same for claims |
| `RuntimeHost.AocEnterpriseRuntime.ValidateExecutionGrant` | src/runtime/host.ts:248-268 | the same for validation; each reason code is reported exactly on its own ground, in the order of the checks and once |
| `RuntimeHost.AocEnterpriseRuntime.ConsumeExecutionGrant` | src/runtime/host.ts:270-302 | the same for consumption, with its codes, and a mark exactly when nothing speaks against the grant |
| `RuntimeHost.AocEnterpriseRuntime.RevokeExecutionGrant` | src/runtime/host.ts:303-312 | the same for revocation |
| `RightsScope.WithinIsPartialOrder` | packages/governed-authorization/src/governed-rights-scope.ts:50-66 | containment is a partial order whose equivalence is the equality, defined exactly between commensurable scopes |
| `RightsScope.SumIsPartialAndCommutative` | packages/governed-authorization/src/governed-rights-scope.ts:83-91 | the sum commutes and is refused exactly for incommensurable scopes |
| `RightsScope.SumWithinDecidesExactly` | packages/governed-authorization/src/governed-rights-scope.ts:63-91 | under a safe ceiling the rounded sum fits exactly when the true sum does, and is then exact |
| `RightsScope.SafeSumIsExact` | packages/governed-authorization/src/governed-rights-scope.ts:83-91 | a sum whose true amount is safe is that amount |
| `RightsScope.SumOfWellFormedScopesCanRound` | packages/governed-authorization/src/governed-rights-scope.ts:83-91 | two well-formed scopes whose sum is rounded |
| `SafeIntegers.NearestIsNearest` | packages/governed-authorization/src/governed-rights-scope.ts:83-91 | a rounded amount is a multiple of its unit than which none is nearer, and the even one of two |
| `SafeIntegers.RoundIsNearest` | packages/governed-authorization/src/governed-rights-scope.ts:83-91 | that unit is the spacing of doubles of that size, and rounding goes by magnitude |
| `CollateralMandate.RefusalIsTheFirstGround` | packages/collateralization-mandate/src/enterprise-collateralization-mandate.ts:169-308 | an attempt is refused exactly when there is a ground, each stated on its own, and the code names the first |
| `CollateralMandate.TermsWithinIsPreorder` | packages/collateralization-mandate/src/enterprise-collateralization-terms.ts:380-464 | containment of collateral terms is reflexive and transitive |
| `CollateralMandate.EqualTermsContainEachOther` | packages/collateralization-mandate/src/enterprise-collateralization-terms.ts:415-464 | equal terms contain each other |
| `CollateralMandate.TermsEqualsIff` | packages/collateralization-mandate/src/enterprise-collateralization-terms.ts:415-464 | equal terms are the same but for the order of their lists |
| `CollateralMandate.WellFormedTermsIff` | packages/collateralization-mandate/src/enterprise-collateralization-terms.ts:537-635 | terms are well-formed exactly when an exercise can claim all they offer and the evidence of every such exercise passes the evidence validator, the label of the obligation apart |
| `CollateralMandate.ClaimingAllIsAuthorized` | packages/collateralization-mandate/src/enterprise-collateralization-mandate.ts:169-308 | such an exercise is authorized while the mandate is in force and unused |
| `CollateralMandate.ContainmentIsSound` | packages/collateralization-mandate/src/enterprise-collateralization-mandate.ts:169-308 | whatever contained terms authorize, the containing terms authorize |
| `CollateralMandate.ContainmentIsTight` | packages/collateralization-mandate/src/enterprise-collateralization-mandate.ts:169-308 | where enforced containment fails, some attempt is authorized inside and refused outside |
| `CollateralMandate.ContainmentIsExact` | packages/collateralization-mandate/src/enterprise-collateralization-terms.ts:451-464 | enforced containment is exactly inclusion of what is authorized, and the source's test adds only recorded declarations |
| `CollateralLedger.RunsInsideRunOutside` | packages/collateralization-mandate/src/enterprise-collateralization-mandate.ts:237-265 | a run accepted by granted terms is accepted step for step by requested terms, with the same running total |
| `CollateralLedger.AcceptedIffFits` | packages/collateralization-mandate/src/enterprise-collateralization-mandate.ts:237-265 | a sequence is accepted exactly when each fits alone, repetition is allowed and the true total fits; the folded total is that total |
| `CollateralLedger.AcceptedRunsStayInside` | src/enterprise/collateralization-governance/lifecycle.ts:155-195 | the total exists, is safe, never leaves the scope, and bounds the number of executions, which is at most one when more are disallowed |
| `CollateralLedger.AcceptanceIgnoresOrder` | packages/collateralization-mandate/src/enterprise-collateralization-mandate.ts:237-265 | a sequence accepted in one order is accepted in every order, with the same final record |
| `CollateralLedger.AuthorizedScopesAlwaysAdd` | src/enterprise/collateralization-governance/lifecycle.ts:189-195 | the guard for incommensurable totals never fires after authorization |
| `CollateralLedger.TotalNeverFallsIff` | packages/collateralization-mandate/src/enterprise-collateralization-execution.ts:252-350 | an accepted execution never lowers the total exactly when its quantity is not negative |
| `CollateralLedger.UnvalidatedEvidenceCanLowerTheTotal` | src/enterprise/collateralization-governance/in-memory-mandate-store.ts:187-274 | recorded evidence the validator would refuse does lower it |
| `CollateralStore.InMemoryCollateralizationMandateStore.IssueMandate` | src/enterprise/collateralization-governance/in-memory-mandate-store.ts:100-170 | issues exactly contained, well-formed, new mandates in well-formed envelopes; otherwise changes nothing and answers with the code of the first failing condition |
| `CollateralStore.InMemoryCollateralizationMandateStore.ExecutionError` | src/enterprise/collateralization-governance/in-memory-mandate-store.ts:187-274 | no error exactly when the execution is new, timely and authorized under the record; each error exactly on its own condition, with the ground of refusal it carries |
| `CollateralStore.InMemoryCollateralizationMandateStore.RecordExecution` | src/enterprise/collateralization-governance/in-memory-mandate-store.ts:187-274 | appends the execution and advances the total, or changes nothing; the record stays the replay of its log |
| `CollateralStore.InMemoryCollateralizationMandateStore.RecordRelease` | src/enterprise/collateralization-governance/in-memory-mandate-store.ts:285-349 | release evidence is appended and restores nothing; each refusal exactly on its own condition |
| `CollateralStore.InMemoryCollateralizationMandateStore.RevokeMandate` | src/enterprise/collateralization-governance/in-memory-mandate-store.ts:360-398 | revocation is recorded once, with the count and total at that instant |
| `CollateralStore.RowsChange` | src/enterprise/collateralization-governance/in-memory-mandate-store.ts:187-398 | what an execution and a revocation change of a row, and that nothing else of it changes |
| `CollateralStore.WellFormedEnvelopeIff` | packages/collateralization-mandate/src/enterprise-collateralization-mandate.ts:385-480 | an envelope is well-formed exactly when no reference in it is empty |
| `CollateralStore.RecordedTotalsStayInside` | src/enterprise/collateralization-governance/in-memory-mandate-store.ts:187-274 | in every consistent store validated records never exceed the mandate |
| `CollateralStore.RevokedRowsRefuse` | packages/collateralization-mandate/src/enterprise-collateralization-mandate.ts:169-180 | nothing is executed under a revoked mandate |
| `LicenseTerms.TermsWithinReflexiveIff` | packages/license-mandate/src/enterprise-license-terms.ts:610-725 | terms contain themselves exactly when every context dimension names a value, which validation demands |
| `LicenseTerms.TermsWithinTransitive` | packages/license-mandate/src/enterprise-license-terms.ts:659-725 | containment is transitive through terms whose ceiling can be read |
| `LicenseTerms.TransitiveThroughIff` | packages/license-mandate/src/enterprise-license-terms.ts:659-678 | and only through those |
| `LicenseTerms.EqualTermsContainEachOther` | packages/license-mandate/src/enterprise-license-terms.ts:625-725 | equal terms contain each other |
| `LicenseTerms.ContextsWithinIff` | packages/license-mandate/src/enterprise-license-terms.ts:610-625 | contexts lie within others exactly when, in each dimension those restrict, they name at least one value and only permitted ones |
| `LicenseMandate.TermsWithinIff` | packages/license-mandate/src/enterprise-license-terms.ts:659-725 | containment is the enforced part, the ceiling that slips through apart, and the recorded part, each declaration spelled out |
| `LicenseMandate.RefusalIsTheFirstGround` | packages/license-mandate/src/enterprise-license-mandate.ts:185-352 | a grant is refused exactly when there is a ground, each stated on its own, and the code names the first |
| `LicenseMandate.AuthorizedStaysInContext` | packages/license-mandate/src/enterprise-license-mandate.ts:297-300 | an authorized license reports, in every dimension its mandate restricts, at least one value and only permitted ones |
| `LicenseMandate.ContainmentIsSound` | packages/license-mandate/src/enterprise-license-mandate.ts:185-352 | what granted terms authorize, requested terms authorize, unless an unreadable ceiling stands under a readable one |
| `LicenseMandate.ContainmentIsSoundIff` | packages/license-mandate/src/enterprise-license-terms.ts:715-725 | for contained terms that guard decides soundness |
| `LicenseMandate.EnforcedIsSound` | packages/license-mandate/src/enterprise-license-mandate.ts:185-352 | the enforced part of containment suffices |
| `LicenseMandate.EnforcedIsTight` | packages/license-mandate/src/enterprise-license-mandate.ts:185-352 | where it fails, some grant is authorized inside and refused outside |
| `LicenseMandate.EnforcedIsExact` | packages/license-mandate/src/enterprise-license-mandate.ts:185-352 | it is exactly inclusion of what is authorized |
| `LicenseMandate.UseProhibitedIsUnreachable` | packages/license-mandate/src/enterprise-license-mandate.ts:251-276 | with disjoint use lists the explicit exclusion is never the ground of refusal |
| `LicenseCeilings.UnreadableCeilingAuthorizesMore` | packages/license-mandate/src/enterprise-license-terms.ts:659-678 | for every right, use and licensee: terms that end in month thirteen pass the validator, lie inside terms with a readable ceiling, and authorize a license that outlives it |
| `LicenseCeilings.UnreadableCeilingBreaksTheChain` | packages/license-mandate/src/enterprise-license-terms.ts:659-678 | three well-formed terms, each inside the next, of which the first is not inside the last |
| `LicenseCeilings.AuthorizedEndsByTheCeilingIff` | packages/license-mandate/src/enterprise-license-mandate.ts:305-316 | under a readable ceiling an authorized license reports an end, and ends by the ceiling exactly when that end can be read |
| `LicenseCeilings.UnreadableEndIsAuthorized` | packages/license-mandate/src/enterprise-license-mandate.ts:305-316 | for every right, use and licensee: a license that reports month thirteen as its end is authorized under a readable ceiling |
| `LicenseValidator.CollectTermsIssues` | packages/license-mandate/src/enterprise-license-terms.ts:912-975 | nothing is reported exactly when the candidate carries well-formed terms, and each issue exactly on its own ground |
| `LicenseValidator.CollectConstraintIssues` | packages/license-mandate/src/enterprise-license-terms.ts:830-909 | nothing is reported exactly when the candidate carries constraints that are well-formed beside the permitted uses |
| `LicenseValidator.CollectContextIssues` | packages/license-mandate/src/enterprise-license-terms.ts:806-828 | one issue, on the first dimension out of order, exactly when some dimension is |
| `LicenseValidator.CollectScopeIssues` | packages/license-mandate/src/enterprise-license-terms.ts:773-798 | nothing is reported exactly when the candidate carries a well-formed scope |
| `LicenseValidator.CollectDispositionIssues` | packages/license-mandate/src/enterprise-license-terms.ts:877-892 | the loop over both dispositions reports each missing or invalid one |
| `LicenseIssues.ReportedIffGround` | packages/license-mandate/src/enterprise-license-terms.ts:773-975 | each issue is reported exactly when its own ground, stated apart from the collectors, holds of the candidate |
| `LicenseIssues.IssuesRanked` | packages/license-mandate/src/enterprise-license-terms.ts:773-975 | the issues come in the order of the checks |
| `LicenseRoundTrip.AcceptedIff` | packages/license-mandate/src/enterprise-license-terms.ts:912-975 | a candidate has no issues exactly when it carries well-formed terms, and the reader finds the only such terms |
| `LicenseRoundTrip.AcceptedIsCarried` | packages/license-mandate/src/enterprise-license-terms.ts:1061-1090 | what the reader returns is carried by the candidate and well-formed |
| `LicenseRoundTrip.CarriedIsAccepted` | packages/license-mandate/src/enterprise-license-terms.ts:912-975 | well-formed terms that are carried are accepted and read back |
| `LicenseRoundTrip.ValidatedMandateNeverReportsUseProhibited` | packages/license-mandate/src/enterprise-license-mandate.ts:261-276 | in a mandate whose terms passed the validator that refusal is unreachable |
| `LicensePrinting.RoundTrip` | packages/license-mandate/src/enterprise-license-terms.ts:1021-1090 | printed terms are accepted, and read back equal and well-formed |
| `LicensePrinting.EqualIffPrintedAlike` | packages/license-mandate/src/enterprise-license-terms.ts:693-703 | well-formed terms are equal exactly when they print identically |
| `LicensePrinting.SerializeContexts` | packages/license-mandate/src/enterprise-license-terms.ts:1006-1014 | the loop fills an object with sorted dimensions and sorted values |
| `LicensePrinting.CopyContexts` | packages/license-mandate/src/enterprise-license-terms.ts:1046-1052 | the reading loop copies the object |
| `LicensePrinting.ContextsEqualIffCanonical` | packages/license-mandate/src/enterprise-license-terms.ts:625-634 | context maps are equal exactly when they have one canonical form |
| `Ordering.StringArrayEqualsIsMultisetEquality` | packages/license-mandate/src/enterprise-license-terms.ts:478-483 | the array comparison is equality of multisets |
| `Ordering.StringArrayEqualsAsSets` | packages/license-mandate/src/enterprise-license-terms.ts:478-483 | on lists without repetition it is equality of sets |
| `Ordering.RepetitionIsNotIgnored` | packages/license-mandate/src/enterprise-license-terms.ts:478-483 | a repeated entry distinguishes two lists of the same things |
| `Ordering.BeforeIff` | packages/access-grant/src/enterprise-access-grant.ts:257-265 | one string sorts before another exactly when it is a proper prefix of it or has the smaller code unit where they first differ |
| `Ordering.SortIsStable` | packages/control-plane/service.ts:101-108 | entries with the same key keep the order of the input |
| `Ordering.SortIgnoresOrder` | packages/governed-authority/src/governed-constraint-applicability.ts:343-351 | sorting by a determining key forgets the order of the input |
| `ConstraintApplicability.Evaluate` | packages/governed-authority/src/governed-constraint-applicability.ts:283-351 | the loop lists each record by its judgement, and the status holds on its own ground in terms of the records |
| `ConstraintApplicability.KindsAre` | packages/governed-authority/src/governed-constraint-applicability.ts:313-321 | capacity exactly for a consumed class, structural exactly for a profile that moves holder authority, in that order and once each |
| `ConstraintApplicability.JudgementMeans` | packages/governed-authority/src/governed-constraint-applicability.ts:283-351 | every judgement on a record, exactly when it is made, with all it reports |
| `ConstraintApplicability.EvaluationLists` | packages/governed-authority/src/governed-constraint-applicability.ts:283-351 | each of the three lists holds exactly the records so judged |
| `ConstraintApplicability.EvaluationPartitions` | packages/governed-authority/src/governed-constraint-applicability.ts:283-351 | every record is reported in exactly one of three lists, and nothing else is |
| `ConstraintApplicability.EvaluationIgnoresOrder` | packages/governed-authority/src/governed-constraint-applicability.ts:258-351 | the same records in any order give the same verdict |
| `ConstraintApplicability.StatusReaches` | packages/governed-authority/src/governed-constraint-applicability.ts:353-361 | the status is the strongest contribution of any record |
| `ConstraintApplicability.StatusIsRankMaximum` | packages/governed-authority/src/governed-constraint-applicability.ts:353-361 | the status of concatenated inputs is the rank maximum of the parts |
| `ConstraintApplicability.StatusIgnoresOrder` | packages/governed-authority/src/governed-constraint-applicability.ts:353-361 | the status depends on which records there are only |
| `ConstraintApplicability.ReleasingNeverRaises` | packages/governed-authority/src/governed-authority-encumbrance.ts:276-279 | releasing a constraint leaves what removing it would leave, never stronger |
| `ConstraintApplicability.StatusMeans` | packages/governed-authority/src/governed-constraint-applicability.ts:200-229 | each status, exactly when it is given, by which records bind, are in force, are of a consumed class and can be classified, and whether the profile moves holder authority |
| `ConstraintApplicability.NeverConstrainingIff` | packages/governed-authority/src/governed-constraint-applicability.ts:283-312 | a constraint bears at some instant exactly when it stands and its instant can be read; a bound one is reported as not constraining at every instant, whatever classifies it, exactly otherwise |
| `ConstraintApplicability.IdleProfilesAreNeverConstrained` | packages/governed-authority/src/governed-constraint-applicability.ts:313-321 | a profile that consumes nothing and moves no holder authority is never capacity- or structurally-constrained |
| `ConstraintPolicy.ToPolicyContext` | packages/governed-authority/src/governed-constraint-applicability.ts:432-474 | the fold with its seen set keeps the first fact of each id and the strongest status |
| `ConstraintPolicy.ContextHoldsExactly` | packages/governed-authority/src/governed-constraint-applicability.ts:432-474 | the context is strictly sorted and holds exactly the bound, in-force, classifiable constraints |
| `ConstraintPolicy.ContextIgnoresOrderAndRepetition` | packages/governed-authority/src/governed-constraint-applicability.ts:431-474 | the same context for every permutation and repetition of rights and of constraints |
| `RepresentativeAuthority.FirstOutside` | packages/governed-authority/src/governed-representative-authority.ts:272-276 | finds an entry outside the parent's list exactly when there is one |
| `RepresentativeAuthority.WindowInheritedIff` | packages/governed-authority/src/governed-representative-authority.ts:280-292 | a contained child is in its window only when its parent is, exactly when its window can be read where the parent's can |
| `RepresentativeAuthority.EscapingInstant` | packages/governed-authority/src/governed-representative-authority.ts:280-292 | otherwise, an instant at which it is not |
| `RepresentativeAuthority.CoverageIsExact` | packages/governed-authority/src/governed-representative-authority.ts:222-278 | rights, actions and ceiling are contained exactly when every covered request is covered by the parent |
| `RepresentativeAuthority.LeafWithinEveryAncestor` | packages/governed-authority/src/governed-representative-authority.ts:254-294 | in a chain of any length without a breach, the leaf breaches no ancestor in any of the seven dimensions |
| `RepresentativeAuthority.ThroughLinkIff` | packages/governed-authority/src/governed-representative-authority.ts:254-294 | containment chains through a link exactly when its window can be read |
| `RepresentativeAuthority.LeafCoverageReachesTheRoot` | packages/governed-authority/src/governed-representative-authority.ts:254-278 | any right, action and scope the leaf covers every ancestor covers |
| `RepresentativeAuthority.ChainActiveIff` | packages/governed-authority/src/governed-representative-authority.ts:199-208 | every link is active exactly when the instant is in the leaf's window and no link has been revoked |
| `RepresentationAdmission.GrantedIff` | src/enterprise/authority-governance/in-memory-representation-store.ts:87-221 | a grant leaves a record exactly when that record is acceptable (basis, caller, parent and containment, contents, corroboration, stated as one condition on it) and its id is new; a conflict is reported exactly when the id is all that stands against it |
| `RepresentationAdmission.RefusalsAreTrue` | src/enterprise/authority-governance/representation-lifecycle.ts:44-264 | a grant is refused exactly when something stands against it, and the refusal names such a thing |
| `RepresentationAdmission.RefusedForTheFirst` | src/enterprise/authority-governance/in-memory-representation-store.ts:87-221 | the refusal is that of whatever stands against the grant first in the order of the checks, each defect stated on its own |
| `RepresentationAdmission.RevokedIff` | src/enterprise/authority-governance/in-memory-representation-store.ts:223-241 | each of the three answers to a withdrawal, exactly when it is given and with the record that results |
| `RepresentationStore.GrantKeepsCoherent` | src/enterprise/authority-governance/representation-lifecycle.ts:236-266 | every stored redelegation stays inside its parent, one level below it, in its tenant |
| `RepresentationStore.RevokeKeepsCoherent` | src/enterprise/authority-governance/in-memory-representation-store.ts:223-241 | withdrawing keeps that |
| `RepresentationStore.ListedIsExactlyBound` | src/enterprise/authority-governance/in-memory-representation-store.ts:40-42 | a rendered key lists exactly the records of that tenant, representative, holder and resource |
| `RepresentationStore.InMemoryRepresentationStore.GrantRepresentativeAuthority` | src/enterprise/authority-governance/in-memory-representation-store.ts:87-221 | stores and indexes the granted record, or changes nothing |
| `RepresentationStore.InMemoryRepresentationStore.RevokeRepresentativeAuthority` | src/enterprise/authority-governance/in-memory-representation-store.ts:223-241 | records the instant once |
| `RepresentationStore.InMemoryRepresentationStore.ListRepresentativeAuthorities` | src/enterprise/authority-governance/in-memory-representation-store.ts:248-255 | returns exactly the records bound as asked |
| `RepresentationResolver.BasisStillHolds` | src/enterprise/authority-governance/representation-resolver.ts:72-105 | the bounded loop equals the recursive walk to the root |
| `RepresentationResolver.WalkHoldsIff` | src/enterprise/authority-governance/representation-resolver.ts:72-105 | the walk succeeds exactly when the ancestry is short enough, corroborated throughout and active above the leaf, and returns it |
| `RepresentationResolver.AncestryIsAChain` | src/enterprise/authority-governance/representation-lifecycle.ts:236-266 | the ancestry of any stored record is a chain of contained, readable links |
| `RepresentationResolver.RepresentsIff` | src/enterprise/authority-governance/representation-resolver.ts:145-203 | a stored record represents a request exactly when it covers it, is in its own window, no ancestor is revoked, delegations stand and the chain is within bound |
| `RepresentationResolver.RepresentedIsCoveredByEveryAncestor` | src/enterprise/authority-governance/representation-resolver.ts:72-105 | what is represented, every ancestor covers and is active for |
| `RepresentationResolver.BestIsRepresentedIff` | src/enterprise/authority-governance/representation-resolver.ts:108-148 | the best verdict is a representation exactly when some verdict is |
| `RepresentationResolver.BestRanksHighest` | src/enterprise/authority-governance/representation-resolver.ts:108-148 | no verdict ranks above the best, which is one of them |
| `RepresentationResolver.BestIsTheFirst` | src/enterprise/authority-governance/representation-resolver.ts:108-148 | among verdicts of the highest rank the first met is kept |
| `RepresentationVerdicts.StateMeans` | packages/governed-authority/src/governed-representative-authority.ts:199-208 | each state of a representation exactly on its own condition |
| `RepresentationVerdicts.CoversIff` | packages/governed-authority/src/governed-representative-authority.ts:222-252 | a right, an action and a quantity are covered exactly when the lists hold them and the quantity fits under the limit |
| `RepresentationVerdicts.BreachIsTheFirst` | packages/governed-authority/src/governed-representative-authority.ts:254-294 | a breach reported is one, and the first in the order of the dimensions |
| `RepresentationVerdicts.AnswerMeans` | src/enterprise/authority-governance/representation-resolver.ts:145-203 | each answer about a candidate, exactly when it is given |
| `RepresentationVerdicts.RanksAscend` | src/enterprise/authority-governance/representation-resolver.ts:108-130 | which miss tells more than which |
| `RepresentationVerdicts.WalkBlames` | src/enterprise/authority-governance/representation-resolver.ts:72-105 | a failing walk blames a delegation exactly when it gets, within its bound, to a link whose delegation no longer stands; otherwise a parent |
| `RepresentationRuns.RevocationDisablesTheSubtree` | packages/governed-authority/src/governed-representative-authority.ts:143-145 | after any later run, no record descending from a withdrawn one represents anything from the withdrawal on |
| `RepresentationRuns.RevokedAncestorDisables` | src/enterprise/authority-governance/representation-resolver.ts:92-102 | a record represents nothing at an instant by which an ancestor was revoked |
| `RepresentationRuns.WithdrawalStands` | src/enterprise/authority-governance/in-memory-representation-store.ts:223-241 | a withdrawal stands, with its instant, after any later run |
| `RepresentationRuns.WithdrawingAgainChangesNothing` | src/enterprise/authority-governance/in-memory-representation-store.ts:233-240 | withdrawing twice keeps the first instant |
| `RepresentationRuns.RunEvolves` | src/enterprise/authority-governance/in-memory-representation-store.ts:87-241 | along every run a record only ever gains a revocation, once |
| `RepresentationRuns.ResolvedIff` | src/enterprise/authority-governance/representation-resolver.ts:132-207 | a request is represented exactly when some stored record warrants it |
| `RepresentationRuns.Resolve` | src/enterprise/authority-governance/representation-resolver.ts:132-207 | over any valid store: not required for the holder itself, otherwise represented exactly when some stored record warrants it; any other verdict is one on a bound record, and none on any bound record ranks above it |
| `RepresentationRaces.RacedWalkHoldsIff` | src/enterprise/authority-governance/representation-resolver.ts:72-105 | with any grants, withdrawals and delegation changes between the awaited reads, the walk succeeds exactly when the chain is within bound and each link was live at its own read, and returns the chain |
| `RepresentationRaces.RacedRepresentsIff` | src/enterprise/authority-governance/representation-resolver.ts:145-203 | under any interleaving a candidate represents a request exactly when it covered it and was active when listed and its chain passes so |
| `RepresentationRaces.RacedResolvedIff` | src/enterprise/authority-governance/representation-resolver.ts:132-207 | and the answer is a representation exactly when some listed candidate does |
| `RepresentationRaces.WithdrawnBeforeItsRead` | src/enterprise/authority-governance/representation-resolver.ts:92-102 | a link revoked by the time it is read fails the request, whatever happens around it |
| `RepresentationRaces.WithdrawnBeforehand` | src/enterprise/authority-governance/representation-resolver.ts:64-105 | a withdrawal completed before the resolution began refuses everything below it, whatever completes meanwhile |
| `RepresentationRaces.RacedLiesBetween` | src/enterprise/authority-governance/representation-resolver.ts:132-207 | while delegations only lapse, the answer is no more than one snapshot at the beginning gives and no less than one at the end gives of the records held at the beginning |
| `RepresentationRaces.RacedIsTheBeginningOrTheEnd` | src/enterprise/authority-governance/representation-resolver.ts:132-207 | if moreover nothing new is bound as asked, whether the request is represented is decided as at the beginning or as at the end |
| `RepresentationRaceCases.LateDelegationRepresents` | src/enterprise/authority-governance/representation-resolver.ts:72-105 | a run from the empty store in which a delegation comes to stand late: represented, although at no read would the store have represented the request |
| `RepresentationRaceCases.LateGrantIsMissed` | src/enterprise/authority-governance/representation-resolver.ts:132-148 | a run from the empty store without delegations: refused, although at every read some record warrants the request |
| `RepresentationRaces.StillWalk` | src/enterprise/authority-governance/representation-resolver.ts:72-105 | while nothing changes, the interleaved walk is the walk over one snapshot |
| `PositionKey.DecodeRendered` | packages/governed-authority/src/governed-authority-position.ts:111-115 | a decoder recovers every part of every key, whatever digits and separators they contain |
| `PositionKey.PositionReadsBack` | packages/governed-authority/src/governed-authority-position.ts:111-115 | a key reads, part by part, as tenant, actor, kind and id of the resource, and right |
| `PositionKey.PositionKeysAreInjective` | packages/governed-authority/src/governed-authority-position.ts:111-115 | two different keys never render alike |
| `ControlPlaneInvariants.EveryRunKeepsInvariant` | packages/control-plane/service.ts:22-141 | in every run the records fit their requests, the log alone tells every status, and its length is the sum of the records and revocations |
| `ControlPlaneInvariants.ApplyKeepsInvariant` | packages/control-plane/service.ts:22-141 | every call keeps that |
| `ControlPlaneInvariants.DecideKeepsRecords` | packages/control-plane/service.ts:51-99 | deciding adds exactly one agreeing decision and, on approval, exactly one copied grant |
| `ControlPlaneInvariants.ReplayTellsEveryStatus` | packages/control-plane/service.ts:22-99 | replaying the log from empty gives the exact status of every request |
| `ControlPlaneInvariants.ReplayTellsEveryGrantStatus` | packages/control-plane/service.ts:51-141 | and of every grant |
| `ControlPlaneInvariants.LogGrowsBySuffix` | packages/control-plane/service.ts:22-141 | the log grows by suffix and a call that throws changes nothing |
| `ControlPlaneInvariants.LogGrowsAlongRuns` | packages/control-plane/service.ts:22-141 | the log of a run starts with the log of every earlier point |
| `ControlPlaneEffects.DecideErrorIff` | packages/control-plane/service.ts:52-64 | each refusal of a decision exactly on its own ground; none exactly for a pending request of the subject named |
| `ControlPlaneEffects.RevokeErrorIff` | packages/control-plane/service.ts:110-123 | each refusal of a revocation exactly on its own ground; none exactly for a grant that is there and agrees with each party named |
| `ControlPlaneEffects.RevokedOnlyByItsParties` | packages/control-plane/service.ts:110-141 | in every run, a grant that is revoked was revoked by a call that named it and no party but its own, at the instant recorded |
| `ControlPlaneEffects.DecideRecords` | packages/control-plane/service.ts:66-88 | the request is settled and nothing else of it changes, one decision is added, and on approval one grant copied from the request |
| `ControlPlaneEffects.DecideEvents` | packages/control-plane/service.ts:66-99 | the events of a decision, in order, and the parties they tell |
| `ControlPlaneEffects.CreateEffect` | packages/control-plane/service.ts:22-41 | the pending request field by field, and its event |
| `ControlPlaneEffects.RevokeEffect` | packages/control-plane/service.ts:110-141 | only the grant named changes, only in its status and instant, and only the first time; the event tells its parties |
| `ControlPlane.FindRequest` | packages/control-plane/service.ts:53-57 | finds a request with the id, or there is none |
| `ControlPlane.FindGrant` | packages/control-plane/service.ts:112-115 | finds a grant with the id, or there is none |
| `ControlPlaneService.Service.CreateAccessRequest` | packages/control-plane/service.ts:22-41 | appends one pending request as asked for and one event that tells its parties, and keeps the invariant |
| `ControlPlaneService.Service.DecideAccessRequest` | packages/control-plane/service.ts:51-99 | the state changes as the call prescribes; each refusal is made exactly on its own ground, and none exactly for a pending request of that subject |
| `ControlPlaneService.Service.RevokeGrantById` | packages/control-plane/service.ts:110-141 | the same, idempotently; each refusal is made exactly on its own ground, and none exactly for a grant that agrees with each party named |
| `ControlPlaneService.Service.ListActiveGrants` | packages/control-plane/service.ts:101-108 | returns exactly the matching active grants, latest first, those of one instant in the order they were granted |
| `Records.RecordEqualsIffPrintedAlike` | packages/access-grant/src/enterprise-access-grant.ts:163-169 | records are equal exactly when their sorted entries are |
| `Records.RecordEqualsIffCopiedAlike` | packages/access-grant/src/enterprise-access-grant.ts:406-413 | records are equal exactly when their sorted copies by assignment are and so is the entry no such copy has |
| `ReferenceLists.FindDuplicateStrings` | packages/access-grant/src/enterprise-access-grant.ts:257-265 | the loop over two sets finds the repeated strings |
| `ReferenceLists.DuplicatesAreExact` | packages/access-grant/src/enterprise-access-grant.ts:257-265 | exactly the strings that occur more than once, each once, ascending |
| `ReferenceLists.CollectRefsIssues` | packages/access-grant/src/enterprise-access-grant.ts:267-281 | one issue per duplicate, or one for a malformed list |
| `ReferenceLists.RefsIssuesCount` | packages/access-grant/src/enterprise-access-grant.ts:267-281 | as many issues as strings that occur more than once |
| `ReferenceLists.EqualRefsAlikeFormed` | packages/access-grant/src/enterprise-access-grant.ts:171-176 | being well-formed does not depend on order |
| `ResourceRefs.SortedAttributes` | packages/access-grant/src/enterprise-access-grant.ts:406-413 | the loop assigns the attributes to a fresh object in key order, all but the one name that is not assignable |
| `AccessGrantValidator.Validate` | packages/access-grant/src/enterprise-access-grant.ts:291-380 | for a candidate whose unchecked parts are well-typed, nothing is reported exactly when it carries a valid grant; each issue is reported exactly on its own ground |
| `AccessGrantValidator.ReportedIffGround` | packages/access-grant/src/enterprise-access-grant.ts:291-380 | each issue is reported exactly when its own ground, stated apart from the validator, holds, whatever else is wrong |
| `AccessGrantValidator.IssuesRanked` | packages/access-grant/src/enterprise-access-grant.ts:291-380 | the issues come in the order of the checks |
| `AccessGrantPrinting.EqualIffPrintedAlike` | packages/access-grant/src/enterprise-access-grant.ts:188-201 | grants are equal exactly when they print identically and agree on the one attribute that is not printed |
| `AccessGrantPrinting.ImageAcceptedIff` | packages/access-grant/src/enterprise-access-grant.ts:291-380 | a grant handed over as it stands is accepted exactly when it is valid |
| `AccessGrantPrinting.EqualGrantsAreValidAlike` | packages/access-grant/src/enterprise-access-grant.ts:188-201 | the validator accepts both of two equal grants or neither, as they stand and as they are printed |
| `AccessGrantPrinting.RoundTrip` | packages/access-grant/src/enterprise-access-grant.ts:416-499 | reading a printed valid grant never fails and returns a valid one, equal to the first exactly when no attribute is lost in printing |
| `AccessGrantPrinting.LostAttributePrintsAlike` | packages/access-grant/src/enterprise-access-grant.ts:406-413 | any valid grant with attributes has an unequal valid one that prints alike |
| `AccessGrantPrinting.AcceptedAndTypedIff` | packages/access-grant/src/enterprise-access-grant.ts:291-380 | accepted and well-typed in the unchecked parts exactly when a valid grant is carried |
| `AccessGrantPrinting.UntypedTenantIsAccepted` | packages/access-grant/src/enterprise-access-grant.ts:317-326 | a candidate whose tenant is no string is accepted and carries no grant |
| `Vocabulary.TimestampIff` | packages/access-grant/src/enterprise-access-grant.ts:247 | the timestamp pattern, character by character |
| `EvidenceCorrelationValidator.Validate` | packages/evidence-correlation/src/enterprise-evidence-correlation.ts:378-456 | for a candidate whose unchecked parts are well-typed, nothing is reported exactly when it carries a valid, consistent graph; each issue is reported exactly on its own ground |
| `EvidenceCorrelationValidator.ReportedIffGround` | packages/evidence-correlation/src/enterprise-evidence-correlation.ts:378-456 | each issue is reported exactly when its own ground, stated apart from the validator, holds, whatever else is wrong |
| `EvidenceCorrelationValidator.CollectMetadataIssues` | packages/evidence-correlation/src/enterprise-evidence-correlation.ts:431-448 | the loop reports every inadmissible value and forbidden key |
| `EvidenceCorrelation.ForbiddenIff` | packages/evidence-correlation/src/enterprise-evidence-correlation.ts:270-290 | a metadata key is refused exactly when, in lower case, one of the twelve words occurs in it |
| `EvidenceCorrelationValidator.EntriesCount` | packages/evidence-correlation/src/enterprise-evidence-correlation.ts:431-448 | each entry with an inadmissible value is reported once for it, and each with a forbidden key once for that |
| `EvidenceCorrelationValidator.IssuesRanked` | packages/evidence-correlation/src/enterprise-evidence-correlation.ts:378-456 | the issues come in the order of the checks |
| `EvidenceCorrelationValidator.ValidateSet` | packages/evidence-correlation/src/enterprise-evidence-correlation.ts:484-494 | lists exactly the identities declared more than once, each once, ascending |
| `EvidenceCorrelationPrinting.EqualIffPrintedAlike` | packages/evidence-correlation/src/enterprise-evidence-correlation.ts:182-212 | graphs are equal exactly when they print identically, agree on what is not printed and hold no number that is not one |
| `EvidenceCorrelationPrinting.ValidEqualIffPrintedAlike` | packages/evidence-correlation/src/enterprise-evidence-correlation.ts:203-212 | on valid graphs the first two suffice |
| `EvidenceCorrelationPrinting.ImageAcceptedIff` | packages/evidence-correlation/src/enterprise-evidence-correlation.ts:378-456 | a graph handed over as it stands is accepted exactly when it is valid |
| `EvidenceCorrelationPrinting.EqualGraphsAreValidAlike` | packages/evidence-correlation/src/enterprise-evidence-correlation.ts:138-212 | the validator accepts both of two equal graphs or neither |
| `EvidenceCorrelationPrinting.RoundTrip` | packages/evidence-correlation/src/enterprise-evidence-correlation.ts:520-627 | reading a printed valid graph never fails and returns a valid one, equal to the first exactly when no attribute and no metadata entry is lost in printing |
| `EvidenceCorrelationPrinting.AcceptedAndTypedIff` | packages/evidence-correlation/src/enterprise-evidence-correlation.ts:378-456 | accepted and well-typed in the unchecked parts exactly when a valid, consistent graph is carried |

## Left out

- Signing, digests, clocks, random identifiers and date parsing: answers of the environment, fresh identifiers, or the parameter `parse`.
- Delegated access evaluation and claim verification (src/runtime/host.ts:375-527): they read other stores and repeat the shape of grant validation; so do the operational, persistence, federation and vault managers.
- Audit delivery policies are merged into whether an unenforced failure is passed on; the retry as a lifecycle error is modelled.
- The nonce store is assumed not to evict.
- Issuing methods persist after recording the nonce in one call each; the signature and payload they build are not modelled.
- Collateral terms, evidence and mandates over untyped input: the validators, printers and readers follow the license ones, which are modelled in full.
- Tenancy and organization access checks of both stores: every caller is taken to be admitted to the tenant it names.
- The collateral store keeps one row per mandate instead of parallel maps, so its branch for a missing log and its `closed` state do not exist here; reads and health reports are omitted.
- Idempotency keys, record digests, derived ids and the SQLite store of representations.
- `RepresentationStore.InMemoryRepresentationStore.ListRepresentativeAuthorities`: does not model the order of the list, by creation time and then id under a locale comparison; every result about the resolver holds of the listed records in any order.
- Control-plane file input and output, and the separate clock readings within one call, which are one instant here.
- Property names JavaScript treats specially: names inherited from `Object.prototype`, integer-like names, which it enumerates first, and a license context dimension named `__proto__`, whose assignment in the license printer and reader would also change what the object inherits.
- Properties that are present with the value `undefined` are absent ones here; a context dimension holding `undefined` would be refused by the validator either way.
- Forbidden metadata keys are compared after lower-casing ASCII letters only.
- Message texts, equality of mandates and requests, grant-revocation and obligation contracts, treaties and negotiation, `src/kernel/AocKernel.ts`, adapters, host SDK and rendering: presentation, or repetitions of patterns covered here.
