/**
 The in-memory collateralization mandate store: maps and sets that its operations
 update in place, each operation one critical section.
 */
module CollateralStore {
  import opened Options
  import opened Instants
  import opened SafeIntegers
  import opened RightsScope
  import opened AuthorizationArtifact
  import opened CollateralMandate
  import opened CollateralLedger

  datatype ExecutionRecord = ExecutionRecord(id: string, exercise: Exercise)
  datatype ReleaseRecord = ReleaseRecord(id: string, executionId: string, releaseType: string)
  datatype RevocationRecord = RevocationRecord(executionsAtRevocation: nat, committedScopeAtRevocation: Option<Scope>)

  /** What identifies a mandate beside its terms: asset, request, decision and references. */
  datatype Envelope = Envelope(
    assetKind: string, assetId: string, assetTenantId: Option<string>,
    requestRef: string, requestedBy: string, decisionRef: string, correlationId: string,
    evaluationRef: Option<string>, issuerRef: Option<string>,
    approvalRefs: Option<seq<string>>, obligationRefs: Option<seq<string>>, evidenceRefs: Option<seq<string>>, auditRefs: Option<seq<string>>)

  predicate NamesNothingEmpty(refs: Option<seq<string>>) {
    refs.Some? ==> "" !in refs.value
  }

  function Listed(refs: Option<seq<string>>): seq<string> {
    if refs.Some? then refs.value else []
  }

  function Given(ref: Option<string>): seq<string> {
    if ref.Some? then [ref.value] else []
  }

  /** Every reference the envelope holds, but for the tenant of the asset. */
  function References(e: Envelope): seq<string> {
    [e.assetKind, e.assetId, e.requestRef, e.requestedBy, e.decisionRef, e.correlationId]
    + Given(e.evaluationRef) + Given(e.issuerRef)
    + Listed(e.approvalRefs) + Listed(e.obligationRefs) + Listed(e.evidenceRefs) + Listed(e.auditRefs)
  }

  /** An envelope is well-formed exactly when no reference in it is empty. */
  lemma WellFormedEnvelopeIff(e: Envelope)
    ensures WellFormedEnvelope(e) <==> "" !in References(e)
  {
  }

  predicate WellFormedEnvelope(e: Envelope) {
    && e.assetKind != "" && e.assetId != ""
    && e.requestRef != "" && e.requestedBy != "" && e.decisionRef != "" && e.correlationId != ""
    && e.evaluationRef != Some("") && e.issuerRef != Some("")
    && NamesNothingEmpty(e.approvalRefs) && NamesNothingEmpty(e.obligationRefs)
    && NamesNothingEmpty(e.evidenceRefs) && NamesNothingEmpty(e.auditRefs)
  }

  /** What the store keeps under one mandate id. */
  datatype Row = Row(
    envelope: Envelope,
    record: MandateRecord,
    executions: seq<ExecutionRecord>,
    releases: seq<ReleaseRecord>,
    revocation: Option<RevocationRecord>)

  datatype Error =
    | InvalidTimestamp
    | ScopeEscalation
    | MandateAlreadyExists
    | ValidationError
    | MandateNotFound
    | ExecutionAlreadyRecorded
    | ExecutionNotAuthorized(code: RefusalCode)
    | ExecutionNotFound
    | ReleaseAlreadyRecorded

  datatype Outcome = Succeeded | AlreadyRevoked | Failed(error: Error)

  function Exercises(log: seq<ExecutionRecord>): seq<Exercise> {
    seq(|log|, i requires 0 <= i < |log| => log[i].exercise)
  }

  function WithStatus(record: MandateRecord, status: Status): MandateRecord {
    record.(mandate := record.mandate.(status := status))
  }

  predicate HasExecution(log: seq<ExecutionRecord>, executionId: string) {
    exists e | e in log :: e.id == executionId
  }

  /** The record is what the mandate, unexercised and active, becomes by replaying its execution log. */
  ghost predicate RecordMatchesLog(row: Row) {
    ExercisedAll(Unexercised(WithStatus(row.record, Active).mandate), Exercises(row.executions))
      == Some(WithStatus(row.record, Active))
  }

  ghost predicate RowConsistent(row: Row) {
    && WellFormedEnvelope(row.envelope)
    && WellFormedTerms(row.record.mandate.terms)
    && RecordMatchesLog(row)
    && (row.record.mandate.status == Revoked <==> row.revocation.Some?)
    && forall r | r in row.releases :: HasExecution(row.executions, r.executionId)
  }

  function ExecutedRow(row: Row, execution: ExecutionRecord): Row
    requires Exercised(row.record, execution.exercise).Some?
  {
    row.(record := Exercised(row.record, execution.exercise).value, executions := row.executions + [execution])
  }

  lemma NewRowConsistent(envelope: Envelope, mandate: Mandate)
    requires WellFormedEnvelope(envelope) && mandate.status == Active && WellFormedTerms(mandate.terms)
    ensures RowConsistent(Row(envelope, Unexercised(mandate), [], [], None))
  {
    assert Exercises([]) == [];
  }

  lemma ExecutedRowConsistent(row: Row, execution: ExecutionRecord)
    requires RowConsistent(row) && Exercised(row.record, execution.exercise).Some?
    ensures RowConsistent(ExecutedRow(row, execution))
  {
    var longer := Exercises(row.executions + [execution]);
    assert longer[..|longer| - 1] == Exercises(row.executions);
    assert WithStatus(row.record, Active) == row.record;
    forall r | r in row.releases ensures HasExecution(row.executions + [execution], r.executionId) {
      var e :| e in row.executions && e.id == r.executionId;
      assert e in row.executions + [execution];
    }
  }

  lemma ReleasedRowConsistent(row: Row, release: ReleaseRecord)
    requires RowConsistent(row) && HasExecution(row.executions, release.executionId)
    ensures RowConsistent(row.(releases := row.releases + [release]))
  {
  }

  function RevokedRow(row: Row): Row {
    row.(record := WithStatus(row.record, Revoked),
         revocation := Some(RevocationRecord(row.record.executionCount, row.record.committedScope)))
  }

  /** An execution is appended, counted and added to the total; a revocation says what had been executed. Neither touches anything else of the row. */
  lemma RowsChange(row: Row, execution: ExecutionRecord)
    requires Exercised(row.record, execution.exercise).Some?
    ensures var after := ExecutedRow(row, execution);
      && after.envelope == row.envelope && after.releases == row.releases && after.revocation == row.revocation
      && after.executions == row.executions + [execution]
      && after.record.mandate == row.record.mandate && after.record.executionCount == row.record.executionCount + 1
    ensures var after := RevokedRow(row);
      && after.envelope == row.envelope && after.releases == row.releases && after.executions == row.executions
      && after.record == MandateRecord(row.record.mandate.(status := Revoked), row.record.committedScope, row.record.executionCount)
      && after.revocation == Some(RevocationRecord(row.record.executionCount, row.record.committedScope))
  {
  }

  lemma RevokedRowConsistent(row: Row)
    requires RowConsistent(row)
    ensures RowConsistent(RevokedRow(row))
  {
  }

  class InMemoryCollateralizationMandateStore {
    var rows: map<string, Row>
    var mandateIdByRequestRef: map<string, string>
    var executionIds: set<string>
    var releaseIds: set<string>

    ghost predicate Valid()
      reads this
    {
      forall id | id in rows :: RowConsistent(rows[id])
    }

    constructor ()
      ensures Valid()
      ensures rows == map[] && mandateIdByRequestRef == map[] && executionIds == {} && releaseIds == {}
    {
      rows, mandateIdByRequestRef, executionIds, releaseIds := map[], map[], {}, {};
    }

    method IssueMandate(
      id: string, envelope: Envelope, terms: Terms, requestedTerms: Terms, effectiveFrom: Instant, expiresAt: Instant)
      returns (outcome: Outcome)
      requires Valid()
      modifies this`rows, this`mandateIdByRequestRef
      ensures Valid()
      ensures outcome.Failed? ==> unchanged(this)
      ensures outcome.Succeeded? <==>
        && Less(effectiveFrom, expiresAt)
        && TermsWithin(terms, requestedTerms) && WellFormedTerms(terms)
        && id != "" && WellFormedEnvelope(envelope)
        && id !in old(rows) && envelope.requestRef !in old(mandateIdByRequestRef)
      ensures outcome.Succeeded? ==>
        && rows == old(rows)[id := Row(envelope, Unexercised(Mandate(Active, effectiveFrom, expiresAt, terms)), [], [], None)]
        && mandateIdByRequestRef == old(mandateIdByRequestRef)[envelope.requestRef := id]
      ensures !outcome.AlreadyRevoked?
      ensures outcome == Failed(InvalidTimestamp) <==> effectiveFrom.Unreadable? || expiresAt.Unreadable?
      ensures outcome == Failed(ScopeEscalation) <==> effectiveFrom.At? && expiresAt.At? && !TermsWithin(terms, requestedTerms)
      ensures outcome == Failed(MandateAlreadyExists) <==>
        && effectiveFrom.At? && expiresAt.At? && TermsWithin(terms, requestedTerms)
        && (id in old(rows) || envelope.requestRef in old(mandateIdByRequestRef))
      ensures outcome.Failed? ==> outcome.error in [InvalidTimestamp, ScopeEscalation, MandateAlreadyExists, ValidationError]
    {
      if effectiveFrom.Unreadable? || expiresAt.Unreadable? { return Failed(InvalidTimestamp); }
      if !TermsWithin(terms, requestedTerms) { return Failed(ScopeEscalation); }
      if id in rows || envelope.requestRef in mandateIdByRequestRef { return Failed(MandateAlreadyExists); }
      if id == "" || !WellFormedEnvelope(envelope) || !WellFormedTerms(terms) || expiresAt.ms <= effectiveFrom.ms {
        return Failed(ValidationError);
      }
      var mandate := Mandate(Active, effectiveFrom, expiresAt, terms);
      NewRowConsistent(envelope, mandate);
      rows := rows[id := Row(envelope, Unexercised(mandate), [], [], None)];
      mandateIdByRequestRef := mandateIdByRequestRef[envelope.requestRef := id];
      return Succeeded;
    }

    /** The first ground on which recording the execution is refused. */
    function ExecutionError(mandateId: string, execution: ExecutionRecord): (error: Option<Error>)
      reads this
      ensures error.None? <==>
        && execution.exercise.at.At? && mandateId in rows && execution.id !in executionIds
        && Exercised(rows[mandateId].record, execution.exercise).Some?
      ensures error == Some(InvalidTimestamp) <==> execution.exercise.at.Unreadable?
      ensures error == Some(MandateNotFound) <==> execution.exercise.at.At? && mandateId !in rows
      ensures error == Some(ExecutionAlreadyRecorded) <==>
        execution.exercise.at.At? && mandateId in rows && execution.id in executionIds
      ensures forall code :: error == Some(ExecutionNotAuthorized(code)) <==>
        && execution.exercise.at.At? && mandateId in rows && execution.id !in executionIds
        && var record := rows[mandateId].record;
           Refusal(record.mandate, Attempt(execution.exercise, record.committedScope, Some(record.executionCount))) == Some(code)
    {
      if execution.exercise.at.Unreadable? then Some(InvalidTimestamp)
      else if mandateId !in rows then Some(MandateNotFound)
      else if execution.id in executionIds then Some(ExecutionAlreadyRecorded)
      else
        var record := rows[mandateId].record;
        AuthorizedScopesAlwaysAdd(record, execution.exercise);
        var refusal := Refusal(record.mandate, AttemptUnder(record, execution.exercise));
        if refusal.Some? then Some(ExecutionNotAuthorized(refusal.value)) else None
    }

    method RecordExecution(mandateId: string, execution: ExecutionRecord) returns (outcome: Outcome)
      requires Valid()
      modifies this`rows, this`executionIds
      ensures Valid()
      ensures outcome == if old(ExecutionError(mandateId, execution)).None? then Succeeded
                         else Failed(old(ExecutionError(mandateId, execution)).value)
      ensures outcome.Failed? ==> unchanged(this)
      ensures outcome.Succeeded? ==>
        && rows == old(rows)[mandateId := ExecutedRow(old(rows)[mandateId], execution)]
        && executionIds == old(executionIds) + {execution.id}
    {
      var error := ExecutionError(mandateId, execution);
      if error.Some? { return Failed(error.value); }
      ExecutedRowConsistent(rows[mandateId], execution);
      executionIds := executionIds + {execution.id};
      rows := rows[mandateId := ExecutedRow(rows[mandateId], execution)];
      return Succeeded;
    }

    /** A reported release is evidence about the world: it changes no status and frees no scope. */
    method RecordRelease(mandateId: string, releasedAt: Instant, release: ReleaseRecord) returns (outcome: Outcome)
      requires Valid()
      modifies this`rows, this`releaseIds
      ensures Valid()
      ensures outcome.Failed? ==> unchanged(this)
      ensures outcome.Succeeded? <==>
        && releasedAt.At? && mandateId in old(rows) && HasExecution(old(rows)[mandateId].executions, release.executionId)
        && release.id !in old(releaseIds)
      ensures outcome.Succeeded? ==>
        && rows == old(rows)[mandateId := old(rows)[mandateId].(releases := old(rows)[mandateId].releases + [release])]
        && releaseIds == old(releaseIds) + {release.id}
      ensures !outcome.AlreadyRevoked?
      ensures outcome == Failed(InvalidTimestamp) <==> releasedAt.Unreadable?
      ensures outcome == Failed(MandateNotFound) <==> releasedAt.At? && mandateId !in old(rows)
      ensures outcome == Failed(ExecutionNotFound) <==>
        releasedAt.At? && mandateId in old(rows) && forall e | e in old(rows)[mandateId].executions :: e.id != release.executionId
      ensures outcome.Failed? ==> outcome.error in [InvalidTimestamp, MandateNotFound, ExecutionNotFound, ReleaseAlreadyRecorded]
    {
      if releasedAt.Unreadable? { return Failed(InvalidTimestamp); }
      if mandateId !in rows { return Failed(MandateNotFound); }
      var row := rows[mandateId];
      if !HasExecution(row.executions, release.executionId) { return Failed(ExecutionNotFound); }
      if release.id in releaseIds { return Failed(ReleaseAlreadyRecorded); }
      ReleasedRowConsistent(row, release);
      releaseIds := releaseIds + {release.id};
      rows := rows[mandateId := row.(releases := row.releases + [release])];
      return Succeeded;
    }

    method RevokeMandate(mandateId: string, revokedAt: Instant) returns (outcome: Outcome)
      requires Valid()
      modifies this`rows
      ensures Valid()
      ensures outcome == if revokedAt.Unreadable? then Failed(InvalidTimestamp)
                         else if mandateId !in old(rows) then Failed(MandateNotFound)
                         else if old(rows)[mandateId].revocation.Some? then AlreadyRevoked
                         else Succeeded
      ensures rows == if outcome.Succeeded? then old(rows)[mandateId := RevokedRow(old(rows)[mandateId])] else old(rows)
    {
      if revokedAt.Unreadable? { return Failed(InvalidTimestamp); }
      if mandateId !in rows { return Failed(MandateNotFound); }
      if rows[mandateId].revocation.Some? { return AlreadyRevoked; }
      RevokedRowConsistent(rows[mandateId]);
      rows := rows[mandateId := RevokedRow(rows[mandateId])];
      return Succeeded;
    }
  }

  /**
   What the store's records say at any time: provided the recorded evidence passes its validator, every
   committed total is the exact sum of the log, inside the mandate's scope and safe, and the log is bounded by it.
   */
  lemma RecordedTotalsStayInside(row: Row)
    requires RowConsistent(row) && ScopesValid(Exercises(row.executions))
    ensures var record, log := row.record, row.executions;
      && record.executionCount == |log| <= Amount(record.mandate.terms.scope)
      && (!record.mandate.terms.constraints.additionalCollateralizationAllowed ==> |log| <= 1)
      && (log != [] ==>
            && record.committedScope.Some?
            && ScopeWithin(record.committedScope.value, record.mandate.terms.scope)
            && IsSafe(Amount(record.committedScope.value))
            && Amount(record.committedScope.value) == Total(Exercises(log)))
  {
    AcceptedRunsStayInside(WithStatus(row.record, Active).mandate, Exercises(row.executions));
  }

  /** Nothing is executed under a revoked mandate, whatever the proposal. */
  lemma RevokedRowsRefuse(row: Row, execution: ExecutionRecord)
    ensures Refusal(RevokedRow(row).record.mandate, AttemptUnder(RevokedRow(row).record, execution.exercise)) == Some(MANDATE_REVOKED)
    ensures Exercised(RevokedRow(row).record, execution.exercise).None?
  {
  }
}
