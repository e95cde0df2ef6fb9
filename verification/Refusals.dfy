/** Which events the reducer refuses, and for what reason, in terms of the records that the snapshot holds. */
module Refusals {
  import opened Results
  import opened Schema
  import opened Reducer

  // ----- the envelope -----

  /** The first rule of the envelope that an event breaks. */
  lemma EnvelopeError(s: Snapshot, e: HarnessEvent)
    ensures var h, r := e.header, ValidateEnvelope(s, e);
      && (r == Some(TrajectoryMismatch) <==> h.trajectoryId != s.trajectoryId)
      && (r == Some(UnsupportedSchema) <==> h.trajectoryId == s.trajectoryId && h.schemaVersion > 3)
      && (r in {Some(TrajectoryMismatch), Some(UnsupportedSchema)}
          || (r == Some(EventTypeMismatch) <==> h.eventType != PayloadTypeName(e.payload)))
      && (r in {Some(TrajectoryMismatch), Some(UnsupportedSchema), Some(EventTypeMismatch)}
          || (r == Some(SequenceGap) <==> h.sequence != s.sequence + 1))
      && (r == Some(GenesisHasPreviousHash) ==> h.sequence == 1 && h.previousEventHash.Some?)
      && (r == Some(MissingPreviousHash) ==> h.sequence > 1 && h.previousEventHash.None?)
      && (r == Some(ChainMismatch) ==> h.previousEventHash != s.lastEventHash)
      && (r == Some(GenesisHasPreviousSignature) ==> h.sequence == 1 && h.previousSignature.Some?)
      && (r == Some(MissingPreviousSignature) ==> h.sequence > 1 && h.previousSignature.None?)
      && (r == Some(SignatureMismatch) ==> h.previousSignature != s.lastSignature)
      && (r.None? ==> h.sequence == s.sequence + 1 && h.previousEventHash == s.lastEventHash
                      && (h.sequence == 1 ==> h.previousEventHash.None?)
                      && (h.sequence > 1 ==> h.previousEventHash.Some?))
      && (r.Some? ==> r.value in {
            TrajectoryMismatch, UnsupportedSchema, EventTypeMismatch, SequenceGap, GenesisHasPreviousHash,
            MissingPreviousHash, ChainMismatch, GenesisHasPreviousSignature, MissingPreviousSignature,
            SignatureMismatch})
  {
  }

  // ----- what a snapshot holds -----

  ghost predicate HasCandidate(s: Snapshot, id: string) {
    exists i :: 0 <= i < |s.candidates| && s.candidates[i].itemId == id
  }

  ghost predicate HasCurated(s: Snapshot, id: string) {
    exists i :: 0 <= i < |s.curatedItems| && s.curatedItems[i].itemId == id
  }

  ghost predicate HasClaim(s: Snapshot, id: string) {
    exists i :: 0 <= i < |s.claims| && s.claims[i].claimId == id
  }

  ghost predicate HasLink(s: Snapshot, id: string) {
    exists i :: 0 <= i < |s.evidenceLinks| && s.evidenceLinks[i].linkId == id
  }

  /** The first link with the id belongs to another trajectory. */
  ghost predicate ForeignLink(s: Snapshot, id: string, trajectoryId: string) {
    exists i :: 0 <= i < |s.evidenceLinks| && s.evidenceLinks[i].linkId == id
                && s.evidenceLinks[i].trajectoryId != trajectoryId
                && forall j :: 0 <= j < i ==> s.evidenceLinks[j].linkId != id
  }

  ghost predicate HasRecord(s: Snapshot, id: string) {
    exists i :: 0 <= i < |s.verificationRecords| && s.verificationRecords[i].recordId == id
  }

  ghost predicate HasTask(s: Snapshot, id: string) {
    exists i :: 0 <= i < |s.tasks| && s.tasks[i].taskId == id
  }

  /** The first task with the id is done or cancelled. */
  ghost predicate ClosedTask(s: Snapshot, id: string) {
    exists i :: 0 <= i < |s.tasks| && s.tasks[i].taskId == id
                && (s.tasks[i].status == TaskDone || s.tasks[i].status == TaskCancelled)
                && forall j :: 0 <= j < i ==> s.tasks[j].taskId != id
  }

  ghost predicate HasSubmission(s: Snapshot, id: string) {
    exists i :: 0 <= i < |s.submissions| && s.submissions[i].submissionId == id
  }

  ghost predicate HasInvocation(s: Snapshot, id: string) {
    exists i :: 0 <= i < |s.toolInvocations| && s.toolInvocations[i].invocationId == id
  }

  ghost predicate HasResult(s: Snapshot, id: string) {
    exists i :: 0 <= i < |s.toolResults| && s.toolResults[i].invocationId == id
  }

  // ----- why a handler refuses -----

  /** The refusal of an event whose envelope is right: the first of its checks that fails. */
  ghost function Refusal(s: Snapshot, e: HarnessEvent): Option<ReduceError> {
    match e.payload
    case ActionCommittedPayload(_, _) => None
    case ToolInvokedPayload(id, _, _, _, _, _) => if HasInvocation(s, id) then Some(DuplicateId(id)) else None
    case ToolResultReceivedPayload(id, status, _) =>
      if !HasInvocation(s, id) then Some(UnknownId(id))
      else if HasResult(s, id) then Some(DuplicateId(id))
      else if status !in {"pending", "running", "success", "failure", "timeout"} then Some(InvalidValue)
      else None
    case EvidenceCuratedPayload(candidates, id, _, _, _) =>
      if exists c :: c in candidates && !HasCandidate(s, c) then Some(UnknownId(id))
      else if HasCurated(s, id) then Some(DuplicateId(id))
      else None
    case ClaimRevisedPayload(id, _, _) => if HasClaim(s, id) then None else Some(UnknownId(id))
    case EvidenceVerifiedPayload(link, id, _, _) =>
      if !HasLink(s, link) then Some(UnknownId(link))
      else if ForeignLink(s, link, e.header.trajectoryId) then Some(TrajectoryMismatch)
      else if HasRecord(s, id) then Some(DuplicateId(id))
      else None
    case TaskDecomposedPayload(_, id, _, _) => if HasTask(s, id) then Some(DuplicateId(id)) else None
    case TaskCompletedPayload(id) =>
      if !HasTask(s, id) then Some(UnknownId(id)) else if ClosedTask(s, id) then Some(AlreadyClosed) else None
    case ContextPrunedPayload(retained, epoch) =>
      if exists c :: c in retained && !HasCurated(s, c) then Some(UnknownId(epoch)) else None
    case SubmissionRecordedPayload(id, _, _) => if HasSubmission(s, id) then Some(DuplicateId(id)) else None
    case SnapshotCheckpointedPayload(sequence, hash) =>
      if sequence == s.sequence && hash == StateDigest(s.(createdAt := 0)) then None else Some(CheckpointMismatch)
    case CandidateAddedPayload(id, _, _, _, _) => if HasCandidate(s, id) then Some(DuplicateId(id)) else None
    case ClaimCreatedPayload(id, _, _) => if HasClaim(s, id) then Some(DuplicateId(id)) else None
    case EvidenceLinkedPayload(id, _, claim, curated, _, strength) =>
      if HasLink(s, id) then Some(DuplicateId(id))
      else if !HasClaim(s, claim) then Some(UnknownId(claim))
      else if !HasCurated(s, curated) then Some(UnknownId(curated))
      else if strength < 0.0 || strength > 1.0 then Some(InvalidValue)
      else None
  }

  lemma ItemRefusal(s: Snapshot, e: HarnessEvent, now: Time)
    requires e.payload.CandidateAddedPayload? || e.payload.EvidenceCuratedPayload? || e.payload.ContextPrunedPayload?
      || e.payload.SubmissionRecordedPayload? || e.payload.TaskDecomposedPayload?
    ensures match Refusal(s, e)
      case None => Handle(s, e, now).Success?
      case Some(error) => Handle(s, e, now) == Failure(error)
  {
    hide Advanced, Retain;
    assert forall id :: id in CandidateIds(s.candidates) <==> HasCandidate(s, id);
    assert forall id :: id in CuratedIds(s.curatedItems) <==> HasCurated(s, id);
    assert forall id :: id in SubmissionIds(s.submissions) <==> HasSubmission(s, id);
    assert forall id :: id in TaskIds(s.tasks) <==> HasTask(s, id);
  }

  lemma ToolRefusal(s: Snapshot, e: HarnessEvent, now: Time)
    requires e.payload.ToolInvokedPayload? || e.payload.ToolResultReceivedPayload? || e.payload.ActionCommittedPayload?
      || e.payload.SnapshotCheckpointedPayload?
    ensures match Refusal(s, e)
      case None => Handle(s, e, now).Success?
      case Some(error) => Handle(s, e, now) == Failure(error)
  {
    hide Advanced;
    assert forall id :: id in InvocationIds(s.toolInvocations) <==> HasInvocation(s, id);
    assert forall id :: id in ResultIds(s.toolResults) <==> HasResult(s, id);
  }

  lemma LinkFoundFirst(s: Snapshot, id: string, trajectoryId: string)
    ensures var k := IndexById(LinkIds(s.evidenceLinks), id);
      && (k.Some? <==> HasLink(s, id))
      && (k.Some? ==>
            (ForeignLink(s, id, trajectoryId) <==> s.evidenceLinks[k.value].trajectoryId != trajectoryId))
  {
  }

  lemma TaskFoundFirst(s: Snapshot, id: string)
    ensures var k := IndexById(TaskIds(s.tasks), id);
      && (k.Some? <==> HasTask(s, id))
      && (k.Some? ==> (ClosedTask(s, id) <==> s.tasks[k.value].status in {TaskDone, TaskCancelled}))
  {
  }

  lemma ClaimFound(s: Snapshot, id: string)
    ensures IndexById(ClaimIds(s.claims), id).Some? <==> HasClaim(s, id)
  {
  }

  lemma ClaimRefusal(s: Snapshot, e: HarnessEvent, now: Time)
    requires e.payload.ClaimCreatedPayload? || e.payload.ClaimRevisedPayload? || e.payload.EvidenceLinkedPayload?
      || e.payload.EvidenceVerifiedPayload? || e.payload.TaskCompletedPayload?
    ensures match Refusal(s, e)
      case None => Handle(s, e, now).Success?
      case Some(error) => Handle(s, e, now) == Failure(error)
  {
    hide Advanced, IndexById, ForeignLink, ClosedTask, StatusFromResult;
    assert forall id :: id in ClaimIds(s.claims) <==> HasClaim(s, id);
    assert forall id :: id in CuratedIds(s.curatedItems) <==> HasCurated(s, id);
    assert forall id :: id in LinkIds(s.evidenceLinks) <==> HasLink(s, id);
    assert forall id :: id in RecordIds(s.verificationRecords) <==> HasRecord(s, id);
    match e.payload
    case ClaimRevisedPayload(id, _, _) => ClaimFound(s, id);
    case EvidenceVerifiedPayload(link, _, _, _) => LinkFoundFirst(s, link, e.header.trajectoryId);
    case TaskCompletedPayload(id) => TaskFoundFirst(s, id);
    case EvidenceLinkedPayload(_, _, claim, _, _, _) => ClaimFound(s, claim);
    case _ =>
  }

  /** An event whose envelope is right is refused with exactly this error, and accepted if there is none. */
  lemma HandlerRefuses(s: Snapshot, e: HarnessEvent, now: Time)
    ensures match Refusal(s, e)
      case None => Handle(s, e, now).Success?
      case Some(error) => Handle(s, e, now) == Failure(error)
  {
    hide Handle, Refusal;
    match e.payload
    case CandidateAddedPayload(_, _, _, _, _) => ItemRefusal(s, e, now);
    case EvidenceCuratedPayload(_, _, _, _, _) => ItemRefusal(s, e, now);
    case ContextPrunedPayload(_, _) => ItemRefusal(s, e, now);
    case SubmissionRecordedPayload(_, _, _) => ItemRefusal(s, e, now);
    case TaskDecomposedPayload(_, _, _, _) => ItemRefusal(s, e, now);
    case ToolInvokedPayload(_, _, _, _, _, _) => ToolRefusal(s, e, now);
    case ToolResultReceivedPayload(_, _, _) => ToolRefusal(s, e, now);
    case ActionCommittedPayload(_, _) => ToolRefusal(s, e, now);
    case SnapshotCheckpointedPayload(_, _) => ToolRefusal(s, e, now);
    case _ => ClaimRefusal(s, e, now);
  }

  // ----- spending -----

  /** Spending adds exactly the amounts to what is used, takes the tokens off the reservation down to nothing, leaves
    the limits alone, and is refused exactly for a negative amount. */
  lemma SpendExact(b: BudgetLedger, tokens: int, toolCalls: int, wallSeconds: real)
    ensures var r := Spend(b, tokens, toolCalls, wallSeconds);
      && (r == Failure(InvalidValue) <==> tokens < 0 || toolCalls < 0 || wallSeconds < 0.0)
      && (r.Success? ==>
            && r.value.tokensUsed - b.tokensUsed == tokens && r.value.toolCallsUsed - b.toolCallsUsed == toolCalls
            && r.value.wallSecondsUsed - b.wallSecondsUsed == wallSeconds
            && (b.tokensReserved >= tokens ==> r.value.tokensReserved + tokens == b.tokensReserved)
            && (b.tokensReserved < tokens ==> r.value.tokensReserved == 0)
            && r.value.trajectoryId == b.trajectoryId && r.value.maxTokens == b.maxTokens
            && r.value.maxToolCalls == b.maxToolCalls && r.value.maxWallSeconds == b.maxWallSeconds)
  {
  }
}
