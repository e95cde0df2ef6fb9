/** reducer.py: previous snapshot + validated event -> new snapshot.

  The clock is explicit: `now` is the reading taken while the event is reduced.
  Only two handlers let it reach the new snapshot, HandleClaimRevised and
  HandleEvidenceLinked; every other record takes created_at from the event.
 */
module Reducer {
  import opened Results
  import opened Schema

  datatype ReduceError =
    | TrajectoryMismatch | UnsupportedSchema | EventTypeMismatch | SequenceGap
    | GenesisHasPreviousHash | MissingPreviousHash | ChainMismatch
    | GenesisHasPreviousSignature | MissingPreviousSignature | SignatureMismatch
    | DuplicateId(id: string) | UnknownId(id: string)
    | CheckpointMismatch | AlreadyClosed | InvalidValue

  type Reduced = Result<Snapshot, ReduceError>

  // ----- the identifiers of each collection -----

  function CandidateIds(xs: seq<CandidateItem>): (ids: seq<string>)
    ensures |ids| == |xs| && forall i :: 0 <= i < |xs| ==> ids[i] == xs[i].itemId
  {
    seq(|xs|, i requires 0 <= i < |xs| => xs[i].itemId)
  }

  function CuratedIds(xs: seq<CuratedItem>): (ids: seq<string>)
    ensures |ids| == |xs| && forall i :: 0 <= i < |xs| ==> ids[i] == xs[i].itemId
  {
    seq(|xs|, i requires 0 <= i < |xs| => xs[i].itemId)
  }

  function ClaimIds(xs: seq<Claim>): (ids: seq<string>)
    ensures |ids| == |xs| && forall i :: 0 <= i < |xs| ==> ids[i] == xs[i].claimId
  {
    seq(|xs|, i requires 0 <= i < |xs| => xs[i].claimId)
  }

  function LinkIds(xs: seq<EvidenceLink>): (ids: seq<string>)
    ensures |ids| == |xs| && forall i :: 0 <= i < |xs| ==> ids[i] == xs[i].linkId
  {
    seq(|xs|, i requires 0 <= i < |xs| => xs[i].linkId)
  }

  function RecordIds(xs: seq<VerificationRecord>): (ids: seq<string>)
    ensures |ids| == |xs| && forall i :: 0 <= i < |xs| ==> ids[i] == xs[i].recordId
  {
    seq(|xs|, i requires 0 <= i < |xs| => xs[i].recordId)
  }

  function TaskIds(xs: seq<TaskNode>): (ids: seq<string>)
    ensures |ids| == |xs| && forall i :: 0 <= i < |xs| ==> ids[i] == xs[i].taskId
  {
    seq(|xs|, i requires 0 <= i < |xs| => xs[i].taskId)
  }

  function SubmissionIds(xs: seq<SubmissionRecord>): (ids: seq<string>)
    ensures |ids| == |xs| && forall i :: 0 <= i < |xs| ==> ids[i] == xs[i].submissionId
  {
    seq(|xs|, i requires 0 <= i < |xs| => xs[i].submissionId)
  }

  function InvocationIds(xs: seq<ToolInvocation>): (ids: seq<string>)
    ensures |ids| == |xs| && forall i :: 0 <= i < |xs| ==> ids[i] == xs[i].invocationId
  {
    seq(|xs|, i requires 0 <= i < |xs| => xs[i].invocationId)
  }

  function ResultIds(xs: seq<ToolResult>): (ids: seq<string>)
    ensures |ids| == |xs| && forall i :: 0 <= i < |xs| ==> ids[i] == xs[i].invocationId
  {
    seq(|xs|, i requires 0 <= i < |xs| => xs[i].invocationId)
  }

  // ----- helpers -----

  /** _index_by_id: the first position holding `target`. */
  function IndexById(ids: seq<string>, target: string): (r: Option<nat>)
    ensures r.Some? ==> r.value < |ids| && ids[r.value] == target && forall j :: 0 <= j < r.value ==> ids[j] != target
    ensures r.None? ==> forall j :: 0 <= j < |ids| ==> ids[j] != target
  {
    IndexFrom(ids, target, 0)
  }

  function IndexFrom(ids: seq<string>, target: string, k: nat): (r: Option<nat>)
    requires k <= |ids|
    ensures r.Some? ==> k <= r.value < |ids| && ids[r.value] == target
    ensures r.Some? ==> forall j :: k <= j < r.value ==> ids[j] != target
    ensures r.None? ==> forall j :: k <= j < |ids| ==> ids[j] != target
    decreases |ids| - k
  {
    if k == |ids| then None
    else if ids[k] == target then Some(k)
    else IndexFrom(ids, target, k + 1)
  }

  function ParseToolStatus(text: string): Option<ToolStatus> {
    if text == "pending" then Some(ToolPending)
    else if text == "running" then Some(ToolRunning)
    else if text == "success" then Some(ToolSuccess)
    else if text == "failure" then Some(ToolFailure)
    else if text == "timeout" then Some(ToolTimeout)
    else None
  }

  function StatusFromResult(result: VerificationResult): VerificationStatus {
    match result
    case Confirmed => LinkVerified
    case Refuted => LinkRefuted
    case Inconclusive => LinkInconclusive
  }

  function EventProvenance(e: HarnessEvent): Provenance {
    Provenance(e.header.actor, e.header.actionId, Some(e.header.eventId))
  }

  function NextSnapshot(s: Snapshot, e: HarnessEvent): Snapshot {
    s.(sequence := e.header.sequence,
       lastEventHash := Some(e.header.eventHash),
       lastSignature := e.header.signature,
       createdAt := e.header.createdAt)
  }

  /** Whatever else a handler does, it moves the head to the event it applied. */
  predicate Advanced(s: Snapshot, e: HarnessEvent, r: Reduced) {
    r.Success? ==>
      && r.value.trajectoryId == s.trajectoryId
      && r.value.sequence == e.header.sequence
      && r.value.lastEventHash == Some(e.header.eventHash)
      && r.value.lastSignature == e.header.signature
      && r.value.createdAt == e.header.createdAt
  }

  function Max(a: int, b: int): int {
    if a < b then b else a
  }

  /** BudgetLedger.spend; negative amounts are refused. */
  function Spend(b: BudgetLedger, tokens: int, toolCalls: int, wallSeconds: real): Result<BudgetLedger, ReduceError> {
    if tokens < 0 || toolCalls < 0 || wallSeconds < 0.0 then Failure(InvalidValue)
    else Success(b.(tokensUsed := b.tokensUsed + tokens,
                    tokensReserved := Max(0, b.tokensReserved - tokens),
                    toolCallsUsed := b.toolCallsUsed + toolCalls,
                    wallSecondsUsed := b.wallSecondsUsed + wallSeconds))
  }

  // ----- envelope -----

  function ValidateEnvelope(s: Snapshot, e: HarnessEvent): Option<ReduceError> {
    var h := e.header;
    if h.trajectoryId != s.trajectoryId then Some(TrajectoryMismatch)
    else if h.schemaVersion > CURRENT_EVENT_SCHEMA_VERSION then Some(UnsupportedSchema)
    else if h.eventType != PayloadTypeName(e.payload) then Some(EventTypeMismatch)
    else if h.sequence != s.sequence + 1 then Some(SequenceGap)
    else if h.sequence == 1 && h.previousEventHash.Some? then Some(GenesisHasPreviousHash)
    else if h.sequence > 1 && h.previousEventHash.None? then Some(MissingPreviousHash)
    else if h.previousEventHash != s.lastEventHash then Some(ChainMismatch)
    else if h.signature.Some? || s.lastSignature.Some? then
      if h.sequence == 1 && h.previousSignature.Some? then Some(GenesisHasPreviousSignature)
      else if h.sequence > 1 && h.previousSignature.None? then Some(MissingPreviousSignature)
      else if h.previousSignature != s.lastSignature then Some(SignatureMismatch)
      else None
    else None
  }

  // ----- handlers -----

  function HandleToolInvoked(s: Snapshot, e: HarnessEvent): (r: Reduced)
    requires e.payload.ToolInvokedPayload?
    ensures Advanced(s, e, r)
  {
    var p := e.payload;
    if p.invocationId in InvocationIds(s.toolInvocations) then Failure(DuplicateId(p.invocationId))
    else
      var invocation := ToolInvocation(
        p.invocationId, e.header.trajectoryId, e.header.actionId, p.parentTaskId, p.toolName,
        p.arguments, p.dependencyIds, p.deadline, e.header.createdAt, EventProvenance(e));
      var next := NextSnapshot(s, e).(toolInvocations := s.toolInvocations + [invocation]);
      match s.budget
      case None => Success(next)
      case Some(b) =>
        var spent :- Spend(b, 0, 1, 0.0);
        Success(next.(budget := Some(spent)))
  }

  function HandleToolResultReceived(s: Snapshot, e: HarnessEvent): (r: Reduced)
    requires e.payload.ToolResultReceivedPayload?
    ensures Advanced(s, e, r)
  {
    var p := e.payload;
    if p.invocationId !in InvocationIds(s.toolInvocations) then Failure(UnknownId(p.invocationId))
    else if p.invocationId in ResultIds(s.toolResults) then Failure(DuplicateId(p.invocationId))
    else
      match ParseToolStatus(p.status)
      case None => Failure(InvalidValue)
      case Some(status) =>
        var result := ToolResult(p.invocationId, p.invocationId, e.header.trajectoryId, status,
                                 p.content, e.header.createdAt, EventProvenance(e));
        Success(NextSnapshot(s, e).(toolResults := s.toolResults + [result]))
  }

  function HandleEvidenceCurated(s: Snapshot, e: HarnessEvent): (r: Reduced)
    requires e.payload.EvidenceCuratedPayload?
    ensures Advanced(s, e, r)
  {
    var p := e.payload;
    if exists id :: id in p.candidateIds && id !in CandidateIds(s.candidates) then Failure(UnknownId(p.curatedItemId))
    else if p.curatedItemId in CuratedIds(s.curatedItems) then Failure(DuplicateId(p.curatedItemId))
    else
      var curated := CuratedItem(p.curatedItemId, e.header.trajectoryId, p.candidateIds, p.content,
                                 p.priority, p.sourceIds, e.header.createdAt, EventProvenance(e));
      Success(NextSnapshot(s, e).(curatedItems := s.curatedItems + [curated]))
  }

  function HandleClaimRevised(s: Snapshot, e: HarnessEvent, now: Time): (r: Reduced)
    requires e.payload.ClaimRevisedPayload?
    ensures Advanced(s, e, r)
  {
    var p := e.payload;
    match IndexById(ClaimIds(s.claims), p.claimId)
    case None => Failure(UnknownId(p.claimId))
    case Some(i) =>
      var old_ := s.claims[i];
      var revised := Claim(
        old_.claimId, old_.trajectoryId,
        if p.newContent.Some? then p.newContent.value else old_.content,
        if p.newStatus.Some? then p.newStatus.value else old_.status,
        old_.evidenceLinkIds, now, EventProvenance(e));
      Success(NextSnapshot(s, e).(claims := s.claims[i := revised]))
  }

  function HandleEvidenceVerified(s: Snapshot, e: HarnessEvent): (r: Reduced)
    requires e.payload.EvidenceVerifiedPayload?
    ensures Advanced(s, e, r)
  {
    var p := e.payload;
    match IndexById(LinkIds(s.evidenceLinks), p.linkId)
    case None => Failure(UnknownId(p.linkId))
    case Some(i) =>
      var link := s.evidenceLinks[i];
      if link.trajectoryId != e.header.trajectoryId then Failure(TrajectoryMismatch)
      else if p.verificationId in RecordIds(s.verificationRecords) then Failure(DuplicateId(p.verificationId))
      else
        var record := VerificationRecord(
          p.verificationId, e.header.trajectoryId, p.linkId, link.claimId, "event",
          p.result, p.details, e.header.createdAt, EventProvenance(e));
        var updated := link.(currentStatus := StatusFromResult(p.result), verificationId := Some(p.verificationId));
        Success(NextSnapshot(s, e).(
                evidenceLinks := s.evidenceLinks[i := updated],
                verificationRecords := s.verificationRecords + [record]))
  }

  function HandleTaskDecomposed(s: Snapshot, e: HarnessEvent): (r: Reduced)
    requires e.payload.TaskDecomposedPayload?
    ensures Advanced(s, e, r)
  {
    var p := e.payload;
    if p.taskId in TaskIds(s.tasks) then Failure(DuplicateId(p.taskId))
    else
      var task := TaskNode(p.taskId, e.header.trajectoryId, p.parentTaskId, p.description, TaskPending,
                           p.dependencyIds, e.header.createdAt, None, EventProvenance(e));
      Success(NextSnapshot(s, e).(tasks := s.tasks + [task]))
  }

  function HandleTaskCompleted(s: Snapshot, e: HarnessEvent): (r: Reduced)
    requires e.payload.TaskCompletedPayload?
    ensures Advanced(s, e, r)
  {
    var p := e.payload;
    match IndexById(TaskIds(s.tasks), p.taskId)
    case None => Failure(UnknownId(p.taskId))
    case Some(i) =>
      var task := s.tasks[i];
      if task.status.TaskDone? || task.status.TaskCancelled? then Failure(AlreadyClosed)
      else
        var completed := task.(status := TaskDone, completedAt := Some(e.header.createdAt));
        Success(NextSnapshot(s, e).(tasks := s.tasks[i := completed]))
  }

  /** The curated items whose id is retained, in order. */
  function Retain(items: seq<CuratedItem>, ids: seq<string>): seq<CuratedItem> {
    if items == [] then []
    else (if items[0].itemId in ids then [items[0]] else []) + Retain(items[1..], ids)
  }

  function HandleContextPruned(s: Snapshot, e: HarnessEvent): (r: Reduced)
    requires e.payload.ContextPrunedPayload?
    ensures Advanced(s, e, r)
  {
    var p := e.payload;
    if exists id :: id in p.retainedItemIds && id !in CuratedIds(s.curatedItems) then Failure(UnknownId(p.newEpochId))
    else
      Success(NextSnapshot(s, e).(
              epochId := p.newEpochId,
              curatedItems := Retain(s.curatedItems, p.retainedItemIds)))
  }

  function HandleSubmissionRecorded(s: Snapshot, e: HarnessEvent): (r: Reduced)
    requires e.payload.SubmissionRecordedPayload?
    ensures Advanced(s, e, r)
  {
    var p := e.payload;
    if p.submissionId in SubmissionIds(s.submissions) then Failure(DuplicateId(p.submissionId))
    else
      var submission := SubmissionRecord(p.submissionId, e.header.trajectoryId, p.content, p.sourceIds,
                                         e.header.createdAt, EventProvenance(e));
      Success(NextSnapshot(s, e).(submissions := s.submissions + [submission]))
  }

  function HandleSnapshotCheckpointed(s: Snapshot, e: HarnessEvent): (r: Reduced)
    requires e.payload.SnapshotCheckpointedPayload?
    ensures Advanced(s, e, r)
  {
    var p := e.payload;
    if p.snapshotSequence != s.sequence then Failure(CheckpointMismatch)
    else if p.snapshotHash != ComputeStateHash(s) then Failure(CheckpointMismatch)
    else Success(NextSnapshot(s, e))
  }

  function HandleCandidateAdded(s: Snapshot, e: HarnessEvent): (r: Reduced)
    requires e.payload.CandidateAddedPayload?
    ensures Advanced(s, e, r)
  {
    var p := e.payload;
    if p.itemId in CandidateIds(s.candidates) then Failure(DuplicateId(p.itemId))
    else
      var candidate := CandidateItem(p.itemId, e.header.trajectoryId, p.sourceId, p.retrievalQuery,
                                     p.content, e.header.createdAt, EventProvenance(e));
      Success(NextSnapshot(s, e).(candidates := s.candidates + [candidate]))
  }

  function HandleClaimCreated(s: Snapshot, e: HarnessEvent): (r: Reduced)
    requires e.payload.ClaimCreatedPayload?
    ensures Advanced(s, e, r)
  {
    var p := e.payload;
    if p.claimId in ClaimIds(s.claims) then Failure(DuplicateId(p.claimId))
    else
      var claim := Claim(p.claimId, e.header.trajectoryId, p.content, ClaimStated, [],
                         e.header.createdAt, EventProvenance(e));
      Success(NextSnapshot(s, e).(claims := s.claims + [claim]))
  }

  function HandleEvidenceLinked(s: Snapshot, e: HarnessEvent, now: Time): (r: Reduced)
    requires e.payload.EvidenceLinkedPayload?
    ensures Advanced(s, e, r)
  {
    var p := e.payload;
    if p.linkId in LinkIds(s.evidenceLinks) then Failure(DuplicateId(p.linkId))
    else
      match IndexById(ClaimIds(s.claims), p.claimId)
      case None => Failure(UnknownId(p.claimId))
      case Some(i) =>
        if p.curatedItemId !in CuratedIds(s.curatedItems) then Failure(UnknownId(p.curatedItemId))
        else if !(0.0 <= p.strength <= 1.0) then Failure(InvalidValue)
        else
          var link := EvidenceLink(p.linkId, e.header.trajectoryId, p.claimId, p.curatedItemId,
                                   p.relationship, p.strength, LinkUnverified, None, now, EventProvenance(e));
          var claim := s.claims[i];
          var claims :=
            if p.linkId !in claim.evidenceLinkIds
            then s.claims[i := claim.(evidenceLinkIds := claim.evidenceLinkIds + [p.linkId])]
            else s.claims;
          Success(NextSnapshot(s, e).(claims := claims, evidenceLinks := s.evidenceLinks + [link]))
  }

  /** The handler table; once the envelope is valid, event type and payload type agree. */
  function Handle(s: Snapshot, e: HarnessEvent, now: Time): (r: Reduced)
    ensures Advanced(s, e, r)
  {
    match e.payload
    case ActionCommittedPayload(_, _) => Success(NextSnapshot(s, e))
    case ToolInvokedPayload(_, _, _, _, _, _) => HandleToolInvoked(s, e)
    case ToolResultReceivedPayload(_, _, _) => HandleToolResultReceived(s, e)
    case EvidenceCuratedPayload(_, _, _, _, _) => HandleEvidenceCurated(s, e)
    case ClaimRevisedPayload(_, _, _) => HandleClaimRevised(s, e, now)
    case EvidenceVerifiedPayload(_, _, _, _) => HandleEvidenceVerified(s, e)
    case TaskDecomposedPayload(_, _, _, _) => HandleTaskDecomposed(s, e)
    case TaskCompletedPayload(_) => HandleTaskCompleted(s, e)
    case ContextPrunedPayload(_, _) => HandleContextPruned(s, e)
    case SubmissionRecordedPayload(_, _, _) => HandleSubmissionRecorded(s, e)
    case SnapshotCheckpointedPayload(_, _) => HandleSnapshotCheckpointed(s, e)
    case CandidateAddedPayload(_, _, _, _, _) => HandleCandidateAdded(s, e)
    case ClaimCreatedPayload(_, _, _) => HandleClaimCreated(s, e)
    case EvidenceLinkedPayload(_, _, _, _, _, _) => HandleEvidenceLinked(s, e, now)
  }

  function ReduceEvent(s: Snapshot, e: HarnessEvent, now: Time): Reduced {
    match ValidateEnvelope(s, e)
    case Some(error) => Failure(error)
    case None => Handle(s, e, now)
  }

  /** Folding a log from a snapshot, stopping at the first event that is refused. */
  function Fold(s: Snapshot, log: seq<HarnessEvent>, clock: Clock): Reduced
    decreases |log|
  {
    if log == [] then Success(s)
    else
      var prefix :- Fold(s, log[..|log| - 1], clock);
      var e := log[|log| - 1];
      ReduceEvent(prefix, e, clock(e.header.sequence))
  }
}
