/** Immutable records of the control plane: domain.py, events.py and types.py.

  Digests are collision-free: SHA-256 and HMAC values are constructors over the
  hashed term. The content, argument, detail and state hashes that a record
  stores about itself are recomputed and compared by the record's constructor,
  so they are functions of the other fields and are not stored here.
 */
module Schema {
  import opened Results

  type Time = int

  /** The readings of the wall clock: Clock(n) is what utc_now returned while event n was reduced. */
  type Clock = int -> Time

  const CURRENT_EVENT_SCHEMA_VERSION: int := 3

  datatype ClaimStatus = ClaimStated | ClaimVerified | ClaimContradicted | ClaimWithdrawn

  datatype TaskStatus = TaskPending | TaskInProgress | TaskBlocked | TaskDone | TaskCancelled

  datatype VerificationResult = Confirmed | Refuted | Inconclusive

  datatype VerificationStatus = LinkUnverified | LinkVerified | LinkRefuted | LinkInconclusive | LinkStale

  datatype ToolStatus = ToolPending | ToolRunning | ToolSuccess | ToolFailure | ToolTimeout

  datatype Provenance = Provenance(actor: string, actionId: string, eventId: Option<string>)

  datatype CandidateItem = CandidateItem(
    itemId: string, trajectoryId: string, sourceId: string, retrievalQuery: string,
    content: string, createdAt: Time, provenance: Provenance)

  datatype CuratedItem = CuratedItem(
    itemId: string, trajectoryId: string, candidateIds: seq<string>, content: string,
    priority: int, sourceIds: seq<string>, createdAt: Time, provenance: Provenance)

  datatype Claim = Claim(
    claimId: string, trajectoryId: string, content: string, status: ClaimStatus,
    evidenceLinkIds: seq<string>, createdAt: Time, provenance: Provenance)

  datatype EvidenceLink = EvidenceLink(
    linkId: string, trajectoryId: string, claimId: string, curatedItemId: string,
    relationship: string, strength: real, currentStatus: VerificationStatus,
    verificationId: Option<string>, createdAt: Time, provenance: Provenance)

  datatype VerificationRecord = VerificationRecord(
    recordId: string, trajectoryId: string, linkId: string, claimId: string, method_: string,
    result: VerificationResult, details: string, createdAt: Time, provenance: Provenance)

  datatype TaskNode = TaskNode(
    taskId: string, trajectoryId: string, parentId: Option<string>, description: string,
    status: TaskStatus, dependencyIds: seq<string>, createdAt: Time,
    completedAt: Option<Time>, provenance: Provenance)

  datatype BudgetLedger = BudgetLedger(
    trajectoryId: string, maxTokens: int, tokensUsed: int, tokensReserved: int,
    maxToolCalls: Option<int>, toolCallsUsed: int,
    maxWallSeconds: Option<real>, wallSecondsUsed: real)

  datatype ToolInvocation = ToolInvocation(
    invocationId: string, trajectoryId: string, actionId: string, parentTaskId: Option<string>,
    toolName: string, arguments: seq<(string, string)>, dependencyIds: seq<string>,
    deadline: Option<Time>, createdAt: Time, provenance: Provenance)

  datatype ToolResult = ToolResult(
    resultId: string, invocationId: string, trajectoryId: string, status: ToolStatus,
    content: string, receivedAt: Time, provenance: Provenance)

  datatype SubmissionRecord = SubmissionRecord(
    submissionId: string, trajectoryId: string, content: string, sourceIds: seq<string>,
    submittedAt: Time, provenance: Provenance)

  datatype Snapshot = Snapshot(
    trajectoryId: string, epochId: string, sequence: int,
    lastEventHash: Option<Hash>, lastSignature: Option<Hash>, createdAt: Time,
    candidates: seq<CandidateItem>, curatedItems: seq<CuratedItem>, claims: seq<Claim>,
    evidenceLinks: seq<EvidenceLink>, verificationRecords: seq<VerificationRecord>,
    tasks: seq<TaskNode>, budget: Option<BudgetLedger>, submissions: seq<SubmissionRecord>,
    toolInvocations: seq<ToolInvocation>, toolResults: seq<ToolResult>)

  datatype EventType =
    | ActionCommitted | ToolInvoked | ToolResultReceived | EvidenceCurated | ClaimRevised
    | EvidenceVerified | TaskDecomposed | TaskCompleted | ContextPruned | SubmissionRecorded
    | SnapshotCheckpointed | CandidateAdded | ClaimCreated | EvidenceLinked
    | UnknownEventType(name: string)

  datatype Payload =
    | ActionCommittedPayload(actionType: string, actionParams: seq<(string, string)>)
    | ToolInvokedPayload(
        invocationId: string, parentTaskId: Option<string>, toolName: string,
        arguments: seq<(string, string)>, dependencyIds: seq<string>, deadline: Option<Time>)
    | ToolResultReceivedPayload(invocationId: string, status: string, content: string)
    | EvidenceCuratedPayload(
        candidateIds: seq<string>, curatedItemId: string, content: string, priority: int,
        sourceIds: seq<string>)
    | ClaimRevisedPayload(claimId: string, newContent: Option<string>, newStatus: Option<ClaimStatus>)
    | EvidenceVerifiedPayload(
        linkId: string, verificationId: string, result: VerificationResult, details: string)
    | TaskDecomposedPayload(
        parentTaskId: Option<string>, taskId: string, description: string, dependencyIds: seq<string>)
    | TaskCompletedPayload(taskId: string)
    | ContextPrunedPayload(retainedItemIds: seq<string>, newEpochId: string)
    | SubmissionRecordedPayload(submissionId: string, content: string, sourceIds: seq<string>)
    | SnapshotCheckpointedPayload(snapshotSequence: int, snapshotHash: Hash)
    | CandidateAddedPayload(
        itemId: string, trajectoryId: string, sourceId: string, retrievalQuery: string, content: string)
    | ClaimCreatedPayload(claimId: string, trajectoryId: string, content: string)
    | EvidenceLinkedPayload(
        linkId: string, trajectoryId: string, claimId: string, curatedItemId: string,
        relationship: string, strength: real)

  /** A digest is the term it was computed from; Literal is any other text in a hash column. */
  datatype Hash =
    | PayloadDigest(payload: Payload)
    | EventDigest(
        eventId: string, trajectoryId: string, sequence: int, eventType: EventType,
        schemaVersion: int, idempotencyKey: string, parentEventId: Option<string>,
        createdAt: Time, actor: string, actionId: string, payloadHash: Hash,
        previousEventHash: Option<Hash>, previousSignature: Option<Hash>)
    | SignatureDigest(key: string, eventHash: Hash, previousSignature: Option<Hash>)
    | RequestDigest(
        eventType: EventType, payload: Payload, actor: string, actionId: string,
        parentEventId: Option<string>)
    | StateDigest(state: Snapshot)
    | CheckpointDigest(
        snapshotId: SnapshotId, trajectoryId: string, epochId: string, sequence: int,
        stateHash: Hash, lastEventHash: Option<Hash>, lastSignature: Option<Hash>, eventCount: int)
    | Literal(text: string)

  /** "genesis-<trajectory>" and "checkpoint-<trajectory>-<sequence>". */
  datatype SnapshotId = GenesisId(trajectoryId: string) | CheckpointId(trajectoryId: string, sequence: int)

  datatype EventHeader = EventHeader(
    eventId: string, trajectoryId: string, sequence: int, eventType: EventType,
    schemaVersion: int, idempotencyKey: string, parentEventId: Option<string>,
    createdAt: Time, actor: string, actionId: string,
    previousEventHash: Option<Hash>, eventHash: Hash,
    previousSignature: Option<Hash>, signature: Option<Hash>)

  datatype HarnessEvent = HarnessEvent(header: EventHeader, payload: Payload, payloadHash: Hash)

  datatype ProposedEvent = ProposedEvent(
    eventType: EventType, payload: Payload, idempotencyKey: string,
    actor: string, actionId: string, parentEventId: Option<string>)

  function PayloadTypeName(payload: Payload): EventType {
    match payload
    case ActionCommittedPayload(_, _) => ActionCommitted
    case ToolInvokedPayload(_, _, _, _, _, _) => ToolInvoked
    case ToolResultReceivedPayload(_, _, _) => ToolResultReceived
    case EvidenceCuratedPayload(_, _, _, _, _) => EvidenceCurated
    case ClaimRevisedPayload(_, _, _) => ClaimRevised
    case EvidenceVerifiedPayload(_, _, _, _) => EvidenceVerified
    case TaskDecomposedPayload(_, _, _, _) => TaskDecomposed
    case TaskCompletedPayload(_) => TaskCompleted
    case ContextPrunedPayload(_, _) => ContextPruned
    case SubmissionRecordedPayload(_, _, _) => SubmissionRecorded
    case SnapshotCheckpointedPayload(_, _) => SnapshotCheckpointed
    case CandidateAddedPayload(_, _, _, _, _) => CandidateAdded
    case ClaimCreatedPayload(_, _, _) => ClaimCreated
    case EvidenceLinkedPayload(_, _, _, _, _, _) => EvidenceLinked
  }

  function ComputeEventHash(h: EventHeader, payloadHash: Hash): Hash {
    EventDigest(h.eventId, h.trajectoryId, h.sequence, h.eventType, h.schemaVersion,
                h.idempotencyKey, h.parentEventId, h.createdAt, h.actor, h.actionId,
                payloadHash, h.previousEventHash, h.previousSignature)
  }

  function ComputeSignature(h: EventHeader, signingKey: Option<string>): Option<Hash> {
    match signingKey
    case None => None
    case Some(key) => Some(SignatureDigest(key, h.eventHash, h.previousSignature))
  }

  /** verify_signature returns normally: signatures are absent without a key and right with one. */
  predicate VerifySignature(h: EventHeader, signingKey: Option<string>) {
    h.signature == ComputeSignature(h, signingKey)
  }

  function ComputeRequestHash(p: ProposedEvent): Hash {
    RequestDigest(p.eventType, p.payload, p.actor, p.actionId, p.parentEventId)
  }

  /** Every field except created_at enters the state hash. */
  function ComputeStateHash(s: Snapshot): Hash {
    StateDigest(s.(createdAt := 0))
  }

  /** What the HarnessEvent constructor accepts. */
  predicate WellFormedEvent(e: HarnessEvent) {
    && e.payloadHash == PayloadDigest(e.payload)
    && e.header.eventHash == ComputeEventHash(e.header, e.payloadHash)
    && e.header.eventType == PayloadTypeName(e.payload)
  }

  /** The snapshot that init_trajectory stores. */
  function GenesisSnapshot(trajectoryId: string, epochId: string, budget: BudgetLedger, createdAt: Time): Snapshot {
    Snapshot(trajectoryId, epochId, 0, None, None, createdAt,
             [], [], [], [], [], [], Some(budget), [], [], [])
  }
}
