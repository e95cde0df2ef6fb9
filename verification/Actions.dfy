/** actions.py: the typed actions of a policy, their validation, and the events they propose. */
module Actions {
  import opened Results
  import opened Schema
  import opened Reducer
  import opened Consistency

  datatype Action =
    | Decompose(taskId: string, parentTaskId: Option<string>, description: string, dependencyIds: seq<string>)
    | Search(query: string)
    | Read(sourceId: string)
    | Curate(candidateIds: seq<string>, curatedItemId: string, content: string, priority: int, sourceIds: seq<string>)
    | Discard(candidateIds: seq<string>, reason: string)
    | Verify(linkId: string, verificationId: string, result: VerificationResult, details: string)
    | ReviseClaim(claimId: string, newContent: Option<string>, newStatus: Option<ClaimStatus>)
    | PruneSemantic(retainedItemIds: seq<string>, newEpochId: string)
    | RequestContext(contextType: string, parameters: seq<(string, string)>)
    | Submit(submissionId: string, content: string, sourceIds: seq<string>)
    | AddCandidate(itemId: string, sourceId: string, retrievalQuery: string, content: string)
    | CreateClaim(claimId: string, content: string)
    | LinkEvidence(linkId: string, claimId: string, curatedItemId: string, relationship: string, strength: real)

  datatype ActionError = SafetyError | BudgetError | PreconditionError

  /** The security profile of a runtime, and which characters count as blank. */
  datatype Profile = Profile(toolNames: Option<set<string>>, pathAllowed: string -> bool, isSpace: char -> bool)

  predicate Blank(text: string, profile: Profile) {
    forall i :: 0 <= i < |text| ==> profile.isSpace(text[i])
  }

  function TokensAvailable(b: BudgetLedger): int {
    Max(0, b.maxTokens - b.tokensUsed - b.tokensReserved)
  }

  predicate CallsTool(action: Action) {
    action.Search? || action.Read?
  }

  predicate SafeAction(action: Action, profile: Profile) {
    match action
    case Read(sourceId) => profile.pathAllowed(sourceId)
    case Search(query) => !Blank(query, profile)
    case _ => true
  }

  /** _validate_budget returns normally. */
  predicate WithinBudget(action: Action, s: Snapshot, tokenCost: int) {
    match s.budget
    case None => true
    case Some(b) =>
      && TokensAvailable(b) >= tokenCost
      && (CallsTool(action) && b.maxToolCalls.Some? ==> b.toolCallsUsed < b.maxToolCalls.value)
  }

  predicate Subset(ids: seq<string>, known: seq<string>) {
    forall id :: id in ids ==> id in known
  }

  /** _validate_preconditions returns normally. */
  predicate PreconditionsHold(action: Action, s: Snapshot, profile: Profile) {
    match action
    case Decompose(taskId, parent, _, deps) =>
      var tasks := TaskIds(s.tasks);
      taskId !in tasks && (parent.Some? ==> parent.value in tasks) && Subset(deps, tasks)
    case Curate(candidateIds, curatedItemId, _, _, _) =>
      Subset(candidateIds, CandidateIds(s.candidates)) && curatedItemId !in CuratedIds(s.curatedItems)
    case Discard(candidateIds, _) => Subset(candidateIds, CandidateIds(s.candidates))
    case Verify(linkId, _, _, _) => linkId in LinkIds(s.evidenceLinks)
    case ReviseClaim(claimId, content, status) => claimId in ClaimIds(s.claims) && (content.Some? || status.Some?)
    case PruneSemantic(retained, _) => Subset(retained, CuratedIds(s.curatedItems))
    case RequestContext(_, _) => true
    case Submit(_, content, _) => !Blank(content, profile)
    case AddCandidate(itemId, _, _, _) => itemId !in CandidateIds(s.candidates)
    case CreateClaim(claimId, _) => claimId !in ClaimIds(s.claims)
    case LinkEvidence(_, claimId, curatedItemId, relationship, strength) =>
      && claimId in ClaimIds(s.claims) && curatedItemId in CuratedIds(s.curatedItems)
      && (relationship == "supports" || relationship == "contradicts" || relationship == "neutral")
      && 0.0 <= strength <= 1.0
    case Search(_) => profile.toolNames.Some? ==> "web_search" in profile.toolNames.value
    case Read(_) => profile.toolNames.Some? ==> "read_file" in profile.toolNames.value
  }

  /** validate_action: the first of the three groups of checks that fails. */
  function ValidateAction(action: Action, s: Snapshot, profile: Profile, tokenCost: int): Option<ActionError> {
    if !SafeAction(action, profile) then Some(SafetyError)
    else if !WithinBudget(action, s, tokenCost) then Some(BudgetError)
    else if !PreconditionsHold(action, s, profile) then Some(PreconditionError)
    else None
  }

  /** ",".join */
  function Join(parts: seq<string>): string {
    if parts == [] then "" else if |parts| == 1 then parts[0] else parts[0] + "," + Join(parts[1..])
  }

  /** The payload that an action proposes, and the suffix of its idempotency key. */
  function PlanPayload(action: Action, trajectoryId: string, actionId: string): (Payload, string) {
    match action
    case Decompose(taskId, parent, description, deps) =>
      (TaskDecomposedPayload(parent, taskId, description, deps), "-decompose")
    case Search(query) =>
      (ToolInvokedPayload("tool-" + actionId, None, "web_search", [("query", query)], [], None), "-search")
    case Read(sourceId) =>
      (ToolInvokedPayload("tool-" + actionId, None, "read_file", [("source_id", sourceId)], [], None), "-read")
    case Curate(candidateIds, curatedItemId, content, priority, sourceIds) =>
      (EvidenceCuratedPayload(candidateIds, curatedItemId, content, priority, sourceIds), "-curate")
    case Discard(candidateIds, reason) =>
      (ActionCommittedPayload("discard", [("candidate_ids", Join(candidateIds)), ("reason", reason)]), "-discard")
    case Verify(linkId, verificationId, result, details) =>
      (EvidenceVerifiedPayload(linkId, verificationId, result, details), "-verify")
    case ReviseClaim(claimId, content, status) => (ClaimRevisedPayload(claimId, content, status), "-revise")
    case PruneSemantic(retained, epochId) => (ContextPrunedPayload(retained, epochId), "-prune")
    case RequestContext(contextType, parameters) =>
      (ActionCommittedPayload("request_context", [("context_type", contextType)] + parameters), "-request-context")
    case Submit(submissionId, content, sourceIds) =>
      (SubmissionRecordedPayload(submissionId, content, sourceIds), "-submit")
    case AddCandidate(itemId, sourceId, query, content) =>
      (CandidateAddedPayload(itemId, trajectoryId, sourceId, query, content), "-add-candidate")
    case CreateClaim(claimId, content) => (ClaimCreatedPayload(claimId, trajectoryId, content), "-create-claim")
    case LinkEvidence(linkId, claimId, curatedItemId, relationship, strength) =>
      (EvidenceLinkedPayload(linkId, trajectoryId, claimId, curatedItemId, relationship, strength), "-link-evidence")
  }

  /** plan_events: every action becomes one proposal. */
  function PlanEvents(action: Action, s: Snapshot, actionId: string, actor: string): seq<ProposedEvent> {
    var (payload, suffix) := PlanPayload(action, s.trajectoryId, actionId);
    [ProposedEvent(PayloadTypeName(payload), payload, actionId + suffix, actor, actionId, None)]
  }

  /** What validate_action leaves unchecked: the ids that the reducer insists are new. */
  predicate NewIdsFresh(action: Action, s: Snapshot, actionId: string) {
    match action
    case Search(_) => "tool-" + actionId !in InvocationIds(s.toolInvocations)
    case Read(_) => "tool-" + actionId !in InvocationIds(s.toolInvocations)
    case Verify(_, verificationId, _, _) => verificationId !in RecordIds(s.verificationRecords)
    case Submit(submissionId, _, _) => submissionId !in SubmissionIds(s.submissions)
    case LinkEvidence(linkId, _, _, _, _) => linkId !in LinkIds(s.evidenceLinks)
    case _ => true
  }

  /** What the reducer checks of the state besides new ids. */
  predicate ReferencesExist(action: Action, s: Snapshot) {
    match action
    case Decompose(taskId, _, _, _) => taskId !in TaskIds(s.tasks)
    case Curate(candidateIds, id, _, _, _) =>
      Subset(candidateIds, CandidateIds(s.candidates)) && id !in CuratedIds(s.curatedItems)
    case Verify(linkId, _, _, _) => linkId in LinkIds(s.evidenceLinks)
    case ReviseClaim(claimId, _, _) => claimId in ClaimIds(s.claims)
    case PruneSemantic(retained, _) => Subset(retained, CuratedIds(s.curatedItems))
    case AddCandidate(itemId, _, _, _) => itemId !in CandidateIds(s.candidates)
    case CreateClaim(claimId, _) => claimId !in ClaimIds(s.claims)
    case LinkEvidence(_, claimId, curatedItemId, _, strength) =>
      claimId in ClaimIds(s.claims) && curatedItemId in CuratedIds(s.curatedItems) && 0.0 <= strength <= 1.0
    case _ => true
  }

  predicate OnItems(action: Action) {
    action.Curate? || action.PruneSemantic? || action.AddCandidate? || action.Submit? || action.Decompose?
      || CallsTool(action)
  }

  lemma ItemPlanHandledIff(action: Action, s: Snapshot, actionId: string, e: HarnessEvent, now: Time)
    requires OnItems(action)
    requires e.payload == PlanPayload(action, s.trajectoryId, actionId).0
    ensures Handle(s, e, now).Success? <==> ReferencesExist(action, s) && NewIdsFresh(action, s, actionId)
  {
    hide Retain, ParseToolStatus, Join, IndexById;
  }

  lemma ClaimPlanHandledIff(action: Action, s: Snapshot, actionId: string, e: HarnessEvent, now: Time)
    requires !OnItems(action) && ReferencesResolve(s) && e.header.trajectoryId == s.trajectoryId
    requires e.payload == PlanPayload(action, s.trajectoryId, actionId).0
    ensures Handle(s, e, now).Success? <==> ReferencesExist(action, s) && NewIdsFresh(action, s, actionId)
  {
    hide Retain, ParseToolStatus, Join;
  }

  /** In a consistent state the reducer accepts the planned event, in its place in the chain, exactly when
    what it refers to exists and the ids it introduces are new. */
  lemma PlanAcceptedIff(action: Action, s: Snapshot, actionId: string, e: HarnessEvent, now: Time)
    requires Consistent(s) && ValidateEnvelope(s, e).None?
    requires e.payload == PlanPayload(action, s.trajectoryId, actionId).0
    ensures ReduceEvent(s, e, now).Success? <==> ReferencesExist(action, s) && NewIdsFresh(action, s, actionId)
  {
    hide Handle, IdsUnique, ClaimsListTheirLinks, LinksFollowRecords, CuratedCiteCandidates, ReferencesResolve;
    if OnItems(action) {
      ItemPlanHandledIff(action, s, actionId, e, now);
    } else {
      assert e.header.trajectoryId == s.trajectoryId;
      ClaimPlanHandledIff(action, s, actionId, e, now);
    }
  }

  /** So a validated action can only be refused for a new id that validation does not look at. */
  lemma ValidatedPlanAcceptedIff(
    action: Action, s: Snapshot, profile: Profile, tokenCost: int, actionId: string, e: HarnessEvent, now: Time)
    requires Consistent(s) && ValidateAction(action, s, profile, tokenCost).None?
    requires e.payload == PlanPayload(action, s.trajectoryId, actionId).0
    requires ValidateEnvelope(s, e).None?
    ensures ReduceEvent(s, e, now).Success? <==> NewIdsFresh(action, s, actionId)
  {
    hide ReduceEvent, Consistent, ValidateEnvelope, PlanPayload, Blank;
    PlanAcceptedIff(action, s, actionId, e, now);
  }
}
