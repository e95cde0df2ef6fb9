/** What an action comes to: the event that it proposes, and what a snapshot holds once the event is accepted, in
  terms of the action's own fields.
 */
module ActionEffects {
  import opened Results
  import opened Schema
  import opened Reducer
  import opened Consistency
  import opened Actions
  import opened Refusals

  // ----- validation -----

  ghost predicate Unsafe(action: Action, profile: Profile) {
    || (action.Read? && !profile.pathAllowed(action.sourceId))
    || (action.Search? && forall i :: 0 <= i < |action.query| ==> profile.isSpace(action.query[i]))
  }

  /** Too few tokens are left, or a call would go over the limit of calls. */
  ghost predicate OverBudget(action: Action, s: Snapshot, tokenCost: int) {
    s.budget.Some? &&
    var b := s.budget.value;
    || (tokenCost > 0 && b.tokensUsed + b.tokensReserved + tokenCost > b.maxTokens)
    || ((action.Search? || action.Read?) && b.maxToolCalls.Some? && b.toolCallsUsed + 1 > b.maxToolCalls.value)
  }

  /** The action refers to something missing, introduces something present, or says nothing. */
  ghost predicate Unmet(action: Action, s: Snapshot, profile: Profile) {
    match action
    case Decompose(taskId, parent, _, deps) =>
      || HasTask(s, taskId) || (parent.Some? && !HasTask(s, parent.value))
      || exists d :: d in deps && !HasTask(s, d)
    case Search(_) => profile.toolNames.Some? && "web_search" !in profile.toolNames.value
    case Read(_) => profile.toolNames.Some? && "read_file" !in profile.toolNames.value
    case Curate(candidates, id, _, _, _) => HasCurated(s, id) || exists c :: c in candidates && !HasCandidate(s, c)
    case Discard(candidates, _) => exists c :: c in candidates && !HasCandidate(s, c)
    case Verify(linkId, _, _, _) => !HasLink(s, linkId)
    case ReviseClaim(claimId, content, status) => !HasClaim(s, claimId) || (content.None? && status.None?)
    case PruneSemantic(retained, _) => exists c :: c in retained && !HasCurated(s, c)
    case RequestContext(_, _) => false
    case Submit(_, content, _) => forall i :: 0 <= i < |content| ==> profile.isSpace(content[i])
    case AddCandidate(itemId, _, _, _) => HasCandidate(s, itemId)
    case CreateClaim(claimId, _) => HasClaim(s, claimId)
    case LinkEvidence(_, claimId, curatedItemId, relationship, strength) =>
      || !HasClaim(s, claimId) || !HasCurated(s, curatedItemId)
      || relationship !in {"supports", "contradicts", "neutral"} || strength < 0.0 || strength > 1.0
  }

  /** Which of the three errors an action meets, and when it meets none. */
  lemma ValidationExact(action: Action, s: Snapshot, profile: Profile, tokenCost: int)
    ensures ValidateAction(action, s, profile, tokenCost) ==
            if Unsafe(action, profile) then Some(SafetyError)
            else if OverBudget(action, s, tokenCost) then Some(BudgetError)
            else if Unmet(action, s, profile) then Some(PreconditionError)
            else None
  {
    assert forall id :: id in CandidateIds(s.candidates) <==> HasCandidate(s, id);
    assert forall id :: id in CuratedIds(s.curatedItems) <==> HasCurated(s, id);
    assert forall id :: id in TaskIds(s.tasks) <==> HasTask(s, id);
    assert forall id :: id in ClaimIds(s.claims) <==> HasClaim(s, id);
    assert forall id :: id in LinkIds(s.evidenceLinks) <==> HasLink(s, id);
  }

  // ----- the proposal -----

  /** ",".join: nothing for no part, the part itself for one, and a comma between any two halves. */
  lemma {:induction false} JoinSplits(a: seq<string>, b: seq<string>)
    ensures Join([]) == "" && (|a| == 1 ==> Join(a) == a[0])
    ensures a != [] && b != [] ==> Join(a + b) == Join(a) + "," + Join(b)
  {
    if |a| > 1 && b != [] {
      JoinSplits(a[1..], b);
      assert (a + b)[1..] == a[1..] + b;
      assert a[0] + "," + (Join(a[1..]) + "," + Join(b)) == (a[0] + "," + Join(a[1..])) + "," + Join(b);
    } else if a != [] && b != [] {
      assert (a + b)[1..] == b;
    }
  }

  /** One proposal, under the key, the actor and the action id of the call. */
  lemma PlanIsOne(action: Action, s: Snapshot, actionId: string, actor: string)
    ensures var ps := PlanEvents(action, s, actionId, actor);
      && |ps| == 1 && ps[0].actor == actor && ps[0].actionId == actionId && ps[0].parentEventId.None?
      && ps[0].eventType == PayloadTypeName(ps[0].payload)
      && ps[0].idempotencyKey == actionId + match action
           case Decompose(_, _, _, _) => "-decompose"
           case Search(_) => "-search"
           case Read(_) => "-read"
           case Curate(_, _, _, _, _) => "-curate"
           case Discard(_, _) => "-discard"
           case Verify(_, _, _, _) => "-verify"
           case ReviseClaim(_, _, _) => "-revise"
           case PruneSemantic(_, _) => "-prune"
           case RequestContext(_, _) => "-request-context"
           case Submit(_, _, _) => "-submit"
           case AddCandidate(_, _, _, _) => "-add-candidate"
           case CreateClaim(_, _) => "-create-claim"
           case LinkEvidence(_, _, _, _, _) => "-link-evidence"
  {
    hide Join;
  }

  /** The event that carries the plan of an action. */
  predicate Enacts(e: HarnessEvent, action: Action, trajectoryId: string, actionId: string, actor: string) {
    && e.payload == PlanPayload(action, trajectoryId, actionId).0
    && e.header.trajectoryId == trajectoryId && e.header.actor == actor && e.header.actionId == actionId
  }

  // ----- what the snapshot shows -----

  /** A record made by this call. */
  predicate MadeBy(p: Provenance, actor: string, actionId: string) {
    p.actor == actor && p.actionId == actionId
  }

  /** The last link, task, claim, ... is the one that the action describes. */
  ghost predicate Shows(action: Action, actionId: string, actor: string, e: HarnessEvent, r: Snapshot) {
    match action
    case Decompose(taskId, parent, description, deps) =>
      && r.tasks != []
      && var t := r.tasks[|r.tasks| - 1];
         && t.taskId == taskId && t.parentId == parent && t.description == description && t.dependencyIds == deps
         && t.status == TaskPending && MadeBy(t.provenance, actor, actionId)
    case Search(query) => ShowsCall(r, actionId, actor, "web_search", ("query", query))
    case Read(sourceId) => ShowsCall(r, actionId, actor, "read_file", ("source_id", sourceId))
    case Curate(candidateIds, curatedItemId, content, priority, sourceIds) =>
      && r.curatedItems != []
      && var c := r.curatedItems[|r.curatedItems| - 1];
         && c.itemId == curatedItemId && c.candidateIds == candidateIds && c.content == content
         && c.priority == priority && c.sourceIds == sourceIds && MadeBy(c.provenance, actor, actionId)
    case Discard(candidateIds, reason) =>
      && e.payload.ActionCommittedPayload? && e.payload.actionType == "discard"
      && e.payload.actionParams == [("candidate_ids", Join(candidateIds)), ("reason", reason)]
    case Verify(linkId, verificationId, result, details) =>
      && r.verificationRecords != []
      && (var x := r.verificationRecords[|r.verificationRecords| - 1];
          && x.recordId == verificationId && x.linkId == linkId && x.result == result && x.details == details
          && MadeBy(x.provenance, actor, actionId))
      && exists i :: 0 <= i < |r.evidenceLinks| && ShowsVerdict(r.evidenceLinks[i], linkId, verificationId, result)
    case ReviseClaim(claimId, content, status) =>
      exists i :: 0 <= i < |r.claims| && r.claims[i].claimId == claimId
                  && (content.Some? ==> r.claims[i].content == content.value)
                  && (status.Some? ==> r.claims[i].status == status.value)
                  && MadeBy(r.claims[i].provenance, actor, actionId)
    case PruneSemantic(retained, epochId) =>
      && r.epochId == epochId
      && forall c :: c in r.curatedItems ==> c.itemId in retained
    case RequestContext(contextType, parameters) =>
      && e.payload.ActionCommittedPayload? && e.payload.actionType == "request_context"
      && |e.payload.actionParams| == |parameters| + 1 && e.payload.actionParams[0] == ("context_type", contextType)
      && e.payload.actionParams[1..] == parameters
    case Submit(submissionId, content, sourceIds) =>
      && r.submissions != []
      && var x := r.submissions[|r.submissions| - 1];
         && x.submissionId == submissionId && x.content == content && x.sourceIds == sourceIds
         && MadeBy(x.provenance, actor, actionId)
    case AddCandidate(itemId, sourceId, query, content) =>
      && r.candidates != []
      && var c := r.candidates[|r.candidates| - 1];
         && c.itemId == itemId && c.sourceId == sourceId && c.retrievalQuery == query && c.content == content
         && MadeBy(c.provenance, actor, actionId)
    case CreateClaim(claimId, content) =>
      && r.claims != []
      && var c := r.claims[|r.claims| - 1];
         && c.claimId == claimId && c.content == content && c.status == ClaimStated && c.evidenceLinkIds == []
         && MadeBy(c.provenance, actor, actionId)
    case LinkEvidence(linkId, claimId, curatedItemId, relationship, strength) =>
      && r.evidenceLinks != []
      && (var l := r.evidenceLinks[|r.evidenceLinks| - 1];
          && l.linkId == linkId && l.claimId == claimId && l.curatedItemId == curatedItemId
          && l.relationship == relationship && l.strength == strength && l.currentStatus == LinkUnverified
          && MadeBy(l.provenance, actor, actionId))
      && exists i :: 0 <= i < |r.claims| && r.claims[i].claimId == claimId && linkId in r.claims[i].evidenceLinkIds
  }

  /** The last invocation is the one tool call of the action, with one argument and no dependency. */
  ghost predicate ShowsCall(r: Snapshot, actionId: string, actor: string, tool: string, argument: (string, string)) {
    && r.toolInvocations != []
    && var v := r.toolInvocations[|r.toolInvocations| - 1];
       && v.invocationId == "tool-" + actionId && v.toolName == tool && v.arguments == [argument]
       && v.dependencyIds == [] && v.deadline.None? && v.parentTaskId.None? && v.actionId == actionId
       && MadeBy(v.provenance, actor, actionId)
  }

  /** The link carries the verdict of the action. */
  predicate ShowsVerdict(link: EvidenceLink, linkId: string, verificationId: string, result: VerificationResult) {
    && link.linkId == linkId && link.verificationId == Some(verificationId)
    && match result
       case Confirmed => link.currentStatus == LinkVerified
       case Refuted => link.currentStatus == LinkRefuted
       case Inconclusive => link.currentStatus == LinkInconclusive
  }

  // ----- what it leaves alone -----

  /** The collections that the action does not speak of are as they were. */
  predicate Leaves(action: Action, s: Snapshot, r: Snapshot) {
    && (r.candidates == s.candidates || action.AddCandidate?)
    && (r.curatedItems == s.curatedItems || action.Curate? || action.PruneSemantic?)
    && (r.claims == s.claims || action.CreateClaim? || action.ReviseClaim? || action.LinkEvidence?)
    && (r.evidenceLinks == s.evidenceLinks || action.LinkEvidence? || action.Verify?)
    && (r.verificationRecords == s.verificationRecords || action.Verify?)
    && (r.tasks == s.tasks || action.Decompose?)
    && (r.submissions == s.submissions || action.Submit?)
    && (r.toolInvocations == s.toolInvocations || action.Search? || action.Read?)
    && r.toolResults == s.toolResults
    && (r.budget == s.budget || action.Search? || action.Read?)
    && (r.epochId == s.epochId || action.PruneSemantic?)
  }

  lemma ItemActionShows(
    action: Action, s: Snapshot, actionId: string, actor: string, e: HarnessEvent, now: Time)
    requires action.Curate? || action.AddCandidate? || action.Submit? || action.Decompose?
    requires Enacts(e, action, s.trajectoryId, actionId, actor) && Handle(s, e, now).Success?
    ensures var r := Handle(s, e, now).value; Shows(action, actionId, actor, e, r) && Leaves(action, s, r)
  {
    hide Join, IndexById, Advanced, CandidateIds, CuratedIds, SubmissionIds, TaskIds;
  }

  lemma CallShows(action: Action, s: Snapshot, actionId: string, actor: string, e: HarnessEvent, now: Time)
    requires CallsTool(action) && Enacts(e, action, s.trajectoryId, actionId, actor) && Handle(s, e, now).Success?
    ensures var r := Handle(s, e, now).value; Shows(action, actionId, actor, e, r) && Leaves(action, s, r)
  {
    hide Join, IndexById, Advanced, InvocationIds;
  }

  lemma PruneShows(action: Action, s: Snapshot, actionId: string, actor: string, e: HarnessEvent, now: Time)
    requires action.PruneSemantic? && Enacts(e, action, s.trajectoryId, actionId, actor)
    requires Handle(s, e, now).Success?
    ensures var r := Handle(s, e, now).value; Shows(action, actionId, actor, e, r) && Leaves(action, s, r)
  {
    hide Retain;
    RetainMembers(s.curatedItems, e.payload.retainedItemIds);
  }

  lemma VerifyShows(action: Action, s: Snapshot, actionId: string, actor: string, e: HarnessEvent, now: Time)
    requires action.Verify? && Enacts(e, action, s.trajectoryId, actionId, actor) && Handle(s, e, now).Success?
    ensures var r := Handle(s, e, now).value; Shows(action, actionId, actor, e, r) && Leaves(action, s, r)
  {
    hide Join, Advanced;
    var r := Handle(s, e, now).value;
    var k := IndexById(LinkIds(s.evidenceLinks), action.linkId).value;
    assert ShowsVerdict(r.evidenceLinks[k], action.linkId, action.verificationId, action.result);
  }

  lemma LinkShows(action: Action, s: Snapshot, actionId: string, actor: string, e: HarnessEvent, now: Time)
    requires action.LinkEvidence? && Enacts(e, action, s.trajectoryId, actionId, actor) && Handle(s, e, now).Success?
    ensures var r := Handle(s, e, now).value; Shows(action, actionId, actor, e, r) && Leaves(action, s, r)
  {
    hide Join, Advanced;
    var r := Handle(s, e, now).value;
    var k := IndexById(ClaimIds(s.claims), action.claimId).value;
    assert r.claims[k].claimId == action.claimId;
    if action.linkId !in s.claims[k].evidenceLinkIds {
      assert r.claims[k].evidenceLinkIds[|s.claims[k].evidenceLinkIds|] == action.linkId;
    }
  }

  lemma ClaimShows(action: Action, s: Snapshot, actionId: string, actor: string, e: HarnessEvent, now: Time)
    requires action.ReviseClaim? || action.CreateClaim?
    requires Enacts(e, action, s.trajectoryId, actionId, actor) && Handle(s, e, now).Success?
    ensures var r := Handle(s, e, now).value; Shows(action, actionId, actor, e, r) && Leaves(action, s, r)
  {
    hide Join, Advanced;
    if action.ReviseClaim? {
      var k := IndexById(ClaimIds(s.claims), action.claimId).value;
      assert Handle(s, e, now).value.claims[k].claimId == action.claimId;
    }
  }

  lemma TalkShows(action: Action, s: Snapshot, actionId: string, actor: string, e: HarnessEvent, now: Time)
    requires action.Discard? || action.RequestContext?
    requires Enacts(e, action, s.trajectoryId, actionId, actor) && Handle(s, e, now).Success?
    ensures var r := Handle(s, e, now).value; Shows(action, actionId, actor, e, r) && Leaves(action, s, r)
  {
    hide Join;
  }

  /** Once the planned event is accepted the snapshot shows what the action said, and nothing else has changed. */
  lemma ActionShows(action: Action, s: Snapshot, actionId: string, actor: string, e: HarnessEvent, now: Time)
    requires Enacts(e, action, s.trajectoryId, actionId, actor) && ReduceEvent(s, e, now).Success?
    ensures var r := ReduceEvent(s, e, now).value; Shows(action, actionId, actor, e, r) && Leaves(action, s, r)
  {
    hide Handle, Shows, Leaves, Enacts;
    if action.PruneSemantic? {
      PruneShows(action, s, actionId, actor, e, now);
    } else if CallsTool(action) {
      CallShows(action, s, actionId, actor, e, now);
    } else if Actions.OnItems(action) {
      ItemActionShows(action, s, actionId, actor, e, now);
    } else if action.Verify? {
      VerifyShows(action, s, actionId, actor, e, now);
    } else if action.Discard? || action.RequestContext? {
      TalkShows(action, s, actionId, actor, e, now);
    } else if action.LinkEvidence? {
      LinkShows(action, s, actionId, actor, e, now);
    } else {
      ClaimShows(action, s, actionId, actor, e, now);
    }
  }
}
