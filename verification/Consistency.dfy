/** Relational invariants of every snapshot that the reducer can reach from an empty trajectory. */
module Consistency {
  import opened Results
  import opened Schema
  import opened Reducer

  ghost predicate Distinct(ids: seq<string>) {
    forall i, j :: 0 <= i < j < |ids| ==> ids[i] != ids[j]
  }

  /** The ids of the links that name a claim, in the order in which they were linked. */
  function LinksNaming(links: seq<EvidenceLink>, claimId: string): seq<string> {
    if links == [] then []
    else
      var earlier := LinksNaming(links[..|links| - 1], claimId);
      var link := links[|links| - 1];
      if link.claimId == claimId then earlier + [link.linkId] else earlier
  }

  /** The most recent verification record of a link. */
  function LastRecord(records: seq<VerificationRecord>, linkId: string): Option<VerificationRecord> {
    if records == [] then None
    else if records[|records| - 1].linkId == linkId then Some(records[|records| - 1])
    else LastRecord(records[..|records| - 1], linkId)
  }

  ghost predicate IdsUnique(s: Snapshot) {
    && Distinct(CandidateIds(s.candidates))
    && Distinct(CuratedIds(s.curatedItems))
    && Distinct(ClaimIds(s.claims))
    && Distinct(LinkIds(s.evidenceLinks))
    && Distinct(RecordIds(s.verificationRecords))
    && Distinct(TaskIds(s.tasks))
    && Distinct(SubmissionIds(s.submissions))
    && Distinct(InvocationIds(s.toolInvocations))
    && Distinct(ResultIds(s.toolResults))
  }

  /** A claim lists exactly the links that name it, in order. */
  ghost predicate ClaimsListTheirLinks(s: Snapshot) {
    forall i :: 0 <= i < |s.claims| ==>
      s.claims[i].evidenceLinkIds == LinksNaming(s.evidenceLinks, s.claims[i].claimId)
  }

  /** A link carries the verdict of its last verification record, and none if it has no record. */
  ghost predicate LinkMatches(link: EvidenceLink, last: Option<VerificationRecord>) {
    match last
    case None => link.currentStatus == LinkUnverified && link.verificationId.None?
    case Some(r) =>
      && link.verificationId == Some(r.recordId)
      && (link.currentStatus == LinkVerified <==> r.result == Confirmed)
      && (link.currentStatus == LinkRefuted <==> r.result == Refuted)
      && (link.currentStatus == LinkInconclusive <==> r.result == Inconclusive)
  }

  ghost predicate LinksFollowRecords(s: Snapshot) {
    forall i :: 0 <= i < |s.evidenceLinks| ==>
      LinkMatches(s.evidenceLinks[i], LastRecord(s.verificationRecords, s.evidenceLinks[i].linkId))
  }

  ghost predicate CuratedCiteCandidates(s: Snapshot) {
    forall c, id :: c in s.curatedItems && id in c.candidateIds ==> id in CandidateIds(s.candidates)
  }

  /** Links name existing claims, records existing links, results existing invocations. */
  ghost predicate ReferencesResolve(s: Snapshot) {
    && (forall i :: 0 <= i < |s.evidenceLinks| ==> s.evidenceLinks[i].claimId in ClaimIds(s.claims))
    && (forall i :: 0 <= i < |s.evidenceLinks| ==> s.evidenceLinks[i].trajectoryId == s.trajectoryId)
    && (forall i :: 0 <= i < |s.verificationRecords| ==> s.verificationRecords[i].linkId in LinkIds(s.evidenceLinks))
    && (forall i :: 0 <= i < |s.toolResults| ==> s.toolResults[i].invocationId in InvocationIds(s.toolInvocations))
  }

  ghost predicate Consistent(s: Snapshot) {
    && IdsUnique(s)
    && ClaimsListTheirLinks(s)
    && LinksFollowRecords(s)
    && CuratedCiteCandidates(s)
    && ReferencesResolve(s)
  }

  /** No collection has been filled yet. */
  ghost predicate EmptyState(s: Snapshot) {
    && s.candidates == [] && s.curatedItems == [] && s.claims == [] && s.evidenceLinks == []
    && s.verificationRecords == [] && s.tasks == [] && s.submissions == []
    && s.toolInvocations == [] && s.toolResults == []
  }

  lemma {:induction false} RetainMembers(items: seq<CuratedItem>, ids: seq<string>)
    ensures forall c :: c in Retain(items, ids) <==> c in items && c.itemId in ids
  {
    if items != [] {
      RetainMembers(items[1..], ids);
      assert items == [items[0]] + items[1..];
    }
  }

  lemma {:induction false} RetainKeepsDistinct(items: seq<CuratedItem>, ids: seq<string>)
    requires Distinct(CuratedIds(items))
    ensures Distinct(CuratedIds(Retain(items, ids)))
  {
    if items != [] {
      var rest := items[1..];
      forall i, j | 0 <= i < j < |rest| ensures CuratedIds(rest)[i] != CuratedIds(rest)[j] {
        assert CuratedIds(items)[i + 1] != CuratedIds(items)[j + 1];
      }
      RetainKeepsDistinct(rest, ids);
      RetainMembers(rest, ids);
      var kept := Retain(rest, ids);
      forall k | 0 <= k < |kept| ensures kept[k].itemId != items[0].itemId {
        assert kept[k] in kept;
        var m :| 0 <= m < |rest| && rest[m] == kept[k];
        assert CuratedIds(items)[0] != CuratedIds(items)[m + 1];
      }
    }
  }

  /** A link id that no link has is listed by no claim. */
  lemma {:induction false} LinksNamingAreLinks(links: seq<EvidenceLink>, claimId: string)
    ensures forall id :: id in LinksNaming(links, claimId) ==> id in LinkIds(links)
  {
    if links != [] {
      var init := links[..|links| - 1];
      LinksNamingAreLinks(init, claimId);
      assert LinkIds(links) == LinkIds(init) + [links[|links| - 1].linkId];
    }
  }

  /** Changing only verdicts leaves the naming relation alone. */
  lemma {:induction false} LinksNamingSameNames(a: seq<EvidenceLink>, b: seq<EvidenceLink>, claimId: string)
    requires |a| == |b|
    requires forall i :: 0 <= i < |a| ==> a[i].linkId == b[i].linkId && a[i].claimId == b[i].claimId
    ensures LinksNaming(a, claimId) == LinksNaming(b, claimId)
  {
    if a != [] {
      LinksNamingSameNames(a[..|a| - 1], b[..|b| - 1], claimId);
    }
  }

  lemma {:induction false} NoRecordForUnknownLink(records: seq<VerificationRecord>, linkId: string)
    requires forall i :: 0 <= i < |records| ==> records[i].linkId != linkId
    ensures LastRecord(records, linkId).None?
  {
    if records != [] {
      NoRecordForUnknownLink(records[..|records| - 1], linkId);
    }
  }

  lemma PreservedByClaimCreated(s: Snapshot, e: HarnessEvent)
    requires Consistent(s) && e.payload.ClaimCreatedPayload?
    ensures var r := HandleClaimCreated(s, e); r.Success? ==> Consistent(r.value)
  {
    var r := HandleClaimCreated(s, e);
    if r.Success? {
      var t := r.value;
      assert ClaimIds(t.claims) == ClaimIds(s.claims) + [e.payload.claimId];
      NoLinkNames(s.evidenceLinks, e.payload.claimId);
    }
  }

  lemma {:induction false} NoLinkNames(links: seq<EvidenceLink>, claimId: string)
    requires forall i :: 0 <= i < |links| ==> links[i].claimId != claimId
    ensures LinksNaming(links, claimId) == []
  {
    if links != [] {
      NoLinkNames(links[..|links| - 1], claimId);
    }
  }

  lemma PreservedByClaimRevised(s: Snapshot, e: HarnessEvent, now: Time)
    requires Consistent(s) && e.payload.ClaimRevisedPayload?
    ensures var r := HandleClaimRevised(s, e, now); r.Success? ==> Consistent(r.value)
  {
    var r := HandleClaimRevised(s, e, now);
    if r.Success? {
      assert ClaimIds(r.value.claims) == ClaimIds(s.claims);
    }
  }

  /** Linking appends the new link to the list of its claim and to no other list. */
  lemma LinkedClaimsListTheirLinks(s: Snapshot, e: HarnessEvent, now: Time)
    requires Consistent(s) && e.payload.EvidenceLinkedPayload?
    requires HandleEvidenceLinked(s, e, now).Success?
    ensures ClaimsListTheirLinks(HandleEvidenceLinked(s, e, now).value)
  {
    var t, p := HandleEvidenceLinked(s, e, now).value, e.payload;
    var k := IndexById(ClaimIds(s.claims), p.claimId).value;
    LinksNamingAreLinks(s.evidenceLinks, p.claimId);
    assert t.claims[k].evidenceLinkIds == s.claims[k].evidenceLinkIds + [p.linkId];
    assert t.evidenceLinks[..|t.evidenceLinks| - 1] == s.evidenceLinks;
    forall i | 0 <= i < |t.claims|
      ensures t.claims[i].evidenceLinkIds == LinksNaming(t.evidenceLinks, t.claims[i].claimId)
    {
      if i != k { assert ClaimIds(s.claims)[i] != ClaimIds(s.claims)[k]; }
    }
  }

  lemma PreservedByEvidenceLinked(s: Snapshot, e: HarnessEvent, now: Time)
    requires Consistent(s) && e.payload.EvidenceLinkedPayload?
    requires e.header.trajectoryId == s.trajectoryId
    ensures var r := HandleEvidenceLinked(s, e, now); r.Success? ==> Consistent(r.value)
  {
    var r := HandleEvidenceLinked(s, e, now);
    if r.Success? {
      LinkedClaimsListTheirLinks(s, e, now);
      LinkedFollowsRecords(s, e, now);
      LinkedKeepsTheRest(s, e, now);
    }
  }

  /** A fresh link is unverified and has no record yet; the other links keep their verdicts. */
  lemma LinkedFollowsRecords(s: Snapshot, e: HarnessEvent, now: Time)
    requires IdsUnique(s) && LinksFollowRecords(s) && ReferencesResolve(s) && e.payload.EvidenceLinkedPayload?
    requires HandleEvidenceLinked(s, e, now).Success?
    ensures LinksFollowRecords(HandleEvidenceLinked(s, e, now).value)
  {
    var t, p := HandleEvidenceLinked(s, e, now).value, e.payload;
    var n := |s.evidenceLinks|;
    assert |t.evidenceLinks| == n + 1 && t.evidenceLinks[n].linkId == p.linkId;
    assert t.verificationRecords == s.verificationRecords;
    forall i | 0 <= i < |s.verificationRecords| ensures s.verificationRecords[i].linkId != p.linkId {
      assert s.verificationRecords[i].linkId in LinkIds(s.evidenceLinks);
    }
    NoRecordForUnknownLink(s.verificationRecords, p.linkId);
    forall i | 0 <= i < n + 1
      ensures LinkMatches(t.evidenceLinks[i], LastRecord(t.verificationRecords, t.evidenceLinks[i].linkId))
    {
      if i < n { assert t.evidenceLinks[i] == s.evidenceLinks[i]; }
    }
  }

  lemma LinkedKeepsTheRest(s: Snapshot, e: HarnessEvent, now: Time)
    requires IdsUnique(s) && CuratedCiteCandidates(s) && ReferencesResolve(s) && e.payload.EvidenceLinkedPayload?
    requires e.header.trajectoryId == s.trajectoryId
    requires HandleEvidenceLinked(s, e, now).Success?
    ensures var t := HandleEvidenceLinked(s, e, now).value;
      IdsUnique(t) && CuratedCiteCandidates(t) && ReferencesResolve(t)
  {
    var t, p := HandleEvidenceLinked(s, e, now).value, e.payload;
    assert LinkIds(t.evidenceLinks) == LinkIds(s.evidenceLinks) + [p.linkId];
    assert ClaimIds(t.claims) == ClaimIds(s.claims);
    forall i | 0 <= i < |t.verificationRecords|
      ensures t.verificationRecords[i].linkId in LinkIds(t.evidenceLinks)
    {
      assert s.verificationRecords[i].linkId in LinkIds(s.evidenceLinks);
    }
  }

  /** The verified link follows its new record, the others their old ones. */
  lemma VerifiedFollowsRecords(s: Snapshot, e: HarnessEvent)
    requires IdsUnique(s) && LinksFollowRecords(s) && e.payload.EvidenceVerifiedPayload?
    requires HandleEvidenceVerified(s, e).Success?
    ensures LinksFollowRecords(HandleEvidenceVerified(s, e).value)
  {
    var t, p := HandleEvidenceVerified(s, e).value, e.payload;
    assert t.verificationRecords[..|t.verificationRecords| - 1] == s.verificationRecords;
    var k := IndexById(LinkIds(s.evidenceLinks), p.linkId).value;
    forall i | 0 <= i < |t.evidenceLinks|
      ensures LinkMatches(t.evidenceLinks[i], LastRecord(t.verificationRecords, t.evidenceLinks[i].linkId))
    {
      if i != k {
        assert LinkIds(s.evidenceLinks)[i] != LinkIds(s.evidenceLinks)[k];
        assert LinkMatches(s.evidenceLinks[i], LastRecord(s.verificationRecords, s.evidenceLinks[i].linkId));
      }
    }
  }

  lemma VerifiedKeepsTheRest(s: Snapshot, e: HarnessEvent)
    requires Consistent(s) && e.payload.EvidenceVerifiedPayload?
    requires HandleEvidenceVerified(s, e).Success?
    ensures var t := HandleEvidenceVerified(s, e).value;
      IdsUnique(t) && ClaimsListTheirLinks(t) && CuratedCiteCandidates(t) && ReferencesResolve(t)
  {
    hide LinksFollowRecords, LastRecord, ClaimsListTheirLinks;
    var t, p := HandleEvidenceVerified(s, e).value, e.payload;
    VerifiedClaimsListTheirLinks(s, e);
    assert LinkIds(t.evidenceLinks) == LinkIds(s.evidenceLinks);
    assert RecordIds(t.verificationRecords) == RecordIds(s.verificationRecords) + [p.verificationId];
  }

  /** A verdict changes no link's claim. */
  lemma VerifiedClaimsListTheirLinks(s: Snapshot, e: HarnessEvent)
    requires ClaimsListTheirLinks(s) && e.payload.EvidenceVerifiedPayload?
    requires HandleEvidenceVerified(s, e).Success?
    ensures ClaimsListTheirLinks(HandleEvidenceVerified(s, e).value)
  {
    var t := HandleEvidenceVerified(s, e).value;
    forall i | 0 <= i < |t.claims|
      ensures t.claims[i].evidenceLinkIds == LinksNaming(t.evidenceLinks, t.claims[i].claimId)
    {
      LinksNamingSameNames(s.evidenceLinks, t.evidenceLinks, t.claims[i].claimId);
    }
  }

  lemma PreservedByEvidenceVerified(s: Snapshot, e: HarnessEvent)
    requires Consistent(s) && e.payload.EvidenceVerifiedPayload?
    ensures var r := HandleEvidenceVerified(s, e); r.Success? ==> Consistent(r.value)
  {
    hide HandleEvidenceVerified;
    if HandleEvidenceVerified(s, e).Success? {
      VerifiedFollowsRecords(s, e);
      VerifiedKeepsTheRest(s, e);
    }
  }

  lemma PreservedByEvidenceCurated(s: Snapshot, e: HarnessEvent)
    requires Consistent(s) && e.payload.EvidenceCuratedPayload?
    ensures var r := HandleEvidenceCurated(s, e); r.Success? ==> Consistent(r.value)
  {
    var r := HandleEvidenceCurated(s, e);
    if r.Success? {
      assert CuratedIds(r.value.curatedItems) == CuratedIds(s.curatedItems) + [e.payload.curatedItemId];
    }
  }

  lemma PreservedByContextPruned(s: Snapshot, e: HarnessEvent)
    requires Consistent(s) && e.payload.ContextPrunedPayload?
    ensures var r := HandleContextPruned(s, e); r.Success? ==> Consistent(r.value)
  {
    var r := HandleContextPruned(s, e);
    if r.Success? {
      RetainKeepsDistinct(s.curatedItems, e.payload.retainedItemIds);
      RetainMembers(s.curatedItems, e.payload.retainedItemIds);
    }
  }

  lemma PreservedByCandidateAdded(s: Snapshot, e: HarnessEvent)
    requires Consistent(s) && e.payload.CandidateAddedPayload?
    ensures var r := HandleCandidateAdded(s, e); r.Success? ==> Consistent(r.value)
  {
    var r := HandleCandidateAdded(s, e);
    if r.Success? {
      assert CandidateIds(r.value.candidates) == CandidateIds(s.candidates) + [e.payload.itemId];
    }
  }

  lemma PreservedByTaskDecomposed(s: Snapshot, e: HarnessEvent)
    requires Consistent(s) && e.payload.TaskDecomposedPayload?
    ensures var r := HandleTaskDecomposed(s, e); r.Success? ==> Consistent(r.value)
  {
    var r := HandleTaskDecomposed(s, e);
    if r.Success? {
      assert TaskIds(r.value.tasks) == TaskIds(s.tasks) + [e.payload.taskId];
    }
  }

  lemma PreservedByTaskCompleted(s: Snapshot, e: HarnessEvent)
    requires Consistent(s) && e.payload.TaskCompletedPayload?
    ensures var r := HandleTaskCompleted(s, e); r.Success? ==> Consistent(r.value)
  {
    var r := HandleTaskCompleted(s, e);
    if r.Success? {
      assert TaskIds(r.value.tasks) == TaskIds(s.tasks);
    }
  }

  lemma PreservedBySubmissionRecorded(s: Snapshot, e: HarnessEvent)
    requires Consistent(s) && e.payload.SubmissionRecordedPayload?
    ensures var r := HandleSubmissionRecorded(s, e); r.Success? ==> Consistent(r.value)
  {
    var r := HandleSubmissionRecorded(s, e);
    if r.Success? {
      assert SubmissionIds(r.value.submissions) == SubmissionIds(s.submissions) + [e.payload.submissionId];
    }
  }

  lemma PreservedByToolInvoked(s: Snapshot, e: HarnessEvent)
    requires Consistent(s) && e.payload.ToolInvokedPayload?
    ensures var r := HandleToolInvoked(s, e); r.Success? ==> Consistent(r.value)
  {
    var r := HandleToolInvoked(s, e);
    if r.Success? {
      assert InvocationIds(r.value.toolInvocations) == InvocationIds(s.toolInvocations) + [e.payload.invocationId];
    }
  }

  lemma PreservedByToolResultReceived(s: Snapshot, e: HarnessEvent)
    requires Consistent(s) && e.payload.ToolResultReceivedPayload?
    ensures var r := HandleToolResultReceived(s, e); r.Success? ==> Consistent(r.value)
  {
    var r := HandleToolResultReceived(s, e);
    if r.Success? {
      assert ResultIds(r.value.toolResults) == ResultIds(s.toolResults) + [e.payload.invocationId];
    }
  }

  /** Moving the head alone, as action_committed and snapshot_checkpointed do. */
  lemma AdvancingKeepsConsistency(s: Snapshot, e: HarnessEvent)
    requires Consistent(s)
    ensures Consistent(NextSnapshot(s, e))
  {
  }

  /** One event, accepted in a consistent state, leaves a consistent state. */
  lemma ReducePreservesConsistency(s: Snapshot, e: HarnessEvent, now: Time)
    requires Consistent(s)
    ensures var r := ReduceEvent(s, e, now); r.Success? ==> Consistent(r.value)
  {
    hide Consistent;
    hide HandleToolInvoked, HandleToolResultReceived, HandleEvidenceCurated, HandleClaimRevised,
      HandleEvidenceVerified, HandleTaskDecomposed, HandleTaskCompleted, HandleContextPruned,
      HandleSubmissionRecorded, HandleCandidateAdded, HandleClaimCreated, HandleEvidenceLinked;
    if ValidateEnvelope(s, e).Some? {
      return;
    }
    match e.payload
    case ToolInvokedPayload(_, _, _, _, _, _) => PreservedByToolInvoked(s, e);
    case ToolResultReceivedPayload(_, _, _) => PreservedByToolResultReceived(s, e);
    case EvidenceCuratedPayload(_, _, _, _, _) => PreservedByEvidenceCurated(s, e);
    case ClaimRevisedPayload(_, _, _) => PreservedByClaimRevised(s, e, now);
    case EvidenceVerifiedPayload(_, _, _, _) => PreservedByEvidenceVerified(s, e);
    case TaskDecomposedPayload(_, _, _, _) => PreservedByTaskDecomposed(s, e);
    case TaskCompletedPayload(_) => PreservedByTaskCompleted(s, e);
    case ContextPrunedPayload(_, _) => PreservedByContextPruned(s, e);
    case SubmissionRecordedPayload(_, _, _) => PreservedBySubmissionRecorded(s, e);
    case CandidateAddedPayload(_, _, _, _, _) => PreservedByCandidateAdded(s, e);
    case ClaimCreatedPayload(_, _, _) => PreservedByClaimCreated(s, e);
    case EvidenceLinkedPayload(_, _, _, _, _, _) => PreservedByEvidenceLinked(s, e, now);
    case _ => AdvancingKeepsConsistency(s, e);
  }

  /** Every snapshot reachable from an empty trajectory is consistent. */
  lemma {:induction false} ReachableConsistent(g: Snapshot, log: seq<HarnessEvent>, clock: Clock)
    requires EmptyState(g)
    ensures var r := Fold(g, log, clock); r.Success? ==> Consistent(r.value)
    decreases |log|
  {
    hide ReduceEvent;
    if log != [] {
      var prefix := log[..|log| - 1];
      ReachableConsistent(g, prefix, clock);
      var e := log[|log| - 1];
      if Fold(g, prefix, clock).Success? {
        ReducePreservesConsistency(Fold(g, prefix, clock).value, e, clock(e.header.sequence));
      }
    }
  }
}
