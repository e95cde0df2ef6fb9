/** What the collections of a snapshot are, read off the log without folding it: each record is the one of the
  event that introduced it, brought up to date by the latest event that concerns it.
 */
module Projection {
  import opened Results
  import opened Schema
  import opened Reducer
  import opened FoldFacts
  import opened Consistency

  // ----- the records that events introduce -----

  function CandidateOf(e: HarnessEvent): seq<CandidateItem> {
    var p := e.payload;
    if !p.CandidateAddedPayload? then []
    else [CandidateItem(p.itemId, e.header.trajectoryId, p.sourceId, p.retrievalQuery, p.content,
                        e.header.createdAt, EventProvenance(e))]
  }

  function SubmissionOf(e: HarnessEvent): seq<SubmissionRecord> {
    var p := e.payload;
    if !p.SubmissionRecordedPayload? then []
    else [SubmissionRecord(p.submissionId, e.header.trajectoryId, p.content, p.sourceIds, e.header.createdAt,
        EventProvenance(e))]
  }

  function CuratedOf(e: HarnessEvent): CuratedItem
    requires e.payload.EvidenceCuratedPayload?
  {
    var p := e.payload;
    CuratedItem(p.curatedItemId, e.header.trajectoryId, p.candidateIds, p.content, p.priority, p.sourceIds,
                e.header.createdAt, EventProvenance(e))
  }

  function LoggedCandidates(log: seq<HarnessEvent>): seq<CandidateItem>
    decreases |log|
  {
    if log == [] then [] else LoggedCandidates(log[..|log| - 1]) + CandidateOf(log[|log| - 1])
  }

  function LoggedSubmissions(log: seq<HarnessEvent>): seq<SubmissionRecord>
    decreases |log|
  {
    if log == [] then [] else LoggedSubmissions(log[..|log| - 1]) + SubmissionOf(log[|log| - 1])
  }

  /** The epoch named by the last pruning. */
  function LoggedEpoch(first: string, log: seq<HarnessEvent>): string
    decreases |log|
  {
    if log == [] then first
    else
      var p := log[|log| - 1].payload;
      if p.ContextPrunedPayload? then p.newEpochId else LoggedEpoch(first, log[..|log| - 1])
  }

  // ----- tasks -----

  /** When a task was completed. */
  function CompletedAt(log: seq<HarnessEvent>, id: string): Option<Time>
    decreases |log|
  {
    if log == [] then None
    else
      var e := log[|log| - 1];
      if e.payload.TaskCompletedPayload? && e.payload.taskId == id then Some(e.header.createdAt)
      else CompletedAt(log[..|log| - 1], id)
  }

  function TaskOf(e: HarnessEvent, completed: Option<Time>): TaskNode
    requires e.payload.TaskDecomposedPayload?
  {
    var p := e.payload;
    TaskNode(p.taskId, e.header.trajectoryId, p.parentTaskId, p.description,
             if completed.Some? then TaskDone else TaskPending, p.dependencyIds, e.header.createdAt, completed,
             EventProvenance(e))
  }

  /** The tasks that the events of `made` introduce, as the whole log left them. */
  function LoggedTasks(made: seq<HarnessEvent>, log: seq<HarnessEvent>): seq<TaskNode>
    decreases |made|
  {
    if made == [] then []
    else
      var e := made[|made| - 1];
      LoggedTasks(made[..|made| - 1], log)
        + if e.payload.TaskDecomposedPayload? then [TaskOf(e, CompletedAt(log, e.payload.taskId))] else []
  }

  // ----- curated items -----

  /** The item survives every pruning from position n on. */
  predicate RetainedFrom(log: seq<HarnessEvent>, n: nat, id: string) {
    forall j :: n <= j < |log| && log[j].payload.ContextPrunedPayload? ==> id in log[j].payload.retainedItemIds
  }

  function LoggedCurated(made: seq<HarnessEvent>, log: seq<HarnessEvent>): seq<CuratedItem>
    decreases |made|
  {
    if made == [] then []
    else
      var e := made[|made| - 1];
      LoggedCurated(made[..|made| - 1], log)
        + if e.payload.EvidenceCuratedPayload? && RetainedFrom(log, |made|, e.payload.curatedItemId)
          then [CuratedOf(e)] else []
  }

  // ----- claims -----

  function CreatedClaimIds(log: seq<HarnessEvent>): seq<string>
    decreases |log|
  {
    if log == [] then []
    else
      var p := log[|log| - 1].payload;
      CreatedClaimIds(log[..|log| - 1]) + if p.ClaimCreatedPayload? then [p.claimId] else []
  }

  function LatestContent(log: seq<HarnessEvent>, id: string): Option<string>
    decreases |log|
  {
    if log == [] then None
    else
      var p := log[|log| - 1].payload;
      if p.ClaimCreatedPayload? && p.claimId == id then Some(p.content)
      else if p.ClaimRevisedPayload? && p.claimId == id && p.newContent.Some? then p.newContent
      else LatestContent(log[..|log| - 1], id)
  }

  function LatestStatus(log: seq<HarnessEvent>, id: string): Option<ClaimStatus>
    decreases |log|
  {
    if log == [] then None
    else
      var p := log[|log| - 1].payload;
      if p.ClaimCreatedPayload? && p.claimId == id then Some(ClaimStated)
      else if p.ClaimRevisedPayload? && p.claimId == id && p.newStatus.Some? then p.newStatus
      else LatestStatus(log[..|log| - 1], id)
  }

  // ----- links and verification records -----

  /** A link without its verdict and its time, which Consistency and ClockIndependence are about. */
  function Bare(link: EvidenceLink): EvidenceLink {
    link.(currentStatus := LinkUnverified, verificationId := None, createdAt := 0)
  }

  function BareLinks(links: seq<EvidenceLink>): (r: seq<EvidenceLink>)
    ensures |r| == |links| && forall i :: 0 <= i < |r| ==> r[i] == Bare(links[i])
  {
    seq(|links|, i requires 0 <= i < |links| => Bare(links[i]))
  }

  function LinkOf(e: HarnessEvent): seq<EvidenceLink> {
    var p := e.payload;
    if !p.EvidenceLinkedPayload? then []
    else [EvidenceLink(p.linkId, e.header.trajectoryId, p.claimId, p.curatedItemId, p.relationship, p.strength,
                       LinkUnverified, None, 0, EventProvenance(e))]
  }

  function LoggedLinks(log: seq<HarnessEvent>): seq<EvidenceLink>
    decreases |log|
  {
    if log == [] then [] else LoggedLinks(log[..|log| - 1]) + LinkOf(log[|log| - 1])
  }

  /** The claim that a link was made for. */
  function ClaimOfLink(log: seq<HarnessEvent>, id: string): string
    decreases |log|
  {
    if log == [] then ""
    else
      var p := log[|log| - 1].payload;
      if p.EvidenceLinkedPayload? && p.linkId == id then p.claimId else ClaimOfLink(log[..|log| - 1], id)
  }

  function RecordOf(e: HarnessEvent, claimId: string): seq<VerificationRecord> {
    var p := e.payload;
    if !p.EvidenceVerifiedPayload? then []
    else [VerificationRecord(p.verificationId, e.header.trajectoryId, p.linkId, claimId, "event", p.result, p.details,
                             e.header.createdAt, EventProvenance(e))]
  }

  function LoggedRecords(log: seq<HarnessEvent>): seq<VerificationRecord>
    decreases |log|
  {
    if log == [] then []
    else
      var init, e := log[..|log| - 1], log[|log| - 1];
      LoggedRecords(init) + if e.payload.EvidenceVerifiedPayload?
        then RecordOf(e, ClaimOfLink(init, e.payload.linkId)) else []
  }

  // ----- the projection of a whole log -----

  ghost predicate ItemsProjected(s: Snapshot, log: seq<HarnessEvent>) {
    && s.candidates == LoggedCandidates(log)
    && s.curatedItems == LoggedCurated(log, log)
    && s.submissions == LoggedSubmissions(log)
    && s.tasks == LoggedTasks(log, log)
  }

  ghost predicate ClaimsProjected(s: Snapshot, log: seq<HarnessEvent>) {
    && ClaimIds(s.claims) == CreatedClaimIds(log)
    && forall i :: 0 <= i < |s.claims| ==>
         && LatestContent(log, s.claims[i].claimId) == Some(s.claims[i].content)
         && LatestStatus(log, s.claims[i].claimId) == Some(s.claims[i].status)
  }

  ghost predicate LinksProjected(s: Snapshot, log: seq<HarnessEvent>) {
    && BareLinks(s.evidenceLinks) == LoggedLinks(log)
    && (forall i :: 0 <= i < |s.evidenceLinks| ==>
          ClaimOfLink(log, s.evidenceLinks[i].linkId) == s.evidenceLinks[i].claimId)
    && s.verificationRecords == LoggedRecords(log)
  }

  // ----- items -----

  lemma {:induction false} SameCompletion(made: seq<HarnessEvent>, a: seq<HarnessEvent>, b: seq<HarnessEvent>)
    requires forall id :: CompletedAt(a, id) == CompletedAt(b, id)
    ensures LoggedTasks(made, a) == LoggedTasks(made, b)
    decreases |made|
  {
    hide CompletedAt;
    if made != [] { SameCompletion(made[..|made| - 1], a, b); }
  }

  /** One more completion: the tasks of that id are done, the others are as they were. */
  lemma {:induction false} OneMoreCompletion(
    made: seq<HarnessEvent>, a: seq<HarnessEvent>, b: seq<HarnessEvent>, id: string, at: Time)
    requires CompletedAt(b, id) == Some(at)
    requires forall other :: other != id ==> CompletedAt(a, other) == CompletedAt(b, other)
    ensures var before, after := LoggedTasks(made, a), LoggedTasks(made, b);
      && |after| == |before|
      && forall i :: 0 <= i < |before| ==>
           after[i] == if before[i].taskId == id
             then before[i].(status := TaskDone, completedAt := Some(at)) else before[i]
    decreases |made|
  {
    hide CompletedAt;
    if made != [] { OneMoreCompletion(made[..|made| - 1], a, b, id, at); }
  }

  /** A completed task is a task. */
  ghost predicate CompletionsKnown(s: Snapshot, log: seq<HarnessEvent>) {
    forall id :: CompletedAt(log, id).Some? ==> id in TaskIds(s.tasks)
  }

  lemma CompletedSnoc(log: seq<HarnessEvent>, e: HarnessEvent, id: string)
    ensures CompletedAt(log + [e], id) ==
            if e.payload.TaskCompletedPayload? && e.payload.taskId == id
              then Some(e.header.createdAt) else CompletedAt(log, id)
  {
    assert (log + [e])[..|log|] == log;
  }

  lemma TasksSnoc(log: seq<HarnessEvent>, e: HarnessEvent)
    ensures LoggedTasks(log + [e], log + [e]) == LoggedTasks(log, log + [e])
              + if e.payload.TaskDecomposedPayload? then [TaskOf(e, CompletedAt(log + [e], e.payload.taskId))] else []
  {
    hide CompletedAt;
    assert (log + [e])[..|log|] == log;
  }

  lemma DecomposedStep(s: Snapshot, e: HarnessEvent, log: seq<HarnessEvent>)
    requires e.payload.TaskDecomposedPayload? && HandleTaskDecomposed(s, e).Success?
    requires s.tasks == LoggedTasks(log, log) && CompletionsKnown(s, log)
    ensures var r := HandleTaskDecomposed(s, e).value;
      r.tasks == LoggedTasks(log + [e], log + [e]) && CompletionsKnown(r, log + [e])
  {
    hide CompletedAt, LoggedTasks;
    forall id ensures CompletedAt(log + [e], id) == CompletedAt(log, id) { CompletedSnoc(log, e, id); }
    SameCompletion(log, log, log + [e]);
    TasksSnoc(log, e);
    assert TaskIds(HandleTaskDecomposed(s, e).value.tasks) == TaskIds(s.tasks) + [e.payload.taskId];
  }

  lemma CompletedStep(s: Snapshot, e: HarnessEvent, log: seq<HarnessEvent>)
    requires e.payload.TaskCompletedPayload? && HandleTaskCompleted(s, e).Success? && Distinct(TaskIds(s.tasks))
    requires s.tasks == LoggedTasks(log, log) && CompletionsKnown(s, log)
    ensures var r := HandleTaskCompleted(s, e).value;
      r.tasks == LoggedTasks(log + [e], log + [e]) && CompletionsKnown(r, log + [e])
  {
    hide CompletedAt, LoggedTasks;
    var id := e.payload.taskId;
    forall other
      ensures CompletedAt(log + [e], other) == if other == id then Some(e.header.createdAt) else CompletedAt(log, other)
    {
      CompletedSnoc(log, e, other);
    }
    OneMoreCompletion(log, log, log + [e], id, e.header.createdAt);
    TasksSnoc(log, e);
    var r := HandleTaskCompleted(s, e).value;
    var k := IndexById(TaskIds(s.tasks), id).value;
    forall i | 0 <= i < |s.tasks| ensures r.tasks[i] == LoggedTasks(log, log + [e])[i] {
      if i != k { assert TaskIds(s.tasks)[i] != TaskIds(s.tasks)[k]; }
    }
    assert TaskIds(r.tasks) == TaskIds(s.tasks);
  }

  lemma OtherTaskStep(log: seq<HarnessEvent>, e: HarnessEvent)
    requires !e.payload.TaskDecomposedPayload? && !e.payload.TaskCompletedPayload?
    ensures LoggedTasks(log + [e], log + [e]) == LoggedTasks(log, log)
    ensures forall id :: CompletedAt(log + [e], id) == CompletedAt(log, id)
  {
    hide CompletedAt, LoggedTasks;
    forall id ensures CompletedAt(log + [e], id) == CompletedAt(log, id) { CompletedSnoc(log, e, id); }
    SameCompletion(log, log, log + [e]);
    TasksSnoc(log, e);
  }

  // ----- curated items -----

  lemma RetainedSnoc(log: seq<HarnessEvent>, e: HarnessEvent, n: nat, id: string)
    requires n <= |log|
    ensures RetainedFrom(log + [e], n, id) <==>
            RetainedFrom(log, n, id) && (e.payload.ContextPrunedPayload? ==> id in e.payload.retainedItemIds)
  {
    assert (log + [e])[|log|] == e;
    assert forall j :: 0 <= j < |log| ==> (log + [e])[j] == log[j];
  }

  lemma {:induction false} RetainSnoc(items: seq<CuratedItem>, c: CuratedItem, ids: seq<string>)
    ensures Retain(items + [c], ids) == Retain(items, ids) + if c.itemId in ids then [c] else []
  {
    if items != [] {
      RetainSnoc(items[1..], c, ids);
      assert (items + [c])[1..] == items[1..] + [c];
    }
  }

  /** One more event filters what was kept if it prunes, and leaves it alone otherwise. */
  lemma {:induction false} CuratedGrows(made: seq<HarnessEvent>, log: seq<HarnessEvent>, e: HarnessEvent)
    requires |made| <= |log|
    ensures LoggedCurated(made, log + [e]) ==
            if e.payload.ContextPrunedPayload? then Retain(LoggedCurated(made, log), e.payload.retainedItemIds)
            else LoggedCurated(made, log)
    decreases |made|
  {
    hide RetainedFrom, Retain;
    if made == [] {
      NothingRetained(e);
    } else {
      var init, last := made[..|made| - 1], made[|made| - 1];
      CuratedGrows(init, log, e);
      if last.payload.EvidenceCuratedPayload? {
        RetainedSnoc(log, e, |made|, last.payload.curatedItemId);
        assert LoggedCurated(init, log) + [] == LoggedCurated(init, log);
        assert LoggedCurated(init, log + [e]) + [] == LoggedCurated(init, log + [e]);
        if e.payload.ContextPrunedPayload? {
          RetainSnoc(LoggedCurated(init, log), CuratedOf(last), e.payload.retainedItemIds);
        }
      }
    }
  }

  lemma NothingRetained(e: HarnessEvent)
    ensures e.payload.ContextPrunedPayload? ==> Retain([], e.payload.retainedItemIds) == []
  {
  }

  lemma CuratedSnoc(log: seq<HarnessEvent>, e: HarnessEvent)
    ensures LoggedCurated(log + [e], log + [e]) ==
            LoggedCurated(log, log + [e]) + if e.payload.EvidenceCuratedPayload? then [CuratedOf(e)] else []
  {
    assert (log + [e])[..|log|] == log;
  }

  // ----- one event -----

  predicate OnItems(e: HarnessEvent) {
    e.payload.CandidateAddedPayload? || e.payload.EvidenceCuratedPayload? || e.payload.ContextPrunedPayload?
      || e.payload.SubmissionRecordedPayload?
  }

  lemma ItemsStep(s: Snapshot, e: HarnessEvent, now: Time, log: seq<HarnessEvent>)
    requires Handle(s, e, now).Success? && ItemsProjected(s, log) && CompletionsKnown(s, log)
      && Distinct(TaskIds(s.tasks))
    ensures var r := Handle(s, e, now).value; ItemsProjected(r, log + [e]) && CompletionsKnown(r, log + [e])
  {
    hide Handle, LoggedCandidates, LoggedSubmissions, LoggedCurated, LoggedTasks, CompletedAt, CompletionsKnown;
    AppendOnlySnoc(log, e);
    CuratedGrows(log, log, e);
    CuratedSnoc(log, e);
    if e.payload.TaskDecomposedPayload? || e.payload.TaskCompletedPayload? {
      TaskEventStep(s, e, now, log);
    } else {
      OtherTaskStep(log, e);
      if OnItems(e) { ItemEventStep(s, e, now); } else { RestKeepsItems(s, e, now); }
      OtherCompletions(s, Handle(s, e, now).value, log, e);
    }
  }

  lemma TaskEventStep(s: Snapshot, e: HarnessEvent, now: Time, log: seq<HarnessEvent>)
    requires e.payload.TaskDecomposedPayload? || e.payload.TaskCompletedPayload?
    requires Handle(s, e, now).Success?
    requires s.tasks == LoggedTasks(log, log) && CompletionsKnown(s, log) && Distinct(TaskIds(s.tasks))
    ensures var r := Handle(s, e, now).value;
      && r.candidates == s.candidates && r.curatedItems == s.curatedItems && r.submissions == s.submissions
      && r.tasks == LoggedTasks(log + [e], log + [e]) && CompletionsKnown(r, log + [e])
  {
    hide HandleTaskDecomposed, HandleTaskCompleted, LoggedTasks, CompletionsKnown, Distinct;
    if e.payload.TaskDecomposedPayload? {
      DecomposedStep(s, e, log);
      DecomposedKeeps(s, e);
    } else {
      CompletedStep(s, e, log);
      CompletedKeeps(s, e);
    }
  }

  lemma ItemEventStep(s: Snapshot, e: HarnessEvent, now: Time)
    requires OnItems(e) && Handle(s, e, now).Success?
    ensures var r := Handle(s, e, now).value;
      && r.candidates == s.candidates + CandidateOf(e)
      && r.submissions == s.submissions + SubmissionOf(e)
      && r.tasks == s.tasks
      && r.curatedItems == if e.payload.EvidenceCuratedPayload? then s.curatedItems + [CuratedOf(e)]
                           else if e.payload.ContextPrunedPayload?
                             then Retain(s.curatedItems, e.payload.retainedItemIds)
                           else s.curatedItems
  {
    hide Advanced, Retain;
  }

  predicate OnClaims(e: HarnessEvent) {
    e.payload.ClaimCreatedPayload? || e.payload.ClaimRevisedPayload? || e.payload.EvidenceLinkedPayload?
      || e.payload.EvidenceVerifiedPayload?
  }

  lemma RestKeepsItems(s: Snapshot, e: HarnessEvent, now: Time)
    requires !OnItems(e) && !e.payload.TaskDecomposedPayload? && !e.payload.TaskCompletedPayload?
    requires Handle(s, e, now).Success?
    ensures var r := Handle(s, e, now).value;
      && r.candidates == s.candidates && r.curatedItems == s.curatedItems && r.submissions == s.submissions
      && r.tasks == s.tasks
      && CandidateOf(e) == [] && SubmissionOf(e) == []
  {
    hide Handle;
    if OnClaims(e) { ClaimEventKeepsItems(s, e, now); } else { OtherEventKeepsAll(s, e, now); }
  }

  lemma ClaimEventKeepsItems(s: Snapshot, e: HarnessEvent, now: Time)
    requires OnClaims(e) && Handle(s, e, now).Success?
    ensures var r := Handle(s, e, now).value;
      && r.candidates == s.candidates && r.curatedItems == s.curatedItems && r.submissions == s.submissions
      && r.tasks == s.tasks
  {
    hide Advanced, IndexById;
  }

  /** Actions, tool events and checkpoint events concern neither items nor claims. */
  lemma OtherEventKeepsAll(s: Snapshot, e: HarnessEvent, now: Time)
    requires !OnItems(e) && !OnClaims(e) && !e.payload.TaskDecomposedPayload? && !e.payload.TaskCompletedPayload?
    requires Handle(s, e, now).Success?
    ensures var r := Handle(s, e, now).value;
      && r.candidates == s.candidates && r.curatedItems == s.curatedItems && r.submissions == s.submissions
      && r.tasks == s.tasks
      && r.claims == s.claims && r.evidenceLinks == s.evidenceLinks && r.verificationRecords == s.verificationRecords
      && r.epochId == s.epochId
  {
    hide Advanced, ParseToolStatus;
  }

  /** Events about items and tasks do not concern claims. */
  lemma ItemEventKeepsClaims(s: Snapshot, e: HarnessEvent, now: Time)
    requires OnItems(e) || e.payload.TaskDecomposedPayload? || e.payload.TaskCompletedPayload?
    requires Handle(s, e, now).Success?
    ensures var r := Handle(s, e, now).value;
      && r.claims == s.claims && r.evidenceLinks == s.evidenceLinks && r.verificationRecords == s.verificationRecords
      && r.epochId == if e.payload.ContextPrunedPayload? then e.payload.newEpochId else s.epochId
  {
    hide Advanced, IndexById, Retain;
  }

  lemma ClaimEventKeepsEpoch(s: Snapshot, e: HarnessEvent, now: Time)
    requires OnClaims(e) && Handle(s, e, now).Success?
    ensures Handle(s, e, now).value.epochId == s.epochId
  {
    hide Advanced, IndexById;
  }

  lemma OtherCompletions(s: Snapshot, r: Snapshot, log: seq<HarnessEvent>, e: HarnessEvent)
    requires r.tasks == s.tasks && CompletionsKnown(s, log) && forall id ::
        CompletedAt(log + [e], id) == CompletedAt(log, id)
    ensures CompletionsKnown(r, log + [e])
  {
    hide CompletedAt;
  }

  lemma DecomposedKeeps(s: Snapshot, e: HarnessEvent)
    requires e.payload.TaskDecomposedPayload? && HandleTaskDecomposed(s, e).Success?
    ensures var r := HandleTaskDecomposed(s, e).value;
      r.candidates == s.candidates && r.curatedItems == s.curatedItems && r.submissions == s.submissions
  {
  }

  lemma CompletedKeeps(s: Snapshot, e: HarnessEvent)
    requires e.payload.TaskCompletedPayload? && HandleTaskCompleted(s, e).Success?
    ensures var r := HandleTaskCompleted(s, e).value;
      r.candidates == s.candidates && r.curatedItems == s.curatedItems && r.submissions == s.submissions
  {
  }

  lemma AppendOnlySnoc(log: seq<HarnessEvent>, e: HarnessEvent)
    ensures LoggedCandidates(log + [e]) == LoggedCandidates(log) + CandidateOf(e)
    ensures LoggedSubmissions(log + [e]) == LoggedSubmissions(log) + SubmissionOf(e)
  {
    assert (log + [e])[..|log|] == log;
  }

  // ----- claims -----

  lemma LatestSnoc(log: seq<HarnessEvent>, e: HarnessEvent, id: string)
    ensures var p := e.payload;
      && LatestContent(log + [e], id) ==
         (if p.ClaimCreatedPayload? && p.claimId == id then Some(p.content)
          else if p.ClaimRevisedPayload? && p.claimId == id && p.newContent.Some? then p.newContent
          else LatestContent(log, id))
      && LatestStatus(log + [e], id) ==
         (if p.ClaimCreatedPayload? && p.claimId == id then Some(ClaimStated)
          else if p.ClaimRevisedPayload? && p.claimId == id && p.newStatus.Some? then p.newStatus
          else LatestStatus(log, id))
  {
    assert (log + [e])[..|log|] == log;
  }

  lemma CreatedSnoc(log: seq<HarnessEvent>, e: HarnessEvent)
    ensures CreatedClaimIds(log + [e]) ==
            CreatedClaimIds(log) + if e.payload.ClaimCreatedPayload? then [e.payload.claimId] else []
  {
    assert (log + [e])[..|log|] == log;
  }

  lemma CreatedStep(s: Snapshot, e: HarnessEvent, log: seq<HarnessEvent>)
    requires e.payload.ClaimCreatedPayload? && HandleClaimCreated(s, e).Success? && ClaimsProjected(s, log)
    ensures ClaimsProjected(HandleClaimCreated(s, e).value, log + [e])
  {
    hide LatestContent, LatestStatus, CreatedClaimIds;
    var r := HandleClaimCreated(s, e).value;
    CreatedSnoc(log, e);
    assert ClaimIds(r.claims) == ClaimIds(s.claims) + [e.payload.claimId];
    forall i | 0 <= i < |r.claims|
      ensures LatestContent(log + [e], r.claims[i].claimId) == Some(r.claims[i].content)
           && LatestStatus(log + [e], r.claims[i].claimId) == Some(r.claims[i].status)
    {
      LatestSnoc(log, e, r.claims[i].claimId);
      if i < |s.claims| { assert ClaimIds(s.claims)[i] == s.claims[i].claimId; }
    }
  }

  lemma RevisedStep(s: Snapshot, e: HarnessEvent, now: Time, log: seq<HarnessEvent>)
    requires e.payload.ClaimRevisedPayload? && HandleClaimRevised(s, e, now).Success? && ClaimsProjected(s, log)
    requires Distinct(ClaimIds(s.claims))
    ensures ClaimsProjected(HandleClaimRevised(s, e, now).value, log + [e])
  {
    hide LatestContent, LatestStatus, CreatedClaimIds;
    var r := HandleClaimRevised(s, e, now).value;
    var k := IndexById(ClaimIds(s.claims), e.payload.claimId).value;
    CreatedSnoc(log, e);
    assert ClaimIds(r.claims) == ClaimIds(s.claims);
    forall i | 0 <= i < |r.claims|
      ensures LatestContent(log + [e], r.claims[i].claimId) == Some(r.claims[i].content)
           && LatestStatus(log + [e], r.claims[i].claimId) == Some(r.claims[i].status)
    {
      LatestSnoc(log, e, r.claims[i].claimId);
      if i != k { assert ClaimIds(s.claims)[i] != ClaimIds(s.claims)[k]; }
    }
  }

  /** The other events leave ids, contents and statuses of claims alone. */
  lemma OtherClaimStep(s: Snapshot, r: Snapshot, e: HarnessEvent, log: seq<HarnessEvent>)
    requires ClaimsProjected(s, log) && !e.payload.ClaimCreatedPayload? && !e.payload.ClaimRevisedPayload?
    requires |r.claims| == |s.claims|
    requires forall i :: 0 <= i < |s.claims| ==>
        r.claims[i].(evidenceLinkIds := []) == s.claims[i].(evidenceLinkIds := [])
    ensures ClaimsProjected(r, log + [e])
  {
    hide LatestContent, LatestStatus, CreatedClaimIds;
    CreatedSnoc(log, e);
    forall i | 0 <= i < |s.claims| ensures r.claims[i].claimId == s.claims[i].claimId
        && r.claims[i].content == s.claims[i].content && r.claims[i].status == s.claims[i].status {
      assert r.claims[i].(evidenceLinkIds := []).claimId == s.claims[i].(evidenceLinkIds := []).claimId;
      assert r.claims[i].(evidenceLinkIds := []).content == s.claims[i].(evidenceLinkIds := []).content;
      assert r.claims[i].(evidenceLinkIds := []).status == s.claims[i].(evidenceLinkIds := []).status;
    }
    assert ClaimIds(r.claims) == ClaimIds(s.claims);
    forall i | 0 <= i < |r.claims|
      ensures LatestContent(log + [e], r.claims[i].claimId) == Some(r.claims[i].content)
           && LatestStatus(log + [e], r.claims[i].claimId) == Some(r.claims[i].status)
    {
      LatestSnoc(log, e, r.claims[i].claimId);
    }
  }

  lemma LinkedKeepsClaims(s: Snapshot, e: HarnessEvent, now: Time)
    requires e.payload.EvidenceLinkedPayload? && HandleEvidenceLinked(s, e, now).Success?
    ensures var r := HandleEvidenceLinked(s, e, now).value;
      && |r.claims| == |s.claims|
      && forall i :: 0 <= i < |s.claims| ==> r.claims[i].(evidenceLinkIds := []) == s.claims[i].(evidenceLinkIds := [])
  {
  }

  lemma ClaimsStep(s: Snapshot, e: HarnessEvent, now: Time, log: seq<HarnessEvent>)
    requires Handle(s, e, now).Success? && ClaimsProjected(s, log) && Distinct(ClaimIds(s.claims))
    ensures ClaimsProjected(Handle(s, e, now).value, log + [e])
  {
    hide ClaimsProjected, HandleClaimCreated, HandleClaimRevised, HandleEvidenceLinked, Distinct, Advanced, ClaimIds,
      LinkIds;
    hide HandleToolInvoked, HandleToolResultReceived, HandleEvidenceCurated, HandleTaskDecomposed, HandleTaskCompleted,
      HandleContextPruned, HandleSubmissionRecorded, HandleSnapshotCheckpointed, HandleCandidateAdded, IndexById;
    var r := Handle(s, e, now).value;
    if e.payload.ClaimCreatedPayload? {
      CreatedStep(s, e, log);
    } else if e.payload.ClaimRevisedPayload? {
      RevisedStep(s, e, now, log);
    } else {
      if e.payload.EvidenceLinkedPayload? {
        LinkedKeepsClaims(s, e, now);
      } else if OnItems(e) || e.payload.TaskDecomposedPayload? || e.payload.TaskCompletedPayload? {
        ItemEventKeepsClaims(s, e, now);
      } else if !OnClaims(e) {
        OtherEventKeepsAll(s, e, now);
      }
      OtherClaimStep(s, r, e, log);
    }
  }

  // ----- links -----

  lemma LinksSnoc(log: seq<HarnessEvent>, e: HarnessEvent)
    ensures LoggedLinks(log + [e]) == LoggedLinks(log) + LinkOf(e)
    ensures LoggedRecords(log + [e]) == LoggedRecords(log)
              + if e.payload.EvidenceVerifiedPayload? then RecordOf(e, ClaimOfLink(log, e.payload.linkId)) else []
    ensures forall id :: ClaimOfLink(log + [e], id) ==
              if e.payload.EvidenceLinkedPayload? && e.payload.linkId == id
                then e.payload.claimId else ClaimOfLink(log, id)
  {
    assert (log + [e])[..|log|] == log;
  }

  lemma LinkedStep(s: Snapshot, e: HarnessEvent, now: Time, log: seq<HarnessEvent>)
    requires e.payload.EvidenceLinkedPayload? && HandleEvidenceLinked(s, e, now).Success? && LinksProjected(s, log)
    ensures LinksProjected(HandleEvidenceLinked(s, e, now).value, log + [e])
  {
    hide LoggedLinks, LoggedRecords, ClaimOfLink;
    var r := HandleEvidenceLinked(s, e, now).value;
    LinksSnoc(log, e);
    assert BareLinks(r.evidenceLinks) == BareLinks(s.evidenceLinks) + LinkOf(e);
    forall i | 0 <= i < |r.evidenceLinks|
      ensures ClaimOfLink(log + [e], r.evidenceLinks[i].linkId) == r.evidenceLinks[i].claimId
    {
      if i < |s.evidenceLinks| { assert LinkIds(s.evidenceLinks)[i] == s.evidenceLinks[i].linkId; }
    }
  }

  lemma VerifiedStep(s: Snapshot, e: HarnessEvent, log: seq<HarnessEvent>)
    requires e.payload.EvidenceVerifiedPayload? && HandleEvidenceVerified(s, e).Success? && LinksProjected(s, log)
    ensures LinksProjected(HandleEvidenceVerified(s, e).value, log + [e])
    ensures HandleEvidenceVerified(s, e).value.claims == s.claims
  {
    hide LoggedLinks, LoggedRecords, ClaimOfLink;
    var r := HandleEvidenceVerified(s, e).value;
    LinksSnoc(log, e);
    var k := IndexById(LinkIds(s.evidenceLinks), e.payload.linkId).value;
    assert BareLinks(r.evidenceLinks) == BareLinks(s.evidenceLinks);
    assert s.evidenceLinks[k].linkId == e.payload.linkId;
  }

  lemma OtherLinkStep(s: Snapshot, r: Snapshot, e: HarnessEvent, log: seq<HarnessEvent>)
    requires LinksProjected(s, log) && !e.payload.EvidenceLinkedPayload? && !e.payload.EvidenceVerifiedPayload?
    requires r.evidenceLinks == s.evidenceLinks && r.verificationRecords == s.verificationRecords
    ensures LinksProjected(r, log + [e])
  {
    hide LoggedLinks, LoggedRecords, ClaimOfLink;
    LinksSnoc(log, e);
  }

  lemma ClaimEventKeepsLinks(s: Snapshot, e: HarnessEvent, now: Time)
    requires e.payload.ClaimCreatedPayload? || e.payload.ClaimRevisedPayload?
    requires Handle(s, e, now).Success?
    ensures var r := Handle(s, e, now).value;
      r.evidenceLinks == s.evidenceLinks && r.verificationRecords == s.verificationRecords
  {
    hide Advanced, IndexById;
  }

  lemma LinksStep(s: Snapshot, e: HarnessEvent, now: Time, log: seq<HarnessEvent>)
    requires Handle(s, e, now).Success? && LinksProjected(s, log)
    ensures LinksProjected(Handle(s, e, now).value, log + [e])
  {
    hide LinksProjected, HandleClaimCreated, HandleClaimRevised, HandleEvidenceLinked, HandleEvidenceVerified, Advanced;
    hide HandleToolInvoked, HandleToolResultReceived, HandleEvidenceCurated, HandleTaskDecomposed, HandleTaskCompleted,
      HandleContextPruned, HandleSubmissionRecorded, HandleSnapshotCheckpointed, HandleCandidateAdded;
    if e.payload.EvidenceLinkedPayload? {
      LinkedStep(s, e, now, log);
    } else if e.payload.EvidenceVerifiedPayload? {
      VerifiedStep(s, e, log);
    } else {
      if OnItems(e) || e.payload.TaskDecomposedPayload? || e.payload.TaskCompletedPayload? {
        ItemEventKeepsClaims(s, e, now);
      } else if OnClaims(e) {
        ClaimEventKeepsLinks(s, e, now);
      } else {
        OtherEventKeepsAll(s, e, now);
      }
      OtherLinkStep(s, Handle(s, e, now).value, e, log);
    }
  }

  // ----- the whole log -----

  lemma EmptyProjected(g: Snapshot)
    requires EmptyState(g)
    ensures ItemsProjected(g, []) && ClaimsProjected(g, []) && LinksProjected(g, []) && CompletionsKnown(g, [])
  {
  }

  lemma EpochStep(s: Snapshot, e: HarnessEvent, now: Time, first: string, log: seq<HarnessEvent>)
    requires Handle(s, e, now).Success? && s.epochId == LoggedEpoch(first, log)
    ensures Handle(s, e, now).value.epochId == LoggedEpoch(first, log + [e])
  {
    hide Handle;
    assert (log + [e])[..|log|] == log;
    if OnItems(e) || e.payload.TaskDecomposedPayload? || e.payload.TaskCompletedPayload? {
      ItemEventKeepsClaims(s, e, now);
    } else if OnClaims(e) {
      ClaimEventKeepsEpoch(s, e, now);
    } else {
      OtherEventKeepsAll(s, e, now);
    }
  }

  lemma ProjectedStep(s: Snapshot, e: HarnessEvent, now: Time, first: string, log: seq<HarnessEvent>)
    requires ReduceEvent(s, e, now).Success? && Consistent(s)
    requires ItemsProjected(s, log) && ClaimsProjected(s, log) && LinksProjected(s, log) && CompletionsKnown(s, log)
    requires s.epochId == LoggedEpoch(first, log)
    ensures var r := ReduceEvent(s, e, now).value;
      && ItemsProjected(r, log + [e]) && ClaimsProjected(r, log + [e]) && LinksProjected(r, log + [e])
      && CompletionsKnown(r, log + [e]) && r.epochId == LoggedEpoch(first, log + [e])
  {
    hide Handle, ItemsProjected, ClaimsProjected, LinksProjected, CompletionsKnown, LoggedEpoch, ClaimsListTheirLinks,
      LinksFollowRecords, CuratedCiteCandidates, ReferencesResolve, Distinct;
    ItemsStep(s, e, now, log);
    ClaimsStep(s, e, now, log);
    LinksStep(s, e, now, log);
    EpochStep(s, e, now, first, log);
  }

  /** Every collection of a snapshot folded from an empty trajectory is the projection of the log: candidates,
    submissions and verification records as introduced; tasks done exactly when completed; curated items that
    survived every later pruning; claims with their latest content and status; links as made. */
  lemma {:induction false} SnapshotIsProjection(g: Snapshot, log: seq<HarnessEvent>, clock: Clock)
    requires EmptyState(g) && Fold(g, log, clock).Success?
    ensures var s := Fold(g, log, clock).value;
      && ItemsProjected(s, log) && ClaimsProjected(s, log) && LinksProjected(s, log)
      && CompletionsKnown(s, log) && s.epochId == LoggedEpoch(g.epochId, log)
    decreases |log|
  {
    hide ReduceEvent, ItemsProjected, ClaimsProjected, LinksProjected, CompletionsKnown, EmptyState, Consistent;
    if log == [] {
      EmptyProjected(g);
    } else {
      var init, e := log[..|log| - 1], log[|log| - 1];
      SnapshotIsProjection(g, init, clock);
      ReachableConsistent(g, init, clock);
      ProjectedStep(Fold(g, init, clock).value, e, clock(e.header.sequence), g.epochId, init);
      assert log == init + [e];
    }
  }
}
