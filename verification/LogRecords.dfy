/** The records of a snapshot and the events of its log, matched one to one: each collection holds, in log order,
  one record for each event of its kind, with the event's own fields, under the event's name.
 */
module LogRecords {
  import opened Results
  import opened Schema
  import opened Reducer
  import opened FoldFacts
  import opened Consistency
  import opened Projection
  import opened ToolHistory

  // ----- records at positions of a log -----

  /** xs are the records of exactly those events that `picks` selects, at the positions ks, in order. */
  ghost predicate Recorded<T>(
    log: seq<HarnessEvent>, xs: seq<T>, ks: seq<nat>, picks: HarnessEvent -> bool, describes: (HarnessEvent, T) -> bool)
  {
    && |xs| == |ks|
    && (forall i, j :: 0 <= i < j < |ks| ==> ks[i] < ks[j])
    && (forall j :: 0 <= j < |ks| ==> ks[j] < |log| && describes(log[ks[j]], xs[j]))
    && forall k :: 0 <= k < |log| ==> (k in ks <==> picks(log[k]))
  }

  lemma NothingRecorded<T>(picks: HarnessEvent -> bool, describes: (HarnessEvent, T) -> bool)
    ensures Recorded([], [], [], picks, describes)
  {
  }

  lemma RecordedBelow<T>(
    log: seq<HarnessEvent>, xs: seq<T>, ks: seq<nat>, picks: HarnessEvent -> bool, describes: (HarnessEvent, T) -> bool)
    requires Recorded(log, xs, ks, picks, describes)
    ensures forall k :: k in ks ==> k < |log|
  {
  }

  lemma RecordedLength<T>(
    log: seq<HarnessEvent>, xs: seq<T>, ks: seq<nat>, picks: HarnessEvent -> bool, describes: (HarnessEvent, T) -> bool)
    requires Recorded(log, xs, ks, picks, describes)
    ensures |xs| == |ks|
  {
  }

  /** The record of an event. */
  lemma RecordAt<T>(
    log: seq<HarnessEvent>, xs: seq<T>, ks: seq<nat>, picks: HarnessEvent -> bool, describes: (HarnessEvent, T) -> bool,
    n: nat) returns (j: nat)
    requires Recorded(log, xs, ks, picks, describes) && n < |log| && picks(log[n])
    ensures j < |xs| == |ks| && ks[j] == n && describes(log[n], xs[j])
  {
    j :| 0 <= j < |ks| && ks[j] == n;
  }

  lemma RecordedMore<T>(
    log: seq<HarnessEvent>, e: HarnessEvent, xs: seq<T>, x: T, ks: seq<nat>, picks: HarnessEvent -> bool,
    describes: (HarnessEvent, T) -> bool)
    requires Recorded(log, xs, ks, picks, describes) && picks(e) && describes(e, x)
    ensures Recorded(log + [e], xs + [x], ks + [|log|], picks, describes)
  {
    RecordedBelow(log, xs, ks, picks, describes);
  }

  lemma RecordedSame<T>(
    log: seq<HarnessEvent>, e: HarnessEvent, xs: seq<T>, ks: seq<nat>, picks: HarnessEvent -> bool,
    describes: (HarnessEvent, T) -> bool)
    requires Recorded(log, xs, ks, picks, describes) && !picks(e)
    ensures Recorded(log + [e], xs, ks, picks, describes)
  {
    RecordedBelow(log, xs, ks, picks, describes);
  }

  // ----- what each kind of record takes from its event -----

  /** Actor, action and event id: where a record comes from. */
  predicate Names(p: Provenance, e: HarnessEvent) {
    p.actor == e.header.actor && p.actionId == e.header.actionId && p.eventId == Some(e.header.eventId)
  }

  predicate AddsCandidate(e: HarnessEvent) { e.payload.CandidateAddedPayload? }

  predicate CandidateFrom(e: HarnessEvent, c: CandidateItem) {
    && e.payload.CandidateAddedPayload? && c.itemId == e.payload.itemId && c.trajectoryId == e.header.trajectoryId
    && c.sourceId == e.payload.sourceId && c.retrievalQuery == e.payload.retrievalQuery
    && c.content == e.payload.content && c.createdAt == e.header.createdAt && Names(c.provenance, e)
  }

  predicate Submits(e: HarnessEvent) { e.payload.SubmissionRecordedPayload? }

  predicate SubmissionFrom(e: HarnessEvent, x: SubmissionRecord) {
    && e.payload.SubmissionRecordedPayload? && x.submissionId == e.payload.submissionId
    && x.trajectoryId == e.header.trajectoryId && x.content == e.payload.content
    && x.sourceIds == e.payload.sourceIds && x.submittedAt == e.header.createdAt && Names(x.provenance, e)
  }

  predicate Invokes(e: HarnessEvent) { e.payload.ToolInvokedPayload? }

  predicate InvocationFrom(e: HarnessEvent, v: ToolInvocation) {
    && e.payload.ToolInvokedPayload? && v.invocationId == e.payload.invocationId
    && v.trajectoryId == e.header.trajectoryId && v.actionId == e.header.actionId
    && v.parentTaskId == e.payload.parentTaskId && v.toolName == e.payload.toolName
    && v.arguments == e.payload.arguments && v.dependencyIds == e.payload.dependencyIds
    && v.deadline == e.payload.deadline && v.createdAt == e.header.createdAt && Names(v.provenance, e)
  }

  predicate Reports(e: HarnessEvent) { e.payload.ToolResultReceivedPayload? }

  /** The five texts of a status. */
  predicate SpelledStatus(text: string, status: ToolStatus) {
    match status
    case ToolPending => text == "pending"
    case ToolRunning => text == "running"
    case ToolSuccess => text == "success"
    case ToolFailure => text == "failure"
    case ToolTimeout => text == "timeout"
  }

  predicate ResultFrom(e: HarnessEvent, r: ToolResult) {
    && e.payload.ToolResultReceivedPayload? && r.resultId == e.payload.invocationId
    && r.invocationId == e.payload.invocationId && r.trajectoryId == e.header.trajectoryId
    && SpelledStatus(e.payload.status, r.status) && r.content == e.payload.content
    && r.receivedAt == e.header.createdAt && Names(r.provenance, e)
  }

  predicate Verifies(e: HarnessEvent) { e.payload.EvidenceVerifiedPayload? }

  predicate RecordFrom(e: HarnessEvent, r: VerificationRecord) {
    && e.payload.EvidenceVerifiedPayload? && r.recordId == e.payload.verificationId
    && r.trajectoryId == e.header.trajectoryId && r.linkId == e.payload.linkId && r.method_ == "event"
    && r.result == e.payload.result && r.details == e.payload.details && r.createdAt == e.header.createdAt
    && Names(r.provenance, e)
  }

  predicate Decomposes(e: HarnessEvent) { e.payload.TaskDecomposedPayload? }

  predicate TaskFrom(e: HarnessEvent, t: TaskNode) {
    && e.payload.TaskDecomposedPayload? && t.taskId == e.payload.taskId && t.trajectoryId == e.header.trajectoryId
    && t.parentId == e.payload.parentTaskId && t.description == e.payload.description
    && t.dependencyIds == e.payload.dependencyIds && t.createdAt == e.header.createdAt && Names(t.provenance, e)
  }

  predicate Links(e: HarnessEvent) { e.payload.EvidenceLinkedPayload? }

  predicate LinkFrom(e: HarnessEvent, l: EvidenceLink) {
    && e.payload.EvidenceLinkedPayload? && l.linkId == e.payload.linkId && l.trajectoryId == e.header.trajectoryId
    && l.claimId == e.payload.claimId && l.curatedItemId == e.payload.curatedItemId
    && l.relationship == e.payload.relationship && l.strength == e.payload.strength && Names(l.provenance, e)
  }

  predicate CuratedFrom(e: HarnessEvent, c: CuratedItem) {
    && e.payload.EvidenceCuratedPayload? && c.itemId == e.payload.curatedItemId
    && c.trajectoryId == e.header.trajectoryId && c.candidateIds == e.payload.candidateIds
    && c.content == e.payload.content && c.priority == e.payload.priority && c.sourceIds == e.payload.sourceIds
    && c.createdAt == e.header.createdAt && Names(c.provenance, e)
  }

  // ----- the collections that only grow -----

  lemma {:induction false} CandidatesRecorded(log: seq<HarnessEvent>) returns (ks: seq<nat>)
    ensures Recorded(log, LoggedCandidates(log), ks, AddsCandidate, CandidateFrom)
    decreases |log|
  {
    hide Recorded;
    if log == [] {
      ks := [];
      NothingRecorded(AddsCandidate, CandidateFrom);
    } else {
      var init, e := log[..|log| - 1], log[|log| - 1];
      ks := CandidatesRecorded(init);
      assert log == init + [e];
      if AddsCandidate(e) {
        RecordedMore(init, e, LoggedCandidates(init), CandidateOf(e)[0], ks, AddsCandidate, CandidateFrom);
        assert LoggedCandidates(log) == LoggedCandidates(init) + [CandidateOf(e)[0]];
        ks := ks + [|init|];
      } else {
        RecordedSame(init, e, LoggedCandidates(init), ks, AddsCandidate, CandidateFrom);
        assert LoggedCandidates(log) == LoggedCandidates(init);
      }
    }
  }

  lemma {:induction false} SubmissionsRecorded(log: seq<HarnessEvent>) returns (ks: seq<nat>)
    ensures Recorded(log, LoggedSubmissions(log), ks, Submits, SubmissionFrom)
    decreases |log|
  {
    hide Recorded;
    if log == [] {
      ks := [];
      NothingRecorded(Submits, SubmissionFrom);
    } else {
      var init, e := log[..|log| - 1], log[|log| - 1];
      ks := SubmissionsRecorded(init);
      assert log == init + [e];
      if Submits(e) {
        RecordedMore(init, e, LoggedSubmissions(init), SubmissionOf(e)[0], ks, Submits, SubmissionFrom);
        assert LoggedSubmissions(log) == LoggedSubmissions(init) + [SubmissionOf(e)[0]];
        ks := ks + [|init|];
      } else {
        RecordedSame(init, e, LoggedSubmissions(init), ks, Submits, SubmissionFrom);
        assert LoggedSubmissions(log) == LoggedSubmissions(init);
      }
    }
  }

  lemma {:induction false} InvocationsRecorded(log: seq<HarnessEvent>) returns (ks: seq<nat>)
    ensures Recorded(log, LoggedInvocations(log), ks, Invokes, InvocationFrom)
    decreases |log|
  {
    hide Recorded;
    if log == [] {
      ks := [];
      NothingRecorded(Invokes, InvocationFrom);
    } else {
      var init, e := log[..|log| - 1], log[|log| - 1];
      ks := InvocationsRecorded(init);
      assert log == init + [e];
      if Invokes(e) {
        RecordedMore(init, e, LoggedInvocations(init), InvocationOf(e), ks, Invokes, InvocationFrom);
        assert LoggedInvocations(log) == LoggedInvocations(init) + [InvocationOf(e)];
        ks := ks + [|init|];
      } else {
        RecordedSame(init, e, LoggedInvocations(init), ks, Invokes, InvocationFrom);
        assert LoggedInvocations(log) == LoggedInvocations(init);
      }
    }
  }

  /** Every status text of the log is one of the five. */
  ghost predicate StatusesParse(log: seq<HarnessEvent>) {
    forall n :: 0 <= n < |log| && Reports(log[n]) ==> ParseToolStatus(log[n].payload.status).Some?
  }

  lemma ParsedIsSpelled(text: string)
    requires ParseToolStatus(text).Some?
    ensures SpelledStatus(text, ParseToolStatus(text).value)
  {
  }

  lemma AnswerRecorded(e: HarnessEvent)
    requires Reports(e) && ParseToolStatus(e.payload.status).Some?
    ensures |Answered(e)| == 1 && ResultFrom(e, Answered(e)[0])
  {
    hide ParseToolStatus, SpelledStatus;
    ParsedIsSpelled(e.payload.status);
  }

  lemma {:induction false} ResultsRecorded(log: seq<HarnessEvent>) returns (ks: seq<nat>)
    requires StatusesParse(log)
    ensures Recorded(log, LoggedResults(log), ks, Reports, ResultFrom)
    decreases |log|
  {
    hide Recorded, ParseToolStatus, SpelledStatus;
    if log == [] {
      ks := [];
      NothingRecorded(Reports, ResultFrom);
    } else {
      var init, e := log[..|log| - 1], log[|log| - 1];
      assert StatusesParse(init) by { assert forall n :: 0 <= n < |init| ==> init[n] == log[n]; }
      ks := ResultsRecorded(init);
      assert log == init + [e];
      if Reports(e) {
        AnswerRecorded(e);
        RecordedMore(init, e, LoggedResults(init), Answered(e)[0], ks, Reports, ResultFrom);
        assert LoggedResults(log) == LoggedResults(init) + [Answered(e)[0]];
        ks := ks + [|init|];
      } else {
        RecordedSame(init, e, LoggedResults(init), ks, Reports, ResultFrom);
        assert LoggedResults(log) == LoggedResults(init);
      }
    }
  }

  lemma {:induction false} VerificationsRecorded(log: seq<HarnessEvent>) returns (ks: seq<nat>)
    ensures Recorded(log, LoggedRecords(log), ks, Verifies, RecordFrom)
    decreases |log|
  {
    hide Recorded, ClaimOfLink;
    if log == [] {
      ks := [];
      NothingRecorded(Verifies, RecordFrom);
    } else {
      var init, e := log[..|log| - 1], log[|log| - 1];
      ks := VerificationsRecorded(init);
      assert log == init + [e];
      if Verifies(e) {
        var record := RecordOf(e, ClaimOfLink(init, e.payload.linkId))[0];
        RecordedMore(init, e, LoggedRecords(init), record, ks, Verifies, RecordFrom);
        assert LoggedRecords(log) == LoggedRecords(init) + [record];
        ks := ks + [|init|];
      } else {
        RecordedSame(init, e, LoggedRecords(init), ks, Verifies, RecordFrom);
        assert LoggedRecords(log) == LoggedRecords(init);
      }
    }
  }

  lemma {:induction false} LinksRecorded(log: seq<HarnessEvent>) returns (ks: seq<nat>)
    ensures Recorded(log, LoggedLinks(log), ks, Links, LinkFrom)
    decreases |log|
  {
    hide Recorded;
    if log == [] {
      ks := [];
      NothingRecorded(Links, LinkFrom);
    } else {
      var init, e := log[..|log| - 1], log[|log| - 1];
      ks := LinksRecorded(init);
      assert log == init + [e];
      if Links(e) {
        RecordedMore(init, e, LoggedLinks(init), LinkOf(e)[0], ks, Links, LinkFrom);
        assert LoggedLinks(log) == LoggedLinks(init) + [LinkOf(e)[0]];
        ks := ks + [|init|];
      } else {
        RecordedSame(init, e, LoggedLinks(init), ks, Links, LinkFrom);
        assert LoggedLinks(log) == LoggedLinks(init);
      }
    }
  }

  /** Verdict and time of a link are no part of LinkFrom. */
  lemma BareLinksRecorded(log: seq<HarnessEvent>, links: seq<EvidenceLink>, ks: seq<nat>)
    requires Recorded(log, BareLinks(links), ks, Links, LinkFrom)
    ensures Recorded(log, links, ks, Links, LinkFrom)
  {
    forall j | 0 <= j < |ks| ensures LinkFrom(log[ks[j]], links[j]) {
      assert LinkFrom(log[ks[j]], BareLinks(links)[j]);
    }
  }

  lemma {:induction false} TasksRecorded(made: seq<HarnessEvent>, log: seq<HarnessEvent>) returns (ks: seq<nat>)
    ensures Recorded(made, LoggedTasks(made, log), ks, Decomposes, TaskFrom)
    decreases |made|
  {
    hide Recorded, CompletedAt;
    if made == [] {
      ks := [];
      NothingRecorded(Decomposes, TaskFrom);
    } else {
      var init, e := made[..|made| - 1], made[|made| - 1];
      ks := TasksRecorded(init, log);
      assert made == init + [e];
      if Decomposes(e) {
        var task := TaskOf(e, CompletedAt(log, e.payload.taskId));
        RecordedMore(init, e, LoggedTasks(init, log), task, ks, Decomposes, TaskFrom);
        assert LoggedTasks(made, log) == LoggedTasks(init, log) + [task];
        ks := ks + [|init|];
      } else {
        RecordedSame(init, e, LoggedTasks(init, log), ks, Decomposes, TaskFrom);
        assert LoggedTasks(made, log) == LoggedTasks(init, log);
      }
    }
  }

  /** The texts that an accepted log reports are status texts. */
  lemma AcceptedStatusesParse(g: Snapshot, log: seq<HarnessEvent>, clock: Clock)
    requires Fold(g, log, clock).Success?
    ensures StatusesParse(log)
  {
    hide Fold, ReduceEvent, ParseToolStatus;
    forall n | 0 <= n < |log| && Reports(log[n]) ensures ParseToolStatus(log[n].payload.status).Some? {
      var s := EventContext(g, log, clock, n);
      ReduceTools(s, log[n], clock(log[n].header.sequence));
    }
  }

  // ----- curated items and completed tasks -----

  /** The events that curate an item which every later pruning retains. */
  ghost predicate Kept(log: seq<HarnessEvent>, k: nat)
    requires k < |log|
  {
    && log[k].payload.EvidenceCuratedPayload?
    && forall j :: k < j < |log| && log[j].payload.ContextPrunedPayload? ==>
         log[k].payload.curatedItemId in log[j].payload.retainedItemIds
  }

  ghost predicate CuratedAt(made: seq<HarnessEvent>, log: seq<HarnessEvent>, xs: seq<CuratedItem>, ks: seq<nat>)
    requires |made| <= |log|
  {
    && |xs| == |ks|
    && (forall i, j :: 0 <= i < j < |ks| ==> ks[i] < ks[j])
    && (forall j :: 0 <= j < |ks| ==> ks[j] < |made| && CuratedFrom(log[ks[j]], xs[j]))
    && forall k :: 0 <= k < |made| ==> (k in ks <==> Kept(log, k))
  }

  lemma CuratedNext(
    made: seq<HarnessEvent>, log: seq<HarnessEvent>, e: HarnessEvent, xs: seq<CuratedItem>, ks: seq<nat>, keep: bool)
    requires made + [e] <= log && CuratedAt(made, log, xs, ks)
    requires log[|made|] == e && (keep <==> Kept(log, |made|))
    ensures keep ==> CuratedAt(made + [e], log, xs + [CuratedOf(e)], ks + [|made|])
    ensures !keep ==> CuratedAt(made + [e], log, xs, ks)
  {
    hide Kept;
    forall k | k in ks ensures k < |made| {
      var j :| 0 <= j < |ks| && ks[j] == k;
    }
    assert keep ==> e.payload.EvidenceCuratedPayload? by { KeptCurates(log, |made|); }
  }

  lemma KeptCurates(log: seq<HarnessEvent>, k: nat)
    requires k < |log|
    ensures Kept(log, k) ==> log[k].payload.EvidenceCuratedPayload?
  {
  }

  lemma {:induction false} CuratedRecorded(made: seq<HarnessEvent>, log: seq<HarnessEvent>) returns (ks: seq<nat>)
    requires made <= log
    ensures CuratedAt(made, log, LoggedCurated(made, log), ks)
    decreases |made|
  {
    if made == [] {
      ks := [];
    } else {
      hide CuratedAt;
      var init, e := made[..|made| - 1], made[|made| - 1];
      ks := CuratedRecorded(init, log);
      assert made == init + [e] && log[|init|] == e;
      var keep := Kept(log, |init|);
      CuratedNext(init, log, e, LoggedCurated(init, log), ks, keep);
      assert keep <==> e.payload.EvidenceCuratedPayload? && RetainedFrom(log, |made|, e.payload.curatedItemId);
      if keep { ks := ks + [|init|]; }
    }
  }

  ghost predicate CompletesAt(log: seq<HarnessEvent>, n: int, id: string, at: Option<Time>) {
    && 0 <= n < |log| && log[n].payload.TaskCompletedPayload? && log[n].payload.taskId == id
    && at == Some(log[n].header.createdAt)
  }

  /** A task is done since the event that completed it, and pending if there is none. */
  ghost predicate TaskProgress(log: seq<HarnessEvent>, t: TaskNode) {
    || (t.status == TaskPending && t.completedAt == None
        && forall n :: 0 <= n < |log| && log[n].payload.TaskCompletedPayload? ==> log[n].payload.taskId != t.taskId)
    || (t.status == TaskDone && exists n :: CompletesAt(log, n, t.taskId, t.completedAt))
  }

  lemma {:induction false} CompletionIsLogged(log: seq<HarnessEvent>, id: string)
    ensures var at := CompletedAt(log, id);
      if at.Some? then exists n :: CompletesAt(log, n, id, at)
      else forall n :: 0 <= n < |log| && log[n].payload.TaskCompletedPayload? ==> log[n].payload.taskId != id
    decreases |log|
  {
    if log != [] {
      var init, e := log[..|log| - 1], log[|log| - 1];
      CompletionIsLogged(init, id);
      assert forall n :: 0 <= n < |init| ==> log[n] == init[n];
      if e.payload.TaskCompletedPayload? && e.payload.taskId == id {
        assert CompletesAt(log, |init|, id, CompletedAt(log, id));
      } else if CompletedAt(init, id).Some? {
        var n :| CompletesAt(init, n, id, CompletedAt(init, id));
        assert CompletesAt(log, n, id, CompletedAt(init, id));
      }
    }
  }

  lemma {:induction false} TasksProgress(made: seq<HarnessEvent>, log: seq<HarnessEvent>)
    ensures forall t :: t in LoggedTasks(made, log) ==> TaskProgress(log, t)
    decreases |made|
  {
    hide TaskProgress, CompletedAt;
    if made != [] {
      TasksProgress(made[..|made| - 1], log);
      var e := made[|made| - 1];
      if e.payload.TaskDecomposedPayload? {
        TaskOfProgress(e, log);
      }
    }
  }

  lemma TaskOfProgress(e: HarnessEvent, log: seq<HarnessEvent>)
    requires e.payload.TaskDecomposedPayload?
    ensures TaskProgress(log, TaskOf(e, CompletedAt(log, e.payload.taskId)))
  {
    hide CompletedAt;
    CompletionIsLogged(log, e.payload.taskId);
  }

  // ----- verdicts -----

  lemma {:induction false} LastRecordIs(records: seq<VerificationRecord>, id: string)
    ensures match LastRecord(records, id)
      case None => forall j :: 0 <= j < |records| ==> records[j].linkId != id
      case Some(r) => exists j :: 0 <= j < |records| && records[j] == r && records[j].linkId == id
                                  && forall i :: j < i < |records| ==> records[i].linkId != id
  {
    if records != [] {
      var n := |records| - 1;
      var init := records[..n];
      LastRecordIs(init, id);
      if records[n].linkId == id {
        assert records[n] == LastRecord(records, id).value;
      } else if LastRecord(init, id).Some? {
        var j :| 0 <= j < n && init[j] == LastRecord(init, id).value && init[j].linkId == id
                 && forall i :: j < i < n ==> init[i].linkId != id;
        assert records[j] == init[j];
        assert forall i :: j < i < n ==> records[i] == init[i];
      }
    }
  }

  ghost predicate VerifiesAt(log: seq<HarnessEvent>, n: int, id: string) {
    0 <= n < |log| && log[n].payload.EvidenceVerifiedPayload? && log[n].payload.linkId == id
  }

  /** The last verification of a link. */
  ghost predicate LastVerifiedAt(log: seq<HarnessEvent>, n: int, id: string) {
    VerifiesAt(log, n, id) && forall m :: n < m < |log| ==> !VerifiesAt(log, m, id)
  }

  ghost predicate LastSays(log: seq<HarnessEvent>, id: string, result: VerificationResult) {
    exists n :: LastVerifiedAt(log, n, id) && log[n].payload.result == result
  }

  /** What the last verification of a link said, constructor by constructor, and under which id. */
  ghost predicate Judged(log: seq<HarnessEvent>, link: EvidenceLink) {
    && (link.currentStatus == LinkVerified <==> LastSays(log, link.linkId, Confirmed))
    && (link.currentStatus == LinkRefuted <==> LastSays(log, link.linkId, Refuted))
    && (link.currentStatus == LinkInconclusive <==> LastSays(log, link.linkId, Inconclusive))
    && (link.currentStatus == LinkUnverified <==> forall n :: !VerifiesAt(log, n, link.linkId))
    && link.currentStatus != LinkStale
    && (link.verificationId.None? <==> forall n :: !VerifiesAt(log, n, link.linkId))
    && forall n :: LastVerifiedAt(log, n, link.linkId) ==>
         link.verificationId == Some(log[n].payload.verificationId)
  }

  lemma NoRecordNoVerification(log: seq<HarnessEvent>, records: seq<VerificationRecord>, ks: seq<nat>, id: string)
    requires Recorded(log, records, ks, Verifies, RecordFrom)
    requires forall j :: 0 <= j < |records| ==> records[j].linkId != id
    ensures forall n :: !VerifiesAt(log, n, id)
  {
    forall n ensures !VerifiesAt(log, n, id) {
      if VerifiesAt(log, n, id) {
        var j := RecordAt(log, records, ks, Verifies, RecordFrom, n);
      }
    }
  }

  lemma LastRecordLastVerification(
    log: seq<HarnessEvent>, records: seq<VerificationRecord>, ks: seq<nat>, id: string, j: nat)
    requires Recorded(log, records, ks, Verifies, RecordFrom)
    requires j < |records| && records[j].linkId == id && forall i :: j < i < |records| ==> records[i].linkId != id
    ensures LastVerifiedAt(log, ks[j], id)
    ensures log[ks[j]].payload.result == records[j].result && log[ks[j]].payload.verificationId == records[j].recordId
  {
    assert RecordFrom(log[ks[j]], records[j]);
    forall m | ks[j] < m < |log| ensures !VerifiesAt(log, m, id) {
      if VerifiesAt(log, m, id) {
        var i := RecordAt(log, records, ks, Verifies, RecordFrom, m);
      }
    }
  }

  lemma OneLastVerification(log: seq<HarnessEvent>, m: int, n: int, id: string)
    requires LastVerifiedAt(log, m, id) && LastVerifiedAt(log, n, id)
    ensures m == n
  {
  }

  lemma LinkIsJudged(log: seq<HarnessEvent>, records: seq<VerificationRecord>, ks: seq<nat>, link: EvidenceLink)
    requires Recorded(log, records, ks, Verifies, RecordFrom) && LinkMatches(link, LastRecord(records, link.linkId))
    ensures Judged(log, link)
  {
    hide Recorded, LastRecord, LastVerifiedAt;
    var id := link.linkId;
    LastRecordIs(records, id);
    if LastRecord(records, id).None? {
      NoRecordNoVerification(log, records, ks, id);
      forall n ensures !LastVerifiedAt(log, n, id) { LastVerifies(log, n, id); }
    } else {
      var j :| 0 <= j < |records| && records[j] == LastRecord(records, id).value && records[j].linkId == id
               && forall i :: j < i < |records| ==> records[i].linkId != id;
      assert j < |ks| by { RecordedLength(log, records, ks, Verifies, RecordFrom); }
      LastRecordLastVerification(log, records, ks, id, j);
      LastVerifies(log, ks[j], id);
      forall n | LastVerifiedAt(log, n, id) ensures n == ks[j] { OneLastVerification(log, n, ks[j], id); }
    }
  }

  lemma LastVerifies(log: seq<HarnessEvent>, n: int, id: string)
    ensures LastVerifiedAt(log, n, id) ==> VerifiesAt(log, n, id)
  {
  }

  /** In every reachable snapshot each link has the status that its last verification gave it. */
  lemma LinksAreJudged(g: Snapshot, log: seq<HarnessEvent>, clock: Clock)
    requires EmptyState(g) && Fold(g, log, clock).Success?
    ensures forall link :: link in Fold(g, log, clock).value.evidenceLinks ==> Judged(log, link)
  {
    hide Fold, LinkMatches, Judged, ItemsProjected, ClaimsProjected, CompletionsKnown, IdsUnique, ClaimsListTheirLinks,
      CuratedCiteCandidates, ReferencesResolve, EmptyState, Recorded;
    var s := Fold(g, log, clock).value;
    ReachableConsistent(g, log, clock);
    SnapshotIsProjection(g, log, clock);
    var ks := VerificationsRecorded(log);
    forall link | link in s.evidenceLinks ensures Judged(log, link) {
      LinkIsJudged(log, s.verificationRecords, ks, link);
    }
  }
}
