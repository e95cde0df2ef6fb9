/** What a replay at another time of day can change.

  Two handlers copy the wall clock into the state, and one event type compares a
  stored hash of the whole state. This module says exactly how far two replays of
  one log can differ, and exactly which logs every replay accepts.
 */
module ClockIndependence {
  import opened Results
  import opened Schema
  import opened Reducer
  import opened FoldFacts

  predicate ReadsClock(e: HarnessEvent) {
    e.payload.ClaimRevisedPayload? || e.payload.EvidenceLinkedPayload?
  }

  /** No snapshot_checkpointed event comes after an event whose handler reads the clock. */
  ghost predicate CheckpointSafe(log: seq<HarnessEvent>) {
    forall i, j :: 0 <= i < j < |log| && ReadsClock(log[i]) ==> !log[j].payload.SnapshotCheckpointedPayload?
  }

  ghost predicate ClockFree(log: seq<HarnessEvent>) {
    forall i :: 0 <= i < |log| ==> !ReadsClock(log[i])
  }

  /** The claims that some event of the log revises. */
  function RevisedIds(log: seq<HarnessEvent>): set<string> {
    set e | e in log && e.payload.ClaimRevisedPayload? :: e.payload.claimId
  }

  ghost predicate SameClaimUpToStamp(c: Claim, d: Claim, revised: set<string>) {
    && d == c.(createdAt := d.createdAt)
    && (c.claimId !in revised ==> d == c)
  }

  /** Equal but for created_at of evidence links and of the revised claims. */
  ghost predicate SameUpToStamps(s: Snapshot, t: Snapshot, revised: set<string>) {
    && t == s.(claims := t.claims, evidenceLinks := t.evidenceLinks)
    && |s.claims| == |t.claims|
    && |s.evidenceLinks| == |t.evidenceLinks|
    && (forall i :: 0 <= i < |s.claims| ==> SameClaimUpToStamp(s.claims[i], t.claims[i], revised))
    && (forall i :: 0 <= i < |s.evidenceLinks| ==>
          t.evidenceLinks[i] == s.evidenceLinks[i].(createdAt := t.evidenceLinks[i].createdAt))
  }

  /** Some stamp differs, so the state hashes differ. */
  ghost predicate Apart(s: Snapshot, t: Snapshot) {
    || (exists i :: 0 <= i < |s.claims| && i < |t.claims| && s.claims[i] != t.claims[i])
    || (exists i :: 0 <= i < |s.evidenceLinks| && i < |t.evidenceLinks| && s.evidenceLinks[i] != t.evidenceLinks[i])
  }

  function RevisedBy(e: HarnessEvent): set<string> {
    if e.payload.ClaimRevisedPayload? then {e.payload.claimId} else {}
  }

  /** Two outcomes of one event: the same refusal, or states that are equal up to stamps. */
  ghost predicate Agree(r: Reduced, q: Reduced, revised: set<string>) {
    match (r, q)
    case (Success(s), Success(t)) => SameUpToStamps(s, t, revised)
    case (Failure(a), Failure(b)) => a == b
    case _ => false
  }

  lemma SameIds(s: Snapshot, t: Snapshot, revised: set<string>)
    requires SameUpToStamps(s, t, revised)
    ensures ClaimIds(t.claims) == ClaimIds(s.claims)
    ensures LinkIds(t.evidenceLinks) == LinkIds(s.evidenceLinks)
  {
    forall i | 0 <= i < |s.claims| ensures t.claims[i].claimId == s.claims[i].claimId {
      assert SameClaimUpToStamp(s.claims[i], t.claims[i], revised);
    }
  }

  lemma LinkedAgree(s: Snapshot, t: Snapshot, e: HarnessEvent, n1: Time, n2: Time, revised: set<string>)
    requires SameUpToStamps(s, t, revised) && e.payload.EvidenceLinkedPayload?
    ensures Agree(HandleEvidenceLinked(s, e, n1), HandleEvidenceLinked(t, e, n2), revised)
  {
    SameIds(s, t, revised);
    var k := IndexById(ClaimIds(s.claims), e.payload.claimId);
    if k.Some? {
      assert SameClaimUpToStamp(s.claims[k.value], t.claims[k.value], revised);
    }
  }

  lemma RevisedAgree(s: Snapshot, t: Snapshot, e: HarnessEvent, n1: Time, n2: Time, revised: set<string>)
    requires SameUpToStamps(s, t, revised) && e.payload.ClaimRevisedPayload?
    ensures Agree(HandleClaimRevised(s, e, n1), HandleClaimRevised(t, e, n2), revised + {e.payload.claimId})
  {
    SameIds(s, t, revised);
    var k := IndexById(ClaimIds(s.claims), e.payload.claimId);
    if k.Some? {
      assert SameClaimUpToStamp(s.claims[k.value], t.claims[k.value], revised);
    }
  }

  lemma VerifiedAgree(s: Snapshot, t: Snapshot, e: HarnessEvent, revised: set<string>)
    requires SameUpToStamps(s, t, revised) && e.payload.EvidenceVerifiedPayload?
    ensures Agree(HandleEvidenceVerified(s, e), HandleEvidenceVerified(t, e), revised)
  {
    SameIds(s, t, revised);
  }

  lemma ClaimCreatedAgree(s: Snapshot, t: Snapshot, e: HarnessEvent, revised: set<string>)
    requires SameUpToStamps(s, t, revised) && e.payload.ClaimCreatedPayload?
    ensures Agree(HandleClaimCreated(s, e), HandleClaimCreated(t, e), revised)
  {
    SameIds(s, t, revised);
  }

  /** Neither claims, nor links, nor the state hash, nor the clock matter to these events. */
  predicate Oblivious(e: HarnessEvent) {
    && !ReadsClock(e)
    && !e.payload.EvidenceVerifiedPayload?
    && !e.payload.SnapshotCheckpointedPayload?
    && !e.payload.ClaimCreatedPayload?
  }

  function Swapped(s: Snapshot, claims: seq<Claim>, links: seq<EvidenceLink>): Snapshot {
    s.(claims := claims, evidenceLinks := links)
  }

  lemma ObliviousTools(s: Snapshot, e: HarnessEvent, claims: seq<Claim>, links: seq<EvidenceLink>)
    ensures e.payload.ToolInvokedPayload? ==>
              Commutes(HandleToolInvoked(s, e), HandleToolInvoked(Swapped(s, claims, links), e), s, claims, links)
    ensures e.payload.ToolResultReceivedPayload? ==>
              Commutes(HandleToolResultReceived(s, e), HandleToolResultReceived(Swapped(s, claims, links), e), s,
                  claims, links)
    ensures e.payload.SubmissionRecordedPayload? ==>
              Commutes(HandleSubmissionRecorded(s, e), HandleSubmissionRecorded(Swapped(s, claims, links), e), s,
                  claims, links)
  {
  }

  lemma ObliviousCuration(s: Snapshot, e: HarnessEvent, claims: seq<Claim>, links: seq<EvidenceLink>)
    ensures e.payload.EvidenceCuratedPayload? ==>
              Commutes(HandleEvidenceCurated(s, e), HandleEvidenceCurated(Swapped(s, claims, links), e), s, claims,
                  links)
    ensures e.payload.ContextPrunedPayload? ==>
              Commutes(HandleContextPruned(s, e), HandleContextPruned(Swapped(s, claims, links), e), s, claims, links)
    ensures e.payload.CandidateAddedPayload? ==>
              Commutes(HandleCandidateAdded(s, e), HandleCandidateAdded(Swapped(s, claims, links), e), s, claims, links)
  {
  }

  lemma ObliviousTasks(s: Snapshot, e: HarnessEvent, claims: seq<Claim>, links: seq<EvidenceLink>)
    ensures e.payload.TaskDecomposedPayload? ==>
              Commutes(HandleTaskDecomposed(s, e), HandleTaskDecomposed(Swapped(s, claims, links), e), s, claims, links)
    ensures e.payload.TaskCompletedPayload? ==>
              Commutes(HandleTaskCompleted(s, e), HandleTaskCompleted(Swapped(s, claims, links), e), s, claims, links)
  {
  }

  /** The same outcome, over the swapped claims and links. */
  ghost predicate Commutes(r: Reduced, q: Reduced, s: Snapshot, claims: seq<Claim>, links: seq<EvidenceLink>) {
    match (r, q)
    case (Success(a), Success(b)) =>
      a.claims == s.claims && a.evidenceLinks == s.evidenceLinks && b == a.(claims := claims, evidenceLinks := links)
    case (Failure(a), Failure(b)) => a == b
    case _ => false
  }

  lemma ObliviousCommutes(
    s: Snapshot, e: HarnessEvent, n1: Time, n2: Time, claims: seq<Claim>, links: seq<EvidenceLink>)
    requires Oblivious(e)
    ensures Commutes(Handle(s, e, n1), Handle(s.(claims := claims, evidenceLinks := links), e, n2), s, claims, links)
  {
    ObliviousTools(s, e, claims, links);
    ObliviousCuration(s, e, claims, links);
    ObliviousTasks(s, e, claims, links);
  }

  lemma ObliviousAgree(s: Snapshot, t: Snapshot, e: HarnessEvent, n1: Time, n2: Time, revised: set<string>)
    requires SameUpToStamps(s, t, revised) && Oblivious(e)
    ensures Agree(Handle(s, e, n1), Handle(t, e, n2), revised)
  {
    ObliviousCommutes(s, e, n1, n2, t.claims, t.evidenceLinks);
    assert t == s.(claims := t.claims, evidenceLinks := t.evidenceLinks);
    assert Commutes(Handle(s, e, n1), Handle(t, e, n2), s, t.claims, t.evidenceLinks);
  }

  lemma HandleAgree(s: Snapshot, t: Snapshot, e: HarnessEvent, n1: Time, n2: Time, revised: set<string>)
    requires SameUpToStamps(s, t, revised)
    requires !e.payload.SnapshotCheckpointedPayload?
    ensures Agree(Handle(s, e, n1), Handle(t, e, n2), revised + RevisedBy(e))
  {
    hide HandleToolInvoked, HandleToolResultReceived, HandleEvidenceCurated, HandleClaimRevised,
      HandleEvidenceVerified, HandleTaskDecomposed, HandleTaskCompleted, HandleContextPruned,
      HandleSubmissionRecorded, HandleSnapshotCheckpointed, HandleCandidateAdded, HandleClaimCreated,
      HandleEvidenceLinked, Agree, SameUpToStamps, Advanced;
    assert revised + {} == revised;
    if e.payload.EvidenceLinkedPayload? {
      LinkedAgree(s, t, e, n1, n2, revised);
    } else if e.payload.ClaimRevisedPayload? {
      RevisedAgree(s, t, e, n1, n2, revised);
    } else if e.payload.EvidenceVerifiedPayload? {
      VerifiedAgree(s, t, e, revised);
    } else if e.payload.ClaimCreatedPayload? {
      ClaimCreatedAgree(s, t, e, revised);
    } else {
      ObliviousAgree(s, t, e, n1, n2, revised);
    }
  }

  /** One event, read at two times, from states equal up to stamps. */
  lemma StepAgree(s: Snapshot, t: Snapshot, e: HarnessEvent, n1: Time, n2: Time, revised: set<string>)
    requires SameUpToStamps(s, t, revised)
    requires e.payload.SnapshotCheckpointedPayload? ==> s == t
    ensures Agree(ReduceEvent(s, e, n1), ReduceEvent(t, e, n2), revised + RevisedBy(e))
  {
    hide HandleToolInvoked, HandleToolResultReceived, HandleEvidenceCurated, HandleClaimRevised,
      HandleEvidenceVerified, HandleTaskDecomposed, HandleTaskCompleted, HandleContextPruned,
      HandleSubmissionRecorded, HandleSnapshotCheckpointed, HandleCandidateAdded, HandleClaimCreated,
      HandleEvidenceLinked, Advanced;
    assert ValidateEnvelope(s, e) == ValidateEnvelope(t, e);
    if e.payload.SnapshotCheckpointedPayload? {
      assert Handle(s, e, n1) == Handle(t, e, n2);
    } else {
      HandleAgree(s, t, e, n1, n2, revised);
    }
  }

  lemma RevisedIdsSnoc(log: seq<HarnessEvent>)
    requires log != []
    ensures RevisedIds(log) == RevisedIds(log[..|log| - 1]) + RevisedBy(log[|log| - 1])
  {
    assert log == log[..|log| - 1] + [log[|log| - 1]];
  }

  /** Replays of a log without clock-reading events are identical. */
  lemma {:induction false} ClockFreeReplaysAreEqual(g: Snapshot, log: seq<HarnessEvent>, c1: Clock, c2: Clock)
    requires ClockFree(log)
    ensures Fold(g, log, c1) == Fold(g, log, c2)
    decreases |log|
  {
    hide ReduceEvent, ReadsClock;
    if log != [] {
      var init, e := log[..|log| - 1], log[|log| - 1];
      ClockFreeReplaysAreEqual(g, init, c1, c2);
      if Fold(g, init, c1).Success? {
        ClockFreeStep(Fold(g, init, c1).value, e, c1(e.header.sequence), c2(e.header.sequence));
      }
    }
  }

  lemma ClockFreeStep(s: Snapshot, e: HarnessEvent, n1: Time, n2: Time)
    requires !ReadsClock(e)
    ensures ReduceEvent(s, e, n1) == ReduceEvent(s, e, n2)
  {
    hide HandleToolInvoked, HandleToolResultReceived, HandleEvidenceCurated, HandleTaskDecomposed, HandleTaskCompleted,
      HandleContextPruned, HandleSubmissionRecorded, HandleSnapshotCheckpointed, HandleCandidateAdded,
      HandleClaimCreated, HandleEvidenceVerified, ValidateEnvelope;
  }

  /** Replays of a checkpoint-safe log accept the same prefix, refuse with the same error, and
    end in states that differ at most in created_at of evidence links and of revised claims. */
  lemma {:induction false} ReplaysAgree(g: Snapshot, log: seq<HarnessEvent>, c1: Clock, c2: Clock)
    requires CheckpointSafe(log)
    ensures Agree(Fold(g, log, c1), Fold(g, log, c2), RevisedIds(log))
    decreases |log|
  {
    if log != [] {
      var init, e := log[..|log| - 1], log[|log| - 1];
      ReplaysAgree(g, init, c1, c2);
      RevisedIdsSnoc(log);
      if Fold(g, init, c1).Success? {
        if e.payload.SnapshotCheckpointedPayload? {
          assert forall i :: 0 <= i < |init| ==> log[i] == init[i];
          ClockFreeReplaysAreEqual(g, init, c1, c2);
        }
        StepAgree(Fold(g, init, c1).value, Fold(g, init, c2).value, e,
                  c1(e.header.sequence), c2(e.header.sequence), RevisedIds(init));
      }
    }
  }

  /** One event that is accepted in both of two states that are equal up to stamps. */
  lemma AcceptedStepAgree(s: Snapshot, t: Snapshot, e: HarnessEvent, n1: Time, n2: Time, revised: set<string>)
    requires SameUpToStamps(s, t, revised)
    requires ReduceEvent(s, e, n1).Success? && ReduceEvent(t, e, n2).Success?
    ensures SameUpToStamps(ReduceEvent(s, e, n1).value, ReduceEvent(t, e, n2).value, revised + RevisedBy(e))
  {
    if e.payload.SnapshotCheckpointedPayload? {
      assert revised + {} == revised;
      hide ValidateEnvelope;
    } else {
      hide ReduceEvent, SameUpToStamps;
      StepAgree(s, t, e, n1, n2, revised);
    }
  }

  /** Any two replays that accept a log, checkpoint-safe or not, end in states that differ at most in
    created_at of evidence links and of revised claims. */
  lemma {:induction false} AcceptedReplaysAgree(g: Snapshot, log: seq<HarnessEvent>, c1: Clock, c2: Clock)
    requires Fold(g, log, c1).Success? && Fold(g, log, c2).Success?
    ensures SameUpToStamps(Fold(g, log, c1).value, Fold(g, log, c2).value, RevisedIds(log))
    decreases |log|
  {
    if log != [] {
      hide ReduceEvent, SameUpToStamps, RevisedIds, RevisedBy;
      var init, e := log[..|log| - 1], log[|log| - 1];
      AcceptedReplaysAgree(g, init, c1, c2);
      RevisedIdsSnoc(log);
      AcceptedStepAgree(Fold(g, init, c1).value, Fold(g, init, c2).value, e,
                        c1(e.header.sequence), c2(e.header.sequence), RevisedIds(init));
    }
  }

  /** A clock-reading event stamps with the readings. */
  lemma ReadingSetsApart(s: Snapshot, t: Snapshot, e: HarnessEvent, n1: Time, n2: Time, revised: set<string>)
    requires SameUpToStamps(s, t, revised) && n1 != n2 && ReadsClock(e)
    requires ReduceEvent(s, e, n1).Success? && ReduceEvent(t, e, n2).Success?
    ensures Apart(ReduceEvent(s, e, n1).value, ReduceEvent(t, e, n2).value)
  {
    hide HandleToolInvoked, HandleToolResultReceived, HandleEvidenceCurated, HandleEvidenceVerified,
      HandleTaskDecomposed, HandleTaskCompleted, HandleContextPruned, HandleSubmissionRecorded,
      HandleSnapshotCheckpointed, HandleCandidateAdded, HandleClaimCreated, Advanced, ValidateEnvelope;
    SameIds(s, t, revised);
    var s', t' := ReduceEvent(s, e, n1).value, ReduceEvent(t, e, n2).value;
    if e.payload.EvidenceLinkedPayload? {
      var n := |s.evidenceLinks|;
      assert s'.evidenceLinks[n] != t'.evidenceLinks[n];
    } else {
      var k := IndexById(ClaimIds(s.claims), e.payload.claimId).value;
      assert s'.claims[k] != t'.claims[k];
    }
  }

  /** Once two stamps differ, they stay different as long as the readings do. */
  lemma StepStaysApart(s: Snapshot, t: Snapshot, e: HarnessEvent, n1: Time, n2: Time, revised: set<string>)
    requires SameUpToStamps(s, t, revised) && n1 != n2
    requires Apart(s, t) || ReadsClock(e)
    requires ReduceEvent(s, e, n1).Success? && ReduceEvent(t, e, n2).Success?
    ensures Apart(ReduceEvent(s, e, n1).value, ReduceEvent(t, e, n2).value)
  {
    hide ReduceEvent;
    if ReadsClock(e) {
      ReadingSetsApart(s, t, e, n1, n2, revised);
    } else if exists i :: 0 <= i < |s.claims| && i < |t.claims| && s.claims[i] != t.claims[i] {
      var i :| 0 <= i < |s.claims| && i < |t.claims| && s.claims[i] != t.claims[i];
      KeepsClaims(s, e, n1, i);
      KeepsClaims(t, e, n2, i);
    } else {
      var i :| 0 <= i < |s.evidenceLinks| && i < |t.evidenceLinks| && s.evidenceLinks[i] != t.evidenceLinks[i];
      KeepsLinkStamps(s, e, n1, i);
      KeepsLinkStamps(t, e, n2, i);
      assert s.evidenceLinks[i].createdAt != t.evidenceLinks[i].createdAt;
    }
  }

  lemma KeepsClaims(s: Snapshot, e: HarnessEvent, now: Time, i: nat)
    requires i < |s.claims| && !ReadsClock(e) && ReduceEvent(s, e, now).Success?
    ensures var s' := ReduceEvent(s, e, now).value; i < |s'.claims| && s'.claims[i] == s.claims[i]
  {
  }

  lemma KeepsLinkStamps(s: Snapshot, e: HarnessEvent, now: Time, i: nat)
    requires i < |s.evidenceLinks| && !ReadsClock(e) && ReduceEvent(s, e, now).Success?
    ensures var s' := ReduceEvent(s, e, now).value;
      i < |s'.evidenceLinks| && s'.evidenceLinks[i].createdAt == s.evidenceLinks[i].createdAt
  {
  }

  lemma ApartHashesDiffer(s: Snapshot, t: Snapshot)
    requires Apart(s, t)
    ensures ComputeStateHash(s) != ComputeStateHash(t)
  {
    assert s.(createdAt := 0).claims == s.claims && t.(createdAt := 0).claims == t.claims;
    assert s.(createdAt := 0).evidenceLinks == s.evidenceLinks && t.(createdAt := 0).evidenceLinks == t.evidenceLinks;
  }

  /** A checkpoint event names one state hash, so states that are apart cannot both pass it. */
  lemma CheckpointNeedsOneState(s: Snapshot, t: Snapshot, e: HarnessEvent, n1: Time, n2: Time)
    requires Apart(s, t)
    requires ReduceEvent(s, e, n1).Success? && ReduceEvent(t, e, n2).Success?
    ensures !e.payload.SnapshotCheckpointedPayload?
  {
    ApartHashesDiffer(s, t);
  }

  ghost predicate SomeClockRead(log: seq<HarnessEvent>) {
    exists i :: 0 <= i < |log| && ReadsClock(log[i])
  }

  /** The step of the argument below: one more event keeps the log safe and the states apart. */
  lemma UnsafeStep(init: seq<HarnessEvent>, e: HarnessEvent, s: Snapshot, t: Snapshot, n1: Time, n2: Time)
    requires n1 != n2 && CheckpointSafe(init)
    requires SameUpToStamps(s, t, RevisedIds(init))
    requires SomeClockRead(init) ==> Apart(s, t)
    requires ReduceEvent(s, e, n1).Success? && ReduceEvent(t, e, n2).Success?
    ensures CheckpointSafe(init + [e])
    ensures SomeClockRead(init + [e]) ==> Apart(ReduceEvent(s, e, n1).value, ReduceEvent(t, e, n2).value)
  {
    hide ReduceEvent, Apart, SameUpToStamps;
    if SomeClockRead(init) {
      CheckpointNeedsOneState(s, t, e, n1, n2);
    }
    if SomeClockRead(init + [e]) {
      var i :| 0 <= i < |init + [e]| && ReadsClock((init + [e])[i]);
      assert i < |init| ==> ReadsClock(init[i]);
      StepStaysApart(s, t, e, n1, n2, RevisedIds(init));
    }
  }

  /** Two replays whose readings always differ cannot both accept an unsafe log. */
  lemma {:induction false} UnsafeLogSplitsReplays(g: Snapshot, log: seq<HarnessEvent>, c1: Clock, c2: Clock)
    requires forall k :: c1(k) != c2(k)
    requires Fold(g, log, c1).Success? && Fold(g, log, c2).Success?
    ensures CheckpointSafe(log)
    ensures SomeClockRead(log) ==> Apart(Fold(g, log, c1).value, Fold(g, log, c2).value)
    decreases |log|
  {
    if log != [] {
      var init, e := log[..|log| - 1], log[|log| - 1];
      assert log == init + [e];
      UnsafeLogSplitsReplays(g, init, c1, c2);
      ReplaysAgree(g, init, c1, c2);
      UnsafeStep(init, e, Fold(g, init, c1).value, Fold(g, init, c2).value,
                 c1(e.header.sequence), c2(e.header.sequence));
    }
  }

  ghost predicate AcceptedByEveryReplay(g: Snapshot, log: seq<HarnessEvent>) {
    forall c: Clock :: Fold(g, log, c).Success?
  }

  /** A log that was accepted once from a snapshot is accepted from it under every clock exactly when it is
    checkpoint-safe. */
  lemma AlwaysReplayableIff(g: Snapshot, log: seq<HarnessEvent>, clock: Clock)
    requires Fold(g, log, clock).Success?
    ensures AcceptedByEveryReplay(g, log) <==> CheckpointSafe(log)
  {
    if CheckpointSafe(log) {
      forall c: Clock ensures Fold(g, log, c).Success? { ReplaysAgree(g, log, clock, c); }
    }
    if AcceptedByEveryReplay(g, log) {
      LaterReplayAccepts(g, log, clock);
    }
  }

  lemma LaterReplayAccepts(g: Snapshot, log: seq<HarnessEvent>, clock: Clock)
    requires Fold(g, log, clock).Success? && AcceptedByEveryReplay(g, log)
    ensures CheckpointSafe(log)
  {
    var later: Clock := k => clock(k) + 1;
    UnsafeLogSplitsReplays(g, log, clock, later);
  }
}
