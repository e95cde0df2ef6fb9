/** Claims and links against the log: what the latest event said, under whose name, and when. The clock enters
  here: a revision and a new link are stamped with its reading, everything else with the time of the event.
 */
module LogClaims {
  import opened Results
  import opened Schema
  import opened Reducer
  import opened FoldFacts
  import opened Consistency
  import opened Projection
  import ToolHistory
  import opened LogRecords
  import opened Subsequences

  // ----- one claim -----

  predicate Touches(e: HarnessEvent, id: string) {
    && (e.payload.ClaimCreatedPayload? || e.payload.ClaimRevisedPayload?)
    && e.payload.claimId == id
  }

  ghost predicate CreatedAs(log: seq<HarnessEvent>, c: Claim, n: int) {
    && 0 <= n < |log| && log[n].payload.ClaimCreatedPayload? && log[n].payload.claimId == c.claimId
    && c.trajectoryId == log[n].header.trajectoryId
  }

  /** The last event about the claim names its origin and its time. */
  ghost predicate StampedAt(log: seq<HarnessEvent>, clock: Clock, c: Claim, n: int) {
    && 0 <= n < |log| && Touches(log[n], c.claimId)
    && (forall m :: n < m < |log| ==> !Touches(log[m], c.claimId))
    && Names(c.provenance, log[n])
    && c.createdAt == if log[n].payload.ClaimCreatedPayload? then log[n].header.createdAt
                      else clock(log[n].header.sequence)
  }

  /** The last event that says something about the content says this. */
  ghost predicate ContentAt(log: seq<HarnessEvent>, c: Claim, n: int) {
    && 0 <= n < |log| && Touches(log[n], c.claimId)
    && (if log[n].payload.ClaimCreatedPayload? then log[n].payload.content == c.content
        else log[n].payload.newContent == Some(c.content))
    && forall m :: n < m < |log| && Touches(log[m], c.claimId) ==>
         log[m].payload.ClaimRevisedPayload? && log[m].payload.newContent.None?
  }

  /** The last event that says something about the status says this; a new claim is stated. */
  ghost predicate StatusAt(log: seq<HarnessEvent>, c: Claim, n: int) {
    && 0 <= n < |log| && Touches(log[n], c.claimId)
    && (if log[n].payload.ClaimCreatedPayload? then c.status == ClaimStated
        else log[n].payload.newStatus == Some(c.status))
    && forall m :: n < m < |log| && Touches(log[m], c.claimId) ==>
         log[m].payload.ClaimRevisedPayload? && log[m].payload.newStatus.None?
  }

  ghost predicate ClaimFollows(log: seq<HarnessEvent>, clock: Clock, c: Claim) {
    && (exists n :: CreatedAs(log, c, n))
    && (exists n :: StampedAt(log, clock, c, n))
    && (exists n :: ContentAt(log, c, n))
    && (exists n :: StatusAt(log, c, n))
  }

  /** An event that does not concern the claim. */
  lemma ClaimUntouched(log: seq<HarnessEvent>, clock: Clock, e: HarnessEvent, c: Claim, d: Claim)
    requires ClaimFollows(log, clock, c) && !Touches(e, c.claimId)
    requires d.claimId == c.claimId && d.trajectoryId == c.trajectoryId && d.content == c.content
      && d.status == c.status && d.createdAt == c.createdAt && d.provenance == c.provenance
    ensures ClaimFollows(log + [e], clock, d)
  {
    var n :| CreatedAs(log, c, n);
    assert CreatedAs(log + [e], d, n);
    n :| StampedAt(log, clock, c, n);
    assert StampedAt(log + [e], clock, d, n);
    n :| ContentAt(log, c, n);
    assert ContentAt(log + [e], d, n);
    n :| StatusAt(log, c, n);
    assert StatusAt(log + [e], d, n);
  }

  lemma ClaimRevisedFollows(log: seq<HarnessEvent>, clock: Clock, e: HarnessEvent, c: Claim, d: Claim)
    requires ClaimFollows(log, clock, c) && e.payload.ClaimRevisedPayload? && e.payload.claimId == c.claimId
    requires d.claimId == c.claimId && d.trajectoryId == c.trajectoryId
    requires d.content == if e.payload.newContent.Some? then e.payload.newContent.value else c.content
    requires d.status == if e.payload.newStatus.Some? then e.payload.newStatus.value else c.status
    requires d.createdAt == clock(e.header.sequence) && Names(d.provenance, e)
    ensures ClaimFollows(log + [e], clock, d)
  {
    var n :| CreatedAs(log, c, n);
    assert CreatedAs(log + [e], d, n);
    assert StampedAt(log + [e], clock, d, |log|);
    if e.payload.newContent.Some? {
      assert ContentAt(log + [e], d, |log|);
    } else {
      n :| ContentAt(log, c, n);
      assert ContentAt(log + [e], d, n);
    }
    if e.payload.newStatus.Some? {
      assert StatusAt(log + [e], d, |log|);
    } else {
      n :| StatusAt(log, c, n);
      assert StatusAt(log + [e], d, n);
    }
  }

  lemma ClaimCreatedFollows(log: seq<HarnessEvent>, clock: Clock, e: HarnessEvent, d: Claim)
    requires e.payload.ClaimCreatedPayload? && d.claimId == e.payload.claimId
    requires d.trajectoryId == e.header.trajectoryId && d.content == e.payload.content && d.status == ClaimStated
      && d.createdAt == e.header.createdAt && Names(d.provenance, e)
    ensures ClaimFollows(log + [e], clock, d)
  {
    assert CreatedAs(log + [e], d, |log|);
    assert StampedAt(log + [e], clock, d, |log|);
    assert ContentAt(log + [e], d, |log|);
    assert StatusAt(log + [e], d, |log|);
  }

  // ----- one link -----

  /** A link is stamped with the reading of the clock; a verification leaves the stamp alone. */
  ghost predicate LinkStamped(log: seq<HarnessEvent>, clock: Clock, link: EvidenceLink) {
    exists n :: 0 <= n < |log| && log[n].payload.EvidenceLinkedPayload? && log[n].payload.linkId == link.linkId
                && link.createdAt == clock(log[n].header.sequence)
  }

  lemma LinkStampKept(log: seq<HarnessEvent>, clock: Clock, e: HarnessEvent, link: EvidenceLink)
    requires LinkStamped(log, clock, link)
    ensures LinkStamped(log + [e], clock, link)
  {
    var n :| 0 <= n < |log| && log[n].payload.EvidenceLinkedPayload? && log[n].payload.linkId == link.linkId
             && link.createdAt == clock(log[n].header.sequence);
    assert (log + [e])[n] == log[n];
  }

  lemma LinkStampNew(log: seq<HarnessEvent>, clock: Clock, e: HarnessEvent, link: EvidenceLink)
    requires e.payload.EvidenceLinkedPayload? && e.payload.linkId == link.linkId
    requires link.createdAt == clock(e.header.sequence)
    ensures LinkStamped(log + [e], clock, link)
  {
    assert (log + [e])[|log|] == e;
  }

  // ----- all of them -----

  ghost predicate ClaimsFollow(s: Snapshot, log: seq<HarnessEvent>, clock: Clock) {
    forall i :: 0 <= i < |s.claims| ==> ClaimFollows(log, clock, s.claims[i])
  }

  ghost predicate LinksStamped(s: Snapshot, log: seq<HarnessEvent>, clock: Clock) {
    forall i :: 0 <= i < |s.evidenceLinks| ==> LinkStamped(log, clock, s.evidenceLinks[i])
  }

  /** A record names the claim of its link. */
  ghost predicate RecordsNameClaims(s: Snapshot) {
    forall j :: 0 <= j < |s.verificationRecords| ==> NamesClaim(s.evidenceLinks, s.verificationRecords[j])
  }

  ghost predicate NamesClaim(links: seq<EvidenceLink>, r: VerificationRecord) {
    exists i :: 0 <= i < |links| && links[i].linkId == r.linkId && links[i].claimId == r.claimId
  }

  lemma CreatedClaims(s: Snapshot, e: HarnessEvent, log: seq<HarnessEvent>, clock: Clock)
    requires e.payload.ClaimCreatedPayload? && HandleClaimCreated(s, e).Success? && ClaimsFollow(s, log, clock)
    ensures ClaimsFollow(HandleClaimCreated(s, e).value, log + [e], clock)
  {
    hide ClaimFollows;
    var r := HandleClaimCreated(s, e).value;
    forall i | 0 <= i < |r.claims| ensures ClaimFollows(log + [e], clock, r.claims[i]) {
      if i < |s.claims| {
        assert ClaimIds(s.claims)[i] != e.payload.claimId;
        ClaimUntouched(log, clock, e, s.claims[i], r.claims[i]);
      } else {
        ClaimCreatedFollows(log, clock, e, r.claims[i]);
      }
    }
  }

  lemma RevisedClaims(s: Snapshot, e: HarnessEvent, log: seq<HarnessEvent>, clock: Clock)
    requires e.payload.ClaimRevisedPayload? && ClaimsFollow(s, log, clock) && Distinct(ClaimIds(s.claims))
    requires HandleClaimRevised(s, e, clock(e.header.sequence)).Success?
    ensures ClaimsFollow(HandleClaimRevised(s, e, clock(e.header.sequence)).value, log + [e], clock)
  {
    hide ClaimFollows;
    var r := HandleClaimRevised(s, e, clock(e.header.sequence)).value;
    var k := IndexById(ClaimIds(s.claims), e.payload.claimId).value;
    forall i | 0 <= i < |r.claims| ensures ClaimFollows(log + [e], clock, r.claims[i]) {
      if i == k {
        ClaimRevisedFollows(log, clock, e, s.claims[i], r.claims[i]);
      } else {
        assert ClaimIds(s.claims)[i] != ClaimIds(s.claims)[k];
        ClaimUntouched(log, clock, e, s.claims[i], r.claims[i]);
      }
    }
  }

  lemma OtherClaims(s: Snapshot, r: Snapshot, e: HarnessEvent, log: seq<HarnessEvent>, clock: Clock)
    requires !e.payload.ClaimCreatedPayload? && !e.payload.ClaimRevisedPayload? && ClaimsFollow(s, log, clock)
    requires |r.claims| == |s.claims|
    requires forall i :: 0 <= i < |s.claims| ==>
        r.claims[i].(evidenceLinkIds := []) == s.claims[i].(evidenceLinkIds := [])
    ensures ClaimsFollow(r, log + [e], clock)
  {
    hide ClaimFollows;
    forall i | 0 <= i < |r.claims| ensures ClaimFollows(log + [e], clock, r.claims[i]) {
      var c, d := s.claims[i].(evidenceLinkIds := []), r.claims[i].(evidenceLinkIds := []);
      assert d.claimId == c.claimId && d.trajectoryId == c.trajectoryId && d.content == c.content
          && d.status == c.status && d.createdAt == c.createdAt && d.provenance == c.provenance;
      ClaimUntouched(log, clock, e, s.claims[i], r.claims[i]);
    }
  }

  lemma ClaimsFollowStep(s: Snapshot, e: HarnessEvent, log: seq<HarnessEvent>, clock: Clock)
    requires Handle(s, e, clock(e.header.sequence)).Success?
    requires ClaimsFollow(s, log, clock) && Distinct(ClaimIds(s.claims))
    ensures ClaimsFollow(Handle(s, e, clock(e.header.sequence)).value, log + [e], clock)
  {
    hide ClaimsFollow, HandleClaimCreated, HandleClaimRevised, HandleEvidenceLinked, Distinct, Advanced, ClaimIds,
      LinkIds, HandleToolInvoked, HandleToolResultReceived, HandleEvidenceCurated, HandleTaskDecomposed,
      HandleTaskCompleted, HandleContextPruned, HandleSubmissionRecorded, HandleSnapshotCheckpointed,
      HandleCandidateAdded, IndexById;
    var now := clock(e.header.sequence);
    if e.payload.ClaimCreatedPayload? {
      CreatedClaims(s, e, log, clock);
    } else if e.payload.ClaimRevisedPayload? {
      RevisedClaims(s, e, log, clock);
    } else {
      if e.payload.EvidenceLinkedPayload? {
        LinkedKeepsClaims(s, e, now);
      } else if OnItems(e) || e.payload.TaskDecomposedPayload? || e.payload.TaskCompletedPayload? {
        ItemEventKeepsClaims(s, e, now);
      } else if !OnClaims(e) {
        OtherEventKeepsAll(s, e, now);
      }
      OtherClaims(s, Handle(s, e, now).value, e, log, clock);
    }
  }

  lemma LinkedLinks(s: Snapshot, e: HarnessEvent, log: seq<HarnessEvent>, clock: Clock)
    requires e.payload.EvidenceLinkedPayload? && LinksStamped(s, log, clock) && RecordsNameClaims(s)
    requires HandleEvidenceLinked(s, e, clock(e.header.sequence)).Success?
    ensures var r := HandleEvidenceLinked(s, e, clock(e.header.sequence)).value;
      LinksStamped(r, log + [e], clock) && RecordsNameClaims(r)
  {
    hide LinkStamped, IndexById, NamesClaim, Advanced;
    var r := HandleEvidenceLinked(s, e, clock(e.header.sequence)).value;
    var n := |s.evidenceLinks|;
    forall i | 0 <= i < |r.evidenceLinks| ensures LinkStamped(log + [e], clock, r.evidenceLinks[i]) {
      if i < n { LinkStampKept(log, clock, e, s.evidenceLinks[i]); }
      else { LinkStampNew(log, clock, e, r.evidenceLinks[i]); }
    }
    assert r.verificationRecords == s.verificationRecords && r.evidenceLinks == s.evidenceLinks + [r.evidenceLinks[n]];
    forall j | 0 <= j < |r.verificationRecords| ensures NamesClaim(r.evidenceLinks, r.verificationRecords[j]) {
      NamesClaimKept(s.evidenceLinks, r.evidenceLinks[n], s.verificationRecords[j]);
    }
  }

  lemma NamesClaimKept(links: seq<EvidenceLink>, link: EvidenceLink, record: VerificationRecord)
    requires NamesClaim(links, record)
    ensures NamesClaim(links + [link], record)
  {
    var i :| 0 <= i < |links| && links[i].linkId == record.linkId && links[i].claimId == record.claimId;
    assert (links + [link])[i] == links[i];
  }

  lemma VerifiedLinks(s: Snapshot, e: HarnessEvent, log: seq<HarnessEvent>, clock: Clock)
    requires e.payload.EvidenceVerifiedPayload? && LinksStamped(s, log, clock) && RecordsNameClaims(s)
    requires HandleEvidenceVerified(s, e).Success?
    ensures var r := HandleEvidenceVerified(s, e).value;
      LinksStamped(r, log + [e], clock) && RecordsNameClaims(r)
  {
    hide LinkStamped, StatusFromResult;
    var r := HandleEvidenceVerified(s, e).value;
    var k := IndexById(LinkIds(s.evidenceLinks), e.payload.linkId).value;
    assert forall i :: 0 <= i < |s.evidenceLinks| ==>
        && r.evidenceLinks[i].linkId == s.evidenceLinks[i].linkId
        && r.evidenceLinks[i].claimId == s.evidenceLinks[i].claimId
        && r.evidenceLinks[i].createdAt == s.evidenceLinks[i].createdAt;
    forall i | 0 <= i < |r.evidenceLinks| ensures LinkStamped(log + [e], clock, r.evidenceLinks[i]) {
      LinkStampKept(log, clock, e, s.evidenceLinks[i]);
      SameStamp(log + [e], clock, s.evidenceLinks[i], r.evidenceLinks[i]);
    }
    forall j | 0 <= j < |r.verificationRecords| ensures NamesClaim(r.evidenceLinks, r.verificationRecords[j]) {
      if j < |s.verificationRecords| {
        assert NamesClaim(s.evidenceLinks, s.verificationRecords[j]);
        var i :| 0 <= i < |s.evidenceLinks| && s.evidenceLinks[i].linkId == s.verificationRecords[j].linkId
                 && s.evidenceLinks[i].claimId == s.verificationRecords[j].claimId;
        assert r.evidenceLinks[i].linkId == r.verificationRecords[j].linkId;
      } else {
        assert r.evidenceLinks[k].linkId == r.verificationRecords[j].linkId;
      }
    }
  }

  lemma SameStamp(log: seq<HarnessEvent>, clock: Clock, a: EvidenceLink, b: EvidenceLink)
    requires LinkStamped(log, clock, a) && a.linkId == b.linkId && a.createdAt == b.createdAt
    ensures LinkStamped(log, clock, b)
  {
  }

  lemma OtherLinks(s: Snapshot, r: Snapshot, e: HarnessEvent, log: seq<HarnessEvent>, clock: Clock)
    requires LinksStamped(s, log, clock) && RecordsNameClaims(s)
    requires r.evidenceLinks == s.evidenceLinks && r.verificationRecords == s.verificationRecords
    ensures LinksStamped(r, log + [e], clock) && RecordsNameClaims(r)
  {
    hide LinkStamped;
    forall i | 0 <= i < |r.evidenceLinks| ensures LinkStamped(log + [e], clock, r.evidenceLinks[i]) {
      LinkStampKept(log, clock, e, s.evidenceLinks[i]);
    }
  }

  lemma LinksStampedStep(s: Snapshot, e: HarnessEvent, log: seq<HarnessEvent>, clock: Clock)
    requires Handle(s, e, clock(e.header.sequence)).Success? && LinksStamped(s, log, clock) && RecordsNameClaims(s)
    ensures var r := Handle(s, e, clock(e.header.sequence)).value;
      LinksStamped(r, log + [e], clock) && RecordsNameClaims(r)
  {
    hide LinksStamped, RecordsNameClaims, HandleClaimCreated, HandleClaimRevised, HandleEvidenceLinked,
      HandleEvidenceVerified, Advanced, HandleToolInvoked, HandleToolResultReceived, HandleEvidenceCurated,
      HandleTaskDecomposed, HandleTaskCompleted, HandleContextPruned, HandleSubmissionRecorded,
      HandleSnapshotCheckpointed, HandleCandidateAdded;
    var now := clock(e.header.sequence);
    if e.payload.EvidenceLinkedPayload? {
      LinkedLinks(s, e, log, clock);
    } else if e.payload.EvidenceVerifiedPayload? {
      VerifiedLinks(s, e, log, clock);
    } else {
      if OnItems(e) || e.payload.TaskDecomposedPayload? || e.payload.TaskCompletedPayload? {
        ItemEventKeepsClaims(s, e, now);
      } else if OnClaims(e) {
        ClaimEventKeepsLinks(s, e, now);
      } else {
        OtherEventKeepsAll(s, e, now);
      }
      OtherLinks(s, Handle(s, e, now).value, e, log, clock);
    }
  }

  /** In every reachable snapshot a claim says what the latest events about it say, under the name of the last
    one, at its time or at the reading of the clock; links are stamped by the clock; records name the claim of
    their link. */
  lemma {:induction false} ClaimsFollowLog(g: Snapshot, log: seq<HarnessEvent>, clock: Clock)
    requires EmptyState(g) && Fold(g, log, clock).Success?
    ensures var s := Fold(g, log, clock).value;
      ClaimsFollow(s, log, clock) && LinksStamped(s, log, clock) && RecordsNameClaims(s)
    decreases |log|
  {
    hide Handle, ClaimFollows, LinkStamped, NamesClaim, ClaimsListTheirLinks, LinksFollowRecords,
      CuratedCiteCandidates, ReferencesResolve;
    if log != [] {
      var init, e := log[..|log| - 1], log[|log| - 1];
      ClaimsFollowLog(g, init, clock);
      ReachableConsistent(g, init, clock);
      var s := Fold(g, init, clock).value;
      ClaimsFollowStep(s, e, init, clock);
      LinksStampedStep(s, e, init, clock);
      assert log == init + [e];
    }
  }

  // ----- order of claims, their lists of links, and the epoch -----

  predicate CreatesClaim(e: HarnessEvent) { e.payload.ClaimCreatedPayload? }

  predicate IdFrom(e: HarnessEvent, id: string) {
    e.payload.ClaimCreatedPayload? && e.payload.claimId == id
  }

  lemma {:induction false} ClaimIdsRecorded(log: seq<HarnessEvent>) returns (ks: seq<nat>)
    ensures Recorded(log, CreatedClaimIds(log), ks, CreatesClaim, IdFrom)
    decreases |log|
  {
    hide Recorded;
    if log == [] {
      ks := [];
      NothingRecorded(CreatesClaim, IdFrom);
    } else {
      var init, e := log[..|log| - 1], log[|log| - 1];
      ks := ClaimIdsRecorded(init);
      assert log == init + [e];
      if CreatesClaim(e) {
        RecordedMore(init, e, CreatedClaimIds(init), e.payload.claimId, ks, CreatesClaim, IdFrom);
        assert CreatedClaimIds(log) == CreatedClaimIds(init) + [e.payload.claimId];
        ks := ks + [|init|];
      } else {
        RecordedSame(init, e, CreatedClaimIds(init), ks, CreatesClaim, IdFrom);
        assert CreatedClaimIds(log) == CreatedClaimIds(init);
      }
    }
  }

  /** The ids of exactly the links that name the claim, in order. */
  ghost predicate NamingAt(links: seq<EvidenceLink>, claimId: string, ks: seq<nat>, ids: seq<string>) {
    && PickedAt(LinkIds(links), ks, ids)
    && forall k :: 0 <= k < |links| ==> (k in ks <==> links[k].claimId == claimId)
  }

  ghost predicate ListsItsLinks(links: seq<EvidenceLink>, c: Claim) {
    exists ks :: NamingAt(links, c.claimId, ks, c.evidenceLinkIds)
  }

  lemma NamingStep(links: seq<EvidenceLink>, link: EvidenceLink, claimId: string, ks: seq<nat>, ids: seq<string>)
    requires NamingAt(links, claimId, ks, ids)
    ensures link.claimId == claimId ==> NamingAt(links + [link], claimId, ks + [|links|], ids + [link.linkId])
    ensures link.claimId != claimId ==> NamingAt(links + [link], claimId, ks, ids)
  {
    hide PickedAt;
    PickNext(LinkIds(links), ks, ids, link.linkId, link.claimId == claimId);
    assert LinkIds(links + [link]) == LinkIds(links) + [link.linkId];
  }

  lemma {:induction false} LinksNamingExact(links: seq<EvidenceLink>, claimId: string) returns (ks: seq<nat>)
    ensures NamingAt(links, claimId, ks, LinksNaming(links, claimId))
    decreases |links|
  {
    if links == [] {
      ks := [];
    } else {
      hide NamingAt;
      var init, link := links[..|links| - 1], links[|links| - 1];
      ks := LinksNamingExact(init, claimId);
      NamingStep(init, link, claimId, ks, LinksNaming(init, claimId));
      assert links == init + [link];
      if link.claimId == claimId { ks := ks + [|init|]; }
    }
  }

  ghost predicate LastPruningAt(log: seq<HarnessEvent>, n: int, epoch: string) {
    && 0 <= n < |log| && log[n].payload.ContextPrunedPayload? && epoch == log[n].payload.newEpochId
    && forall m :: n < m < |log| ==> !log[m].payload.ContextPrunedPayload?
  }

  /** The epoch is the one that the last pruning named, or the first one. */
  ghost predicate EpochFollows(log: seq<HarnessEvent>, first: string, epoch: string) {
    || (epoch == first && forall n :: 0 <= n < |log| ==> !log[n].payload.ContextPrunedPayload?)
    || exists n :: LastPruningAt(log, n, epoch)
  }

  lemma EpochNext(log: seq<HarnessEvent>, e: HarnessEvent, first: string, epoch: string)
    requires EpochFollows(log, first, epoch)
    ensures EpochFollows(log + [e], first, if e.payload.ContextPrunedPayload? then e.payload.newEpochId else epoch)
  {
    var all := log + [e];
    if e.payload.ContextPrunedPayload? {
      assert LastPruningAt(all, |log|, e.payload.newEpochId);
    } else if n :| LastPruningAt(log, n, epoch) {
      assert LastPruningAt(all, n, epoch);
    }
  }

  lemma {:induction false} EpochIsLogged(log: seq<HarnessEvent>, first: string)
    ensures EpochFollows(log, first, LoggedEpoch(first, log))
    decreases |log|
  {
    if log != [] {
      hide EpochFollows;
      EpochIsLogged(log[..|log| - 1], first);
      EpochNext(log[..|log| - 1], log[|log| - 1], first, LoggedEpoch(first, log[..|log| - 1]));
      assert log == log[..|log| - 1] + [log[|log| - 1]];
    }
  }

  // ----- the whole snapshot against the whole log -----

  /** The collections that only grow have one record for each event of their kind, in order. */
  ghost predicate GrowingRecorded(s: Snapshot, log: seq<HarnessEvent>) {
    && (exists ks :: Recorded(log, s.candidates, ks, AddsCandidate, CandidateFrom))
    && (exists ks :: Recorded(log, s.submissions, ks, Submits, SubmissionFrom))
    && (exists ks :: Recorded(log, s.toolInvocations, ks, Invokes, InvocationFrom))
    && (exists ks :: Recorded(log, s.toolResults, ks, Reports, ResultFrom))
    && (exists ks :: Recorded(log, s.verificationRecords, ks, Verifies, RecordFrom))
    && (exists ks :: Recorded(log, s.evidenceLinks, ks, Links, LinkFrom))
    && (exists ks :: Recorded(log, ClaimIds(s.claims), ks, CreatesClaim, IdFrom))
    && (exists ks :: Recorded(log, s.tasks, ks, Decomposes, TaskFrom))
  }

  lemma GrowingFollowLog(g: Snapshot, log: seq<HarnessEvent>, clock: Clock)
    requires EmptyState(g) && Fold(g, log, clock).Success?
    ensures GrowingRecorded(Fold(g, log, clock).value, log)
  {
    hide Fold, Recorded, LoggedCandidates, LoggedSubmissions, LoggedRecords, LoggedLinks, LoggedTasks, LoggedCurated,
      ToolHistory.LoggedInvocations, ToolHistory.LoggedResults, ToolHistory.Charged, CompletionsKnown, BareLinks;
    var s := Fold(g, log, clock).value;
    SnapshotIsProjection(g, log, clock);
    ToolHistory.ToolsFollowLog(g, log, clock);
    AcceptedStatusesParse(g, log, clock);
    assert s.toolInvocations == ToolHistory.LoggedInvocations(log) && s.toolResults == ToolHistory.LoggedResults(log);
    var ks := CandidatesRecorded(log);
    ks := SubmissionsRecorded(log);
    ks := InvocationsRecorded(log);
    ks := ResultsRecorded(log);
    ks := VerificationsRecorded(log);
    ks := LinksRecorded(log);
    BareLinksRecorded(log, s.evidenceLinks, ks);
    ks := ClaimIdsRecorded(log);
    ks := TasksRecorded(log, log);
  }

  /** Every snapshot that a log leads to from an empty trajectory is spelled out by the log: one record for each
    event of its kind, in order, with the fields of the event and its name; curated items exactly those that every
    later pruning retained; tasks done since their completion; claims as last revised; links as last verified. */
  lemma SnapshotFollowsLog(g: Snapshot, log: seq<HarnessEvent>, clock: Clock)
    requires EmptyState(g) && Fold(g, log, clock).Success?
    ensures var s := Fold(g, log, clock).value;
      && GrowingRecorded(s, log)
      && (exists ks :: CuratedAt(log, log, s.curatedItems, ks))
      && (forall t :: t in s.tasks ==> TaskProgress(log, t))
      && (forall link :: link in s.evidenceLinks ==> Judged(log, link))
      && ClaimsFollow(s, log, clock) && LinksStamped(s, log, clock) && RecordsNameClaims(s)
      && (forall c :: c in s.claims ==> ListsItsLinks(s.evidenceLinks, c))
      && EpochFollows(log, g.epochId, s.epochId)
  {
    hide Fold, GrowingRecorded, CuratedAt, TaskProgress, Judged, ClaimsFollow, LinksStamped, RecordsNameClaims,
      NamingAt, EpochFollows, LoggedCandidates, LoggedSubmissions, LoggedTasks, LoggedCurated, LoggedEpoch,
      ClaimsProjected, LinksProjected, CompletionsKnown, LinksNaming, LinksFollowRecords, CuratedCiteCandidates,
      ReferencesResolve, IdsUnique, EmptyState;
    var s := Fold(g, log, clock).value;
    SnapshotIsProjection(g, log, clock);
    ReachableConsistent(g, log, clock);
    GrowingFollowLog(g, log, clock);
    var ks := CuratedRecorded(log, log);
    TasksProgress(log, log);
    LinksAreJudged(g, log, clock);
    ClaimsFollowLog(g, log, clock);
    forall c | c in s.claims ensures ListsItsLinks(s.evidenceLinks, c) {
      var at := LinksNamingExact(s.evidenceLinks, c.claimId);
      assert NamingAt(s.evidenceLinks, c.claimId, at, c.evidenceLinkIds);
    }
    EpochIsLogged(log, g.epochId);
  }
}
