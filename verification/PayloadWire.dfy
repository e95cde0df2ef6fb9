/** The stored form of payloads, entry by entry: which names and texts stand for which fields. */
module PayloadWire {
  import opened Results
  import opened Schema
  import opened CasTree
  import opened PayloadCodec

  // ----- what an entry says -----

  predicate IsText(j: Json, name: string, text: string) {
    Get(j, name) == Some(Str(text))
  }

  /** A missing entry and a null stand for no value. */
  predicate IsOptional(j: Json, name: string, text: Option<string>) {
    match text
    case None => Get(j, name) == None || Get(j, name) == Some(Null)
    case Some(t) => Get(j, name) == Some(Str(t))
  }

  ghost predicate IsStrings(j: Json, name: string, texts: seq<string>) {
    var v := Get(j, name);
    && v.Some? && v.value.List? && |v.value.children| == |texts|
    && forall i :: 0 <= i < |texts| ==> v.value.children[i] == Str(texts[i])
  }

  ghost predicate IsPairs(j: Json, name: string, pairs: seq<(string, string)>) {
    var v := Get(j, name);
    && v.Some? && v.value.List? && |v.value.children| == |pairs|
    && forall i :: 0 <= i < |pairs| ==> v.value.children[i] == List([Str(pairs[i].0), Str(pairs[i].1)])
  }

  predicate IsVerdict(j: Json, name: string, result: VerificationResult) {
    match result
    case Confirmed => IsText(j, name, "confirmed")
    case Refuted => IsText(j, name, "refuted")
    case Inconclusive => IsText(j, name, "inconclusive")
  }

  predicate IsClaimStatus(j: Json, name: string, status: Option<ClaimStatus>) {
    match status
    case None => IsOptional(j, name, None)
    case Some(ClaimStated) => IsText(j, name, "stated")
    case Some(ClaimVerified) => IsText(j, name, "verified")
    case Some(ClaimContradicted) => IsText(j, name, "contradicted")
    case Some(ClaimWithdrawn) => IsText(j, name, "withdrawn")
  }

  predicate IsDeadline(j: Json, name: string, deadline: Option<Time>) {
    match deadline
    case None => IsOptional(j, name, None)
    case Some(t) => Get(j, name) == Some(Stamp(t))
  }

  /** The dictionary says exactly this payload. */
  ghost predicate Says(j: Json, p: Payload) {
    match p
    case ActionCommittedPayload(actionType, params) =>
      IsText(j, "action_type", actionType) && IsPairs(j, "action_params", params)
    case ToolInvokedPayload(id, parent, tool, arguments, deps, deadline) =>
      && IsText(j, "invocation_id", id) && IsOptional(j, "parent_task_id", parent) && IsText(j, "tool_name", tool)
      && IsPairs(j, "arguments", arguments) && IsStrings(j, "dependency_ids", deps)
      && IsDeadline(j, "deadline", deadline)
    case ToolResultReceivedPayload(id, status, content) =>
      IsText(j, "invocation_id", id) && IsText(j, "status", status) && IsText(j, "content", content)
    case EvidenceCuratedPayload(candidates, id, content, priority, sources) =>
      && IsStrings(j, "candidate_ids", candidates) && IsText(j, "curated_item_id", id) && IsText(j, "content", content)
      && Get(j, "priority") == Some(Int(priority)) && IsStrings(j, "source_ids", sources)
    case ClaimRevisedPayload(id, content, status) =>
      && IsText(j, "claim_id", id) && IsOptional(j, "new_content", content) && IsClaimStatus(j, "new_status", status)
    case EvidenceVerifiedPayload(link, id, result, details) =>
      && IsText(j, "link_id", link) && IsText(j, "verification_id", id) && IsVerdict(j, "result", result)
      && IsText(j, "details", details)
    case TaskDecomposedPayload(parent, id, description, deps) =>
      && IsOptional(j, "parent_task_id", parent) && IsText(j, "task_id", id) && IsText(j, "description", description)
      && IsStrings(j, "dependency_ids", deps)
    case TaskCompletedPayload(id) => IsText(j, "task_id", id)
    case ContextPrunedPayload(retained, epoch) =>
      IsStrings(j, "retained_item_ids", retained) && IsText(j, "new_epoch_id", epoch)
    case SubmissionRecordedPayload(id, content, sources) =>
      IsText(j, "submission_id", id) && IsText(j, "content", content) && IsStrings(j, "source_ids", sources)
    case SnapshotCheckpointedPayload(sequence, hash) =>
      Get(j, "snapshot_sequence") == Some(Int(sequence)) && Get(j, "snapshot_hash") == Some(HashText(hash))
    case CandidateAddedPayload(id, tid, source, query, content) =>
      && IsText(j, "item_id", id) && IsText(j, "trajectory_id", tid) && IsText(j, "source_id", source)
      && IsText(j, "retrieval_query", query) && IsText(j, "content", content)
    case ClaimCreatedPayload(id, tid, content) =>
      IsText(j, "claim_id", id) && IsText(j, "trajectory_id", tid) && IsText(j, "content", content)
    case EvidenceLinkedPayload(link, tid, claim, item, relationship, strength) =>
      && IsText(j, "link_id", link) && IsText(j, "trajectory_id", tid) && IsText(j, "claim_id", claim)
      && IsText(j, "curated_item_id", item) && IsText(j, "relationship", relationship)
      && Get(j, "strength") == Some(Real(strength))
  }

  // ----- the readers of entries -----

  lemma {:induction false} DecodeStringsIff(js: seq<Json>, texts: seq<string>)
    ensures DecodeStrings(js) == Success(texts) <==>
            |js| == |texts| && forall i :: 0 <= i < |texts| ==> js[i] == Str(texts[i])
  {
    if js != [] && texts != [] {
      DecodeStringsIff(js[1..], texts[1..]);
      assert texts == [texts[0]] + texts[1..];
      assert forall i :: 0 < i < |js| ==> js[i] == js[1..][i - 1];
      assert forall i :: 0 < i < |texts| ==> texts[i] == texts[1..][i - 1];
      assert forall i :: 0 <= i < |js| - 1 ==> js[1..][i] == js[i + 1];
      assert forall i :: 0 <= i < |texts| - 1 ==> texts[1..][i] == texts[i + 1];
    }
  }

  lemma {:induction false} DecodePairsIff(js: seq<Json>, pairs: seq<(string, string)>)
    ensures DecodePairs(js) == Success(pairs) <==>
            |js| == |pairs| && forall i :: 0 <= i < |pairs| ==> js[i] == List([Str(pairs[i].0), Str(pairs[i].1)])
  {
    if js != [] && pairs != [] {
      DecodePairsIff(js[1..], pairs[1..]);
      assert pairs == [pairs[0]] + pairs[1..];
      assert forall i :: 0 < i < |js| ==> js[i] == js[1..][i - 1];
      assert forall i :: 0 < i < |pairs| ==> pairs[i] == pairs[1..][i - 1];
      assert forall i :: 0 <= i < |js| - 1 ==> js[1..][i] == js[i + 1];
      assert forall i :: 0 <= i < |pairs| - 1 ==> pairs[1..][i] == pairs[i + 1];
    }
  }

  lemma TextsIff(j: Json, name: string)
    ensures forall text :: Text(j, name) == Success(text) <==> IsText(j, name, text)
    ensures forall text :: OptionalText(j, name) == Success(text) <==> IsOptional(j, name, text)
  {
  }

  lemma StringsIff(j: Json, name: string)
    ensures forall texts :: Strings(j, name) == Success(texts) <==> IsStrings(j, name, texts)
  {
    var v := Get(j, name);
    if v.Some? && v.value.List? {
      forall texts ensures Strings(j, name) == Success(texts) <==> IsStrings(j, name, texts) {
        DecodeStringsIff(v.value.children, texts);
      }
    }
  }

  lemma PairsIff(j: Json, name: string)
    ensures forall pairs :: Pairs(j, name) == Success(pairs) <==> IsPairs(j, name, pairs)
  {
    var v := Get(j, name);
    if v.Some? && v.value.List? {
      forall pairs ensures Pairs(j, name) == Success(pairs) <==> IsPairs(j, name, pairs) {
        DecodePairsIff(v.value.children, pairs);
      }
    }
  }

  // ----- the readers of payloads -----

  lemma ToolInvokedIff(j: Json, p: Payload)
    ensures DecodeToolInvoked(j) == Success(p) <==> p.ToolInvokedPayload? && Says(j, p)
  {
    hide Text, OptionalText, Strings, Pairs, IsText, IsStrings, IsPairs, Get;
    TextsIff(j, "invocation_id");
    TextsIff(j, "parent_task_id");
    TextsIff(j, "tool_name");
    PairsIff(j, "arguments");
    StringsIff(j, "dependency_ids");
  }

  lemma EvidenceCuratedIff(j: Json, p: Payload)
    ensures DecodeEvidenceCurated(j) == Success(p) <==> p.EvidenceCuratedPayload? && Says(j, p)
  {
    hide Text, OptionalText, Strings, Pairs, IsText, IsOptional, IsStrings, IsPairs, Get;
    StringsIff(j, "candidate_ids");
    TextsIff(j, "curated_item_id");
    TextsIff(j, "content");
    StringsIff(j, "source_ids");
  }

  lemma ClaimRevisedIff(j: Json, p: Payload)
    ensures DecodeClaimRevised(j) == Success(p) <==> p.ClaimRevisedPayload? && Says(j, p)
  {
    hide Text, OptionalText, IsText, IsOptional, IsClaimStatus, ParseClaimStatus, Get;
    TextsIff(j, "claim_id");
    TextsIff(j, "new_content");
    var status := OptionalText(j, "new_status");
    if p.ClaimRevisedPayload? { ClaimStatusIff(j, "new_status", p.newStatus); }
  }

  /** The four texts of a claim status. */
  lemma ClaimStatusIff(j: Json, name: string, status: Option<ClaimStatus>)
    ensures IsClaimStatus(j, name, status) <==>
              var text := OptionalText(j, name);
              && text.Success?
              && if text.value.None? then status.None?
                 else status.Some? && ParseClaimStatus(text.value.value) == Success(status.value)
  {
    hide Get;
    var v := Get(j, name);
    if status.Some? { ClaimStatusTexts(status.value); }
  }

  lemma ClaimStatusTexts(status: ClaimStatus)
    ensures forall text :: ParseClaimStatus(text) == Success(status) <==>
              text == match status
                case ClaimStated => "stated"
                case ClaimVerified => "verified"
                case ClaimContradicted => "contradicted"
                case ClaimWithdrawn => "withdrawn"
  {
    assert "stated"[0] == 's' && "verified"[0] == 'v' && "contradicted"[0] == 'c' && "withdrawn"[0] == 'w';
  }

  lemma EvidenceVerifiedIff(j: Json, p: Payload)
    ensures DecodeEvidenceVerified(j) == Success(p) <==> p.EvidenceVerifiedPayload? && Says(j, p)
  {
    hide Text, OptionalText, Strings, Pairs, IsText, IsOptional, IsStrings, IsPairs, Get;
    TextsIff(j, "link_id");
    TextsIff(j, "verification_id");
    TextsIff(j, "result");
    TextsIff(j, "details");
  }

  lemma TaskDecomposedIff(j: Json, p: Payload)
    ensures DecodeTaskDecomposed(j) == Success(p) <==> p.TaskDecomposedPayload? && Says(j, p)
  {
    hide Text, OptionalText, Strings, Pairs, IsText, IsOptional, IsStrings, IsPairs, Get;
    TextsIff(j, "parent_task_id");
    TextsIff(j, "task_id");
    TextsIff(j, "description");
    StringsIff(j, "dependency_ids");
  }

  lemma CandidateAddedIff(j: Json, p: Payload)
    ensures DecodeCandidateAdded(j) == Success(p) <==> p.CandidateAddedPayload? && Says(j, p)
  {
    hide Text, OptionalText, Strings, Pairs, IsText, IsOptional, IsStrings, IsPairs, Get;
    TextsIff(j, "item_id");
    TextsIff(j, "trajectory_id");
    TextsIff(j, "source_id");
    TextsIff(j, "retrieval_query");
    TextsIff(j, "content");
  }

  lemma EvidenceLinkedIff(j: Json, p: Payload)
    ensures DecodeEvidenceLinked(j) == Success(p) <==> p.EvidenceLinkedPayload? && Says(j, p)
  {
    hide Text, OptionalText, Strings, Pairs, IsText, IsOptional, IsStrings, IsPairs, Get;
    TextsIff(j, "link_id");
    TextsIff(j, "trajectory_id");
    TextsIff(j, "claim_id");
    TextsIff(j, "curated_item_id");
    TextsIff(j, "relationship");
  }

  lemma SimpleIff(eventType: EventType, j: Json, p: Payload)
    requires eventType in {ActionCommitted, ToolResultReceived, TaskCompleted, ContextPruned, SubmissionRecorded,
                           SnapshotCheckpointed, ClaimCreated}
    ensures DecodeSimple(eventType, j) == Success(p) <==> PayloadTypeName(p) == eventType && Says(j, p)
  {
    hide Text, OptionalText, Strings, Pairs, IsText, IsOptional, IsStrings, IsPairs, Get;
    match eventType
    case ActionCommitted =>
      TextsIff(j, "action_type");
      PairsIff(j, "action_params");
    case ToolResultReceived =>
      TextsIff(j, "invocation_id");
      TextsIff(j, "status");
      TextsIff(j, "content");
    case TaskCompleted => TextsIff(j, "task_id");
    case ContextPruned =>
      StringsIff(j, "retained_item_ids");
      TextsIff(j, "new_epoch_id");
    case SubmissionRecorded =>
      TextsIff(j, "submission_id");
      TextsIff(j, "content");
      StringsIff(j, "source_ids");
    case SnapshotCheckpointed =>
    case ClaimCreated =>
      TextsIff(j, "claim_id");
      TextsIff(j, "trajectory_id");
      TextsIff(j, "content");
  }

  /** A dictionary is decoded to a payload exactly when it says that payload and the type is the payload's. */
  lemma DecodesIff(eventType: EventType, j: Json, p: Payload)
    ensures PayloadFromDict(eventType, j) == Success(p) <==> PayloadTypeName(p) == eventType && Says(j, p)
  {
    hide Says, DecodeToolInvoked, DecodeEvidenceCurated, DecodeClaimRevised, DecodeEvidenceVerified,
      DecodeTaskDecomposed, DecodeCandidateAdded, DecodeEvidenceLinked;
    match eventType
    case ToolInvoked => ToolInvokedIff(j, p);
    case EvidenceCurated => EvidenceCuratedIff(j, p);
    case ClaimRevised => ClaimRevisedIff(j, p);
    case EvidenceVerified => EvidenceVerifiedIff(j, p);
    case TaskDecomposed => TaskDecomposedIff(j, p);
    case CandidateAdded => CandidateAddedIff(j, p);
    case EvidenceLinked => EvidenceLinkedIff(j, p);
    case UnknownEventType(_) =>
    case _ => hide DecodeSimple; SimpleIff(eventType, j, p);
  }

  /** So the dictionary of a payload says that payload, and no other of its type. */
  lemma EncodedSays(p: Payload, q: Payload)
    requires PayloadTypeName(q) == PayloadTypeName(p)
    ensures Says(PayloadToDict(p), q) <==> q == p
  {
    hide Says, PayloadToDict, PayloadFromDict;
    PayloadRoundTrip(p);
    DecodesIff(PayloadTypeName(p), PayloadToDict(p), q);
  }

  // ----- the type of a payload -----

  /** The fourteen types of event, each for its own kind of payload. */
  lemma TypeOfPayload(p: Payload)
    ensures match p
      case ActionCommittedPayload(_, _) => PayloadTypeName(p) == ActionCommitted
      case ToolInvokedPayload(_, _, _, _, _, _) => PayloadTypeName(p) == ToolInvoked
      case ToolResultReceivedPayload(_, _, _) => PayloadTypeName(p) == ToolResultReceived
      case EvidenceCuratedPayload(_, _, _, _, _) => PayloadTypeName(p) == EvidenceCurated
      case ClaimRevisedPayload(_, _, _) => PayloadTypeName(p) == ClaimRevised
      case EvidenceVerifiedPayload(_, _, _, _) => PayloadTypeName(p) == EvidenceVerified
      case TaskDecomposedPayload(_, _, _, _) => PayloadTypeName(p) == TaskDecomposed
      case TaskCompletedPayload(_) => PayloadTypeName(p) == TaskCompleted
      case ContextPrunedPayload(_, _) => PayloadTypeName(p) == ContextPruned
      case SubmissionRecordedPayload(_, _, _) => PayloadTypeName(p) == SubmissionRecorded
      case SnapshotCheckpointedPayload(_, _) => PayloadTypeName(p) == SnapshotCheckpointed
      case CandidateAddedPayload(_, _, _, _, _) => PayloadTypeName(p) == CandidateAdded
      case ClaimCreatedPayload(_, _, _) => PayloadTypeName(p) == ClaimCreated
      case EvidenceLinkedPayload(_, _, _, _, _, _) => PayloadTypeName(p) == EvidenceLinked
  {
  }
}
