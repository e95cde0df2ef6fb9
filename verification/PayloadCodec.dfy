/** events.py: typed payloads as dictionaries and back, and together with CasTree as they are stored. */
module PayloadCodec {
  import opened Results
  import opened Schema
  import opened CasTree

  datatype DecodeError = DecodeError

  type Decoded<T> = Result<T, DecodeError>

  // ----- encoding -----

  function EncodeOption(text: Option<string>): Json {
    if text.None? then Null else Str(text.value)
  }

  function EncodeStrings(texts: seq<string>): Json {
    List(seq(|texts|, i requires 0 <= i < |texts| => Str(texts[i])))
  }

  function EncodePairs(pairs: seq<(string, string)>): Json {
    List(seq(|pairs|, i requires 0 <= i < |pairs| => List([Str(pairs[i].0), Str(pairs[i].1)])))
  }

  function ClaimStatusValue(status: ClaimStatus): string {
    match status
    case ClaimStated => "stated"
    case ClaimVerified => "verified"
    case ClaimContradicted => "contradicted"
    case ClaimWithdrawn => "withdrawn"
  }

  function VerificationResultValue(result: VerificationResult): string {
    match result
    case Confirmed => "confirmed"
    case Refuted => "refuted"
    case Inconclusive => "inconclusive"
  }

  /** The fields of a payload, in the order of the declaration. */
  function FieldNames(eventType: EventType): seq<string> {
    match eventType
    case ActionCommitted => ["action_type", "action_params"]
    case ToolInvoked => ["invocation_id", "parent_task_id", "tool_name", "arguments", "dependency_ids", "deadline"]
    case ToolResultReceived => ["invocation_id", "status", "content"]
    case EvidenceCurated => ["candidate_ids", "curated_item_id", "content", "priority", "source_ids"]
    case ClaimRevised => ["claim_id", "new_content", "new_status"]
    case EvidenceVerified => ["link_id", "verification_id", "result", "details"]
    case TaskDecomposed => ["parent_task_id", "task_id", "description", "dependency_ids"]
    case TaskCompleted => ["task_id"]
    case ContextPruned => ["retained_item_ids", "new_epoch_id"]
    case SubmissionRecorded => ["submission_id", "content", "source_ids"]
    case SnapshotCheckpointed => ["snapshot_sequence", "snapshot_hash"]
    case CandidateAdded => ["item_id", "trajectory_id", "source_id", "retrieval_query", "content"]
    case ClaimCreated => ["claim_id", "trajectory_id", "content"]
    case EvidenceLinked => ["link_id", "trajectory_id", "claim_id", "curated_item_id", "relationship", "strength"]
    case UnknownEventType(_) => []
  }

  function FieldValues(p: Payload): seq<Json> {
    match p
    case ActionCommittedPayload(actionType, params) => [Str(actionType), EncodePairs(params)]
    case ToolInvokedPayload(id, parent, tool, arguments, deps, deadline) =>
      [Str(id), EncodeOption(parent), Str(tool), EncodePairs(arguments), EncodeStrings(deps),
       if deadline.None? then Null else Stamp(deadline.value)]
    case ToolResultReceivedPayload(id, status, content) => [Str(id), Str(status), Str(content)]
    case EvidenceCuratedPayload(candidates, id, content, priority, sources) =>
      [EncodeStrings(candidates), Str(id), Str(content), Int(priority), EncodeStrings(sources)]
    case ClaimRevisedPayload(id, content, status) =>
      [Str(id), EncodeOption(content), if status.None? then Null else Str(ClaimStatusValue(status.value))]
    case EvidenceVerifiedPayload(link, id, result, details) =>
      [Str(link), Str(id), Str(VerificationResultValue(result)), Str(details)]
    case TaskDecomposedPayload(parent, id, description, deps) =>
      [EncodeOption(parent), Str(id), Str(description), EncodeStrings(deps)]
    case TaskCompletedPayload(id) => [Str(id)]
    case ContextPrunedPayload(retained, epoch) => [EncodeStrings(retained), Str(epoch)]
    case SubmissionRecordedPayload(id, content, sources) => [Str(id), Str(content), EncodeStrings(sources)]
    case SnapshotCheckpointedPayload(sequence, hash) => [Int(sequence), HashText(hash)]
    case CandidateAddedPayload(id, tid, source, query, content) =>
      [Str(id), Str(tid), Str(source), Str(query), Str(content)]
    case ClaimCreatedPayload(id, tid, content) => [Str(id), Str(tid), Str(content)]
    case EvidenceLinkedPayload(link, tid, claim, item, relationship, strength) =>
      [Str(link), Str(tid), Str(claim), Str(item), Str(relationship), Real(strength)]
  }

  /** _payload_to_dict */
  function PayloadToDict(p: Payload): Json {
    Dict(FieldNames(PayloadTypeName(p)), FieldValues(p))
  }

  // ----- decoding -----

  /** data[name]; data.get(name) reads a missing entry as null. */
  function Entry(keys: seq<string>, values: seq<Json>, name: string): Option<Json>
    decreases |keys|
  {
    if keys == [] || values == [] then None
    else if keys[0] == name then Some(values[0])
    else Entry(keys[1..], values[1..], name)
  }

  function Get(j: Json, name: string): Option<Json> {
    if j.Dict? then Entry(j.keys, j.children, name) else None
  }

  function Text(j: Json, name: string): Decoded<string> {
    var v := Get(j, name);
    if v.Some? && v.value.Str? then Success(v.value.text) else Failure(DecodeError)
  }

  function OptionalText(j: Json, name: string): Decoded<Option<string>> {
    var v := Get(j, name);
    if v.None? || v.value.Null? then Success(None)
    else if v.value.Str? then Success(Some(v.value.text))
    else Failure(DecodeError)
  }

  function Integer(j: Json, name: string): Decoded<int> {
    var v := Get(j, name);
    if v.Some? && v.value.Int? then Success(v.value.value) else Failure(DecodeError)
  }

  function DecodeStrings(js: seq<Json>): Decoded<seq<string>> {
    if js == [] then Success([])
    else if !js[0].Str? then Failure(DecodeError)
    else
      var rest :- DecodeStrings(js[1..]);
      Success([js[0].text] + rest)
  }

  function Strings(j: Json, name: string): Decoded<seq<string>> {
    var v := Get(j, name);
    if v.Some? && v.value.List? then DecodeStrings(v.value.children) else Failure(DecodeError)
  }

  function DecodePairs(js: seq<Json>): Decoded<seq<(string, string)>> {
    if js == [] then Success([])
    else if !(js[0].List? && |js[0].children| == 2 && js[0].children[0].Str? && js[0].children[1].Str?)
      then Failure(DecodeError)
    else
      var rest :- DecodePairs(js[1..]);
      Success([(js[0].children[0].text, js[0].children[1].text)] + rest)
  }

  function Pairs(j: Json, name: string): Decoded<seq<(string, string)>> {
    var v := Get(j, name);
    if v.Some? && v.value.List? then DecodePairs(v.value.children) else Failure(DecodeError)
  }

  function ParseClaimStatus(text: string): Decoded<ClaimStatus> {
    if text == "stated" then Success(ClaimStated)
    else if text == "verified" then Success(ClaimVerified)
    else if text == "contradicted" then Success(ClaimContradicted)
    else if text == "withdrawn" then Success(ClaimWithdrawn)
    else Failure(DecodeError)
  }

  function ParseVerificationResult(text: string): Decoded<VerificationResult> {
    if text == "confirmed" then Success(Confirmed)
    else if text == "refuted" then Success(Refuted)
    else if text == "inconclusive" then Success(Inconclusive)
    else Failure(DecodeError)
  }

  function DecodeToolInvoked(j: Json): Decoded<Payload> {
    var id :- Text(j, "invocation_id");
    var parent :- OptionalText(j, "parent_task_id");
    var tool :- Text(j, "tool_name");
    var arguments :- Pairs(j, "arguments");
    var deps :- Strings(j, "dependency_ids");
    var deadline := Get(j, "deadline");
    if deadline.None? || deadline.value.Null? then Success(ToolInvokedPayload(id, parent, tool, arguments, deps, None))
    else if deadline.value.Stamp?
      then Success(ToolInvokedPayload(id, parent, tool, arguments, deps, Some(deadline.value.time)))
    else Failure(DecodeError)
  }

  function DecodeEvidenceCurated(j: Json): Decoded<Payload> {
    var candidates :- Strings(j, "candidate_ids");
    var id :- Text(j, "curated_item_id");
    var content :- Text(j, "content");
    var priority :- Integer(j, "priority");
    var sources :- Strings(j, "source_ids");
    Success(EvidenceCuratedPayload(candidates, id, content, priority, sources))
  }

  function DecodeClaimRevised(j: Json): Decoded<Payload> {
    var id :- Text(j, "claim_id");
    var content :- OptionalText(j, "new_content");
    var text :- OptionalText(j, "new_status");
    if text.None? then Success(ClaimRevisedPayload(id, content, None))
    else
      var status :- ParseClaimStatus(text.value);
      Success(ClaimRevisedPayload(id, content, Some(status)))
  }

  function DecodeEvidenceVerified(j: Json): Decoded<Payload> {
    var link :- Text(j, "link_id");
    var id :- Text(j, "verification_id");
    var text :- Text(j, "result");
    var result :- ParseVerificationResult(text);
    var details :- Text(j, "details");
    Success(EvidenceVerifiedPayload(link, id, result, details))
  }

  function DecodeTaskDecomposed(j: Json): Decoded<Payload> {
    var parent :- OptionalText(j, "parent_task_id");
    var id :- Text(j, "task_id");
    var description :- Text(j, "description");
    var deps :- Strings(j, "dependency_ids");
    Success(TaskDecomposedPayload(parent, id, description, deps))
  }

  function DecodeCandidateAdded(j: Json): Decoded<Payload> {
    var id :- Text(j, "item_id");
    var tid :- Text(j, "trajectory_id");
    var source :- Text(j, "source_id");
    var query :- Text(j, "retrieval_query");
    var content :- Text(j, "content");
    Success(CandidateAddedPayload(id, tid, source, query, content))
  }

  function DecodeEvidenceLinked(j: Json): Decoded<Payload> {
    var link :- Text(j, "link_id");
    var tid :- Text(j, "trajectory_id");
    var claim :- Text(j, "claim_id");
    var item :- Text(j, "curated_item_id");
    var relationship :- Text(j, "relationship");
    var strength := Get(j, "strength");
    if strength.Some? && strength.value.Real? then
      Success(EvidenceLinkedPayload(link, tid, claim, item, relationship, strength.value.number))
    else Failure(DecodeError)
  }

  /** The kinds of event with at most three plain fields. */
  function DecodeSimple(eventType: EventType, j: Json): Decoded<Payload> {
    match eventType
    case ActionCommitted =>
      var actionType :- Text(j, "action_type");
      var params :- Pairs(j, "action_params");
      Success(ActionCommittedPayload(actionType, params))
    case ToolResultReceived =>
      var id :- Text(j, "invocation_id");
      var status :- Text(j, "status");
      var content :- Text(j, "content");
      Success(ToolResultReceivedPayload(id, status, content))
    case TaskCompleted =>
      var id :- Text(j, "task_id");
      Success(TaskCompletedPayload(id))
    case ContextPruned =>
      var retained :- Strings(j, "retained_item_ids");
      var epoch :- Text(j, "new_epoch_id");
      Success(ContextPrunedPayload(retained, epoch))
    case SubmissionRecorded =>
      var id :- Text(j, "submission_id");
      var content :- Text(j, "content");
      var sources :- Strings(j, "source_ids");
      Success(SubmissionRecordedPayload(id, content, sources))
    case SnapshotCheckpointed =>
      var sequence :- Integer(j, "snapshot_sequence");
      var hash := Get(j, "snapshot_hash");
      if hash.Some? && hash.value.HashText? then Success(SnapshotCheckpointedPayload(sequence, hash.value.hash))
      else Failure(DecodeError)
    case ClaimCreated =>
      var id :- Text(j, "claim_id");
      var tid :- Text(j, "trajectory_id");
      var content :- Text(j, "content");
      Success(ClaimCreatedPayload(id, tid, content))
    case _ => Failure(DecodeError)
  }

  /** _payload_from_dict */
  function PayloadFromDict(eventType: EventType, j: Json): Decoded<Payload> {
    match eventType
    case ToolInvoked => DecodeToolInvoked(j)
    case EvidenceCurated => DecodeEvidenceCurated(j)
    case ClaimRevised => DecodeClaimRevised(j)
    case EvidenceVerified => DecodeEvidenceVerified(j)
    case TaskDecomposed => DecodeTaskDecomposed(j)
    case CandidateAdded => DecodeCandidateAdded(j)
    case EvidenceLinked => DecodeEvidenceLinked(j)
    case _ => DecodeSimple(eventType, j)
  }

  // ----- round trips -----

  lemma {:induction false} StringsRoundTrip(texts: seq<string>)
    ensures DecodeStrings(EncodeStrings(texts).children) == Success(texts)
  {
    if texts != [] {
      StringsRoundTrip(texts[1..]);
      assert texts == [texts[0]] + texts[1..];
      assert EncodeStrings(texts).children[1..] == EncodeStrings(texts[1..]).children;
    }
  }

  lemma {:induction false} PairsRoundTrip(pairs: seq<(string, string)>)
    ensures DecodePairs(EncodePairs(pairs).children) == Success(pairs)
  {
    if pairs != [] {
      PairsRoundTrip(pairs[1..]);
      assert pairs == [pairs[0]] + pairs[1..];
      assert EncodePairs(pairs).children[1..] == EncodePairs(pairs[1..]).children;
    }
  }

  /** A field is found under its name. */
  lemma {:induction false} EntryFound(keys: seq<string>, values: seq<Json>, k: nat)
    requires k < |keys| == |values| && keys[k] !in keys[..k]
    ensures Entry(keys, values, keys[k]) == Some(values[k])
    decreases k
  {
    if k > 0 {
      assert keys[0] == keys[..k][0];
      assert keys[1..][..k - 1] == keys[..k][1..];
      EntryFound(keys[1..], values[1..], k - 1);
    }
  }

  ghost predicate NamesDiffer(keys: seq<string>) {
    forall i, k :: 0 <= i < k < |keys| ==> keys[i] != keys[k]
  }

  lemma FieldsFound(j: Json)
    requires j.Dict? && |j.keys| == |j.children| && NamesDiffer(j.keys)
    ensures forall k :: 0 <= k < |j.keys| ==> Get(j, j.keys[k]) == Some(j.children[k])
  {
    forall k | 0 <= k < |j.keys| ensures Get(j, j.keys[k]) == Some(j.children[k]) {
      EntryFound(j.keys, j.children, k);
    }
  }

  lemma NamesOk(eventType: EventType)
    ensures NamesDiffer(FieldNames(eventType))
  {
  }

  lemma Fields(p: Payload)
    ensures var names, values := FieldNames(PayloadTypeName(p)), FieldValues(p);
      && |names| == |values|
      && forall k :: 0 <= k < |names| ==> Get(PayloadToDict(p), names[k]) == Some(values[k])
  {
    hide EncodePairs, EncodeStrings, EncodeOption, ClaimStatusValue, VerificationResultValue, NamesDiffer, Get;
    assert |FieldNames(PayloadTypeName(p))| == |FieldValues(p)|;
    NamesOk(PayloadTypeName(p));
    FieldsFound(PayloadToDict(p));
  }

  lemma FieldAt(p: Payload, k: nat, name: string)
    requires k < |FieldNames(PayloadTypeName(p))| && FieldNames(PayloadTypeName(p))[k] == name
    ensures k < |FieldValues(p)| && Get(PayloadToDict(p), name) == Some(FieldValues(p)[k])
  {
    hide FieldNames, FieldValues, Get;
    Fields(p);
  }

  lemma ToolInvokedRoundTrip(p: Payload)
    requires p.ToolInvokedPayload?
    ensures DecodeToolInvoked(PayloadToDict(p)) == Success(p)
  {
    hide PayloadToDict, Get, DecodeStrings, DecodePairs;
    FieldAt(p, 0, "invocation_id");
    FieldAt(p, 1, "parent_task_id");
    FieldAt(p, 2, "tool_name");
    FieldAt(p, 3, "arguments");
    FieldAt(p, 4, "dependency_ids");
    FieldAt(p, 5, "deadline");
    PairsRoundTrip(p.arguments);
    StringsRoundTrip(p.dependencyIds);
  }

  lemma EvidenceCuratedRoundTrip(p: Payload)
    requires p.EvidenceCuratedPayload?
    ensures DecodeEvidenceCurated(PayloadToDict(p)) == Success(p)
  {
    hide PayloadToDict, Get, DecodeStrings, DecodePairs;
    FieldAt(p, 0, "candidate_ids");
    FieldAt(p, 1, "curated_item_id");
    FieldAt(p, 2, "content");
    FieldAt(p, 3, "priority");
    FieldAt(p, 4, "source_ids");
    StringsRoundTrip(p.candidateIds);
    StringsRoundTrip(p.sourceIds);
  }

  lemma ClaimRevisedRoundTrip(p: Payload)
    requires p.ClaimRevisedPayload?
    ensures DecodeClaimRevised(PayloadToDict(p)) == Success(p)
  {
    hide PayloadToDict, Get, DecodeStrings, DecodePairs;
    FieldAt(p, 0, "claim_id");
    FieldAt(p, 1, "new_content");
    FieldAt(p, 2, "new_status");
  }

  lemma EvidenceVerifiedRoundTrip(p: Payload)
    requires p.EvidenceVerifiedPayload?
    ensures DecodeEvidenceVerified(PayloadToDict(p)) == Success(p)
  {
    hide PayloadToDict, Get, DecodeStrings, DecodePairs;
    FieldAt(p, 0, "link_id");
    FieldAt(p, 1, "verification_id");
    FieldAt(p, 2, "result");
    FieldAt(p, 3, "details");
  }

  lemma TaskDecomposedRoundTrip(p: Payload)
    requires p.TaskDecomposedPayload?
    ensures DecodeTaskDecomposed(PayloadToDict(p)) == Success(p)
  {
    hide PayloadToDict, Get, DecodeStrings, DecodePairs;
    FieldAt(p, 0, "parent_task_id");
    FieldAt(p, 1, "task_id");
    FieldAt(p, 2, "description");
    FieldAt(p, 3, "dependency_ids");
    StringsRoundTrip(p.dependencyIds);
  }

  lemma CandidateAddedRoundTrip(p: Payload)
    requires p.CandidateAddedPayload?
    ensures DecodeCandidateAdded(PayloadToDict(p)) == Success(p)
  {
    hide PayloadToDict, Get, DecodeStrings, DecodePairs;
    FieldAt(p, 0, "item_id");
    FieldAt(p, 1, "trajectory_id");
    FieldAt(p, 2, "source_id");
    FieldAt(p, 3, "retrieval_query");
    FieldAt(p, 4, "content");
  }

  lemma EvidenceLinkedRoundTrip(p: Payload)
    requires p.EvidenceLinkedPayload?
    ensures DecodeEvidenceLinked(PayloadToDict(p)) == Success(p)
  {
    hide PayloadToDict, Get, DecodeStrings, DecodePairs;
    FieldAt(p, 0, "link_id");
    FieldAt(p, 1, "trajectory_id");
    FieldAt(p, 2, "claim_id");
    FieldAt(p, 3, "curated_item_id");
    FieldAt(p, 4, "relationship");
    FieldAt(p, 5, "strength");
  }

  lemma ActionCommittedRoundTrip(p: Payload)
    requires p.ActionCommittedPayload?
    ensures DecodeSimple(ActionCommitted, PayloadToDict(p)) == Success(p)
  {
    hide PayloadToDict, Get, DecodeStrings, DecodePairs;
    FieldAt(p, 0, "action_type");
    FieldAt(p, 1, "action_params");
    PairsRoundTrip(p.actionParams);
  }

  lemma ToolResultReceivedRoundTrip(p: Payload)
    requires p.ToolResultReceivedPayload?
    ensures DecodeSimple(ToolResultReceived, PayloadToDict(p)) == Success(p)
  {
    hide PayloadToDict, Get, DecodeStrings, DecodePairs;
    FieldAt(p, 0, "invocation_id");
    FieldAt(p, 1, "status");
    FieldAt(p, 2, "content");
  }

  lemma TaskCompletedRoundTrip(p: Payload)
    requires p.TaskCompletedPayload?
    ensures DecodeSimple(TaskCompleted, PayloadToDict(p)) == Success(p)
  {
    hide PayloadToDict, Get, DecodeStrings, DecodePairs;
    FieldAt(p, 0, "task_id");
  }

  lemma ContextPrunedRoundTrip(p: Payload)
    requires p.ContextPrunedPayload?
    ensures DecodeSimple(ContextPruned, PayloadToDict(p)) == Success(p)
  {
    hide PayloadToDict, Get, DecodeStrings, DecodePairs;
    FieldAt(p, 0, "retained_item_ids");
    FieldAt(p, 1, "new_epoch_id");
    StringsRoundTrip(p.retainedItemIds);
  }

  lemma SubmissionRecordedRoundTrip(p: Payload)
    requires p.SubmissionRecordedPayload?
    ensures DecodeSimple(SubmissionRecorded, PayloadToDict(p)) == Success(p)
  {
    hide PayloadToDict, Get, DecodeStrings, DecodePairs;
    FieldAt(p, 0, "submission_id");
    FieldAt(p, 1, "content");
    FieldAt(p, 2, "source_ids");
    StringsRoundTrip(p.sourceIds);
  }

  lemma SnapshotCheckpointedRoundTrip(p: Payload)
    requires p.SnapshotCheckpointedPayload?
    ensures DecodeSimple(SnapshotCheckpointed, PayloadToDict(p)) == Success(p)
  {
    hide PayloadToDict, Get, DecodeStrings, DecodePairs;
    FieldAt(p, 0, "snapshot_sequence");
    FieldAt(p, 1, "snapshot_hash");
  }

  lemma ClaimCreatedRoundTrip(p: Payload)
    requires p.ClaimCreatedPayload?
    ensures DecodeSimple(ClaimCreated, PayloadToDict(p)) == Success(p)
  {
    hide PayloadToDict, Get, DecodeStrings, DecodePairs;
    FieldAt(p, 0, "claim_id");
    FieldAt(p, 1, "trajectory_id");
    FieldAt(p, 2, "content");
  }

  /** Every typed payload is restored from its dictionary. */
  lemma PayloadRoundTrip(p: Payload)
    ensures PayloadFromDict(PayloadTypeName(p), PayloadToDict(p)) == Success(p)
  {
    hide PayloadToDict, DecodeToolInvoked, DecodeEvidenceCurated, DecodeClaimRevised, DecodeEvidenceVerified,
      DecodeTaskDecomposed, DecodeCandidateAdded, DecodeEvidenceLinked, DecodeSimple;
    match p
    case ActionCommittedPayload(_, _) => ActionCommittedRoundTrip(p);
    case ToolInvokedPayload(_, _, _, _, _, _) => ToolInvokedRoundTrip(p);
    case ToolResultReceivedPayload(_, _, _) => ToolResultReceivedRoundTrip(p);
    case EvidenceCuratedPayload(_, _, _, _, _) => EvidenceCuratedRoundTrip(p);
    case ClaimRevisedPayload(_, _, _) => ClaimRevisedRoundTrip(p);
    case EvidenceVerifiedPayload(_, _, _, _) => EvidenceVerifiedRoundTrip(p);
    case TaskDecomposedPayload(_, _, _, _) => TaskDecomposedRoundTrip(p);
    case TaskCompletedPayload(_) => TaskCompletedRoundTrip(p);
    case ContextPrunedPayload(_, _) => ContextPrunedRoundTrip(p);
    case SubmissionRecordedPayload(_, _, _) => SubmissionRecordedRoundTrip(p);
    case SnapshotCheckpointedPayload(_, _) => SnapshotCheckpointedRoundTrip(p);
    case CandidateAddedPayload(_, _, _, _, _) => CandidateAddedRoundTrip(p);
    case ClaimCreatedPayload(_, _, _) => ClaimCreatedRoundTrip(p);
    case EvidenceLinkedPayload(_, _, _, _, _, _) => EvidenceLinkedRoundTrip(p);
  }

  lemma PlainHasNoMarker(j: Json)
    requires !IsNode(j)
    ensures !HasInlineMarker(j)
  {
  }

  lemma ListsHaveNoMarker(texts: seq<string>, pairs: seq<(string, string)>)
    ensures !HasInlineMarker(EncodeStrings(texts)) && !HasInlineMarker(EncodePairs(pairs))
  {
    forall i | 0 <= i < |pairs| ensures !HasInlineMarker(EncodePairs(pairs).children[i]) {
      assert EncodePairs(pairs).children[i] == List([Str(pairs[i].0), Str(pairs[i].1)]);
    }
  }

  /** No field value contains a dictionary. */
  lemma ValuesHaveNoMarker(p: Payload)
    ensures forall i :: 0 <= i < |FieldValues(p)| ==> !HasInlineMarker(FieldValues(p)[i])
  {
    hide EncodeStrings, EncodePairs, HasInlineMarker;
    forall j: Json | !IsNode(j) ensures !HasInlineMarker(j) { PlainHasNoMarker(j); }
    forall texts ensures !HasInlineMarker(EncodeStrings(texts)) { ListsHaveNoMarker(texts, []); }
    forall pairs ensures !HasInlineMarker(EncodePairs(pairs)) { ListsHaveNoMarker([], pairs); }
  }

  lemma PayloadHasNoMarker(p: Payload)
    ensures !HasInlineMarker(PayloadToDict(p))
  {
    hide FieldValues;
    ValuesHaveNoMarker(p);
    if p.TaskCompletedPayload? { assert "task_id"[0] != CAS_REF[0]; }
    assert !IsMarker(PayloadToDict(p));
  }

  /** Offloaded into a row, resolved and decoded again, every typed payload is the one that was stored,
    whatever its strings contain and however long they are. */
  lemma StoredPayloadRoundTrip(p: Payload, cas: set<string>)
    requires StoredBy(PayloadToDict(p), OffloadRule()) <= cas
    ensures var r := Resolved(Offloaded(PayloadToDict(p)), cas);
      r.Success? && PayloadFromDict(PayloadTypeName(p), r.value) == Success(p)
  {
    hide PayloadToDict, HasInlineMarker, PayloadFromDict;
    PayloadHasNoMarker(p);
    ResolveOffloadedIff(PayloadToDict(p), cas);
    PayloadRoundTrip(p);
  }
}
