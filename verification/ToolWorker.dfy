/** tool_worker.py: what one call computes, and the parts that change the worker or the store. */
module ToolWorker {
  import opened Results
  import opened Schema
  import opened Reducer
  import opened StoreTables
  import opened EventStore
  import opened Subsequences

  // ----- what one call computes -----

  /** What one execution meets outside: the security profile, the wall clock and the tool itself. */
  datatype Conditions = Conditions(toolAllowed: bool, pathAllowed: bool, now: Time, run: Result<string, string>)

  function MakeResult(id: string, status: string, content: string): ProposedEvent {
    ProposedEvent(ToolResultReceived, ToolResultReceivedPayload(id, status, content),
                  "result-" + id + "-" + status, "tool_worker", "tool-worker-" + id, None)
  }

  /** dict(arguments).get(name): the last entry wins. */
  function Argument(arguments: seq<(string, string)>, name: string): Option<string>
    decreases |arguments|
  {
    if arguments == [] then None
    else if arguments[|arguments| - 1].0 == name then Some(arguments[|arguments| - 1].1)
    else Argument(arguments[..|arguments| - 1], name)
  }

  function PathArgument(arguments: seq<(string, string)>): string {
    var source, path := Argument(arguments, "source_id"), Argument(arguments, "path");
    if source.Some? && source.value != "" then source.value else if path.Some? then path.value else ""
  }

  function FindInvocation(calls: seq<ToolInvocation>, id: string): (r: Option<ToolInvocation>)
    ensures r.Some? ==> r.value in calls && r.value.invocationId == id
  {
    if calls == [] then None
    else if calls[0].invocationId == id then Some(calls[0])
    else FindInvocation(calls[1..], id)
  }

  /** The entry of the result map: a later result would replace an earlier one. */
  function StatusIn(results: seq<ToolResult>, id: string): (r: Option<ToolStatus>)
    ensures r.Some? ==> exists i :: 0 <= i < |results| && results[i].invocationId == id && results[i].status == r.value
    decreases |results|
  {
    if results == [] then None
    else if results[|results| - 1].invocationId == id then Some(results[|results| - 1].status)
    else StatusIn(results[..|results| - 1], id)
  }

  predicate DependenciesSucceeded(s: Snapshot, deps: seq<string>) {
    forall dep :: dep in deps ==> StatusIn(s.toolResults, dep) == Some(ToolSuccess)
  }

  /** _find_pending_invocations */
  function FindPending(calls: seq<ToolInvocation>, done: seq<string>): seq<string>
    decreases |calls|
  {
    if calls == [] then []
    else
      var init, last := FindPending(calls[..|calls| - 1], done), calls[|calls| - 1].invocationId;
      if last !in done then init + [last] else init
  }

  /** _execute_one after the lease: no result while a dependency has not succeeded, one result otherwise. */
  function ExecuteOne(s: Snapshot, id: string, c: Conditions): Option<ProposedEvent> {
    match FindInvocation(s.toolInvocations, id)
    case None => None
    case Some(inv) =>
      if id in ResultIds(s.toolResults) then None
      else if !c.toolAllowed then
        Some(MakeResult(id, "failure", "Tool '" + inv.toolName + "' not allowed by security profile"))
      else if inv.toolName == "read_file" && !c.pathAllowed then
        Some(MakeResult(id, "failure", "Path '" + PathArgument(inv.arguments) + "' is outside the allowed workspace"))
      else if !DependenciesSucceeded(s, inv.dependencyIds) then None
      else if inv.deadline.Some? && c.now > inv.deadline.value then Some(MakeResult(id, "timeout", "deadline exceeded"))
      else
        match c.run
        case Success(content) => Some(MakeResult(id, "success", content))
        case Failure(message) => Some(MakeResult(id, "failure", message))
  }

  function AnsweredIds(s: Snapshot): set<string> {
    set id | id in ResultIds(s.toolResults)
  }

  predicate IsResult(outcome: Option<ProposedEvent>) {
    outcome.Some? && outcome.value.payload.ToolResultReceivedPayload?
  }

  /** The proposals that survive the second reading: results of invocations not yet answered, one each. */
  function ValidProposals(outcomes: seq<Option<ProposedEvent>>, completed: set<string>): seq<ProposedEvent> {
    if outcomes == [] then []
    else if IsResult(outcomes[0]) && outcomes[0].value.payload.invocationId !in completed then
      [outcomes[0].value] + ValidProposals(outcomes[1..], completed + {outcomes[0].value.payload.invocationId})
    else ValidProposals(outcomes[1..], completed)
  }

  ghost predicate OutcomeOf(outcomes: seq<Option<ProposedEvent>>, p: ProposedEvent) {
    p.payload.ToolResultReceivedPayload? && exists k :: 0 <= k < |outcomes| && outcomes[k] == Some(p)
  }

  ghost predicate Answers(ps: seq<ProposedEvent>, id: string) {
    exists i :: 0 <= i < |ps| && ps[i].payload.ToolResultReceivedPayload? && ps[i].payload.invocationId == id
  }

  /** Only outcomes are proposed, at most one for an invocation and none for an answered one, and an outcome
    is dropped only if its invocation is answered or proposed. */
  ghost predicate Filters(outcomes: seq<Option<ProposedEvent>>, completed: set<string>, ps: seq<ProposedEvent>) {
    && (forall i :: 0 <= i < |ps| ==> OutcomeOf(outcomes, ps[i]) && ps[i].payload.invocationId !in completed)
    && (forall i, j :: 0 <= i < j < |ps| ==> ps[i].payload.invocationId != ps[j].payload.invocationId)
    && (forall k :: 0 <= k < |outcomes| && IsResult(outcomes[k]) ==>
          outcomes[k].value.payload.invocationId in completed || Answers(ps, outcomes[k].value.payload.invocationId))
  }

  lemma {:induction false} ValidProposalsFilter(outcomes: seq<Option<ProposedEvent>>, completed: set<string>)
    ensures Filters(outcomes, completed, ValidProposals(outcomes, completed))
  {
    hide Filters;
    if outcomes == [] {
      NothingToFilter(completed);
    } else if IsResult(outcomes[0]) && outcomes[0].value.payload.invocationId !in completed {
      var id := outcomes[0].value.payload.invocationId;
      ValidProposalsFilter(outcomes[1..], completed + {id});
      ProposeFirst(outcomes, completed, id, ValidProposals(outcomes[1..], completed + {id}));
    } else {
      ValidProposalsFilter(outcomes[1..], completed);
      SkipFirst(outcomes, completed, ValidProposals(outcomes[1..], completed));
    }
  }

  lemma NothingToFilter(completed: set<string>)
    ensures Filters([], completed, [])
  {
  }

  lemma LaterOutcome(outcomes: seq<Option<ProposedEvent>>, p: ProposedEvent)
    requires outcomes != [] && OutcomeOf(outcomes[1..], p)
    ensures OutcomeOf(outcomes, p)
  {
    var k :| 0 <= k < |outcomes[1..]| && outcomes[1..][k] == Some(p);
    assert outcomes[k + 1] == Some(p);
  }

  lemma SkipFirst(outcomes: seq<Option<ProposedEvent>>, completed: set<string>, ps: seq<ProposedEvent>)
    requires outcomes != [] && Filters(outcomes[1..], completed, ps)
    requires IsResult(outcomes[0]) ==> outcomes[0].value.payload.invocationId in completed
    ensures Filters(outcomes, completed, ps)
  {
    hide Answers, OutcomeOf;
    forall i | 0 <= i < |ps| ensures OutcomeOf(outcomes, ps[i]) { LaterOutcome(outcomes, ps[i]); }
    forall i | 0 <= i < |ps| ensures ps[i].payload.ToolResultReceivedPayload? { OutcomeIsResult(outcomes, ps[i]); }
    forall k | 0 <= k < |outcomes| && IsResult(outcomes[k])
      ensures outcomes[k].value.payload.invocationId in completed || Answers(ps, outcomes[k].value.payload.invocationId)
    {
      if k > 0 { assert outcomes[k] == outcomes[1..][k - 1]; }
    }
  }

  lemma OutcomeIsResult(outcomes: seq<Option<ProposedEvent>>, p: ProposedEvent)
    requires OutcomeOf(outcomes, p)
    ensures p.payload.ToolResultReceivedPayload?
  {
  }

  lemma ProposeFirst(outcomes: seq<Option<ProposedEvent>>, completed: set<string>, id: string, tail: seq<ProposedEvent>)
    requires outcomes != [] && IsResult(outcomes[0]) && outcomes[0].value.payload.invocationId == id && id !in completed
    requires Filters(outcomes[1..], completed + {id}, tail)
    ensures Filters(outcomes, completed, [outcomes[0].value] + tail)
  {
    var ps := [outcomes[0].value] + tail;
    forall i | 0 <= i < |ps|
      ensures OutcomeOf(outcomes, ps[i]) && (i > 0 ==> ps[i].payload.invocationId !in completed + {id})
    {
      if i > 0 {
        assert ps[i] == tail[i - 1];
        LaterOutcome(outcomes, tail[i - 1]);
      } else {
        assert outcomes[0] == Some(ps[0]);
      }
    }
    forall k | 0 <= k < |outcomes| && IsResult(outcomes[k])
      ensures outcomes[k].value.payload.invocationId in completed || Answers(ps, outcomes[k].value.payload.invocationId)
    {
      var other := outcomes[k].value.payload.invocationId;
      if other == id {
        assert ps[0].payload.invocationId == id;
      } else {
        assert outcomes[k] == outcomes[1..][k - 1];
        AnswersLonger(outcomes[0].value, tail, completed, id, other);
      }
    }
  }

  lemma AnswersLonger(first: ProposedEvent, tail: seq<ProposedEvent>, completed: set<string>, id: string, other: string)
    requires other in completed + {id} || Answers(tail, other)
    requires other != id
    ensures other in completed || Answers([first] + tail, other)
  {
    if Answers(tail, other) {
      var i :| 0 <= i < |tail| && tail[i].payload.ToolResultReceivedPayload? && tail[i].payload.invocationId == other;
      assert ([first] + tail)[i + 1].payload.invocationId == other;
    }
  }

  // ----- what an execution records -----

  lemma SuccessNeedsDependencies(s: Snapshot, id: string, c: Conditions)
    requires ExecuteOne(s, id, c).Some?
    ensures var p := ExecuteOne(s, id, c).value;
      && p.payload.ToolResultReceivedPayload? && p.payload.invocationId == id
      && id !in ResultIds(s.toolResults)
      && (p.payload.status == "success" ==>
            exists inv ::
                inv in s.toolInvocations && inv.invocationId == id && DependenciesSucceeded(s, inv.dependencyIds))
  {
    hide DependenciesSucceeded;
    var inv := FindInvocation(s.toolInvocations, id).value;
    assert inv in s.toolInvocations;
  }

  predicate Permitted(inv: ToolInvocation, c: Conditions) {
    c.toolAllowed && (inv.toolName == "read_file" ==> c.pathAllowed)
  }

  /** The first invocation with the id, and none that has a result. */
  ghost predicate Unanswered(s: Snapshot, id: string, inv: ToolInvocation) {
    && (exists k :: 0 <= k < |s.toolInvocations| && s.toolInvocations[k] == inv && inv.invocationId == id
                    && forall j :: 0 <= j < k ==> s.toolInvocations[j].invocationId != id)
    && forall i :: 0 <= i < |s.toolResults| ==> s.toolResults[i].invocationId != id
  }

  /** The last result of the invocation, if any, says success. */
  ghost predicate LastlySucceeded(results: seq<ToolResult>, id: string) {
    exists i :: 0 <= i < |results| && results[i].invocationId == id && results[i].status == ToolSuccess
                && forall j :: i < j < |results| ==> results[j].invocationId != id
  }

  ghost predicate Ready(s: Snapshot, inv: ToolInvocation) {
    forall dep :: dep in inv.dependencyIds ==> LastlySucceeded(s.toolResults, dep)
  }

  predicate Late(inv: ToolInvocation, c: Conditions) {
    inv.deadline.Some? && c.now > inv.deadline.value
  }

  lemma {:induction false} StatusInIff(results: seq<ToolResult>, id: string)
    ensures StatusIn(results, id) == Some(ToolSuccess) <==> LastlySucceeded(results, id)
    decreases |results|
  {
    if results != [] {
      hide LastlySucceeded;
      var n := |results| - 1;
      StatusInIff(results[..n], id);
      LastlySucceededStep(results[..n], results[n], id);
      assert results == results[..n] + [results[n]];
    } else {
      assert !LastlySucceeded(results, id);
    }
  }

  lemma LastlySucceededStep(init: seq<ToolResult>, last: ToolResult, id: string)
    ensures LastlySucceeded(init + [last], id) <==>
              if last.invocationId == id then last.status == ToolSuccess else LastlySucceeded(init, id)
  {
    var n, all := |init|, init + [last];
    assert all[n] == last && forall i :: 0 <= i < n ==> all[i] == init[i];
    if last.invocationId != id && LastlySucceeded(init, id) {
      var i :| 0 <= i < n && init[i].invocationId == id && init[i].status == ToolSuccess
               && forall j :: i < j < n ==> init[j].invocationId != id;
      assert all[i].invocationId == id;
    }
  }

  lemma {:induction false} FindInvocationFirst(calls: seq<ToolInvocation>, id: string)
    ensures var r := FindInvocation(calls, id);
      && (r.None? ==> forall j :: 0 <= j < |calls| ==> calls[j].invocationId != id)
      && (r.Some? ==> exists k :: 0 <= k < |calls| && calls[k] == r.value && calls[k].invocationId == id
                                  && forall j :: 0 <= j < k ==> calls[j].invocationId != id)
  {
    if calls != [] {
      var rest := calls[1..];
      if calls[0].invocationId == id {
        assert calls[0] == FindInvocation(calls, id).value;
      } else {
        FindInvocationFirst(rest, id);
        var r := FindInvocation(rest, id);
        assert forall j :: 0 < j < |calls| ==> calls[j] == rest[j - 1];
        if r.Some? {
          var k :| 0 <= k < |rest| && rest[k] == r.value && rest[k].invocationId == id
                   && forall j :: 0 <= j < k ==> rest[j].invocationId != id;
          assert calls[k + 1] == r.value;
        }
      }
    }
  }

  lemma {:induction false} FindsTheFirst(calls: seq<ToolInvocation>, id: string, k: nat)
    requires k < |calls| && calls[k].invocationId == id && forall j :: 0 <= j < k ==> calls[j].invocationId != id
    ensures FindInvocation(calls, id) == Some(calls[k])
    decreases k
  {
    if k > 0 { FindsTheFirst(calls[1..], id, k - 1); }
  }

  /** dict(arguments).get(name) is the last value under the name. */
  lemma {:induction false} ArgumentIsLast(arguments: seq<(string, string)>, name: string)
    ensures var r := Argument(arguments, name);
      && (r.None? ==> forall j :: 0 <= j < |arguments| ==> arguments[j].0 != name)
      && (r.Some? ==> exists k :: 0 <= k < |arguments| && arguments[k] == (name, r.value)
                                  && forall j :: k < j < |arguments| ==> arguments[j].0 != name)
    decreases |arguments|
  {
    if arguments != [] {
      var n := |arguments| - 1;
      if arguments[n].0 == name {
        assert arguments[n] == (name, Argument(arguments, name).value);
      } else {
        ArgumentIsLast(arguments[..n], name);
        var r := Argument(arguments[..n], name);
        if r.Some? {
          var k :| 0 <= k < n && arguments[..n][k] == (name, r.value)
                   && forall j :: k < j < n ==> arguments[..n][j].0 != name;
          assert arguments[k] == (name, r.value);
          assert forall j :: k < j < n ==> arguments[j] == arguments[..n][j];
        }
      }
    }
  }

  lemma PathArgumentIs(arguments: seq<(string, string)>)
    ensures var source, path := Argument(arguments, "source_id"), Argument(arguments, "path");
      && (source.Some? && source.value != "" ==> PathArgument(arguments) == source.value)
      && ((source.None? || source.value == "") && path.Some? ==> PathArgument(arguments) == path.value)
      && ((source.None? || source.value == "") && path.None? ==> PathArgument(arguments) == "")
  {
  }

  /** Nothing is recorded without an unanswered invocation, or while a permitted one waits for a dependency. */
  lemma ExecutionRecordsNothing(s: Snapshot, id: string, c: Conditions)
    ensures ExecuteOne(s, id, c).None? <==>
            forall inv :: Unanswered(s, id, inv) ==> Permitted(inv, c) && !Ready(s, inv)
  {
    hide StatusIn, LastlySucceeded, PathArgument;
    FindInvocationFirst(s.toolInvocations, id);
    forall dep ensures StatusIn(s.toolResults, dep) == Some(ToolSuccess) <==> LastlySucceeded(s.toolResults, dep) {
      StatusInIff(s.toolResults, dep);
    }
    forall inv | Unanswered(s, id, inv) ensures FindInvocation(s.toolInvocations, id) == Some(inv) {
      var k :| 0 <= k < |s.toolInvocations| && s.toolInvocations[k] == inv
               && forall j :: 0 <= j < k ==> s.toolInvocations[j].invocationId != id;
      FindsTheFirst(s.toolInvocations, id, k);
    }
    assert forall i :: 0 <= i < |s.toolResults| ==> ResultIds(s.toolResults)[i] == s.toolResults[i].invocationId;
    if ExecuteOne(s, id, c).Some? {
      assert Unanswered(s, id, FindInvocation(s.toolInvocations, id).value);
    } else if inv :| Unanswered(s, id, inv) && !(Permitted(inv, c) && !Ready(s, inv)) {
      assert FindInvocation(s.toolInvocations, id) == Some(inv);
    }
  }

  /** What is recorded, in every other case: the refusal of the profile by name, the passed deadline, the exact
    output of the tool, or the exact message of its error, under the key of this invocation and status. */
  lemma ExecutionRecords(s: Snapshot, id: string, c: Conditions, inv: ToolInvocation)
    requires Unanswered(s, id, inv) && (Permitted(inv, c) ==> Ready(s, inv))
    ensures ExecuteOne(s, id, c).Some?
    ensures var p := ExecuteOne(s, id, c).value;
      && p.eventType == ToolResultReceived && p.payload.ToolResultReceivedPayload?
      && p.payload.invocationId == id && p.idempotencyKey == "result-" + id + "-" + p.payload.status
      && p.actor == "tool_worker" && p.actionId == "tool-worker-" + id && p.parentEventId.None?
      && p.payload ==
         if !c.toolAllowed then
           ToolResultReceivedPayload(id, "failure", "Tool '" + inv.toolName + "' not allowed by security profile")
         else if inv.toolName == "read_file" && !c.pathAllowed then
           ToolResultReceivedPayload(id, "failure",
             "Path '" + PathArgument(inv.arguments) + "' is outside the allowed workspace")
         else if Late(inv, c) then ToolResultReceivedPayload(id, "timeout", "deadline exceeded")
         else if c.run.Success? then ToolResultReceivedPayload(id, "success", c.run.value)
         else ToolResultReceivedPayload(id, "failure", c.run.error)
  {
    hide StatusIn, LastlySucceeded, PathArgument;
    var k :| 0 <= k < |s.toolInvocations| && s.toolInvocations[k] == inv
             && forall j :: 0 <= j < k ==> s.toolInvocations[j].invocationId != id;
    FindsTheFirst(s.toolInvocations, id, k);
    forall dep | LastlySucceeded(s.toolResults, dep) ensures StatusIn(s.toolResults, dep) == Some(ToolSuccess) {
      StatusInIff(s.toolResults, dep);
    }
  }

  /** Success means that the tool was permitted, ready, in time, and returned exactly the content; a timeout that
    it was permitted, ready and late; a failure that it was refused, or raised exactly the content. */
  ghost predicate Reports(s: Snapshot, id: string, c: Conditions, p: Payload) {
    exists inv :: Unanswered(s, id, inv)
      && p.ToolResultReceivedPayload? && p.invocationId == id
      && (p.status == "success" <==>
            Permitted(inv, c) && Ready(s, inv) && !Late(inv, c) && c.run == Success(p.content))
      && (p.status == "timeout" <==> Permitted(inv, c) && Ready(s, inv) && Late(inv, c))
      && (p.status == "failure" <==>
            !Permitted(inv, c) || (Ready(s, inv) && !Late(inv, c) && c.run == Failure(p.content)))
      && p.status in {"success", "timeout", "failure"}
  }

  lemma ExecutionOutcome(s: Snapshot, id: string, c: Conditions)
    ensures ExecuteOne(s, id, c).Some? ==>
      var p := ExecuteOne(s, id, c).value;
      && Reports(s, id, c, p.payload)
      && p.eventType == ToolResultReceived && p.idempotencyKey == "result-" + id + "-" + p.payload.status
      && p.actor == "tool_worker" && p.actionId == "tool-worker-" + id && p.parentEventId.None?
  {
    hide ExecuteOne, Unanswered, Ready, PathArgument;
    assert "failure"[0] != "success"[0] && "timeout"[0] != "success"[0] && "failure"[0] != "timeout"[0];
    if ExecuteOne(s, id, c).Some? {
      ExecutionRecordsNothing(s, id, c);
      var inv :| Unanswered(s, id, inv) && (Permitted(inv, c) ==> Ready(s, inv));
      ExecutionRecords(s, id, c, inv);
      var p := ExecuteOne(s, id, c).value.payload;
      assert Unanswered(s, id, inv) && p.invocationId == id;
    }
  }

  // ----- the lists of a call, by position -----

  /** The pending invocations are those without a result, in order. */
  ghost predicate PendingAt(calls: seq<ToolInvocation>, done: seq<string>, ks: seq<nat>, r: seq<string>) {
    && PickedAt(InvocationIds(calls), ks, r)
    && forall k :: 0 <= k < |calls| ==> (k in ks <==> calls[k].invocationId !in done)
  }

  lemma PendingStep(
    calls: seq<ToolInvocation>, done: seq<string>, ks: seq<nat>, r: seq<string>, call: ToolInvocation, pending: bool)
    requires PendingAt(calls, done, ks, r) && (pending <==> call.invocationId !in done)
    ensures PendingAt(calls + [call], done, if pending then ks + [|calls|] else ks,
                      if pending then r + [call.invocationId] else r)
  {
    hide PickedAt;
    PickNext(InvocationIds(calls), ks, r, call.invocationId, pending);
    assert InvocationIds(calls + [call]) == InvocationIds(calls) + [call.invocationId];
  }

  lemma NothingPending(done: seq<string>)
    ensures PendingAt([], done, [], [])
  {
  }

  lemma {:induction false} FindPendingExact(calls: seq<ToolInvocation>, done: seq<string>) returns (ks: seq<nat>)
    ensures PendingAt(calls, done, ks, FindPending(calls, done))
    decreases |calls|
  {
    hide PendingAt, InvocationIds;
    if calls == [] {
      ks := [];
      NothingPending(done);
    } else {
      var n := |calls| - 1;
      var r := FindPending(calls[..n], done);
      ks := FindPendingExact(calls[..n], done);
      PendingStep(calls[..n], done, ks, r, calls[n], calls[n].invocationId !in done);
      assert calls[..n] + [calls[n]] == calls;
      if calls[n].invocationId !in done { ks := ks + [n]; }
    }
  }

  /** A result for an invocation that is not answered and has no earlier result among the outcomes. */
  ghost predicate FirstResult(outcomes: seq<Option<ProposedEvent>>, answered: set<string>, k: nat)
    requires k < |outcomes|
  {
    && IsResult(outcomes[k]) && outcomes[k].value.payload.invocationId !in answered
    && forall j :: 0 <= j < k && IsResult(outcomes[j]) ==>
         outcomes[j].value.payload.invocationId != outcomes[k].value.payload.invocationId
  }

  /** The proposals are those first results, in order. */
  ghost predicate FilteredAt(
    outcomes: seq<Option<ProposedEvent>>, answered: set<string>, ks: seq<nat>, ps: seq<ProposedEvent>)
  {
    && |ps| == |ks|
    && (forall j :: 0 <= j < |ks| ==> ks[j] < |outcomes| && outcomes[ks[j]] == Some(ps[j]))
    && (forall i, j :: 0 <= i < j < |ks| ==> ks[i] < ks[j])
    && forall k :: 0 <= k < |outcomes| ==> (k in ks <==> FirstResult(outcomes, answered, k))
  }

  ghost predicate ResultBefore(outcomes: seq<Option<ProposedEvent>>, n: nat, id: string)
    requires n <= |outcomes|
  {
    exists j :: 0 <= j < n && IsResult(outcomes[j]) && outcomes[j].value.payload.invocationId == id
  }

  lemma OneMoreResult(outcomes: seq<Option<ProposedEvent>>, n: nat)
    requires n < |outcomes|
    ensures forall id {:trigger ResultBefore(outcomes, n + 1, id)} :: ResultBefore(outcomes, n + 1, id) <==>
              ResultBefore(outcomes, n, id) || (IsResult(outcomes[n]) && outcomes[n].value.payload.invocationId == id)
  {
    if IsResult(outcomes[n]) {
      assert ResultBefore(outcomes, n + 1, outcomes[n].value.payload.invocationId);
    }
  }

  lemma NothingFiltered(outcomes: seq<Option<ProposedEvent>>, answered: set<string>)
    ensures FilteredAt(outcomes[..0], answered, [], [])
  {
  }

  lemma FilterNext(
    outcomes: seq<Option<ProposedEvent>>, answered: set<string>, ks: seq<nat>, ps: seq<ProposedEvent>, i: nat,
    take: bool)
    requires i < |outcomes| && FilteredAt(outcomes[..i], answered, ks, ps)
    requires take <==> FirstResult(outcomes, answered, i)
    ensures take ==> FilteredAt(outcomes[..i + 1], answered, ks + [i], ps + [outcomes[i].value])
    ensures !take ==> FilteredAt(outcomes[..i + 1], answered, ks, ps)
  {
    var a, b := outcomes[..i], outcomes[..i + 1];
    assert forall j :: 0 <= j < i ==> a[j] == b[j];
    forall k | 0 <= k < i ensures FirstResult(a, answered, k) <==> FirstResult(b, answered, k) {}
    assert FirstResult(outcomes, answered, i) <==> FirstResult(b, answered, i);
    forall k | k in ks ensures k < i {
      var j :| 0 <= j < |ks| && ks[j] == k;
    }
  }

  // ----- the object -----

  /** The parts of ToolWorker that change its own state or the store's. */
  class ToolWorker {
    const store: SQLiteEventStore
    var leases: set<string>

    constructor (store: SQLiteEventStore)
      ensures this.store == store && leases == {}
    {
      this.store := store;
      leases := {};
    }

    method TryLease(id: string) returns (taken: bool)
      modifies this`leases
      ensures taken == (id !in old(leases)) && leases == old(leases) + {id}
    {
      taken := id !in leases;
      leases := leases + {id};
    }

    method ReleaseLeases(pending: seq<string>)
      modifies this`leases
      ensures leases == old(leases) - (set id | id in pending)
    {
      var i := 0;
      while i < |pending|
        invariant 0 <= i <= |pending|
        invariant leases == old(leases) - (set id | id in pending[..i])
      {
        leases := leases - {pending[i]};
        i := i + 1;
      }
      assert pending[..i] == pending;
    }

    method FilterProposals(
      outcomes: seq<Option<ProposedEvent>>, answered: set<string>) returns (valid: seq<ProposedEvent>)
      ensures valid == ValidProposals(outcomes, answered)
      ensures exists ks :: FilteredAt(outcomes, answered, ks, valid)
    {
      hide FilteredAt;
      var completed := answered;
      valid := [];
      ghost var ks: seq<nat> := [];
      NothingFiltered(outcomes, answered);
      var i := 0;
      while i < |outcomes|
        invariant 0 <= i <= |outcomes|
        invariant ValidProposals(outcomes, answered) == valid + ValidProposals(outcomes[i..], completed)
        invariant forall id :: id in completed <==> id in answered || ResultBefore(outcomes, i, id)
        invariant FilteredAt(outcomes[..i], answered, ks, valid)
      {
        assert outcomes[i..][1..] == outcomes[i + 1..];
        var take := IsResult(outcomes[i]) && outcomes[i].value.payload.invocationId !in completed;
        FilterNext(outcomes, answered, ks, valid, i, take);
        OneMoreResult(outcomes, i);
        if take {
          valid, ks := valid + [outcomes[i].value], ks + [i];
          completed := completed + {outcomes[i].value.payload.invocationId};
        }
        i := i + 1;
      }
      assert outcomes[..i] == outcomes;
    }

    /** _commit_results: a stale head is not an error, the next poll looks again. */
    method CommitResults(tid: string, sequence: int, headHash: Option<Hash>, proposals: seq<ProposedEvent>, env: Env)
      returns (r: Result<(), StoreError>)
      requires proposals != []
      modifies store`cache, store.db
      ensures old(store.db.writer) != null ==> r == Failure(DatabaseLocked) && unchanged(store.db)
      ensures old(store.db.writer) == null ==>
                var (t, q) := Commit(old(store.db.Content()), store.signingKey, tid, sequence, headHash, proposals,
                    env);
                store.db.Content() == t && (r.Success? <==> q.Success? || q == Failure(StaleContext))
    {
      hide Commit;
      var q := store.CommitEvents(tid, sequence, headHash, proposals, env);
      if q.Success? || q.error == StaleContext {
        r := Success(());
      } else {
        r := Failure(q.error);
      }
    }
  }
}
