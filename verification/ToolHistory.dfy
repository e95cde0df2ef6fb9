/** What an accepted log says about tool calls: which were made, which were answered, and at what cost. */
module ToolHistory {
  import opened Results
  import opened Schema
  import opened Reducer
  import opened FoldFacts
  import opened Consistency

  function InvocationOf(e: HarnessEvent): ToolInvocation
    requires e.payload.ToolInvokedPayload?
  {
    var p := e.payload;
    ToolInvocation(p.invocationId, e.header.trajectoryId, e.header.actionId, p.parentTaskId, p.toolName,
                   p.arguments, p.dependencyIds, p.deadline, e.header.createdAt, EventProvenance(e))
  }

  function Invoked(e: HarnessEvent): seq<ToolInvocation> {
    if e.payload.ToolInvokedPayload? then [InvocationOf(e)] else []
  }

  function Answered(e: HarnessEvent): seq<ToolResult> {
    if e.payload.ToolResultReceivedPayload? && ParseToolStatus(e.payload.status).Some? then
      [ToolResult(e.payload.invocationId, e.payload.invocationId, e.header.trajectoryId,
                  ParseToolStatus(e.payload.status).value, e.payload.content, e.header.createdAt, EventProvenance(e))]
    else []
  }

  /** The invocations that a log makes, in order. */
  function LoggedInvocations(log: seq<HarnessEvent>): seq<ToolInvocation>
    decreases |log|
  {
    if log == [] then [] else LoggedInvocations(log[..|log| - 1]) + Invoked(log[|log| - 1])
  }

  /** The tool results that a log reports, in order. */
  function LoggedResults(log: seq<HarnessEvent>): seq<ToolResult>
    decreases |log|
  {
    if log == [] then [] else LoggedResults(log[..|log| - 1]) + Answered(log[|log| - 1])
  }

  /** The budget charges one tool call per invocation and nothing else; charging also makes a negative
    reservation zero. */
  ghost predicate Charged(before: Option<BudgetLedger>, after: Option<BudgetLedger>, calls: nat) {
    match before
    case None => after.None?
    case Some(b) =>
      after == Some(b.(toolCallsUsed := b.toolCallsUsed + calls,
                       tokensReserved := if calls > 0 && b.tokensReserved < 0 then 0 else b.tokensReserved))
  }

  lemma ReduceTools(s: Snapshot, e: HarnessEvent, now: Time)
    requires ReduceEvent(s, e, now).Success?
    ensures var r := ReduceEvent(s, e, now).value;
      && r.toolInvocations == s.toolInvocations + Invoked(e)
      && r.toolResults == s.toolResults + Answered(e)
      && Charged(s.budget, r.budget, |Invoked(e)|)
    ensures e.payload.ToolInvokedPayload? ==> e.payload.invocationId !in InvocationIds(s.toolInvocations)
    ensures e.payload.ToolResultReceivedPayload? ==>
              && e.payload.invocationId in InvocationIds(s.toolInvocations)
              && e.payload.invocationId !in ResultIds(s.toolResults)
              && ParseToolStatus(e.payload.status).Some?
  {
    hide HandleToolInvoked, HandleToolResultReceived, InvocationIds, ResultIds, ParseToolStatus, Advanced, Charged,
      Handle;
    if e.payload.ToolInvokedPayload? {
      InvokedTools(s, e, now);
    } else if e.payload.ToolResultReceivedPayload? {
      AnsweredTools(s, e, now);
    } else {
      OtherTools(s, e, now);
    }
  }

  lemma InvokedTools(s: Snapshot, e: HarnessEvent, now: Time)
    requires e.payload.ToolInvokedPayload? && Handle(s, e, now).Success?
    ensures var r := Handle(s, e, now).value;
      && r.toolInvocations == s.toolInvocations + Invoked(e)
      && r.toolResults == s.toolResults + Answered(e)
      && Charged(s.budget, r.budget, |Invoked(e)|)
    ensures e.payload.invocationId !in InvocationIds(s.toolInvocations)
  {
    hide ParseToolStatus, InvocationIds;
  }

  lemma AnsweredTools(s: Snapshot, e: HarnessEvent, now: Time)
    requires e.payload.ToolResultReceivedPayload? && Handle(s, e, now).Success?
    ensures var r := Handle(s, e, now).value;
      && r.toolInvocations == s.toolInvocations + Invoked(e)
      && r.toolResults == s.toolResults + Answered(e)
      && Charged(s.budget, r.budget, |Invoked(e)|)
    ensures e.payload.invocationId in InvocationIds(s.toolInvocations)
    ensures e.payload.invocationId !in ResultIds(s.toolResults)
    ensures ParseToolStatus(e.payload.status).Some?
  {
    hide ParseToolStatus, InvocationIds, ResultIds;
  }

  predicate OnEvidence(e: HarnessEvent) {
    e.payload.EvidenceCuratedPayload? || e.payload.EvidenceVerifiedPayload? || e.payload.EvidenceLinkedPayload?
      || e.payload.ClaimRevisedPayload? || e.payload.ClaimCreatedPayload?
  }

  /** The other handlers neither call tools nor spend. */
  lemma OtherTools(s: Snapshot, e: HarnessEvent, now: Time)
    requires !e.payload.ToolInvokedPayload? && !e.payload.ToolResultReceivedPayload? && Handle(s, e, now).Success?
    ensures var r := Handle(s, e, now).value;
      && r.toolInvocations == s.toolInvocations + Invoked(e)
      && r.toolResults == s.toolResults + Answered(e)
      && Charged(s.budget, r.budget, |Invoked(e)|)
  {
    hide Handle, Invoked, Answered, Charged;
    if OnEvidence(e) { EvidenceTools(s, e, now); } else { PlanningTools(s, e, now); }
  }

  lemma EvidenceTools(s: Snapshot, e: HarnessEvent, now: Time)
    requires OnEvidence(e) && Handle(s, e, now).Success?
    ensures var r := Handle(s, e, now).value;
      && r.toolInvocations == s.toolInvocations + Invoked(e)
      && r.toolResults == s.toolResults + Answered(e)
      && Charged(s.budget, r.budget, |Invoked(e)|)
  {
    hide IndexById, CandidateIds, CuratedIds, ClaimIds, LinkIds, RecordIds, Advanced;
  }

  lemma PlanningTools(s: Snapshot, e: HarnessEvent, now: Time)
    requires !e.payload.ToolInvokedPayload? && !e.payload.ToolResultReceivedPayload? && !OnEvidence(e)
    requires Handle(s, e, now).Success?
    ensures var r := Handle(s, e, now).value;
      && r.toolInvocations == s.toolInvocations + Invoked(e)
      && r.toolResults == s.toolResults + Answered(e)
      && Charged(s.budget, r.budget, |Invoked(e)|)
  {
    hide IndexById, Retain, CandidateIds, CuratedIds, TaskIds, SubmissionIds, Advanced;
  }

  /** The tool state of a snapshot is exactly what its log says. */
  lemma {:induction false} ToolsFollowLog(g: Snapshot, log: seq<HarnessEvent>, clock: Clock)
    requires Fold(g, log, clock).Success?
    ensures var s := Fold(g, log, clock).value;
      && s.toolInvocations == g.toolInvocations + LoggedInvocations(log)
      && s.toolResults == g.toolResults + LoggedResults(log)
      && Charged(g.budget, s.budget, |LoggedInvocations(log)|)
    decreases |log|
  {
    hide ReduceEvent, Invoked, Answered;
    if log != [] {
      var init, e := log[..|log| - 1], log[|log| - 1];
      ToolsFollowLog(g, init, clock);
      ReduceTools(Fold(g, init, clock).value, e, clock(e.header.sequence));
    }
  }

  ghost predicate InvokesAt(log: seq<HarnessEvent>, m: int, id: string) {
    0 <= m < |log| && log[m].payload.ToolInvokedPayload? && log[m].payload.invocationId == id
  }

  ghost predicate ReportsAt(log: seq<HarnessEvent>, n: int, id: string) {
    0 <= n < |log| && log[n].payload.ToolResultReceivedPayload? && log[n].payload.invocationId == id
  }

  ghost predicate SucceedsAt(log: seq<HarnessEvent>, n: int, id: string) {
    ReportsAt(log, n, id) && log[n].payload.status == "success"
  }

  ghost predicate InvokedBefore(log: seq<HarnessEvent>, n: int, id: string) {
    exists m :: m < n && InvokesAt(log, m, id)
  }

  ghost predicate SucceededBefore(log: seq<HarnessEvent>, n: int, id: string) {
    exists k :: k < n && SucceedsAt(log, k, id)
  }

  // ----- from the log to its records and back -----

  lemma {:induction false} InvocationIsLogged(log: seq<HarnessEvent>, m: int, id: string)
    requires InvokesAt(log, m, id)
    ensures id in InvocationIds(LoggedInvocations(log))
    decreases |log|
  {
    var init := log[..|log| - 1];
    var all := LoggedInvocations(log);
    if m < |init| {
      InvocationIsLogged(init, m, id);
      var i :| 0 <= i < |InvocationIds(LoggedInvocations(init))| && InvocationIds(LoggedInvocations(init))[i] == id;
      assert all[i].invocationId == id;
      assert InvocationIds(all)[i] == id;
    } else {
      assert InvocationIds(all)[|all| - 1] == id;
    }
  }

  lemma {:induction false} ResultIsLogged(log: seq<HarnessEvent>, n: int, id: string)
    requires ReportsAt(log, n, id) && ParseToolStatus(log[n].payload.status).Some?
    ensures id in ResultIds(LoggedResults(log))
    decreases |log|
  {
    hide ParseToolStatus;
    var init := log[..|log| - 1];
    var all := LoggedResults(log);
    if n < |init| {
      ResultIsLogged(init, n, id);
      var i :| 0 <= i < |ResultIds(LoggedResults(init))| && ResultIds(LoggedResults(init))[i] == id;
      assert all[i].invocationId == id;
      assert ResultIds(all)[i] == id;
    } else {
      assert ResultIds(all)[|all| - 1] == id;
    }
  }

  lemma {:induction false} LoggedInvocationHasEvent(log: seq<HarnessEvent>, v: ToolInvocation) returns (m: nat)
    requires v in LoggedInvocations(log)
    ensures InvokesAt(log, m, v.invocationId) && InvocationOf(log[m]) == v
    decreases |log|
  {
    if v in LoggedInvocations(log[..|log| - 1]) {
      m := LoggedInvocationHasEvent(log[..|log| - 1], v);
    } else {
      m := |log| - 1;
    }
  }

  lemma {:induction false} LoggedSuccessHasEvent(log: seq<HarnessEvent>, r: ToolResult) returns (n: nat)
    requires r in LoggedResults(log) && r.status.ToolSuccess?
    ensures SucceedsAt(log, n, r.invocationId)
    decreases |log|
  {
    if r in LoggedResults(log[..|log| - 1]) {
      n := LoggedSuccessHasEvent(log[..|log| - 1], r);
    } else {
      n := |log| - 1;
    }
  }

  /** The state that the n-th event of an accepted log was reduced in. */
  lemma EventContext(g: Snapshot, log: seq<HarnessEvent>, clock: Clock, n: int) returns (s: Snapshot)
    requires Fold(g, log, clock).Success? && 0 <= n < |log|
    ensures Fold(g, log[..n], clock) == Success(s) && ReduceEvent(s, log[n], clock(log[n].header.sequence)).Success?
  {
    hide ReduceEvent;
    FoldPrefix(g, log, n, clock);
    FoldPrefix(g, log, n + 1, clock);
    assert log[..n + 1][..n] == log[..n] && log[..n + 1][n] == log[n];
    s := Fold(g, log[..n], clock).value;
  }

  /** No invocation id is used twice. */
  lemma OneInvocation(g: Snapshot, log: seq<HarnessEvent>, clock: Clock, m: int, n: int, id: string)
    requires Fold(g, log, clock).Success? && InvokesAt(log, m, id) && InvokesAt(log, n, id)
    ensures m == n
  {
    hide Fold, ReduceEvent, LoggedInvocations, LoggedResults;
    if m != n {
      var first, second := if m < n then m else n, if m < n then n else m;
      var s := EventContext(g, log, clock, second);
      ReduceTools(s, log[second], clock(log[second].header.sequence));
      ToolsFollowLog(g, log[..second], clock);
      InvocationIsLogged(log[..second], first, id);
      InvocationIdsConcat(g.toolInvocations, LoggedInvocations(log[..second]));
      assert false;
    }
  }

  lemma InvocationIdsConcat(a: seq<ToolInvocation>, b: seq<ToolInvocation>)
    ensures InvocationIds(a + b) == InvocationIds(a) + InvocationIds(b)
  {
  }

  lemma ResultIdsConcat(a: seq<ToolResult>, b: seq<ToolResult>)
    ensures ResultIds(a + b) == ResultIds(a) + ResultIds(b)
  {
  }

  /** No invocation ever has two results. */
  lemma OneResult(g: Snapshot, log: seq<HarnessEvent>, clock: Clock, m: int, n: int, id: string)
    requires Fold(g, log, clock).Success? && ReportsAt(log, m, id) && ReportsAt(log, n, id)
    ensures m == n
  {
    hide Fold, ReduceEvent, LoggedInvocations, LoggedResults, ParseToolStatus;
    if m != n {
      var first, second := if m < n then m else n, if m < n then n else m;
      var s1 := EventContext(g, log, clock, first);
      ReduceTools(s1, log[first], clock(log[first].header.sequence));
      var s := EventContext(g, log, clock, second);
      ReduceTools(s, log[second], clock(log[second].header.sequence));
      ToolsFollowLog(g, log[..second], clock);
      ResultIsLogged(log[..second], first, id);
      ResultIdsConcat(g.toolResults, LoggedResults(log[..second]));
      assert false;
    }
  }

  /** A result never comes before the invocation that it answers. */
  lemma ResultFollowsInvocation(g: Snapshot, log: seq<HarnessEvent>, clock: Clock, n: int, id: string)
    requires g.toolInvocations == []
    requires Fold(g, log, clock).Success? && ReportsAt(log, n, id)
    ensures InvokedBefore(log, n, id)
  {
    hide Fold, ReduceEvent, LoggedInvocations, LoggedResults, ParseToolStatus;
    var s := EventContext(g, log, clock, n);
    ReduceTools(s, log[n], clock(log[n].header.sequence));
    ToolsFollowLog(g, log[..n], clock);
    var i :| 0 <= i < |s.toolInvocations| && s.toolInvocations[i].invocationId == id;
    assert s.toolInvocations[i] in LoggedInvocations(log[..n]);
    var m := LoggedInvocationHasEvent(log[..n], s.toolInvocations[i]);
    assert InvokesAt(log, m, id);
  }
}
