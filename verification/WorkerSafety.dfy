/** Any number of overlapping process_pending calls over one shared log, as interleaved steps, and what
  every run of them keeps.

  A call reads a snapshot that may be old, leases and executes each pending invocation against
  another such snapshot, reads a third one, filters its results and commits them. Between any two
  of these steps other calls run and other clients commit.
 */
module WorkerSafety {
  import opened Results
  import opened Schema
  import opened Reducer
  import opened FoldFacts
  import opened Consistency
  import opened StoreTables
  import opened StoreFacts
  import opened CommitFacts
  import opened StoreTheorems
  import opened EventStore
  import opened ToolHistory
  import opened ToolWorker

  // ----- the machine -----

  datatype Task = Waiting | Leased | Finished(outcome: Option<ProposedEvent>)

  datatype Phase =
    | Gathering
    | Filtered(sequence: int, headHash: Option<Hash>, proposals: seq<ProposedEvent>)
    | Releasing(next: nat)
    | Stopped

  datatype Call = Call(tid: string, pending: seq<string>, tasks: seq<Task>, phase: Phase)

  /** One execution of an invocation: the snapshot that the task read and what it met outside. */
  datatype Execution = Execution(tid: string, id: string, seen: Snapshot, conditions: Conditions)

  /** `mine` records which positions of which logs were appended by a worker, `executions` what its tasks did. */
  datatype World = World(
    tables: Tables, leases: set<string>, calls: seq<Call>, mine: set<(string, int)>, executions: set<Execution>)

  predicate Busy(w: World, c: int) {
    0 <= c < |w.calls| && |w.calls[c].tasks| == |w.calls[c].pending|
  }

  /** A new call starts from a snapshot that some cache held or some replay produced. */
  ghost predicate BeginStep(w: World, u: World, tid: string, s: Snapshot) {
    && tid in w.tables.trajectories && PrefixFold(w.tables, tid, s)
    && var pending := FindPending(s.toolInvocations, ResultIds(s.toolResults));
       u == w.(calls := w.calls + [Call(tid, pending, seq(|pending|, i => Waiting), Gathering)])
  }

  /** A task takes the lease of its invocation, or gives up if somebody has it. */
  ghost predicate LeaseStep(w: World, u: World, c: int, i: int) {
    && Busy(w, c) && w.calls[c].phase.Gathering? && 0 <= i < |w.calls[c].tasks| && w.calls[c].tasks[i].Waiting?
    && var call, id := w.calls[c], w.calls[c].pending[i];
       if id in w.leases then u == w.(calls := w.calls[c := call.(tasks := call.tasks[i := Finished(None)])])
       else u == w.(calls := w.calls[c := call.(tasks := call.tasks[i := Leased])], leases := w.leases + {id})
  }

  /** A leased task reads a snapshot and decides; if the reading raises, gather records no proposal. */
  ghost predicate ExecuteStep(w: World, u: World, c: int, i: int, s: Snapshot, conditions: Conditions, raises: bool) {
    && Busy(w, c) && w.calls[c].phase.Gathering? && 0 <= i < |w.calls[c].tasks| && w.calls[c].tasks[i].Leased?
    && var call, id := w.calls[c], w.calls[c].pending[i];
       && call.tid in w.tables.trajectories && PrefixFold(w.tables, call.tid, s)
       && if raises then u == w.(calls := w.calls[c := call.(tasks := call.tasks[i := Finished(None)])])
          else u == w.(
              calls := w.calls[c := call.(tasks := call.tasks[i := Finished(ExecuteOne(s, id, conditions))])],
              executions := w.executions + {Execution(call.tid, id, s, conditions)})
  }

  ghost predicate Outcomes(tasks: seq<Task>, outcomes: seq<Option<ProposedEvent>>) {
    |outcomes| == |tasks| && forall i :: 0 <= i < |tasks| ==> tasks[i] == Finished(outcomes[i])
  }

  /** When all tasks are finished the call reads again and filters. */
  ghost predicate FilterStep(w: World, u: World, c: int, s: Snapshot, outcomes: seq<Option<ProposedEvent>>) {
    && Busy(w, c) && w.calls[c].phase.Gathering? && Outcomes(w.calls[c].tasks, outcomes)
    && var call := w.calls[c];
       && call.tid in w.tables.trajectories && PrefixFold(w.tables, call.tid, s)
       && u == w.(calls := w.calls[c := call.(phase :=
            Filtered(s.sequence, s.lastEventHash, ValidProposals(outcomes, AnsweredIds(s))))])
  }

  /** The call commits what it filtered, under the head of its last reading. Only a stale head is swallowed. */
  ghost predicate CommitStep(w: World, u: World, c: int, key: Option<string>, env: Env) {
    && Busy(w, c) && w.calls[c].phase.Filtered?
    && var call, phase := w.calls[c], w.calls[c].phase;
       var (t, r) := Commit(w.tables, key, call.tid, phase.sequence, phase.headHash, phase.proposals, env);
       && u.tables == t && u.leases == w.leases && u.executions == w.executions
       && u.mine == w.mine + (set n | |RowsOf(w.tables, call.tid)| < n <= |RowsOf(t, call.tid)| :: (call.tid, n))
       && u.calls == w.calls[c := call.(phase :=
            if r.Success? || phase.proposals == [] || r == Failure(StaleContext) then Releasing(0) else Stopped)]
  }

  /** Leases are popped whoever holds them. */
  ghost predicate ReleaseStep(w: World, u: World, c: int) {
    && Busy(w, c) && w.calls[c].phase.Releasing?
    && var call, n := w.calls[c], w.calls[c].phase.next;
       if n < |call.pending| then
         u == w.(leases := w.leases - {call.pending[n]}, calls := w.calls[c := call.(phase := Releasing(n + 1))])
       else u == w.(calls := w.calls[c := call.(phase := Stopped)])
  }

  /** An exception or a cancellation ends a call, with its leases still taken. */
  ghost predicate AbortStep(w: World, u: World, c: int) {
    0 <= c < |w.calls| && u == w.(calls := w.calls[c := w.calls[c].(phase := Stopped)])
  }

  /** Whatever other clients do to the database: it stays valid and keeps its history. */
  ghost predicate OtherStep(w: World, u: World, key: Option<string>) {
    u == w.(tables := u.tables) && ValidTables(u.tables, key) && Extends(w.tables, u.tables)
  }

  ghost predicate Next(w: World, u: World, key: Option<string>) {
    || (exists tid, s :: BeginStep(w, u, tid, s))
    || (exists c, i :: LeaseStep(w, u, c, i))
    || (exists c, i, s, conditions, raises :: ExecuteStep(w, u, c, i, s, conditions, raises))
    || (exists c, s, outcomes :: FilterStep(w, u, c, s, outcomes))
    || (exists c, env :: CommitStep(w, u, c, key, env))
    || (exists c :: ReleaseStep(w, u, c))
    || (exists c :: AbortStep(w, u, c))
    || OtherStep(w, u, key)
  }

  ghost predicate Run(ws: seq<World>, key: Option<string>) {
    && ws != [] && ValidTables(ws[0].tables, key) && ws[0].calls == [] && ws[0].mine == {} && ws[0].executions == {}
    && forall i :: 0 <= i < |ws| - 1 ==> Next(ws[i], ws[i + 1], key)
  }

  // ----- what makes a success result safe -----

  /** The dependencies of the invocation made at m all succeeded before n. */
  ghost predicate DependenciesDone(log: seq<HarnessEvent>, m: int, n: int)
    requires 0 <= m < |log| && log[m].payload.ToolInvokedPayload?
  {
    forall dep :: dep in log[m].payload.dependencyIds ==> SucceededBefore(log, n, dep)
  }

  ghost predicate ReadyBefore(log: seq<HarnessEvent>, n: int, id: string) {
    exists m :: m < n && InvokesAt(log, m, id) && DependenciesDone(log, m, n)
  }

  /** A proposal that may be appended to the log anywhere from now on. */
  ghost predicate SafeProposal(log: seq<HarnessEvent>, p: ProposedEvent) {
    && p.payload.ToolResultReceivedPayload?
    && (p.payload.status == "success" ==> ReadyBefore(log, |log|, p.payload.invocationId))
  }

  ghost predicate SafeResult(log: seq<HarnessEvent>, n: int) {
    && 0 <= n < |log| && log[n].payload.ToolResultReceivedPayload?
    && (log[n].payload.status == "success" ==> ReadyBefore(log, n, log[n].payload.invocationId))
  }

  ghost predicate SafeCall(t: Tables, call: Call) {
    && call.tid in t.trajectories
    && (forall i :: 0 <= i < |call.tasks| && call.tasks[i].Finished? && call.tasks[i].outcome.Some? ==>
          SafeProposal(Log(t, call.tid), call.tasks[i].outcome.value))
    && (call.phase.Filtered? ==>
          forall i :: 0 <= i < |call.phase.proposals| ==> SafeProposal(Log(t, call.tid), call.phase.proposals[i]))
  }

  ghost predicate Safe(w: World, key: Option<string>) {
    && ValidTables(w.tables, key)
    && (forall c :: 0 <= c < |w.calls| ==> SafeCall(w.tables, w.calls[c]))
    && (forall x :: x in w.mine ==> x.0 in w.tables.trajectories && SafeResult(Log(w.tables, x.0), x.1 - 1))
  }

  // ----- a longer log keeps everything safe -----

  lemma ReadyGrows(a: seq<HarnessEvent>, b: seq<HarnessEvent>, n: int, k: int, id: string)
    requires a <= b && n <= |a| && n <= k && ReadyBefore(a, n, id)
    ensures ReadyBefore(b, k, id)
  {
    var m :| m < n && InvokesAt(a, m, id) && DependenciesDone(a, m, n);
    assert InvokesAt(b, m, id);
    forall dep | dep in b[m].payload.dependencyIds ensures SucceededBefore(b, k, dep) {
      assert SucceededBefore(a, n, dep);
      var j :| j < n && SucceedsAt(a, j, dep);
      assert SucceedsAt(b, j, dep);
    }
  }

  lemma SafeProposalGrows(a: seq<HarnessEvent>, b: seq<HarnessEvent>, p: ProposedEvent)
    requires a <= b && SafeProposal(a, p)
    ensures SafeProposal(b, p)
  {
    hide ReadyBefore;
    if p.payload.status == "success" {
      ReadyGrows(a, b, |a|, |b|, p.payload.invocationId);
    }
  }

  lemma SafeResultGrows(a: seq<HarnessEvent>, b: seq<HarnessEvent>, n: int)
    requires a <= b && SafeResult(a, n)
    ensures SafeResult(b, n)
  {
    hide ReadyBefore;
    if a[n].payload.status == "success" {
      ReadyGrows(a, b, n, n, a[n].payload.invocationId);
    }
  }

  lemma LogGrows(t: Tables, u: Tables, tid: string)
    requires TrajectoryExtends(t, u, tid)
    ensures Log(t, tid) <= Log(u, tid) && tid in u.trajectories
  {
  }

  lemma SafeCallGrows(t: Tables, u: Tables, call: Call)
    requires SafeCall(t, call) && TrajectoryExtends(t, u, call.tid)
    ensures SafeCall(u, call)
  {
    hide SafeProposal, TrajectoryExtends, Log;
    var a, b := Log(t, call.tid), Log(u, call.tid);
    LogGrows(t, u, call.tid);
    forall i | 0 <= i < |call.tasks| && call.tasks[i].Finished? && call.tasks[i].outcome.Some?
      ensures SafeProposal(b, call.tasks[i].outcome.value)
    {
      SafeProposalGrows(a, b, call.tasks[i].outcome.value);
    }
    if call.phase.Filtered? {
      forall i | 0 <= i < |call.phase.proposals| ensures SafeProposal(b, call.phase.proposals[i]) {
        SafeProposalGrows(a, b, call.phase.proposals[i]);
      }
    }
  }

  /** Growth of the tables alone keeps a world safe. */
  lemma SafeGrows(w: World, u: Tables, key: Option<string>)
    requires Safe(w, key) && ValidTables(u, key) && Extends(w.tables, u)
    ensures Safe(w.(tables := u), key)
  {
    hide SafeCall, SafeResult, TrajectoryExtends, Log, ValidTables;
    forall c | 0 <= c < |w.calls| ensures SafeCall(u, w.calls[c]) {
      CallTrajectory(w.tables, w.calls[c]);
      assert TrajectoryExtends(w.tables, u, w.calls[c].tid);
      SafeCallGrows(w.tables, u, w.calls[c]);
    }
    forall x | x in w.mine ensures x.0 in u.trajectories && SafeResult(Log(u, x.0), x.1 - 1) {
      assert TrajectoryExtends(w.tables, u, x.0);
      LogGrows(w.tables, u, x.0);
      SafeResultGrows(Log(w.tables, x.0), Log(u, x.0), x.1 - 1);
    }
  }

  lemma CallTrajectory(t: Tables, call: Call)
    requires SafeCall(t, call)
    ensures call.tid in t.trajectories
  {
    hide SafeProposal;
  }

  // ----- why an execution is safe -----

  /** What an old snapshot shows is in the log. */
  lemma ReadyInLog(g: Snapshot, log: seq<HarnessEvent>, k: nat, s: Snapshot, inv: ToolInvocation)
    requires EmptyState(g) && k <= |log| && FoldsTo(g, log[..k], s)
    requires inv in s.toolInvocations && DependenciesSucceeded(s, inv.dependencyIds)
    ensures ReadyBefore(log, |log|, inv.invocationId)
  {
    hide Fold, LoggedInvocations, LoggedResults;
    var clock: Clock :| Fold(g, log[..k], clock) == Success(s);
    ToolsFollowLog(g, log[..k], clock);
    assert s.toolInvocations == LoggedInvocations(log[..k]) && s.toolResults == LoggedResults(log[..k]);
    var m := LoggedInvocationHasEvent(log[..k], inv);
    assert InvokesAt(log, m, inv.invocationId);
    forall dep | dep in log[m].payload.dependencyIds ensures SucceededBefore(log, |log|, dep) {
      assert StatusIn(s.toolResults, dep) == Some(ToolSuccess);
      var i :| 0 <= i < |s.toolResults| && s.toolResults[i].invocationId == dep
        && s.toolResults[i].status == ToolSuccess;
      var n := LoggedSuccessHasEvent(log[..k], s.toolResults[i]);
      assert SucceedsAt(log, n, dep);
    }
  }

  /** Whatever a task decides on an old snapshot is safe to append to the log as it is now. */
  lemma ExecutionIsSafe(t: Tables, key: Option<string>, tid: string, s: Snapshot, id: string, c: Conditions)
    requires tid in t.trajectories && ValidTrajectory(t, key, tid) && PrefixFold(t, tid, s)
    ensures var r := ExecuteOne(s, id, c); r.Some? ==> SafeProposal(Log(t, tid), r.value)
  {
    hide ExecuteOne, FoldsTo, KeysMatch, Authentic, RequestHashed, ValidCheckpoint, Accepted, DependenciesSucceeded,
      ReadyBefore;
    if ExecuteOne(s, id, c).Some? {
      SuccessNeedsDependencies(s, id, c);
      var p := ExecuteOne(s, id, c).value;
      if p.payload.status == "success" {
        var inv :| inv in s.toolInvocations && inv.invocationId == id && DependenciesSucceeded(s, inv.dependencyIds);
        ReadyInLog(Genesis(t, tid), Log(t, tid), s.sequence, s, inv);
      }
    }
  }

  // ----- why a commit is safe -----

  lemma {:induction false} NewProposalsAreProposals(ps: seq<ProposedEvent>)
    ensures forall p :: p in NewProposals(ps) ==> p in ps
    decreases |ps|
  {
    hide KeyAmong;
    if ps != [] {
      NewProposalsAreProposals(ps[..|ps| - 1]);
    }
  }

  /** Rows that carry safe proposals are safe results. */
  lemma AppendedResultsAreSafe(
    old_: seq<EventRow>, rows: seq<EventRow>, tid: string, ps: seq<ProposedEvent>, r: CommitResult, n: int)
    requires RowsAppended(old_, rows, tid, ps, r) && |old_| <= n < |rows|
    requires forall i :: 0 <= i < |ps| ==> SafeProposal(Events(old_), ps[i])
    ensures SafeResult(Events(rows), n)
  {
    hide ReadyBefore, NewProposals;
    var a, b := Events(old_), Events(rows);
    NewProposalsAreProposals(ps);
    var p := NewProposals(ps)[n - |old_|];
    assert Carries(rows[|old_|..][n - |old_|], p, tid, n + 1);
    assert p in ps;
    assert rows[n].event.payload == p.payload;
    assert a <= b by {
      forall i | 0 <= i < |a| ensures a[i] == b[i] { assert rows[..|old_|][i] == old_[i]; }
    }
    if p.payload.status == "success" {
      ReadyGrows(a, b, |a|, n, p.payload.invocationId);
    }
  }

  lemma AppendedIsSafe(t: Tables, u: Tables, tid: string, ps: seq<ProposedEvent>, r: CommitResult, n: int)
    requires Appends(t, u, tid, ps, r) && |RowsOf(t, tid)| < n <= |RowsOf(u, tid)|
    requires forall i :: 0 <= i < |ps| ==> SafeProposal(Log(t, tid), ps[i])
    ensures SafeResult(Log(u, tid), n - 1)
  {
    hide SafeProposal, SafeResult, RowsAppended, KeysAppended, CheckpointAppended, SameElsewhere;
    AppendedResultsAreSafe(RowsOf(t, tid), RowsOf(u, tid), tid, ps, r, n - 1);
  }

  lemma CommitIsSafe(
    t: Tables, key: Option<string>, tid: string, seq_: int, hash: Option<Hash>, ps: seq<ProposedEvent>, env: Env,
    n: int)
    requires ValidTables(t, key)
    requires forall i :: 0 <= i < |ps| ==> SafeProposal(Log(t, tid), ps[i])
    requires |RowsOf(t, tid)| < n <= |RowsOf(Commit(t, key, tid, seq_, hash, ps, env).0, tid)|
    ensures var u := Commit(t, key, tid, seq_, hash, ps, env).0;
      tid in u.trajectories && SafeResult(Log(u, tid), n - 1)
  {
    hide Commit, ValidTrajectory, SomeKeyUsed, SafeProposal, SafeResult, Appends, Log, AcceptedOnHead, HeadHash;
    UnappendedCommit(t, key, tid, seq_, hash, ps, env);
    AppendedCommit(t, key, tid, seq_, hash, ps, env);
    CommitStaysInTrajectories(t, key, tid, seq_, hash, ps, env);
    var (u, r) := Commit(t, key, tid, seq_, hash, ps, env);
    AppendedIsSafe(t, u, tid, ps, r.value, n);
  }

  // ----- every step keeps a world safe -----

  lemma BeginIsSafe(w: World, u: World, key: Option<string>, tid: string, s: Snapshot)
    requires Safe(w, key) && BeginStep(w, u, tid, s)
    ensures Safe(u, key)
  {
    hide PrefixFold, ValidTables, SafeProposal, SafeResult, Log;
  }

  lemma LeaseIsSafe(w: World, u: World, key: Option<string>, c: int, i: int)
    requires Safe(w, key) && LeaseStep(w, u, c, i)
    ensures Safe(u, key)
  {
    hide ValidTables, SafeProposal, SafeResult, Log;
    assert SafeCall(w.tables, w.calls[c]);
  }

  lemma ExecuteIsSafe(
    w: World, u: World, key: Option<string>, c: int, i: int, s: Snapshot, conditions: Conditions, raises: bool)
    requires Safe(w, key) && ExecuteStep(w, u, c, i, s, conditions, raises)
    ensures Safe(u, key)
  {
    hide ValidTrajectory, SafeProposal, SafeResult, Log, PrefixFold, ExecuteOne;
    assert SafeCall(w.tables, w.calls[c]);
    ExecutionIsSafe(w.tables, key, w.calls[c].tid, s, w.calls[c].pending[i], conditions);
  }

  lemma FilterIsSafe(w: World, u: World, key: Option<string>, c: int, s: Snapshot, outcomes: seq<Option<ProposedEvent>>)
    requires Safe(w, key) && FilterStep(w, u, c, s, outcomes)
    ensures Safe(u, key)
  {
    hide ValidTables, SafeProposal, SafeResult, Log, PrefixFold;
    assert SafeCall(w.tables, w.calls[c]);
    ValidProposalsFilter(outcomes, AnsweredIds(s));
    var ps := ValidProposals(outcomes, AnsweredIds(s));
    forall i | 0 <= i < |ps| ensures SafeProposal(Log(w.tables, w.calls[c].tid), ps[i]) {
      assert OutcomeOf(outcomes, ps[i]);
      var j :| 0 <= j < |outcomes| && outcomes[j] == Some(ps[i]);
      assert w.calls[c].tasks[j] == Finished(outcomes[j]);
    }
  }

  lemma CommitStepIsSafe(w: World, u: World, key: Option<string>, c: int, env: Env)
    requires Safe(w, key) && CommitStep(w, u, c, key, env)
    ensures Safe(u, key)
  {
    hide ValidTables, SafeProposal, SafeResult, Log, Commit, RowsOf, Extends;
    var call, phase := w.calls[c], w.calls[c].phase;
    var t := Commit(w.tables, key, call.tid, phase.sequence, phase.headHash, phase.proposals, env).0;
    assert SafeCall(w.tables, call);
    CommitKeepsTablesValid(w.tables, key, call.tid, phase.sequence, phase.headHash, phase.proposals, env);
    CommitExtends(w.tables, key, call.tid, phase.sequence, phase.headHash, phase.proposals, env);
    SafeGrows(w, t, key);
    assert SafeCall(t, call);
    forall x | x in u.mine ensures x.0 in t.trajectories && SafeResult(Log(t, x.0), x.1 - 1) {
      if x !in w.mine {
        CommitIsSafe(w.tables, key, call.tid, phase.sequence, phase.headHash, phase.proposals, env, x.1);
      }
    }
  }

  lemma EndingIsSafe(w: World, u: World, key: Option<string>, c: int)
    requires Safe(w, key) && (ReleaseStep(w, u, c) || AbortStep(w, u, c))
    ensures Safe(u, key)
  {
    hide ValidTables, SafeProposal, SafeResult, Log;
    assert SafeCall(w.tables, w.calls[c]);
  }

  lemma NextIsSafe(w: World, u: World, key: Option<string>)
    requires Safe(w, key) && Next(w, u, key)
    ensures Safe(u, key)
  {
    hide Safe, BeginStep, LeaseStep, ExecuteStep, FilterStep, CommitStep, ReleaseStep, AbortStep, ValidTables, Extends;
    if tid, s :| BeginStep(w, u, tid, s) {
      BeginIsSafe(w, u, key, tid, s);
    } else if c, i :| LeaseStep(w, u, c, i) {
      LeaseIsSafe(w, u, key, c, i);
    } else if c, i, s, conditions, raises :| ExecuteStep(w, u, c, i, s, conditions, raises) {
      ExecuteIsSafe(w, u, key, c, i, s, conditions, raises);
    } else if c, s, outcomes :| FilterStep(w, u, c, s, outcomes) {
      FilterIsSafe(w, u, key, c, s, outcomes);
    } else if c, env :| CommitStep(w, u, c, key, env) {
      CommitStepIsSafe(w, u, key, c, env);
    } else if c :| ReleaseStep(w, u, c) {
      EndingIsSafe(w, u, key, c);
    } else if c :| AbortStep(w, u, c) {
      EndingIsSafe(w, u, key, c);
    } else {
      SafeGrows(w, u.tables, key);
    }
  }

  lemma {:induction false} RunIsSafe(ws: seq<World>, key: Option<string>, i: nat)
    requires Run(ws, key) && i < |ws|
    ensures Safe(ws[i], key)
  {
    hide Next, ValidTables, SafeCall, SafeResult;
    if i > 0 {
      RunIsSafe(ws, key, i - 1);
      assert Next(ws[i - 1], ws[i - 1 + 1], key);
      NextIsSafe(ws[i - 1], ws[i], key);
    }
  }

  // ----- the main results, over every run -----

  ghost predicate DependsOn(log: seq<HarnessEvent>, id: string, dep: string) {
    exists m :: InvokesAt(log, m, id) && dep in log[m].payload.dependencyIds
  }

  /** The worker committed, at position n of the log, a success result for the invocation. */
  ghost predicate WorkerSucceeded(w: World, tid: string, id: string, n: int) {
    (tid, n + 1) in w.mine && SucceedsAt(Log(w.tables, tid), n, id)
  }

  lemma SafeResultOrder(g: Snapshot, log: seq<HarnessEvent>, clock: Clock, n: int, id: string, dep: string)
    requires Fold(g, log, clock).Success?
    requires SafeResult(log, n) && SucceedsAt(log, n, id) && DependsOn(log, id, dep)
    ensures SucceededBefore(log, n, dep)
  {
    hide Fold;
    var m :| InvokesAt(log, m, id) && dep in log[m].payload.dependencyIds;
    var k :| k < n && InvokesAt(log, k, id) && DependenciesDone(log, k, n);
    OneInvocation(g, log, clock, m, k, id);
  }

  /** The accepted run behind a valid log. */
  lemma LogAccepted(t: Tables, key: Option<string>, tid: string) returns (clock: Clock)
    requires ValidTables(t, key) && tid in t.trajectories
    ensures CheckpointsOf(t, tid) != [] && EmptyState(Genesis(t, tid))
    ensures Fold(Genesis(t, tid), Log(t, tid), clock).Success?
  {
    hide Fold, KeysMatch, Authentic, RequestHashed, ValidCheckpoint;
    assert ValidTrajectory(t, key, tid);
    var s :| FoldsTo(Genesis(t, tid), Log(t, tid), s);
    clock :| Fold(Genesis(t, tid), Log(t, tid), clock) == Success(s);
  }

  /** However calls, old snapshots and other commits interleave: a success result that the worker commits
    comes later in the log than a success result of every dependency of its invocation. */
  lemma SuccessFollowsDependencies(
    ws: seq<World>, key: Option<string>, i: nat, tid: string, n: int, id: string, dep: string)
    requires Run(ws, key) && i < |ws|
    requires WorkerSucceeded(ws[i], tid, id, n) && DependsOn(Log(ws[i].tables, tid), id, dep)
    ensures SucceededBefore(Log(ws[i].tables, tid), n, dep)
  {
    hide Run, Fold, ValidTables, SafeCall, SafeResult, SucceedsAt, DependsOn, SucceededBefore;
    RunIsSafe(ws, key, i);
    var clock := LogAccepted(ws[i].tables, key, tid);
    SafeResultOrder(Genesis(ws[i].tables, tid), Log(ws[i].tables, tid), clock, n, id, dep);
  }

  /** No invocation ever has two results in the log, from the worker or from anybody else. */
  lemma NoTwoResults(ws: seq<World>, key: Option<string>, i: nat, tid: string, m: int, n: int, id: string)
    requires Run(ws, key) && i < |ws| && tid in ws[i].tables.trajectories
    requires ReportsAt(Log(ws[i].tables, tid), m, id) && ReportsAt(Log(ws[i].tables, tid), n, id)
    ensures m == n
  {
    hide Run, Fold, ValidTables, SafeCall, SafeResult, ReportsAt;
    RunIsSafe(ws, key, i);
    var clock := LogAccepted(ws[i].tables, key, tid);
    OneResult(Genesis(ws[i].tables, tid), Log(ws[i].tables, tid), clock, m, n, id);
  }

  ghost predicate WorkerDone(w: World, tid: string, id: string) {
    exists n :: WorkerSucceeded(w, tid, id, n)
  }

  /** A chain of invocations, each depending on the next, all succeeded by the worker. */
  ghost predicate DependencyPath(w: World, tid: string, path: seq<string>) {
    && (forall j :: 0 <= j < |path| ==> WorkerDone(w, tid, path[j]))
    && (forall j :: 0 <= j < |path| - 1 ==> DependsOn(Log(w.tables, tid), path[j], path[j + 1]))
  }

  lemma PathTail(w: World, tid: string, path: seq<string>)
    requires |path| >= 2 && DependencyPath(w, tid, path)
    ensures DependencyPath(w, tid, path[1..])
  {
    hide Log, DependsOn, WorkerDone;
    forall j | 0 <= j < |path| - 2 ensures DependsOn(Log(w.tables, tid), path[1..][j], path[1..][j + 1]) {
      var k := j + 1;
      assert DependsOn(Log(w.tables, tid), path[k], path[k + 1]);
    }
  }

  /** Along such a chain the success results lie further and further back. */
  lemma {:induction false} DependencyPathGoesBack(
    ws: seq<World>, key: Option<string>, i: nat, tid: string, path: seq<string>, first: int, last: int)
    requires Run(ws, key) && i < |ws| && |path| >= 2 && DependencyPath(ws[i], tid, path)
    requires WorkerSucceeded(ws[i], tid, path[0], first) && WorkerSucceeded(ws[i], tid, path[|path| - 1], last)
    ensures last < first
    decreases |path|
  {
    hide Run, SucceedsAt, DependsOn, Log;
    var w := ws[i];
    var log := Log(w.tables, tid);
    assert DependsOn(log, path[0], path[0 + 1]);
    assert WorkerDone(w, tid, path[1]);
    var second :| WorkerSucceeded(w, tid, path[1], second);
    SuccessFollowsDependencies(ws, key, i, tid, first, path[0], path[1]);
    var k :| k < first && SucceedsAt(log, k, path[1]);
    WorkerTrajectory(ws, key, i, tid, first);
    SucceedsReports(log, k, path[1]);
    SucceedsReports(log, second, path[1]);
    NoTwoResults(ws, key, i, tid, k, second, path[1]);
    if |path| > 2 {
      PathTail(w, tid, path);
      DependencyPathGoesBack(ws, key, i, tid, path[1..], second, last);
    } else {
      SucceedsReports(log, last, path[1]);
      NoTwoResults(ws, key, i, tid, second, last, path[1]);
    }
  }

  lemma SucceedsReports(log: seq<HarnessEvent>, n: int, id: string)
    requires SucceedsAt(log, n, id)
    ensures ReportsAt(log, n, id)
  {
  }

  lemma WorkerTrajectory(ws: seq<World>, key: Option<string>, i: nat, tid: string, n: int)
    requires Run(ws, key) && i < |ws| && (tid, n + 1) in ws[i].mine
    ensures tid in ws[i].tables.trajectories
  {
    hide Run, ValidTables, SafeCall, SafeResult;
    RunIsSafe(ws, key, i);
  }

  /** So the invocations that the worker has succeeded never depend on each other in a circle. */
  lemma DependenciesAcyclic(ws: seq<World>, key: Option<string>, i: nat, tid: string, path: seq<string>)
    requires Run(ws, key) && i < |ws| && |path| >= 2 && DependencyPath(ws[i], tid, path)
    ensures path[0] != path[|path| - 1]
  {
    hide Run, WorkerSucceeded, DependsOn;
    assert WorkerDone(ws[i], tid, path[0]);
    var n :| WorkerSucceeded(ws[i], tid, path[0], n);
    if path[0] == path[|path| - 1] {
      DependencyPathGoesBack(ws, key, i, tid, path, n, n);
    }
  }
}
