/** Where the results that workers commit come from, over every run of their machine. */
module WorkerOutcomes {
  import opened Results
  import opened Schema
  import opened StoreTables
  import opened StoreFacts
  import opened CommitFacts
  import opened StoreTheorems
  import opened EventStore
  import opened ToolWorker
  import opened WorkerSafety

  ghost predicate Decided(executions: set<Execution>, tid: string, p: ProposedEvent) {
    exists x :: x in executions && x.tid == tid && ExecuteOne(x.seen, x.id, x.conditions) == Some(p)
  }

  ghost predicate DecidedCall(executions: set<Execution>, call: Call) {
    && (forall i :: 0 <= i < |call.tasks| && call.tasks[i].Finished? && call.tasks[i].outcome.Some? ==>
          Decided(executions, call.tid, call.tasks[i].outcome.value))
    && (call.phase.Filtered? ==>
          forall i :: 0 <= i < |call.phase.proposals| ==> Decided(executions, call.tid, call.phase.proposals[i]))
  }

  predicate EventCarries(e: HarnessEvent, p: ProposedEvent) {
    && e.payload == p.payload && e.header.idempotencyKey == p.idempotencyKey
    && e.header.actor == p.actor && e.header.actionId == p.actionId && e.header.parentEventId == p.parentEventId
  }

  ghost predicate DecidedEvent(executions: set<Execution>, log: seq<HarnessEvent>, tid: string, n: int) {
    0 <= n < |log| && exists p :: Decided(executions, tid, p) && EventCarries(log[n], p)
  }

  /** Whatever a call holds, and whatever a worker has committed, was decided by an execution of the run. */
  ghost predicate AllDecided(w: World) {
    && (forall c :: 0 <= c < |w.calls| ==> DecidedCall(w.executions, w.calls[c]))
    && (forall x :: x in w.mine ==> DecidedEvent(w.executions, Log(w.tables, x.0), x.0, x.1 - 1))
  }

  // ----- more executions and longer logs keep it -----

  lemma DecidedGrows(xs: set<Execution>, ys: set<Execution>)
    requires xs <= ys
    ensures forall tid, p :: Decided(xs, tid, p) ==> Decided(ys, tid, p)
  {
  }

  lemma EventGrows(
    xs: set<Execution>, ys: set<Execution>, a: seq<HarnessEvent>, b: seq<HarnessEvent>, tid: string, n: int)
    requires xs <= ys && a <= b && DecidedEvent(xs, a, tid, n)
    ensures DecidedEvent(ys, b, tid, n)
  {
    hide Decided;
    DecidedGrows(xs, ys);
    var p :| Decided(xs, tid, p) && EventCarries(a[n], p);
    assert Decided(ys, tid, p) && EventCarries(b[n], p);
  }

  lemma CallGrows(xs: set<Execution>, ys: set<Execution>, call: Call)
    requires xs <= ys && DecidedCall(xs, call)
    ensures DecidedCall(ys, call)
  {
    hide Decided;
    DecidedGrows(xs, ys);
  }

  /** The events of workers stay decided while the tables only grow. */
  lemma MineGrows(w: World, u: Tables)
    requires AllDecided(w) && Extends(w.tables, u)
    requires forall x :: x in w.mine ==> x.0 in w.tables.trajectories
    ensures forall x :: x in w.mine ==> DecidedEvent(w.executions, Log(u, x.0), x.0, x.1 - 1)
  {
    hide DecidedCall, DecidedEvent, TrajectoryExtends, Log;
    forall x | x in w.mine ensures DecidedEvent(w.executions, Log(u, x.0), x.0, x.1 - 1) {
      assert TrajectoryExtends(w.tables, u, x.0);
      LogGrows(w.tables, u, x.0);
      EventGrows(w.executions, w.executions, Log(w.tables, x.0), Log(u, x.0), x.0, x.1 - 1);
    }
  }

  // ----- every step keeps it -----

  lemma ExecuteIsDecided(
    w: World, u: World, c: int, i: int, s: Snapshot, conditions: Conditions, raises: bool)
    requires AllDecided(w) && ExecuteStep(w, u, c, i, s, conditions, raises)
    ensures AllDecided(u)
  {
    hide ExecuteOne, Log, PrefixFold, Decided, DecidedEvent;
    var call := w.calls[c];
    var x := Execution(call.tid, call.pending[i], s, conditions);
    assert DecidedCall(w.executions, call);
    if !raises && ExecuteOne(s, x.id, conditions).Some? {
      NewDecision(u.executions, x);
    }
    DecidedGrows(w.executions, u.executions);
    forall d | 0 <= d < |u.calls| ensures DecidedCall(u.executions, u.calls[d]) {
      if d != c { CallGrows(w.executions, u.executions, w.calls[d]); }
    }
    forall y | y in u.mine ensures DecidedEvent(u.executions, Log(u.tables, y.0), y.0, y.1 - 1) {
      EventGrows(w.executions, u.executions, Log(w.tables, y.0), Log(u.tables, y.0), y.0, y.1 - 1);
    }
  }

  lemma NewDecision(executions: set<Execution>, x: Execution)
    requires x in executions && ExecuteOne(x.seen, x.id, x.conditions).Some?
    ensures Decided(executions, x.tid, ExecuteOne(x.seen, x.id, x.conditions).value)
  {
  }

  lemma FilterIsDecided(w: World, u: World, c: int, s: Snapshot, outcomes: seq<Option<ProposedEvent>>)
    requires AllDecided(w) && FilterStep(w, u, c, s, outcomes)
    ensures AllDecided(u)
  {
    hide Log, PrefixFold, Decided, DecidedEvent;
    ValidProposalsFilter(outcomes, AnsweredIds(s));
    var ps := ValidProposals(outcomes, AnsweredIds(s));
    assert DecidedCall(w.executions, w.calls[c]);
    forall i | 0 <= i < |ps| ensures Decided(w.executions, w.calls[c].tid, ps[i]) {
      assert OutcomeOf(outcomes, ps[i]);
      var j :| 0 <= j < |outcomes| && outcomes[j] == Some(ps[i]);
      assert w.calls[c].tasks[j] == Finished(outcomes[j]);
    }
  }

  lemma AppendedIsDecided(
    old_: seq<EventRow>, rows: seq<EventRow>, tid: string, ps: seq<ProposedEvent>, r: CommitResult, n: int,
    executions: set<Execution>)
    requires RowsAppended(old_, rows, tid, ps, r) && |old_| <= n < |rows|
    requires forall i :: 0 <= i < |ps| ==> Decided(executions, tid, ps[i])
    ensures DecidedEvent(executions, Events(rows), tid, n)
  {
    hide Decided, NewProposals;
    NewProposalsAreProposals(ps);
    var p := NewProposals(ps)[n - |old_|];
    assert Carries(rows[|old_|..][n - |old_|], p, tid, n + 1);
    assert p in ps;
    assert EventCarries(Events(rows)[n], p);
  }

  lemma CommitIsDecided(
    t: Tables, key: Option<string>, tid: string, seq_: int, hash: Option<Hash>, ps: seq<ProposedEvent>, env: Env,
    n: int, executions: set<Execution>)
    requires ValidTables(t, key)
    requires forall i :: 0 <= i < |ps| ==> Decided(executions, tid, ps[i])
    requires |RowsOf(t, tid)| < n <= |RowsOf(Commit(t, key, tid, seq_, hash, ps, env).0, tid)|
    ensures DecidedEvent(executions, Log(Commit(t, key, tid, seq_, hash, ps, env).0, tid), tid, n - 1)
  {
    hide Commit, ValidTrajectory, SomeKeyUsed, Decided, DecidedEvent, RowsAppended, KeysAppended, CheckpointAppended,
      SameElsewhere, AcceptedOnHead, HeadHash, HeadStored, StampedBy;
    UnappendedCommit(t, key, tid, seq_, hash, ps, env);
    AppendedCommit(t, key, tid, seq_, hash, ps, env);
    var (u, r) := Commit(t, key, tid, seq_, hash, ps, env);
    AppendedIsDecided(RowsOf(t, tid), RowsOf(u, tid), tid, ps, r.value, n - 1, executions);
  }

  lemma CommitStepIsDecided(w: World, u: World, key: Option<string>, c: int, env: Env)
    requires Safe(w, key) && AllDecided(w) && CommitStep(w, u, c, key, env)
    ensures AllDecided(u)
  {
    hide ValidTables, SafeCall, SafeResult, Log, Commit, RowsOf, Extends, Decided, DecidedEvent;
    var call, phase := w.calls[c], w.calls[c].phase;
    var t := Commit(w.tables, key, call.tid, phase.sequence, phase.headHash, phase.proposals, env).0;
    assert DecidedCall(w.executions, call);
    CommitExtends(w.tables, key, call.tid, phase.sequence, phase.headHash, phase.proposals, env);
    MineGrows(w, t);
    forall x | x in u.mine ensures DecidedEvent(u.executions, Log(t, x.0), x.0, x.1 - 1) {
      if x !in w.mine {
        CommitIsDecided(w.tables, key, call.tid, phase.sequence, phase.headHash, phase.proposals, env, x.1,
                        w.executions);
      }
    }
  }

  lemma NextIsDecided(w: World, u: World, key: Option<string>)
    requires Safe(w, key) && AllDecided(w) && Next(w, u, key)
    ensures AllDecided(u)
  {
    hide Safe, ExecuteStep, FilterStep, CommitStep, ValidTables, Extends, Decided, DecidedEvent, PrefixFold, Log;
    if c, i, s, conditions, raises :| ExecuteStep(w, u, c, i, s, conditions, raises) {
      ExecuteIsDecided(w, u, c, i, s, conditions, raises);
    } else if c, s, outcomes :| FilterStep(w, u, c, s, outcomes) {
      FilterIsDecided(w, u, c, s, outcomes);
    } else if c, env :| CommitStep(w, u, c, key, env) {
      CommitStepIsDecided(w, u, key, c, env);
    } else {
      OtherStepIsDecided(w, u, key);
    }
  }

  lemma OtherStepIsDecided(w: World, u: World, key: Option<string>)
    requires Safe(w, key) && AllDecided(w)
    requires || (exists tid, s :: BeginStep(w, u, tid, s)) || (exists c, i :: LeaseStep(w, u, c, i))
             || (exists c :: ReleaseStep(w, u, c)) || (exists c :: AbortStep(w, u, c)) || OtherStep(w, u, key)
    ensures AllDecided(u)
  {
    hide ValidTables, SafeCall, SafeResult, Extends, Decided, DecidedEvent, PrefixFold, Log;
    if OtherStep(w, u, key) {
      MineGrows(w, u.tables);
    }
  }

  lemma {:induction false} RunIsDecided(ws: seq<World>, key: Option<string>, i: nat)
    requires Run(ws, key) && i < |ws|
    ensures AllDecided(ws[i])
  {
    hide Next, ValidTables, Safe, DecidedCall, DecidedEvent;
    if i > 0 {
      RunIsDecided(ws, key, i - 1);
      RunIsSafe(ws, key, i - 1);
      assert Next(ws[i - 1], ws[i - 1 + 1], key);
      NextIsDecided(ws[i - 1], ws[i], key);
    }
  }

  // ----- the main result -----

  /** The event that an execution explains: the payload is what the tool gave, under the worker's own name. */
  ghost predicate Explains(x: Execution, e: HarnessEvent) {
    && Reports(x.seen, x.id, x.conditions, e.payload) && e.payload.ToolResultReceivedPayload?
    && e.header.idempotencyKey == "result-" + x.id + "-" + e.payload.status
    && e.header.actor == "tool_worker" && e.header.actionId == "tool-worker-" + x.id && e.header.parentEventId.None?
  }

  lemma DecidingExecution(executions: set<Execution>, tid: string, p: ProposedEvent) returns (x: Execution)
    requires Decided(executions, tid, p)
    ensures x in executions && x.tid == tid && ExecuteOne(x.seen, x.id, x.conditions) == Some(p)
  {
    x :| x in executions && x.tid == tid && ExecuteOne(x.seen, x.id, x.conditions) == Some(p);
  }

  /** However calls interleave, an event that a worker committed is explained by an execution of the run. */
  lemma WorkerEventIsExplained(ws: seq<World>, key: Option<string>, i: nat, tid: string, n: int)
    requires Run(ws, key) && i < |ws| && (tid, n + 1) in ws[i].mine
    ensures 0 <= n < |Log(ws[i].tables, tid)|
    ensures exists x :: x in ws[i].executions && x.tid == tid && Explains(x, Log(ws[i].tables, tid)[n])
  {
    hide Run, ExecuteOne, Unanswered, Ready, Permitted, DecidedCall, Decided, Log;
    RunIsDecided(ws, key, i);
    var at := (tid, n + 1);
    assert at in ws[i].mine && DecidedEvent(ws[i].executions, Log(ws[i].tables, at.0), at.0, at.1 - 1);
    var p :| Decided(ws[i].executions, tid, p) && EventCarries(Log(ws[i].tables, tid)[n], p);
    var x := DecidingExecution(ws[i].executions, tid, p);
    ExecutionOutcome(x.seen, x.id, x.conditions);
    assert Explains(x, Log(ws[i].tables, tid)[n]);
  }

  /** In particular the content of a success result of a worker is what the tool returned in some execution. */
  lemma SuccessIsToolOutput(ws: seq<World>, key: Option<string>, i: nat, tid: string, n: int, id: string)
    requires Run(ws, key) && i < |ws| && WorkerSucceeded(ws[i], tid, id, n)
    ensures exists x ::
      && x in ws[i].executions && x.tid == tid && x.id == id
      && x.conditions.run == Success(Log(ws[i].tables, tid)[n].payload.content)
  {
    hide Run, ExecuteOne, Unanswered, Ready, Permitted, Log;
    WorkerEventIsExplained(ws, key, i, tid, n);
  }

  // ----- leases -----

  /** The step gives the lease of an invocation to a waiting task. */
  ghost predicate Grants(w: World, u: World, c: int, i: int, id: string) {
    && LeaseStep(w, u, c, i) && w.calls[c].pending[i] == id && u.calls[c].tasks[i].Leased?
  }

  /** The step releases the lease of an invocation at the end of a call. */
  ghost predicate Releases(w: World, u: World, id: string) {
    exists c :: ReleaseStep(w, u, c) && w.calls[c].phase.next < |w.calls[c].pending|
                && w.calls[c].pending[w.calls[c].phase.next] == id
  }

  lemma LeaseKept(w: World, u: World, key: Option<string>, id: string)
    requires Next(w, u, key) && id in w.leases && !Releases(w, u, id)
    ensures id in u.leases
  {
    hide ValidTables, PrefixFold, Extends, Commit;
    if c :| ReleaseStep(w, u, c) {
      assert w.calls[c].phase.next < |w.calls[c].pending| ==> w.calls[c].pending[w.calls[c].phase.next] != id;
    }
  }

  lemma {:induction false} LeaseKeptWhile(ws: seq<World>, key: Option<string>, m: nat, n: nat, id: string)
    requires Run(ws, key) && m <= n < |ws| && id in ws[m].leases
    requires forall k :: m <= k < n ==> !Releases(ws[k], ws[k + 1], id)
    ensures id in ws[n].leases
    decreases n
  {
    hide Next, Releases;
    if m < n {
      LeaseKeptWhile(ws, key, m, n - 1, id);
      assert !Releases(ws[n - 1], ws[n - 1 + 1], id);
      assert Next(ws[n - 1], ws[n - 1 + 1], key);
      LeaseKept(ws[n - 1], ws[n], key, id);
    }
  }

  /** Between two grants of one invocation some call releases it: as long as nobody does, only one task of all
    calls gets to execute it. */
  lemma GrantsAreSeparated(
    ws: seq<World>, key: Option<string>, m: nat, n: nat, c: int, i: int, d: int, j: int, id: string)
    requires Run(ws, key) && m < n < |ws| - 1
    requires Grants(ws[m], ws[m + 1], c, i, id) && Grants(ws[n], ws[n + 1], d, j, id)
    ensures exists k :: m < k < n && Releases(ws[k], ws[k + 1], id)
  {
    hide Run, Releases;
    if forall k :: m < k < n ==> !Releases(ws[k], ws[k + 1], id) {
      LeaseKeptWhile(ws, key, m + 1, n, id);
    }
  }
}
