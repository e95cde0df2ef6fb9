/** The client machines run on the store: every step of the store is one that their environment may take,
  and every database starts one of their runs.
 */
module ClientRuns {
  import opened Results
  import opened Schema
  import opened StoreTables
  import opened StoreFacts
  import opened StoreTheorems
  import opened EventStore
  import opened StoreMachine
  import opened ToolHistory
  import WorkerSafety
  import Runtime

  // ----- tool workers -----

  /** Whatever the instances of a store do is a step that tool workers allow for. */
  lemma StoreStepIsWorkerStep(w: World, u: World, key: Option<string>, x: WorkerSafety.World)
    requires Good(w, key) && Next(w, u, key) && x.tables == w.tables
    ensures WorkerSafety.OtherStep(x, x.(tables := u.tables), key)
  {
    hide Next, Extends, ValidTables, AllReplayable;
    NextIsGood(w, u, key);
  }

  /** The workers' view of a store before any call. */
  function Idle(t: Tables): WorkerSafety.World {
    WorkerSafety.World(t, {}, [], {}, {})
  }

  /** Every run of the store is a run of the workers' machine, so their results hold from the creation on. */
  lemma StoreRunIsWorkerRun(ws: seq<World>, key: Option<string>) returns (xs: seq<WorkerSafety.World>)
    requires Run(ws, key)
    ensures |xs| == |ws| && forall i :: 0 <= i < |ws| ==> xs[i] == Idle(ws[i].tables)
    ensures WorkerSafety.Run(xs, key)
  {
    hide Next, Good, WorkerSafety.OtherStep, WorkerSafety.Next;
    xs := seq(|ws|, i requires 0 <= i < |ws| => Idle(ws[i].tables));
    ReachableIsValid(ws, key, 0);
    forall i | 0 <= i < |xs| - 1 ensures WorkerSafety.Next(xs[i], xs[i + 1], key) {
      RunIsGood(ws, key, i);
      assert Next(ws[i], ws[i + 1], key);
      StoreStepIsWorkerStep(ws[i], ws[i + 1], key, xs[i]);
      OtherIsNext(xs[i], xs[i + 1], key);
    }
  }

  lemma OtherIsNext(x: WorkerSafety.World, y: WorkerSafety.World, key: Option<string>)
    requires WorkerSafety.OtherStep(x, x.(tables := y.tables), key) && y == x.(tables := y.tables)
    ensures WorkerSafety.Next(x, y, key)
  {
    hide WorkerSafety.OtherStep;
  }

  // ----- runtimes -----

  /** A step that proposes no tool call. */
  ghost predicate ToollessStep(w: World, u: World, key: Option<string>) {
    || Quiet(w, u, key)
    || (exists tid, epochId, budget, now :: InitStep(w, u, tid, epochId, budget, now))
    || (exists s :: SaveStep(w, u, s))
    || (exists i, tid, sequence, hash, ps, env ::
          CommitStep(w, u, key, i, tid, sequence, hash, ps, env) && Runtime.ToolProposals(ps) == 0)
  }

  lemma SameCalls(t: Tables, u: Tables)
    requires u.events == t.events
    ensures forall tid :: |LoggedInvocations(Log(u, tid))| == |LoggedInvocations(Log(t, tid))|
  {
    hide LoggedInvocations;
    forall tid ensures Log(u, tid) == Log(t, tid) {
      assert RowsOf(u, tid) == RowsOf(t, tid);
    }
  }

  lemma ToollessStepIsNext(w: World, u: World, key: Option<string>)
    requires ToollessStep(w, u, key)
    ensures Next(w, u, key)
  {
    hide OpenStep, CloseStep, InitStep, SaveStep, CommitStep, LatestStep, BeginReadingStep, EndReadingStep;
  }

  /** Whatever the instances of a store do, short of invoking tools, is a step that runtimes allow for. */
  lemma StoreStepIsRuntimeStep(w: World, u: World, key: Option<string>, x: Runtime.World)
    requires Good(w, key) && ToollessStep(w, u, key) && x.tables == w.tables
    ensures Runtime.OtherStep(x, x.(tables := u.tables), key)
  {
    hide Next, Extends, ValidTables, AllReplayable, Quiet, InitStep, SaveStep, CommitStep, LoggedInvocations, Log,
      Runtime.ToolProposals;
    ToollessStepIsNext(w, u, key);
    NextIsGood(w, u, key);
    if Quiet(w, u, key) {
      QuietStep(w, u, key);
    } else if tid, epochId, budget, now :| InitStep(w, u, tid, epochId, budget, now) {
      InitKeepsEvents(w.tables, tid, epochId, budget, now);
      InitTables(w, u, tid, epochId, budget, now);
      SameCalls(w.tables, u.tables);
    } else if s :| SaveStep(w, u, s) {
      SaveKeepsEvents(w.tables, s);
      SaveTables(w, u, s);
      SameCalls(w.tables, u.tables);
    } else {
      var i, tid, sequence, hash, ps, env :|
        CommitStep(w, u, key, i, tid, sequence, hash, ps, env) && Runtime.ToolProposals(ps) == 0;
      CommitTables(w, u, key, i, tid, sequence, hash, ps, env);
      if u.tables != w.tables {
        Runtime.ToollessCommitIsOther(x, key, tid, sequence, hash, ps, env);
      }
    }
  }

  lemma InitTables(w: World, u: World, tid: string, epochId: string, budget: Option<BudgetLedger>, now: Time)
    requires InitStep(w, u, tid, epochId, budget, now)
    ensures var r := InitTrajectory(w.tables, tid, epochId, budget, now);
      u.tables == w.tables || (r.Success? && u.tables == r.value)
  {
    hide InitTrajectory;
  }

  lemma SaveTables(w: World, u: World, s: Snapshot)
    requires SaveStep(w, u, s)
    ensures var r := SaveSnapshot(w.tables, s, s.sequence); u.tables == w.tables || (r.Success? && u.tables == r.value)
  {
    hide SaveSnapshot, PrefixFold;
  }

  lemma CommitTables(
    w: World, u: World, key: Option<string>, i: int, tid: string, sequence: int, hash: Option<Hash>,
    ps: seq<ProposedEvent>, env: Env)
    requires CommitStep(w, u, key, i, tid, sequence, hash, ps, env)
    ensures u.tables == w.tables || u.tables == Commit(w.tables, key, tid, sequence, hash, ps, env).0
  {
    hide Commit;
  }

  /** Every run of the store in which nobody invokes a tool is a run of the runtimes' machine. */
  lemma StoreRunIsRuntimeRun(ws: seq<World>, key: Option<string>) returns (xs: seq<Runtime.World>)
    requires Run(ws, key) && forall i :: 0 <= i < |ws| - 1 ==> ToollessStep(ws[i], ws[i + 1], key)
    ensures |xs| == |ws| && forall i :: 0 <= i < |ws| ==> xs[i] == Runtime.World(ws[i].tables, [])
    ensures Runtime.Run(xs, key)
  {
    hide Next, Good, ToollessStep, Runtime.OtherStep, Runtime.Next, Runtime.WithinLimit;
    xs := seq(|ws|, i requires 0 <= i < |ws| => Runtime.World(ws[i].tables, []));
    ReachableIsValid(ws, key, 0);
    assert ws[0].tables.trajectories == map[];
    forall i | 0 <= i < |xs| - 1 ensures Runtime.Next(xs[i], xs[i + 1], key) {
      RunIsGood(ws, key, i);
      assert ToollessStep(ws[i], ws[i + 1], key);
      StoreStepIsRuntimeStep(ws[i], ws[i + 1], key, xs[i]);
      OtherIsRuntimeNext(xs[i], xs[i + 1], key);
    }
  }

  lemma OtherIsRuntimeNext(x: Runtime.World, y: Runtime.World, key: Option<string>)
    requires Runtime.OtherStep(x, x.(tables := y.tables), key) && y == x.(tables := y.tables)
    ensures Runtime.Next(x, y, key)
  {
    hide Runtime.OtherStep;
  }
}
