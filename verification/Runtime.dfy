/** runtime.py: any number of runtimes that read, validate, and later commit under the optimistic lock. */
module Runtime {
  import opened Results
  import opened Schema
  import opened Reducer
  import opened FoldFacts
  import opened Consistency
  import opened StoreTables
  import opened StoreFacts
  import opened CommitFacts
  import opened StoreTheorems
  import opened EventStore
  import opened ToolHistory
  import opened Actions
  import opened ActionEffects

  // ----- the machine -----

  /** A validated action on its way to the store, with the snapshot that it was validated against. */
  datatype Pending = Pending(tid: string, snapshot: Snapshot, proposals: seq<ProposedEvent>)

  datatype World = World(tables: Tables, pending: seq<Pending>)

  /** A runtime reads the head, validates an action against it, and plans its events. */
  ghost predicate PlanStep(
    w: World, u: World, tid: string, s: Snapshot, action: Action, profile: Profile, tokenCost: int, actionId: string,
    actor: string)
  {
    && tid in w.tables.trajectories && CheckpointsOf(w.tables, tid) != []
    && FoldsTo(Genesis(w.tables, tid), Log(w.tables, tid), s)
    && ValidateAction(action, s, profile, tokenCost).None?
    && u == w.(pending := w.pending + [Pending(tid, s, PlanEvents(action, s, actionId, actor))])
  }

  /** It commits whenever it gets to run, or never, or again. */
  ghost predicate CommitStep(w: World, u: World, j: int, key: Option<string>, env: Env) {
    && 0 <= j < |w.pending|
    && var p := w.pending[j];
       u == w.(tables := Commit(w.tables, key, p.tid, p.snapshot.sequence, p.snapshot.lastEventHash, p.proposals,
           env).0)
  }

  /** Other clients may do anything that keeps the store valid, except invoke tools. */
  ghost predicate OtherStep(w: World, u: World, key: Option<string>) {
    && u == w.(tables := u.tables) && ValidTables(u.tables, key) && Extends(w.tables, u.tables)
    && forall tid :: tid in u.tables.trajectories ==>
         |LoggedInvocations(Log(u.tables, tid))| == |LoggedInvocations(Log(w.tables, tid))|
  }

  ghost predicate Next(w: World, u: World, key: Option<string>) {
    || (exists tid, s, action, profile, tokenCost, actionId, actor ::
          PlanStep(w, u, tid, s, action, profile, tokenCost, actionId, actor))
    || (exists j, env :: CommitStep(w, u, j, key, env))
    || OtherStep(w, u, key)
  }

  ghost predicate Run(ws: seq<World>, key: Option<string>) {
    && ws != [] && ValidTables(ws[0].tables, key) && ws[0].pending == []
    && (forall tid :: tid in ws[0].tables.trajectories ==> WithinLimit(ws[0].tables, tid))
    && forall i :: 0 <= i < |ws| - 1 ==> Next(ws[i], ws[i + 1], key)
  }

  // ----- the budget, read off the log -----

  /** The tool calls of a log, on top of what the budget had used at the start, stay within its limit,
    unless the budget was over its limit at the start. */
  ghost predicate FitsBudget(initial: Option<BudgetLedger>, calls: nat) {
    initial.Some? && initial.value.maxToolCalls.Some?
      && initial.value.toolCallsUsed <= initial.value.maxToolCalls.value ==>
      initial.value.toolCallsUsed + calls <= initial.value.maxToolCalls.value
  }

  ghost predicate WithinLimit(t: Tables, tid: string) {
    CheckpointsOf(t, tid) != [] && FitsBudget(Genesis(t, tid).budget, |LoggedInvocations(Log(t, tid))|)
  }

  /** The number of tool calls that a batch may add. */
  function ToolProposals(ps: seq<ProposedEvent>): nat {
    if ps == [] then 0
    else (if ps[|ps| - 1].payload.ToolInvokedPayload? then 1 else 0) + ToolProposals(ps[..|ps| - 1])
  }

  /** A pending action was validated against a prefix of the log, and fits the budget after that prefix. */
  ghost predicate Affordable(t: Tables, p: Pending) {
    && p.tid in t.trajectories && PrefixFold(t, p.tid, p.snapshot)
    && FitsBudget(Genesis(t, p.tid).budget,
                  |LoggedInvocations(Log(t, p.tid)[..p.snapshot.sequence])| + ToolProposals(p.proposals))
  }

  ghost predicate Solvent(w: World, key: Option<string>) {
    && ValidTables(w.tables, key)
    && (forall tid :: tid in w.tables.trajectories ==> WithinLimit(w.tables, tid))
    && (forall j :: 0 <= j < |w.pending| ==> Affordable(w.tables, w.pending[j]))
  }

  // ----- planning -----

  lemma PlanToolProposals(action: Action, s: Snapshot, actionId: string, actor: string)
    ensures ToolProposals(PlanEvents(action, s, actionId, actor)) == if CallsTool(action) then 1 else 0
  {
    hide Join;
    var ps := PlanEvents(action, s, actionId, actor);
    assert ps[..|ps| - 1] == [];
  }

  /** The check against the folded budget is a check against the log. */
  lemma ValidatedActionFits(
    g: Snapshot, log: seq<HarnessEvent>, s: Snapshot, action: Action, profile: Profile, tokenCost: int,
    actionId: string, actor: string)
    requires FoldsTo(g, log, s) && ValidateAction(action, s, profile, tokenCost).None?
    requires FitsBudget(g.budget, |LoggedInvocations(log)|)
    ensures FitsBudget(g.budget, |LoggedInvocations(log)| + ToolProposals(PlanEvents(action, s, actionId, actor)))
  {
    hide Fold, LoggedInvocations, LoggedResults, PlanEvents, PreconditionsHold, SafeAction;
    var clock: Clock :| Fold(g, log, clock) == Success(s);
    ToolsFollowLog(g, log, clock);
    PlanToolProposals(action, s, actionId, actor);
  }

  lemma PlanIsSolvent(
    w: World, u: World, key: Option<string>, tid: string, s: Snapshot, action: Action, profile: Profile,
    tokenCost: int, actionId: string, actor: string)
    requires Solvent(w, key) && PlanStep(w, u, tid, s, action, profile, tokenCost, actionId, actor)
    ensures Solvent(u, key)
  {
    hide ValidTrajectory, FitsBudget, FoldsTo, Log, LoggedInvocations, ToolProposals, ValidateAction, PlanEvents;
    var log := Log(w.tables, tid);
    ValidatedActionFits(Genesis(w.tables, tid), log, s, action, profile, tokenCost, actionId, actor);
    HeadFoldIsPrefixFold(w.tables, key, tid, s);
    HeadSequence(w.tables, tid, key, s);
    assert log[..s.sequence] == log by { LogLength(w.tables, tid); }
  }

  // ----- committing -----

  lemma {:induction false} ToolProposalsOfNew(ps: seq<ProposedEvent>)
    ensures ToolProposals(NewProposals(ps)) <= ToolProposals(ps)
    decreases |ps|
  {
    hide KeyAmong;
    if ps != [] {
      var init, p := ps[..|ps| - 1], ps[|ps| - 1];
      ToolProposalsOfNew(init);
      assert (NewProposals(init) + [p])[..|NewProposals(init)|] == NewProposals(init);
    }
  }

  /** The rows of a batch make as many tool calls as the proposals that they carry. */
  lemma {:induction false} AppendedInvocations(
    log: seq<HarnessEvent>, added: seq<EventRow>, ps: seq<ProposedEvent>, tid: string, base: int)
    requires AllCarry(added, ps, tid, base)
    ensures |LoggedInvocations(log + Events(added))| == |LoggedInvocations(log)| + ToolProposals(ps)
    decreases |added|
  {
    hide LoggedInvocations, AllCarry;
    if added == [] {
      AllCarryFacts(added, ps, tid, base);
      assert log + Events(added) == log;
    } else {
      var n := |added| - 1;
      AllCarryFacts(added, ps, tid, base);
      AppendedInvocations(log, added[..n], ps[..n], tid, base);
      assert log + Events(added) == (log + Events(added[..n])) + [added[n].event];
      LoggedSnoc(log + Events(added[..n]), added[n].event);
    }
  }

  lemma AllCarryFacts(added: seq<EventRow>, ps: seq<ProposedEvent>, tid: string, base: int)
    requires AllCarry(added, ps, tid, base)
    ensures |added| == |ps|
    ensures |added| > 0 ==> AllCarry(added[..|added| - 1], ps[..|ps| - 1], tid, base)
    ensures |added| > 0 ==> added[|added| - 1].event.payload == ps[|ps| - 1].payload
  {
    if |added| > 0 {
      assert Carries(added[|added| - 1], ps[|ps| - 1], tid, base + |added|);
    }
  }

  lemma LoggedSnoc(log: seq<HarnessEvent>, e: HarnessEvent)
    ensures LoggedInvocations(log + [e]) == LoggedInvocations(log) + Invoked(e)
  {
    assert (log + [e])[..|log|] == log;
  }

  /** A commit that changes a log adds at most the tool calls that were proposed. */
  lemma AppendedCalls(t: Tables, u: Tables, tid: string, ps: seq<ProposedEvent>, r: CommitResult)
    requires RowsAppended(RowsOf(t, tid), RowsOf(u, tid), tid, ps, r)
    ensures |LoggedInvocations(Log(u, tid))| == |LoggedInvocations(Log(t, tid))| + ToolProposals(NewProposals(ps))
    ensures ToolProposals(NewProposals(ps)) <= ToolProposals(ps)
  {
    hide ToolProposals, LoggedInvocations, NewProposals, AllCarry;
    var old_, rows := RowsOf(t, tid), RowsOf(u, tid);
    AppendedInvocations(Events(old_), rows[|old_|..], NewProposals(ps), tid, |old_|);
    ToolProposalsOfNew(ps);
    EventsSplit(rows, old_);
  }

  /** A commit that passed the lock adds its proposals to exactly the log that they were planned for. */
  lemma CommittedCalls(t: Tables, key: Option<string>, p: Pending, env: Env)
    requires ValidTables(t, key) && Affordable(t, p)
    ensures var u := Commit(t, key, p.tid, p.snapshot.sequence, p.snapshot.lastEventHash, p.proposals, env).0;
      RowsOf(u, p.tid) != RowsOf(t, p.tid) ==>
        && Log(t, p.tid)[..p.snapshot.sequence] == Log(t, p.tid)
        && |LoggedInvocations(Log(u, p.tid))| <= |LoggedInvocations(Log(t, p.tid))| + ToolProposals(p.proposals)
  {
    hide Commit, ValidTrajectory, SomeKeyUsed, KeysAppended, CheckpointAppended, FoldsTo, ToolProposals,
      LoggedInvocations, RowsAppended;
    var (u, r) := Commit(t, key, p.tid, p.snapshot.sequence, p.snapshot.lastEventHash, p.proposals, env);
    UnappendedCommit(t, key, p.tid, p.snapshot.sequence, p.snapshot.lastEventHash, p.proposals, env);
    if RowsOf(u, p.tid) != RowsOf(t, p.tid) {
      AppendedCommit(t, key, p.tid, p.snapshot.sequence, p.snapshot.lastEventHash, p.proposals, env);
      LogLength(t, p.tid);
      assert p.snapshot.sequence == |RowsOf(t, p.tid)|;
      AppendedCalls(t, u, p.tid, p.proposals, r.value);
    }
  }

  lemma CallsElsewhere(t: Tables, u: Tables, tid: string, other: string)
    requires SameElsewhere(t, u, tid) && other != tid
    ensures |LoggedInvocations(Log(u, other))| == |LoggedInvocations(Log(t, other))|
  {
    hide LoggedInvocations, Log;
    SameLog(t, u, other);
  }

  lemma SameLog(t: Tables, u: Tables, tid: string)
    requires RowsOf(u, tid) == RowsOf(t, tid)
    ensures Log(u, tid) == Log(t, tid)
  {
  }

  /** A commit that proposes no tool call, such as the tool worker's, is a step that others may take. */
  lemma ToollessCommitIsOther(
    w: World, key: Option<string>, tid: string, sequence: int, hash: Option<Hash>, ps: seq<ProposedEvent>, env: Env)
    requires ValidTables(w.tables, key) && ToolProposals(ps) == 0
    ensures OtherStep(w, w.(tables := Commit(w.tables, key, tid, sequence, hash, ps, env).0), key)
  {
    hide Commit, ValidTrajectory, SomeKeyUsed, Appends, SameElsewhere, ToolProposals, LoggedInvocations, RowsAppended,
      Log,
      Extends, AcceptedOnHead;
    var t := w.tables;
    var (u, r) := Commit(t, key, tid, sequence, hash, ps, env);
    CommitKeepsTablesValid(t, key, tid, sequence, hash, ps, env);
    CommitExtends(t, key, tid, sequence, hash, ps, env);
    UnappendedCommit(t, key, tid, sequence, hash, ps, env);
    if u != t {
      AppendedCommit(t, key, tid, sequence, hash, ps, env);
      AppendsSameElsewhere(t, u, tid, ps, r.value);
      AppendsRows(t, u, tid, ps, r.value);
      AppendedCalls(t, u, tid, ps, r.value);
      forall other | other != tid ensures |LoggedInvocations(Log(u, other))| == |LoggedInvocations(Log(t, other))| {
        CallsElsewhere(t, u, tid, other);
      }
    }
  }

  lemma AppendsRows(t: Tables, u: Tables, tid: string, ps: seq<ProposedEvent>, r: CommitResult)
    requires Appends(t, u, tid, ps, r)
    ensures RowsAppended(RowsOf(t, tid), RowsOf(u, tid), tid, ps, r)
  {
  }

  lemma EventsSplit(rows: seq<EventRow>, old_: seq<EventRow>)
    requires |old_| <= |rows| && rows[..|old_|] == old_
    ensures Events(rows) == Events(old_) + Events(rows[|old_|..])
  {
    forall i | 0 <= i < |old_| ensures Events(rows)[i] == Events(old_)[i] { assert rows[..|old_|][i] == old_[i]; }
  }

  lemma AffordableGrows(t: Tables, u: Tables, p: Pending)
    requires Affordable(t, p) && TrajectoryExtends(t, u, p.tid)
    ensures Affordable(u, p)
  {
    hide FoldsTo, LoggedInvocations, ToolProposals, FitsBudget;
    PrefixFoldSurvives(t, u, p.tid, p.snapshot);
    assert Log(u, p.tid)[..p.snapshot.sequence] == Log(t, p.tid)[..p.snapshot.sequence];
  }

  lemma PendingGrows(w: World, u: Tables, key: Option<string>)
    requires Solvent(w, key) && Extends(w.tables, u)
    ensures forall j :: 0 <= j < |w.pending| ==> Affordable(u, w.pending[j])
  {
    hide FoldsTo, LoggedInvocations, ToolProposals, FitsBudget, ValidTables, WithinLimit, TrajectoryExtends,
      PrefixFold, Log;
    forall j | 0 <= j < |w.pending| ensures Affordable(u, w.pending[j]) {
      assert Affordable(w.tables, w.pending[j]);
      assert TrajectoryExtends(w.tables, u, w.pending[j].tid);
      AffordableGrows(w.tables, u, w.pending[j]);
    }
  }

  lemma GenesisStays(t: Tables, u: Tables, tid: string)
    requires TrajectoryExtends(t, u, tid) && CheckpointsOf(t, tid) != []
    ensures CheckpointsOf(u, tid) != [] && Genesis(u, tid) == Genesis(t, tid)
  {
  }

  lemma CommitWithinLimit(t: Tables, key: Option<string>, p: Pending, env: Env, tid: string)
    requires ValidTables(t, key) && Affordable(t, p)
    requires tid in t.trajectories && WithinLimit(t, tid)
    ensures WithinLimit(Commit(t, key, p.tid, p.snapshot.sequence, p.snapshot.lastEventHash, p.proposals, env).0, tid)
  {
    hide Commit, ValidTables, FoldsTo, ToolProposals, LoggedInvocations;
    var u := Commit(t, key, p.tid, p.snapshot.sequence, p.snapshot.lastEventHash, p.proposals, env).0;
    CommitExtends(t, key, p.tid, p.snapshot.sequence, p.snapshot.lastEventHash, p.proposals, env);
    assert TrajectoryExtends(t, u, tid);
    GenesisStays(t, u, tid);
    if tid == p.tid {
      CommittedCalls(t, key, p, env);
    } else {
      CommitElsewhere(t, key, p, env, tid);
    }
  }

  lemma CommitElsewhere(t: Tables, key: Option<string>, p: Pending, env: Env, tid: string)
    requires ValidTables(t, key) && tid != p.tid
    ensures RowsOf(Commit(t, key, p.tid, p.snapshot.sequence, p.snapshot.lastEventHash, p.proposals, env).0, tid) ==
        RowsOf(t, tid)
  {
    hide Commit, ValidTrajectory, SomeKeyUsed, KeysAppended, CheckpointAppended, RowsAppended;
    UnappendedCommit(t, key, p.tid, p.snapshot.sequence, p.snapshot.lastEventHash, p.proposals, env);
    var (u, r) := Commit(t, key, p.tid, p.snapshot.sequence, p.snapshot.lastEventHash, p.proposals, env);
    if u != t {
      AppendedCommit(t, key, p.tid, p.snapshot.sequence, p.snapshot.lastEventHash, p.proposals, env);
    }
  }

  lemma CommitIsSolvent(w: World, u: World, key: Option<string>, j: int, env: Env)
    requires Solvent(w, key) && CommitStep(w, u, j, key, env)
    ensures Solvent(u, key)
  {
    hide Commit, ValidTrajectory, WithinLimit, Affordable;
    var p := w.pending[j];
    CommitKeepsTablesValid(w.tables, key, p.tid, p.snapshot.sequence, p.snapshot.lastEventHash, p.proposals, env);
    CommitExtends(w.tables, key, p.tid, p.snapshot.sequence, p.snapshot.lastEventHash, p.proposals, env);
    CommitStaysInTrajectories(w.tables, key, p.tid, p.snapshot.sequence, p.snapshot.lastEventHash, p.proposals, env);
    PendingGrows(w, u.tables, key);
    forall tid | tid in u.tables.trajectories ensures WithinLimit(u.tables, tid) {
      CommitWithinLimit(w.tables, key, p, env, tid);
    }
  }

  lemma OtherIsSolvent(w: World, u: World, key: Option<string>)
    requires Solvent(w, key) && OtherStep(w, u, key)
    ensures Solvent(u, key)
  {
    hide Affordable, LoggedInvocations, Log, TrajectoryExtends;
    PendingGrows(w, u.tables, key);
    forall tid | tid in u.tables.trajectories ensures WithinLimit(u.tables, tid) {
      if tid in w.tables.trajectories {
        assert TrajectoryExtends(w.tables, u.tables, tid);
        assert WithinLimit(w.tables, tid);
        GenesisStays(w.tables, u.tables, tid);
      } else {
        NewTrajectoryHasNoCalls(w.tables, u.tables, key, tid);
      }
    }
  }

  lemma NewTrajectoryHasNoCalls(t: Tables, u: Tables, key: Option<string>, tid: string)
    requires ValidTables(t, key) && ValidTables(u, key) && tid !in t.trajectories && tid in u.trajectories
    requires |LoggedInvocations(Log(u, tid))| == |LoggedInvocations(Log(t, tid))|
    ensures WithinLimit(u, tid)
  {
    hide FoldsTo, KeysMatch, Authentic, RequestHashed, ValidCheckpoint, FreshSnapshot, Accepted;
    assert Log(t, tid) == [];
    assert ValidTrajectory(u, key, tid);
  }

  lemma NextIsSolvent(w: World, u: World, key: Option<string>)
    requires Solvent(w, key) && Next(w, u, key)
    ensures Solvent(u, key)
  {
    hide Solvent, PlanStep, CommitStep, OtherStep;
    if tid, s, action, profile, tokenCost, actionId, actor :|
        PlanStep(w, u, tid, s, action, profile, tokenCost, actionId, actor) {
      PlanIsSolvent(w, u, key, tid, s, action, profile, tokenCost, actionId, actor);
    } else if j, env :| CommitStep(w, u, j, key, env) {
      CommitIsSolvent(w, u, key, j, env);
    } else {
      OtherIsSolvent(w, u, key);
    }
  }

  lemma {:induction false} RunIsSolvent(ws: seq<World>, key: Option<string>, i: nat)
    requires Run(ws, key) && i < |ws|
    ensures Solvent(ws[i], key)
  {
    hide Next, ValidTables, WithinLimit, Affordable;
    if i > 0 {
      RunIsSolvent(ws, key, i - 1);
      assert Next(ws[i - 1], ws[i - 1 + 1], key);
      NextIsSolvent(ws[i - 1], ws[i], key);
    }
  }

  /** Under any number of runtimes, whatever reading of the head says: the budget has been charged once for
    every invocation and, if it started within its limit, it is within its limit. */
  lemma ToolBudgetHolds(ws: seq<World>, key: Option<string>, i: nat, tid: string, s: Snapshot)
    requires Run(ws, key) && i < |ws| && tid in ws[i].tables.trajectories
    requires CheckpointsOf(ws[i].tables, tid) != [] && FoldsTo(Genesis(ws[i].tables, tid), Log(ws[i].tables, tid), s)
    ensures var initial := Genesis(ws[i].tables, tid).budget;
      initial.Some? ==>
        && s.budget.Some?
        && s.budget.value.toolCallsUsed == initial.value.toolCallsUsed + |s.toolInvocations|
        && s.budget.value.maxToolCalls == initial.value.maxToolCalls
        && (initial.value.maxToolCalls.Some? && initial.value.toolCallsUsed <= initial.value.maxToolCalls.value ==>
              s.budget.value.toolCallsUsed <= s.budget.value.maxToolCalls.value)
  {
    hide Run, Fold, KeysMatch, Authentic, RequestHashed, ValidCheckpoint, LoggedInvocations, LoggedResults,
      Affordable, Accepted;
    RunIsSolvent(ws, key, i);
    assert ValidTrajectory(ws[i].tables, key, tid) && WithinLimit(ws[i].tables, tid);
    var clock: Clock :| Fold(Genesis(ws[i].tables, tid), Log(ws[i].tables, tid), clock) == Success(s);
    ToolsFollowLog(Genesis(ws[i].tables, tid), Log(ws[i].tables, tid), clock);
  }

  // ----- the object -----

  ghost predicate HeadOf(t: Tables, tid: string, s: Snapshot) {
    CheckpointsOf(t, tid) != [] && FoldsTo(Genesis(t, tid), Log(t, tid), s)
  }

  /** The outcome of execute on tables whose head read as `head`, with the write lock taken or free. */
  ghost predicate Executed(
    t: Tables, u: Tables, locked: bool, key: Option<string>, tid: string, head: Result<Snapshot, StoreError>,
    action: Action, profile: Profile, tokenCost: int, actionId: string, actor: string, env: Env,
    r: Result<Snapshot, StoreError>, refused: Option<ActionError>)
  {
    match head
    case Failure(error) => u == t && r == Failure(error) && refused.None?
    case Success(s) =>
      && refused == ValidateAction(action, s, profile, tokenCost)
      && if refused.Some? then u == t && r.Failure?
         else if locked then u == t && r == Failure(DatabaseLocked)
         else
           var (after, q) := Commit(t, key, tid, s.sequence, s.lastEventHash, PlanEvents(action, s, actionId, actor),
               env);
           && u == after
           && (q.Failure? ==> r == Failure(q.error))
           && (q.Success? && r.Success? ==> HeadOf(u, tid, r.value))
  }

  // ----- what an execution shows -----

  /** If the log has grown, it has grown by one event, which carries the action and which the reading shows. */
  ghost predicate ActionShown(
    a: seq<HarnessEvent>, b: seq<HarnessEvent>, tid: string, action: Action, actionId: string, actor: string,
    r: Snapshot)
  {
    b != a ==>
      && |b| == |a| + 1 && a == b[..|a|]
      && Enacts(b[|a|], action, tid, actionId, actor)
      && Shows(action, actionId, actor, b[|a|], r)
  }

  lemma PlanNotEmpty(action: Action, s: Snapshot, actionId: string, actor: string)
    ensures PlanEvents(action, s, actionId, actor) != []
  {
    hide PlanPayload;
  }

  lemma {:induction false} NewProposalsOfOne(p: ProposedEvent)
    ensures NewProposals([p]) == [p]
  {
    assert [p][..0] == [] && NewProposals([]) == [];
  }

  predicate EventOf(e: HarnessEvent, p: ProposedEvent, tid: string) {
    && e.payload == p.payload && e.header.trajectoryId == tid
    && e.header.actor == p.actor && e.header.actionId == p.actionId
  }

  lemma AddedEvent(old_: seq<EventRow>, rows: seq<EventRow>, tid: string, p: ProposedEvent)
    requires |old_| <= |rows| && rows[..|old_|] == old_ && AllCarry(rows[|old_|..], [p], tid, |old_|)
    ensures Events(rows) == Events(old_) + [rows[|old_|].event]
    ensures EventOf(rows[|old_|].event, p, tid)
  {
    EventsSplit(rows, old_);
    assert Carries(rows[|old_|..][0], p, tid, |old_| + 1);
    assert Events(rows[|old_|..]) == [rows[|old_|].event];
  }

  /** The event that a commit of one proposal appends. */
  lemma CommittedEvent(t: Tables, u: Tables, tid: string, p: ProposedEvent, r: CommitResult)
    requires RowsAppended(RowsOf(t, tid), RowsOf(u, tid), tid, [p], r)
    ensures |Log(u, tid)| == |Log(t, tid)| + 1 && Log(t, tid) == Log(u, tid)[..|Log(t, tid)|]
    ensures EventOf(Log(u, tid)[|Log(t, tid)|], p, tid)
  {
    hide AllCarry, NewProposals;
    NewProposalsOfOne(p);
    AddedEvent(RowsOf(t, tid), RowsOf(u, tid), tid, p);
  }

  lemma ReadingShows(
    g: Snapshot, a: seq<HarnessEvent>, b: seq<HarnessEvent>, tid: string, action: Action, actionId: string,
    actor: string, r: Snapshot)
    requires FoldsTo(g, b, r) && g.trajectoryId == tid && |b| == |a| + 1 && a == b[..|a|]
    requires Enacts(b[|a|], action, tid, actionId, actor)
    ensures ActionShown(a, b, tid, action, actionId, actor, r)
  {
    hide Enacts, Shows, Leaves, ReduceEvent;
    var clock: Clock :| Fold(g, b, clock) == Success(r);
    FoldNumbering(g, a, clock);
    ActionShows(action, Fold(g, a, clock).value, actionId, actor, b[|a|], clock(b[|a|].header.sequence));
  }

  lemma HeadTrajectory(t: Tables, key: Option<string>, tid: string, s: Snapshot)
    requires HeadOf(t, tid, s) && ValidTrajectory(t, key, tid)
    ensures s.trajectoryId == tid == Genesis(t, tid).trajectoryId
  {
    hide Fold, KeysMatch, Authentic, RequestHashed, ValidCheckpoint, Accepted;
    var clock: Clock :| Fold(Genesis(t, tid), Log(t, tid), clock) == Success(s);
    FoldNumbering(Genesis(t, tid), Log(t, tid), clock);
  }

  /** After the commit of a plan, any reading of the head shows the action, unless nothing was appended. */
  lemma PlanShown(
    t: Tables, u: Tables, key: Option<string>, tid: string, s: Snapshot, action: Action, actionId: string,
    actor: string, env: Env, r: Snapshot)
    requires ValidTables(t, key) && tid in t.trajectories && HeadOf(t, tid, s)
    requires u == Commit(t, key, tid, s.sequence, s.lastEventHash, PlanEvents(action, s, actionId, actor), env).0
    requires HeadOf(u, tid, r)
    ensures ActionShown(Log(t, tid), Log(u, tid), tid, action, actionId, actor, r)
  {
    hide Commit, FoldsTo, ValidTrajectory, SomeKeyUsed, KeysAppended, CheckpointAppended, SameElsewhere, RowsAppended,
      AcceptedOnHead, HeadHash, HeadStored, StampedBy, PlanPayload, Shows, Log;
    HeadTrajectory(t, key, tid, s);
    if Log(u, tid) != Log(t, tid) {
      var ps := PlanEvents(action, s, actionId, actor);
      UnappendedCommit(t, key, tid, s.sequence, s.lastEventHash, ps, env);
      AppendedCommit(t, key, tid, s.sequence, s.lastEventHash, ps, env);
      CommittedEvent(t, u, tid, ps[0], Commit(t, key, tid, s.sequence, s.lastEventHash, ps, env).1.value);
      HeadTrajectory(u, key, tid, r);
      ReadingShows(Genesis(u, tid), Log(t, tid), Log(u, tid), tid, action, actionId, actor, r);
    }
  }

  /** The runtime of one process: each call reads, validates, plans, commits and reads again. */
  class Runtime {
    const store: SQLiteEventStore
    const profile: Profile

    constructor (store: SQLiteEventStore, profile: Profile)
      ensures this.store == store && this.profile == profile
    {
      this.store := store;
      this.profile := profile;
    }

    /** execute: an action that fails validation, or that meets a taken write lock, changes nothing;
      otherwise the tables are those of one commit of its plan at the head that it was validated against. */
    method Execute(tid: string, action: Action, actionId: string, actor: string, tokenCost: int, env: Env)
      returns (r: Result<Snapshot, StoreError>, refused: Option<ActionError>)
      requires ValidTables(store.db.Content(), store.signingKey)
      requires CacheOk(store.cache, store.db.Content())
      modifies store`cache, store.db
      ensures ValidTables(store.db.Content(), store.signingKey) && CacheOk(store.cache, store.db.Content())
      ensures refused.Some? || old(store.db.writer) != null ==> unchanged(store.db)
      ensures Executed(old(store.db.Content()), store.db.Content(), old(store.db.writer) != null, store.signingKey, tid,
                       LatestSnapshot(old(store.cache), old(store.db.Content()), store.signingKey, tid, env.clock).1,
                       action, profile, tokenCost, actionId, actor, env, r, refused)
      ensures r.Success? ==> ActionShown(Log(old(store.db.Content()), tid), Log(store.db.Content(), tid), tid,
                                         action, actionId, actor, r.value)
    {
      hide HeadOf, PlanEvents, ActionShown, Log, LatestSnapshot, Commit, ValidateAction, FoldsTo, ValidTables,
        CacheOk, PlanPayload, Extends, Replay;
      refused := None;
      ghost var t, locked := store.db.Content(), store.db.writer != null;
      LatestIsHead(store.cache, t, store.signingKey, tid, env.clock);
      var head := store.GetLatestSnapshot(tid, env.clock);
      if head.Failure? {
        return Failure(head.error), None;
      }
      refused := ValidateAction(action, head.value, profile, tokenCost);
      if refused.Some? {
        return Failure(NoProposals), refused;
      }
      var proposed := PlanEvents(action, head.value, actionId, actor);
      PlanNotEmpty(action, head.value, actionId, actor);
      ghost var cached := store.cache;
      var q := store.CommitEvents(tid, head.value.sequence, head.value.lastEventHash, proposed, env);
      if !locked {
        CommittedCacheOk(cached, store.cache, t, store.signingKey, tid, head.value, proposed, env);
      }
      if q.Failure? {
        return Failure(q.error), None;
      }
      LatestIsHead(store.cache, store.db.Content(), store.signingKey, tid, env.clock);
      r := store.GetLatestSnapshot(tid, env.clock);
      if r.Success? {
        PlanShown(t, store.db.Content(), store.signingKey, tid, head.value, action, actionId, actor, env, r.value);
      }
    }
  }

  /** A commit keeps the tables valid and a good cache good, whether or not the cache drops an entry. */
  lemma CommittedCacheOk(
    cache: Cache, part: Cache, t: Tables, key: Option<string>, tid: string, s: Snapshot, ps: seq<ProposedEvent>,
    env: Env)
    requires ValidTables(t, key) && CacheOk(cache, t)
    requires forall k :: k in part ==> k in cache && part[k] == cache[k]
    ensures var u := Commit(t, key, tid, s.sequence, s.lastEventHash, ps, env).0;
      ValidTables(u, key) && CacheOk(part, u)
  {
    hide Commit, ValidTables, CacheOk, Extends;
    var u := Commit(t, key, tid, s.sequence, s.lastEventHash, ps, env).0;
    CommitKeepsTablesValid(t, key, tid, s.sequence, s.lastEventHash, ps, env);
    CommitExtends(t, key, tid, s.sequence, s.lastEventHash, ps, env);
    CacheSurvives(cache, t, u);
    SmallerCacheOk(cache, part, u);
  }

  lemma LatestIsHead(cache: Cache, t: Tables, key: Option<string>, tid: string, clock: Clock)
    requires ValidTables(t, key) && CacheOk(cache, t)
    ensures var (after, r) := LatestSnapshot(cache, t, key, tid, clock);
      CacheOk(after, t) && (r.Success? ==> tid in t.trajectories && HeadOf(t, tid, r.value))
  {
    hide LatestSnapshot, FoldsTo, ValidTrajectory, CacheOk;
    LatestSnapshotIsWholeLog(cache, t, key, tid, clock);
    if LatestSnapshot(cache, t, key, tid, clock).1.Success? {
      HasGenesis(t, key, tid);
    }
  }

  lemma HasGenesis(t: Tables, key: Option<string>, tid: string)
    requires ValidTrajectory(t, key, tid)
    ensures CheckpointsOf(t, tid) != []
  {
  }

  lemma SmallerCacheOk(cache: Cache, part: Cache, t: Tables)
    requires CacheOk(cache, t) && forall k :: k in part ==> k in cache && part[k] == cache[k]
    ensures CacheOk(part, t)
  {
    hide PrefixFold;
  }
}
