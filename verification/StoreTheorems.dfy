/** Whole-store results: what every run of the store keeps, retries, and the two ways it can block. */
module StoreTheorems {
  import opened Results
  import opened Schema
  import opened Reducer
  import opened FoldFacts
  import opened ClockIndependence
  import opened Consistency
  import opened StoreTables
  import opened StoreFacts
  import opened CommitFacts

  // ----- every operation keeps the invariant -----

  lemma ElsewhereValid(t: Tables, u: Tables, key: Option<string>, tid: string, other: string)
    requires SameElsewhere(t, u, tid) && other != tid && ValidTrajectory(t, key, other)
    ensures ValidTrajectory(u, key, other)
  {
    hide FoldsTo, KeysMatch, Authentic, RequestHashed, ValidCheckpoint, FreshSnapshot;
    assert RowsOf(u, other) == RowsOf(t, other) && KeysOf(u, other) == KeysOf(t, other)
        && CheckpointsOf(u, other) == CheckpointsOf(t, other);
  }

  /** The tables of a commit mention no trajectory that did not exist. */
  lemma CommitStaysInTrajectories(
    t: Tables, key: Option<string>, tid: string, expectedSequence: int, expectedHash: Option<Hash>,
    ps: seq<ProposedEvent>, env: Env)
    requires ValidTables(t, key)
    ensures var u := Commit(t, key, tid, expectedSequence, expectedHash, ps, env).0;
      && u.trajectories == t.trajectories
      && forall x :: x !in u.trajectories ==> x !in u.events && x !in u.keys && x !in u.checkpoints
  {
    hide LoadHead, CommitLoop, AutoCheckpoint, RetryReceipts, SomeKeyUsed, ValidTrajectory;
    var (u, r) := Commit(t, key, tid, expectedSequence, expectedHash, ps, env);
    LoadHeadNeedsTrajectory(t, key, tid, env.clock);
    if u != t {
      var head := LoadHead(t, key, tid, env.clock).value;
      LoopTouchesOnly(StartBatch(t, head), tid, key, ps, env);
      AutoCheckpointTouchesOnly(CommitLoop(StartBatch(t, head), tid, key, ps, env).value, tid);
    }
  }

  /** Only the entries of one trajectory change. */
  ghost predicate TouchesOnly(t: Tables, u: Tables, tid: string) {
    && u.trajectories == t.trajectories
    && (forall x :: x in u.events ==> x in t.events || x == tid)
    && (forall x :: x in u.keys ==> x in t.keys || x == tid)
    && (forall x :: x in u.checkpoints ==> x in t.checkpoints || x == tid)
  }

  lemma {:induction false} LoopTouchesOnly(b: Batch, tid: string, key: Option<string>, ps: seq<ProposedEvent>, env: Env)
    ensures var r := CommitLoop(b, tid, key, ps, env);
      r.Success? ==> TouchesOnly(b.tables, r.value.tables, tid)
    decreases |ps|
  {
    hide ReduceEvent, SealEvent, WellFormedEvent, EventIdTaken;
    if ps != [] {
      LoopTouchesOnly(b, tid, key, ps[..|ps| - 1], env);
    }
  }

  lemma AutoCheckpointTouchesOnly(b: Batch, tid: string)
    ensures var r := AutoCheckpoint(b.tables, tid, b.head); r.Success? ==> TouchesOnly(b.tables, r.value, tid)
  {
  }

  /** commit_events keeps the store valid, whoever calls it with whatever arguments. */
  lemma CommitKeepsTablesValid(
    t: Tables, key: Option<string>, tid: string, expectedSequence: int, expectedHash: Option<Hash>,
    ps: seq<ProposedEvent>, env: Env)
    requires ValidTables(t, key)
    ensures ValidTables(Commit(t, key, tid, expectedSequence, expectedHash, ps, env).0, key)
  {
    hide Commit, ValidTrajectory, Appends, SomeKeyUsed, ReceiptsMatch;
    var (u, r) := Commit(t, key, tid, expectedSequence, expectedHash, ps, env);
    UnappendedCommit(t, key, tid, expectedSequence, expectedHash, ps, env);
    if u != t {
      AppendedCommit(t, key, tid, expectedSequence, expectedHash, ps, env);
      CommitStaysInTrajectories(t, key, tid, expectedSequence, expectedHash, ps, env);
      AppendsSameElsewhere(t, u, tid, ps, r.value);
      forall other | other in u.trajectories && other != tid ensures ValidTrajectory(u, key, other) {
        ElsewhereValid(t, u, key, tid, other);
      }
    }
  }

  lemma AppendsSameElsewhere(t: Tables, u: Tables, tid: string, ps: seq<ProposedEvent>, r: CommitResult)
    requires Appends(t, u, tid, ps, r)
    ensures SameElsewhere(t, u, tid)
  {
  }

  lemma InitKeepsTablesValid(
    t: Tables, key: Option<string>, tid: string, epochId: string, budget: Option<BudgetLedger>, now: Time)
    requires ValidTables(t, key)
    ensures var r := InitTrajectory(t, tid, epochId, budget, now);
      && (r.Success? <==> tid !in t.trajectories)
      && (r.Success? ==> ValidTables(r.value, key) && Log(r.value, tid) == [] && CheckpointsOf(r.value, tid) != []
                         && Genesis(r.value, tid) == GenesisSnapshot(tid, epochId, InitialBudget(tid, budget), now))
  {
    hide KeysMatch, Authentic, RequestHashed, Fold, WellFormedEvent, ValidTrajectory;
    var r := InitTrajectory(t, tid, epochId, budget, now);
    if r.Success? {
      NewTrajectoryValid(t, key, tid, epochId, budget, now);
      forall other | other in t.trajectories && other != tid ensures ValidTrajectory(r.value, key, other) {
        SameTrajectoryValid(t, r.value, key, other);
      }
    }
  }

  /** What a new trajectory consists of: its row, an empty log, and one checkpoint with an empty snapshot that
    has the given epoch, time and budget, or an empty budget if none is given. */
  lemma InitOutcome(t: Tables, tid: string, epochId: string, budget: Option<BudgetLedger>, now: Time)
    ensures var r := InitTrajectory(t, tid, epochId, budget, now);
      && (tid in t.trajectories ==> r == Failure(TrajectoryExists))
      && (r.Failure? ==> r == Failure(TrajectoryExists))
      && (r.Success? ==>
            && r.value.trajectories == t.trajectories[tid := TrajectoryRow(now, epochId)]
            && r.value.events == t.events && r.value.keys == t.keys
            && (forall other :: other != tid ==> CheckpointsOf(r.value, other) == CheckpointsOf(t, other))
            && exists row, s ::
                 && CheckpointsOf(r.value, tid) == CheckpointsOf(t, tid) + [row] && StoredAs(row, s, 0, GenesisId(tid))
                 && EmptyState(s) && s.trajectoryId == tid && s.epochId == epochId && s.createdAt == now
                 && s.sequence == 0 && s.lastEventHash.None? && s.lastSignature.None?
                 && s.budget == Some(if budget.Some? then budget.value
                                     else BudgetLedger(tid, 0, 0, 0, None, 0, None, 0.0)))
  {
    hide StoredAs, CheckpointRowFor;
    var r := InitTrajectory(t, tid, epochId, budget, now);
    var s := GenesisSnapshot(tid, epochId, InitialBudget(tid, budget), now);
    RowStoredAs(s, 0, GenesisId(tid));
    GenesisIdSequence(s, tid);
    if r.Success? {
      assert CheckpointsOf(r.value, tid) == CheckpointsOf(t, tid) + [CheckpointRowFor(s, 0, GenesisId(tid))];
    }
  }

  lemma GenesisIdSequence(s: Snapshot, tid: string)
    ensures CheckpointRowFor(s, 0, GenesisId(tid)).sequence == s.sequence
  {
  }

  /** save_snapshot stores a snapshot exactly if it sits at the head, by sequence, hash and signature, and the
    trajectory has no checkpoint there; it adds that checkpoint and nothing else. */
  lemma SaveOutcome(t: Tables, key: Option<string>, s: Snapshot, eventCount: int)
    requires s.trajectoryId in t.trajectories ==> ValidTrajectory(t, key, s.trajectoryId)
    ensures var tid := s.trajectoryId; var rows, r := RowsOf(t, tid), SaveSnapshot(t, s, eventCount);
      var atHead := s.sequence == |rows| && s.lastEventHash == HeadHash(rows)
                    && s.lastSignature == if rows == [] then None else rows[|rows| - 1].event.header.signature;
      && (tid !in t.trajectories ==> r == Failure(TrajectoryNotFound))
      && (tid in t.trajectories && !atHead ==> r == Failure(BadCheckpoint))
      && (r.Success? <==>
            tid in t.trajectories && atHead && forall q :: q in CheckpointsOf(t, tid) ==> q.sequence != s.sequence)
      && (r.Success? ==>
            && r.value == t.(checkpoints := r.value.checkpoints)
            && (forall other :: other != tid ==> CheckpointsOf(r.value, other) == CheckpointsOf(t, other))
            && exists row :: CheckpointsOf(r.value, tid) == CheckpointsOf(t, tid) + [row]
                             && StoredAs(row, s, eventCount, CheckpointId(tid, s.sequence)))
  {
    hide FoldsTo, KeysMatch, RequestHashed, Accepted, FreshSnapshot, ValidCheckpoint, Authentic, StoredAs;
    var tid := s.trajectoryId;
    RowStoredAs(s, eventCount, CheckpointId(tid, s.sequence));
    if tid in t.trajectories { LogNumbered(t, key, tid); }
    var row := CheckpointRowFor(s, eventCount, CheckpointId(tid, s.sequence));
    assert row.sequence == s.sequence;
    hide CheckpointRowFor;
    var r := SaveSnapshot(t, s, eventCount);
    if r.Success? { assert CheckpointsOf(r.value, tid) == CheckpointsOf(t, tid) + [row]; }
  }

  lemma SameTrajectoryValid(t: Tables, u: Tables, key: Option<string>, tid: string)
    requires ValidTrajectory(t, key, tid)
    requires RowsOf(u, tid) == RowsOf(t, tid) && KeysOf(u, tid) == KeysOf(t, tid)
      && CheckpointsOf(u, tid) == CheckpointsOf(t, tid)
    ensures ValidTrajectory(u, key, tid)
  {
    hide FoldsTo, KeysMatch, Authentic, RequestHashed, ValidCheckpoint, FreshSnapshot;
  }

  lemma NewTrajectoryValid(
    t: Tables, key: Option<string>, tid: string, epochId: string, budget: Option<BudgetLedger>, now: Time)
    requires ValidTables(t, key) && tid !in t.trajectories
    ensures var r := InitTrajectory(t, tid, epochId, budget, now);
      && r.Success? && Log(r.value, tid) == [] && ValidTrajectory(r.value, key, tid)
      && CheckpointsOf(r.value, tid) != []
      && Genesis(r.value, tid) == GenesisSnapshot(tid, epochId, InitialBudget(tid, budget), now)
  {
    hide ValidTrajectory;
    assert CheckpointsOf(t, tid) == [] && RowsOf(t, tid) == [] && KeysOf(t, tid) == map[];
    var u := InitTrajectory(t, tid, epochId, budget, now).value;
    var g := u.checkpoints[tid][0].snapshot;
    assert CheckpointsOf(u, tid) == [CheckpointRowFor(g, 0, GenesisId(tid))];
    assert Log(u, tid) == [];
    EmptyFold(g);
    FirstCheckpointValid(u, key, tid, g);
  }

  lemma FirstCheckpointValid(u: Tables, key: Option<string>, tid: string, g: Snapshot)
    requires CheckpointsOf(u, tid) == [CheckpointRowFor(g, 0, GenesisId(tid))] && FreshSnapshot(g, tid)
    requires RowsOf(u, tid) == [] && KeysOf(u, tid) == map[] && FoldsTo(g, [], g)
    ensures ValidTrajectory(u, key, tid)
  {
    hide FoldsTo, EmptyState;
    assert Log(u, tid) == [] && Log(u, tid)[..0] == [];
    assert ValidCheckpoint(CheckpointsOf(u, tid)[0], g, Log(u, tid));
    assert Accepted(g, Log(u, tid));
  }

  lemma EmptyFold(g: Snapshot)
    ensures FoldsTo(g, [], g)
  {
    var clock: Clock := k => 0;
    assert Fold(g, [], clock) == Success(g);
  }

  /** save_snapshot keeps the store valid when it is given what its documentation asks for: the fold of
    the whole log, with event_count equal to its sequence. */
  lemma SaveKeepsTablesValid(t: Tables, key: Option<string>, s: Snapshot, eventCount: int)
    requires ValidTables(t, key)
    requires s.trajectoryId in t.trajectories
    requires FoldsTo(Genesis(t, s.trajectoryId), Log(t, s.trajectoryId), s) && eventCount == s.sequence
    ensures var r := SaveSnapshot(t, s, eventCount); r.Success? ==> ValidTables(r.value, key)
  {
    hide FoldsTo, ValidTrajectory;
    var tid := s.trajectoryId;
    var r := SaveSnapshot(t, s, eventCount);
    if r.Success? {
      HeadSequence(t, tid, key, s);
      CheckpointKeepsValid(t, tid, key, s, CheckpointId(tid, s.sequence));
      forall other | other in t.trajectories && other != tid ensures ValidTrajectory(r.value, key, other) {
        SameTrajectoryValid(t, r.value, key, other);
      }
    }
  }

  // ----- history only grows -----

  ghost predicate Extends(t: Tables, u: Tables) {
    forall tid :: tid in t.trajectories ==> TrajectoryExtends(t, u, tid)
  }

  ghost predicate TrajectoryExtends(t: Tables, u: Tables, tid: string) {
    && tid in u.trajectories
    && RowsOf(t, tid) <= RowsOf(u, tid)
    && CheckpointsOf(t, tid) <= CheckpointsOf(u, tid)
    && forall k :: k in KeysOf(t, tid) ==> k in KeysOf(u, tid) && KeysOf(u, tid)[k] == KeysOf(t, tid)[k]
  }

  lemma ExtendsTransitive(t: Tables, u: Tables, v: Tables)
    requires Extends(t, u) && Extends(u, v)
    ensures Extends(t, v)
  {
    forall tid | tid in t.trajectories ensures TrajectoryExtends(t, v, tid) {
      assert TrajectoryExtends(t, u, tid) && TrajectoryExtends(u, v, tid);
    }
  }

  lemma AppendExtendsHere(t: Tables, u: Tables, tid: string, ps: seq<ProposedEvent>, r: CommitResult)
    requires Appends(t, u, tid, ps, r) && tid in u.trajectories
    ensures TrajectoryExtends(t, u, tid)
  {
    hide AllCarry, ReceiptsMatch, KeyAmong, NewProposals, SameElsewhere;
  }

  lemma AppendExtendsElsewhere(t: Tables, u: Tables, tid: string, other: string)
    requires SameElsewhere(t, u, tid) && other != tid && other in t.trajectories
    ensures TrajectoryExtends(t, u, other)
  {
  }

  /** A commit only adds: no row, key or checkpoint is ever removed or rewritten. */
  lemma CommitExtends(
    t: Tables, key: Option<string>, tid: string, expectedSequence: int, expectedHash: Option<Hash>,
    ps: seq<ProposedEvent>, env: Env)
    requires ValidTables(t, key)
    ensures Extends(t, Commit(t, key, tid, expectedSequence, expectedHash, ps, env).0)
  {
    hide Commit, ValidTrajectory, SomeKeyUsed, ReceiptsMatch, Appends, SameElsewhere, AcceptedOnHead;
    var (u, r) := Commit(t, key, tid, expectedSequence, expectedHash, ps, env);
    UnappendedCommit(t, key, tid, expectedSequence, expectedHash, ps, env);
    if u != t {
      AppendedCommit(t, key, tid, expectedSequence, expectedHash, ps, env);
      CommitStaysInTrajectories(t, key, tid, expectedSequence, expectedHash, ps, env);
      AppendsSameElsewhere(t, u, tid, ps, r.value);
      forall other | other in t.trajectories ensures TrajectoryExtends(t, u, other) {
        if other == tid {
          AppendExtendsHere(t, u, tid, ps, r.value);
        } else {
          AppendExtendsElsewhere(t, u, tid, other);
        }
      }
    }
  }

  lemma InitExtends(
    t: Tables, key: Option<string>, tid: string, epochId: string, budget: Option<BudgetLedger>, now: Time)
    requires ValidTables(t, key)
    ensures var r := InitTrajectory(t, tid, epochId, budget, now); r.Success? ==> Extends(t, r.value)
  {
    hide ValidTrajectory, CheckpointRowFor;
  }

  lemma SaveExtends(t: Tables, s: Snapshot, eventCount: int)
    ensures var r := SaveSnapshot(t, s, eventCount); r.Success? ==> Extends(t, r.value)
  {
    hide CheckpointRowFor;
  }

  // ----- retries -----

  lemma ReceiptsUnique(
    a: seq<CommitReceipt>, b: seq<CommitReceipt>, ps: seq<ProposedEvent>,
    k1: map<string, KeyRow>, k2: map<string, KeyRow>)
    requires ReceiptsMatch(a, ps, k1) && ReceiptsMatch(b, ps, k2)
    requires forall k :: k in k1 ==> k in k2 && k2[k] == k1[k]
    ensures a == b
  {
  }

  /** Repeating a successful commit after any other operations, under any expected head, changes no table
    and returns the receipts of the original commit, provided that the trajectory can still be read. */
  lemma RetryIsIdempotent(
    t0: Tables, key: Option<string>, tid: string, seq0: int, hash0: Option<Hash>, ps: seq<ProposedEvent>, env0: Env,
    t: Tables, seq1: int, hash1: Option<Hash>, env1: Env)
    requires ValidTables(t0, key) && ValidTables(t, key)
    requires Commit(t0, key, tid, seq0, hash0, ps, env0).1.Success?
    requires Extends(Commit(t0, key, tid, seq0, hash0, ps, env0).0, t)
    ensures var first := Commit(t0, key, tid, seq0, hash0, ps, env0).1.value;
      var (u, r) := Commit(t, key, tid, seq1, hash1, ps, env1);
      && u == t
      && (LoadHead(t, key, tid, env1.clock).Success? ==>
            && r.Success? && r.value.receipts == first.receipts && r.value.committedEvents == []
            && r.value.trajectoryId == tid && r.value.firstSequence == r.value.lastSequence == |RowsOf(t, tid)|
            && r.value.headHash == HeadHash(RowsOf(t, tid)))
      && (LoadHead(t, key, tid, env1.clock).Failure? ==> r == Failure(CommitFailed))
    ensures key.None? && CheckpointSafe(Log(t, tid)) ==> Commit(t, key, tid, seq1, hash1, ps, env1).1.Success?
  {
    hide LoadHead, CommitLoop, AutoCheckpoint, RetryReceipts, ReceiptsMatch, ValidTrajectory, RowsAppended,
      CheckpointAppended, SameElsewhere, KeyAmong, CheckpointSafe;
    var (t1, r0) := Commit(t0, key, tid, seq0, hash0, ps, env0);
    FirstCommitReceipts(t0, key, tid, seq0, hash0, ps, env0);
    var keys := KeysOf(t, tid);
    assert TrajectoryExtends(t1, t, tid);
    KeysStillThere(r0.value.receipts, ps, KeysOf(t1, tid), keys);
    RetryReceiptsIff(keys, ps);
    ReceiptsUnique(r0.value.receipts, RetryReceipts(keys, ps).value, ps, KeysOf(t1, tid), keys);
    assert SomeKeyUsed(keys, ps) by { assert ps[0].idempotencyKey in keys; }
    LoadHeadIsFold(t, key, tid, env1.clock);
    if LoadHead(t, key, tid, env1.clock).Success? {
      HeadLinks(t, tid, key, LoadHead(t, key, tid, env1.clock).value);
    }
  }

  lemma KeysStillThere(
    receipts: seq<CommitReceipt>, ps: seq<ProposedEvent>, old_: map<string, KeyRow>, keys: map<string, KeyRow>)
    requires ReceiptsMatch(receipts, ps, old_)
    requires forall k :: k in old_ ==> k in keys && keys[k] == old_[k]
    ensures forall i :: 0 <= i < |ps| ==> KeyAnswers(keys, ps[i])
  {
  }

  /** Every successful commit, first or repeated, leaves a key for each proposal and returns its receipt. */
  lemma FirstCommitReceipts(
    t: Tables, key: Option<string>, tid: string, expectedSequence: int, expectedHash: Option<Hash>,
    ps: seq<ProposedEvent>, env: Env)
    requires ValidTables(t, key)
    requires Commit(t, key, tid, expectedSequence, expectedHash, ps, env).1.Success?
    ensures var (u, r) := Commit(t, key, tid, expectedSequence, expectedHash, ps, env);
      tid in u.trajectories && ReceiptsMatch(r.value.receipts, ps, KeysOf(u, tid))
  {
    hide LoadHead, CommitLoop, AutoCheckpoint, RetryReceipts, ReceiptsMatch, ValidTrajectory, RowsAppended,
      CheckpointAppended, KeyAmong, SomeKeyUsed;
    LoadHeadNeedsTrajectory(t, key, tid, env.clock);
    UnappendedCommit(t, key, tid, expectedSequence, expectedHash, ps, env);
    if !SomeKeyUsed(KeysOf(t, tid), ps) {
      AppendedCommit(t, key, tid, expectedSequence, expectedHash, ps, env);
    }
  }

  /** A receipt names the one row of the log that answers the proposal. */
  lemma ReceiptNamesItsEvent(
    t: Tables, key: Option<string>, tid: string, receipts: seq<CommitReceipt>, ps: seq<ProposedEvent>, i: nat)
    requires ValidTrajectory(t, key, tid) && ReceiptsMatch(receipts, ps, KeysOf(t, tid)) && i < |ps|
    ensures var n := receipts[i].sequence;
      && 1 <= n <= |RowsOf(t, tid)|
      && var e := RowsOf(t, tid)[n - 1].event;
         && e.header.eventId == receipts[i].eventId && e.header.eventHash == receipts[i].eventHash
         && receipts[i].idempotencyKey == ps[i].idempotencyKey
         && receipts[i].requestHash ==
            RequestDigest(ps[i].eventType, ps[i].payload, ps[i].actor, ps[i].actionId, ps[i].parentEventId)
         && e.header.idempotencyKey == ps[i].idempotencyKey && e.payload == ps[i].payload
         && e.header.eventType == ps[i].eventType && e.header.actor == ps[i].actor
         && e.header.actionId == ps[i].actionId
    ensures forall j ::
        0 <= j < |RowsOf(t, tid)| && RowsOf(t, tid)[j].event.header.idempotencyKey == ps[i].idempotencyKey ==>
              j + 1 == receipts[i].sequence
  {
    hide FoldsTo, Authentic, ValidCheckpoint, FreshSnapshot;
    var rows, keys, k := RowsOf(t, tid), KeysOf(t, tid), ps[i].idempotencyKey;
    assert KeyHasRow(rows, keys, k);
    assert RowHasKey(rows, keys, keys[k].sequence - 1);
    assert RequestHashed(rows[keys[k].sequence - 1]);
    forall j | 0 <= j < |rows| && rows[j].event.header.idempotencyKey == k ensures j + 1 == receipts[i].sequence {
      assert RowHasKey(rows, keys, j);
    }
  }

  // ----- the optimistic lock -----

  /** A commit that passes the lock with the sequence and the hash of some reading appends to exactly the log
    that was read, wherever the reading came from: any history of this trajectory, signed with its key, that
    folds to the snapshot is the log of the store, event for event. */
  lemma LockMeansNothingHappened(
    t: Tables, key: Option<string>, tid: string, other: seq<HarnessEvent>, s: Snapshot,
    ps: seq<ProposedEvent>, env: Env)
    requires tid in t.trajectories && ValidTrajectory(t, key, tid)
    requires Authentic(other, key) && FoldsTo(Genesis(t, tid), other, s)
    requires Commit(t, key, tid, s.sequence, s.lastEventHash, ps, env).1.Success?
    requires !SomeKeyUsed(KeysOf(t, tid), ps)
    ensures other == Log(t, tid)
  {
    hide Commit, Fold, KeysMatch, Authentic, RequestHashed, ValidCheckpoint, SomeKeyUsed, Appends, EmptyState;
    AppendedCommit(t, key, tid, s.sequence, s.lastEventHash, ps, env);
    var g, log := Genesis(t, tid), Log(t, tid);
    var head :| FoldsTo(g, log, head);
    HeadLinks(t, tid, key, head);
    var c1: Clock :| Fold(g, other, c1) == Success(s);
    var c2: Clock :| Fold(g, log, c2) == Success(head);
    HeadHashIdentifiesLog(g, key, other, c1, log, c2);
  }

  // ----- the two ways a trajectory can block -----

  /** A signed trajectory with a checkpoint past genesis can be neither replayed nor committed to again. */
  lemma SignedCheckpointBlocks(
    t: Tables, key: Option<string>, tid: string, row: CheckpointRow,
    expectedSequence: int, expectedHash: Option<Hash>, ps: seq<ProposedEvent>, env: Env)
    requires tid in t.trajectories && ValidTrajectory(t, key, tid) && key.Some?
    requires row in CheckpointsOf(t, tid) && row.sequence > 0
    ensures Replay(t, key, tid, None, env.clock) == Failure(BadCheckpoint)
    ensures Commit(t, key, tid, expectedSequence, expectedHash, ps, env)
         == (t, Failure(if ps == [] then NoProposals else CommitFailed))
  {
    hide LoadHead, CommitLoop, Replay, Fold, ValidateCheckpoint;
    var n := |Log(t, tid)|;
    LoadHeadIsReplay(t, key, tid, env.clock);
    ReplayFromCheckpoint(t, key, tid, n, env.clock);
    CheckpointFacts(t, key, tid, row);
    assert row.sequence <= n;
  }

  /** So a signed store stops at the first head that is a multiple of 50. */
  lemma SignedStoreStopsAtFifty(
    t: Tables, key: Option<string>, tid: string, seq0: int, hash0: Option<Hash>, ps: seq<ProposedEvent>, env: Env,
    seq1: int, hash1: Option<Hash>, qs: seq<ProposedEvent>, env1: Env)
    requires ValidTables(t, key) && key.Some? && qs != []
    requires Commit(t, key, tid, seq0, hash0, ps, env).1.Success? && !SomeKeyUsed(KeysOf(t, tid), ps)
    requires Commit(t, key, tid, seq0, hash0, ps, env).1.value.lastSequence % 50 == 0
    ensures var u := Commit(t, key, tid, seq0, hash0, ps, env).0;
      Commit(u, key, tid, seq1, hash1, qs, env1) == (u, Failure(CommitFailed))
  {
    hide Commit, ValidTrajectory, SomeKeyUsed, KeysAppended, AllCarry;
    var (u, r) := Commit(t, key, tid, seq0, hash0, ps, env);
    AppendedCommit(t, key, tid, seq0, hash0, ps, env);
    var row :| CheckpointsOf(u, tid) == CheckpointsOf(t, tid) + [row] && row.sequence == |RowsOf(u, tid)|;
    assert row in CheckpointsOf(u, tid);
    assert tid in u.trajectories;
    SignedCheckpointBlocks(u, key, tid, row, seq1, hash1, qs, env1);
  }

  lemma {:induction false} LatestSnoc(rows: seq<CheckpointRow>, row: CheckpointRow)
    requires forall q :: q in rows ==> q.sequence < row.sequence
    ensures LatestCheckpoint(rows + [row], None) == Some(row)
  {
    var r := LatestCheckpoint(rows + [row], None);
    assert row in rows + [row];
    assert r.value in rows + [row];
  }

  /** What save_snapshot stores for a snapshot that matches the head can be read back exactly when the
    caller's event_count is the sequence and the snapshot is unsigned; otherwise the trajectory is blocked. */
  lemma SavedSnapshotReadableIff(t: Tables, key: Option<string>, s: Snapshot, eventCount: int, clock: Clock)
    requires s.trajectoryId in t.trajectories && ValidTrajectory(t, key, s.trajectoryId)
    requires SaveSnapshot(t, s, eventCount).Success?
    ensures var u := SaveSnapshot(t, s, eventCount).value;
      LoadHead(u, key, s.trajectoryId, clock) ==
      if eventCount == s.sequence && s.lastSignature.None? then Success(s) else Failure(BadCheckpoint)
  {
    hide FoldsTo, KeysMatch, RequestHashed, Accepted, WellFormedEvent, FreshSnapshot, Fold, ReduceEvent,
      ValidateCheckpoint,
      CheckpointRowFor, LatestCheckpoint, Authentic;
    var tid := s.trajectoryId;
    var rows, u := RowsOf(t, tid), SaveSnapshot(t, s, eventCount).value;
    var row := CheckpointRowFor(s, eventCount, CheckpointId(tid, s.sequence));
    SavedRowUsableIff(t, key, s, eventCount);
    AfterIsSuffix(rows, 0, |rows|);
    assert CheckpointsOf(u, tid) == CheckpointsOf(t, tid) + [row];
    CheckpointsBefore(t, key, s, eventCount);
    LatestSnoc(CheckpointsOf(t, tid), row);
  }

  /** Every stored checkpoint lies before the one that save_snapshot adds. */
  lemma CheckpointsBefore(t: Tables, key: Option<string>, s: Snapshot, eventCount: int)
    requires s.trajectoryId in t.trajectories && ValidTrajectory(t, key, s.trajectoryId)
    requires SaveSnapshot(t, s, eventCount).Success? && s.sequence == |RowsOf(t, s.trajectoryId)|
    ensures forall q :: q in CheckpointsOf(t, s.trajectoryId) ==> q.sequence < s.sequence
  {
    hide FoldsTo, KeysMatch, RequestHashed, Accepted, WellFormedEvent, FreshSnapshot, Fold, Authentic;
    var tid := s.trajectoryId;
    forall q | q in CheckpointsOf(t, tid) ensures q.sequence < s.sequence {
      var i :| 0 <= i < |CheckpointsOf(t, tid)| && CheckpointsOf(t, tid)[i] == q;
      assert ValidCheckpoint(q, Genesis(t, tid), Log(t, tid));
    }
  }

  lemma SavedRowUsableIff(t: Tables, key: Option<string>, s: Snapshot, eventCount: int)
    requires s.trajectoryId in t.trajectories && ValidTrajectory(t, key, s.trajectoryId)
    requires SaveSnapshot(t, s, eventCount).Success?
    ensures var rows := RowsOf(t, s.trajectoryId);
      var row := CheckpointRowFor(s, eventCount, CheckpointId(s.trajectoryId, s.sequence));
      && s.sequence == |rows| && Numbered(rows, 0)
      && row.sequence == s.sequence && row.snapshot == s
      && (ValidateCheckpoint(row, rows) <==> eventCount == s.sequence && s.lastSignature.None?)
  {
    hide FoldsTo, KeysMatch, RequestHashed, Accepted, WellFormedEvent, FreshSnapshot, Fold, Authentic;
    var rows := RowsOf(t, s.trajectoryId);
    LogNumbered(t, key, s.trajectoryId);
    AfterIsSuffix(rows, 0, |rows|);
    if rows != [] { AtIsIndex(rows, 0, |rows|); }
  }
}
