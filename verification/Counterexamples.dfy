/** Inputs at which promises of the source fail, each built from an empty database by the store's own operations. */
module Counterexamples {
  import opened Results
  import opened Schema
  import opened Reducer
  import opened FoldFacts
  import opened ClockIndependence
  import opened Consistency
  import opened StoreTables
  import opened StoreFacts
  import opened CommitFacts
  import opened CommitOutcome
  import opened StoreTheorems
  import opened EventStore
  import opened StoreMachine
  import opened Actions

  // ----- small stores -----

  const TRAJECTORY := "trajectory"

  const START := GenesisSnapshot(TRAJECTORY, "epoch", InitialBudget(TRAJECTORY, None), 0)

  /** A clock that stands still. */
  function Still(now: Time): Clock {
    n => now
  }

  /** A name for each number. */
  function Tally(n: nat): (name: string)
    ensures |name| == n
  {
    seq(n, i => 'i')
  }

  /** The n-th proposal, and the environment that it meets. */
  function Ask(n: nat, payload: Payload): ProposedEvent {
    ProposedEvent(PayloadTypeName(payload), payload, Tally(n), "actor", "action", None)
  }

  function At(n: nat): Env {
    Env(i => Tally(n), i => 0, Still(0))
  }

  function NewStore(): Tables {
    InitTrajectory(CREATED.tables, TRAJECTORY, "epoch", None, 0).value
  }

  /** Events and keys are named by number, and no other trajectory has any. */
  ghost predicate Named(t: Tables) {
    && (forall x :: x != TRAJECTORY ==> RowsOf(t, x) == [])
    && (forall i :: 0 <= i < |Log(t, TRAJECTORY)| ==> |Log(t, TRAJECTORY)[i].header.eventId| < |Log(t, TRAJECTORY)|)
    && (forall k :: k in KeysOf(t, TRAJECTORY) ==> |k| < |Log(t, TRAJECTORY)|)
  }

  /** Some run of the store ends in this state. */
  ghost predicate Reached(w: World, key: Option<string>) {
    exists ws :: Run(ws, key) && ws[|ws| - 1] == w
  }

  /** One instance over these tables, with nothing in its cache. */
  function Instance(t: Tables): World {
    World(t, [map[]], None, [])
  }

  /** A reachable store with one trajectory, its genesis checkpoint, and a head that loads. */
  ghost predicate Small(t: Tables, key: Option<string>, head: Snapshot) {
    && Reached(Instance(t), key)
    && ValidTables(t, key) && TRAJECTORY in t.trajectories
    && |CheckpointsOf(t, TRAJECTORY)| == 1 && Genesis(t, TRAJECTORY) == START
    && Named(t)
    && Fold(START, Log(t, TRAJECTORY), Still(0)) == Success(head)
  }

  lemma OneMoreStep(w: World, u: World, key: Option<string>)
    requires Reached(w, key) && Next(w, u, key)
    ensures Reached(u, key)
  {
    hide Next;
    var ws :| Run(ws, key) && ws[|ws| - 1] == w;
    var longer := ws + [u];
    forall i | 0 <= i < |longer| - 1 ensures Next(longer[i], longer[i + 1], key) {
      if i < |ws| - 1 {
        assert Next(ws[i], ws[i + 1], key);
      }
    }
    assert Run(longer, key) && longer[|longer| - 1] == u;
  }

  lemma NewStoreReached(key: Option<string>)
    ensures Reached(Instance(NewStore()), key)
  {
    hide InitTrajectory, NewStore, Reached, InitStep, CommitStep, SaveStep, LatestStep;
    CreatedReached(key);
    var opened_ := CREATED.(caches := [] + [map[]]);
    OneMoreStep(CREATED, opened_, key);
    InitFromCreated(opened_);
    InitIsNext(opened_, Instance(NewStore()), key, TRAJECTORY, "epoch", None, 0);
    OneMoreStep(opened_, Instance(NewStore()), key);
  }

  lemma CreatedReached(key: Option<string>)
    ensures Reached(CREATED, key)
  {
    hide Next;
    assert Run([CREATED], key) && [CREATED][0] == CREATED;
  }

  lemma InitIsNext(
    w: World, u: World, key: Option<string>, tid: string, epochId: string, budget: Option<BudgetLedger>, now: Time)
    requires InitStep(w, u, tid, epochId, budget, now)
    ensures Next(w, u, key)
  {
    hide InitStep;
  }

  lemma InitFromCreated(w: World)
    requires w == CREATED.(caches := [] + [map[]])
    ensures InitStep(w, Instance(NewStore()), TRAJECTORY, "epoch", None, 0)
  {
  }

  lemma NewStoreIsSmall(key: Option<string>)
    ensures Small(NewStore(), key, START) && Log(NewStore(), TRAJECTORY) == []
  {
    hide ValidTables, Reached;
    NewStoreReached(key);
    CreatedIsGood(key);
    InitKeepsTablesValid(CREATED.tables, key, TRAJECTORY, "epoch", None, 0);
  }

  lemma LoadsByFolding(t: Tables, key: Option<string>, clock: Clock)
    requires ValidTables(t, key) && TRAJECTORY in t.trajectories && |CheckpointsOf(t, TRAJECTORY)| == 1
    ensures LoadHead(t, key, TRAJECTORY, clock) == Lift(Fold(Genesis(t, TRAJECTORY), Log(t, TRAJECTORY), clock))
  {
    hide Fold, LoadHead, Replay, FoldsTo, KeysMatch, Authentic, RequestHashed, ValidCheckpoint, Accepted, FreshSnapshot;
    var log := Log(t, TRAJECTORY);
    assert ValidTrajectory(t, key, TRAJECTORY);
    LoadHeadIsReplay(t, key, TRAJECTORY, clock);
    ReplayFromCheckpoint(t, key, TRAJECTORY, |log|, clock);
    assert log[0..|log|] == log;
  }

  lemma SmallHead(t: Tables, key: Option<string>, head: Snapshot)
    requires Small(t, key, head)
    ensures ValidTrajectory(t, key, TRAJECTORY)
    ensures LoadHead(t, key, TRAJECTORY, Still(0)) == Success(head)
    ensures FoldsTo(START, Log(t, TRAJECTORY), head) && head.trajectoryId == TRAJECTORY
    ensures head.sequence == |RowsOf(t, TRAJECTORY)| && head.lastEventHash == HeadHash(RowsOf(t, TRAJECTORY))
    ensures WellChained(head) && (key.Some? && head.sequence > 0 ==> head.lastSignature.Some?)
  {
    hide Reached, Fold, LoadHead, Named, KeysMatch, RequestHashed, ValidCheckpoint, Accepted, FreshSnapshot;
    LoadsByFolding(t, key, Still(0));
    FoldNumbering(START, Log(t, TRAJECTORY), Still(0));
    FoldWellChained(START, Log(t, TRAJECTORY), Still(0));
    HeadLinks(t, TRAJECTORY, key, head);
  }

  /** The event that the next proposal gets. */
  function NextEvent(t: Tables, key: Option<string>, head: Snapshot, payload: Payload): HarnessEvent {
    var n := |Log(t, TRAJECTORY)|;
    Seal(head.sequence + 1, head.lastEventHash, head.lastSignature, TRAJECTORY, key, Ask(n, payload), 0, At(n))
  }

  function CommitNext(t: Tables, key: Option<string>, head: Snapshot, payload: Payload)
    : (Tables, Result<CommitResult, StoreError>)
  {
    var n := |Log(t, TRAJECTORY)|;
    Commit(t, key, TRAJECTORY, head.sequence, head.lastEventHash, [Ask(n, payload)], At(n))
  }

  lemma NextSealed(t: Tables, key: Option<string>, head: Snapshot, payload: Payload)
    ensures var n := |Log(t, TRAJECTORY)|;
      SealedBatch(head, TRAJECTORY, key, [Ask(n, payload)], At(n)) == [NextEvent(t, key, head, payload)]
  {
    hide SealedBatch, Seal, Log;
    var n := |Log(t, TRAJECTORY)|;
    SealedSnoc(head, TRAJECTORY, key, [], Ask(n, payload), At(n));
    SealedNone(head, TRAJECTORY, key, At(n));
    assert [] + [Ask(n, payload)] == [Ask(n, payload)];
    assert [] + [NextEvent(t, key, head, payload)] == [NextEvent(t, key, head, payload)];
  }

  lemma NextKeyFree(t: Tables, payload: Payload)
    requires Named(t)
    ensures !SomeKeyUsed(KeysOf(t, TRAJECTORY), [Ask(|Log(t, TRAJECTORY)|, payload)])
  {
  }

  lemma NextFresh(t: Tables, e: HarnessEvent)
    requires Named(t) && |e.header.eventId| == |Log(t, TRAJECTORY)|
    ensures FreshEventIds(t, [e])
  {
    hide Named, EventIdTaken;
    NextIdFree(t, e);
  }

  lemma OneFolds(s: Snapshot, e: HarnessEvent, clock: Clock)
    ensures Fold(s, [e], clock) == ReduceEvent(s, e, clock(e.header.sequence))
  {
    hide ReduceEvent;
    assert [e][..0] == [];
  }

  /** Asked behind any head of the trajectory, the next proposal only needs its handler to accept. */
  lemma CommittableBehind(t: Tables, key: Option<string>, head: Snapshot, payload: Payload)
    requires Named(t) && head.trajectoryId == TRAJECTORY
    requires WellChained(head) && (key.Some? && head.sequence > 0 ==> head.lastSignature.Some?)
    ensures var n := |Log(t, TRAJECTORY)|;
      Committable(t, head, TRAJECTORY, key, [Ask(n, payload)], At(n)) <==>
      Handle(head, NextEvent(t, key, head, payload), 0).Success?
  {
    hide Fold, Handle, SealedBatch, Seal, Log, Named, FreshEventIds, ReduceEvent, WellChained;
    var n := |Log(t, TRAJECTORY)|;
    var p, e := Ask(n, payload), NextEvent(t, key, head, payload);
    NextSealed(t, key, head, payload);
    SealFitsHead(head, key, p, 0, At(n), 0);
    OneFolds(head, e, Still(0));
    NextId(t, key, head, payload);
    NextFresh(t, e);
  }

  lemma NextIsCommittable(t: Tables, key: Option<string>, head: Snapshot, payload: Payload)
    requires Small(t, key, head)
    ensures var n := |Log(t, TRAJECTORY)|;
      Committable(t, head, TRAJECTORY, key, [Ask(n, payload)], At(n)) <==>
      Handle(head, NextEvent(t, key, head, payload), 0).Success?
  {
    hide Reached, ValidTables, Fold, Handle, Log, Named, Committable, WellChained, LoadHead;
    SmallHead(t, key, head);
    CommittableBehind(t, key, head, payload);
  }

  lemma NextId(t: Tables, key: Option<string>, head: Snapshot, payload: Payload)
    ensures |NextEvent(t, key, head, payload).header.eventId| == |Log(t, TRAJECTORY)|
    ensures NextEvent(t, key, head, payload).payload == payload
  {
  }

  lemma TrajectoryValid(t: Tables, key: Option<string>)
    requires ValidTables(t, key) && TRAJECTORY in t.trajectories
    ensures ValidTrajectory(t, key, TRAJECTORY)
  {
    hide ValidTrajectory;
  }

  lemma NextIdFree(t: Tables, e: HarnessEvent)
    requires Named(t)
    ensures |e.header.eventId| == |Log(t, TRAJECTORY)| ==> !EventIdTaken(t, e.header.eventId)
  {
    if EventIdTaken(t, e.header.eventId) {
      var x, i :| x in t.events && 0 <= i < |t.events[x]| && t.events[x][i].event.header.eventId == e.header.eventId;
      assert RowsOf(t, x) != [];
      assert Log(t, TRAJECTORY)[i].header.eventId == e.header.eventId;
    }
  }

  lemma SealedNone(head: Snapshot, tid: string, key: Option<string>, env: Env)
    ensures SealedBatch(head, tid, key, [], env) == []
  {
  }

  lemma FoldNone(s: Snapshot, clock: Clock)
    ensures Fold(s, [], clock) == Success(s)
  {
  }

  /** Committing the next proposal succeeds exactly when its handler accepts it, and then adds its event. */
  lemma CommitNextIff(t: Tables, key: Option<string>, head: Snapshot, payload: Payload)
    requires Small(t, key, head)
    ensures var (u, r) := CommitNext(t, key, head, payload);
      && (r.Success? <==> Handle(head, NextEvent(t, key, head, payload), 0).Success?)
      && (r.Failure? ==> u == t)
      && (r.Success? ==>
            && Appends(t, u, TRAJECTORY, [Ask(|Log(t, TRAJECTORY)|, payload)], r.value)
            && r.value.committedEvents == [NextEvent(t, key, head, payload)]
            && ValidTables(u, key) && TRAJECTORY in u.trajectories)
  {
    hide Reached, Commit, ValidTables, Fold, Handle, SealedBatch, Log, Named, LoadHead, Committable, WellChained,
      HeadHash,
      SomeKeyUsed, Appends, ReceiptsMatch;
    var ps, env := [Ask(|Log(t, TRAJECTORY)|, payload)], At(|Log(t, TRAJECTORY)|);
    SmallHead(t, key, head);
    NextIsCommittable(t, key, head, payload);
    NextSealed(t, key, head, payload);
    NextKeyFree(t, payload);
    CommitSucceedsIff(t, key, TRAJECTORY, head.sequence, head.lastEventHash, ps, env);
    UnappendedCommit(t, key, TRAJECTORY, head.sequence, head.lastEventHash, ps, env);
    CommitKeepsTablesValid(t, key, TRAJECTORY, head.sequence, head.lastEventHash, ps, env);
    CommitStaysInTrajectories(t, key, TRAJECTORY, head.sequence, head.lastEventHash, ps, env);
    if CommitNext(t, key, head, payload).1.Success? {
      AppendedCommit(t, key, TRAJECTORY, head.sequence, head.lastEventHash, ps, env);
    }
  }

  /** The log, and what folding it gives. */
  lemma NextLog(t: Tables, key: Option<string>, head: Snapshot, payload: Payload)
    requires Small(t, key, head) && Handle(head, NextEvent(t, key, head, payload), 0).Success?
    ensures var u := CommitNext(t, key, head, payload).0; var e := NextEvent(t, key, head, payload);
      && Log(u, TRAJECTORY) == Log(t, TRAJECTORY) + [e]
      && Fold(START, Log(u, TRAJECTORY), Still(0)) == Handle(head, e, 0)
  {
    hide Reached, CommitNext, ValidTables, Fold, Handle, Log, Named, LoadHead, WellChained, HeadHash, KeysAppended,
      SameElsewhere, CheckpointAppended, Seal, RowsAppended, ReduceEvent;
    var e := NextEvent(t, key, head, payload);
    SmallHead(t, key, head);
    CommitNextIff(t, key, head, payload);
    var (u, r) := CommitNext(t, key, head, payload);
    AppendedLog(t, u, TRAJECTORY, [Ask(|Log(t, TRAJECTORY)|, payload)], r.value);
    FoldSnoc(START, Log(t, TRAJECTORY), e, Still(0));
    SealFitsHead(head, key, Ask(|Log(t, TRAJECTORY)|, payload), 0, At(|Log(t, TRAJECTORY)|), 0);
  }

  lemma NextIsNamed(t: Tables, u: Tables, ps: seq<ProposedEvent>, r: CommitResult, e: HarnessEvent)
    requires Named(t) && Appends(t, u, TRAJECTORY, ps, r)
    requires Log(u, TRAJECTORY) == Log(t, TRAJECTORY) + [e]
    requires |e.header.eventId| == |Log(t, TRAJECTORY)|
    requires |ps| == 1 && |ps[0].idempotencyKey| == |Log(t, TRAJECTORY)|
    ensures Named(u)
  {
    hide RowsAppended, CheckpointAppended, Log, ReceiptsMatch;
  }

  lemma NextIsReached(t: Tables, key: Option<string>, head: Snapshot, payload: Payload)
    requires Reached(Instance(t), key) && Named(t) && CommitNext(t, key, head, payload).1.Success?
    ensures Reached(Instance(CommitNext(t, key, head, payload).0), key)
  {
    hide Reached, Commit, ValidTables, Fold, Log, SomeKeyUsed, KeysOf;
    var ps, env := [Ask(|Log(t, TRAJECTORY)|, payload)], At(|Log(t, TRAJECTORY)|);
    var w, u := Instance(t), Instance(CommitNext(t, key, head, payload).0);
    NextKeyFree(t, payload);
    var nothing: Cache := map[];
    assert nothing - {TRAJECTORY} == nothing;
    assert w.caches[0 := w.caches[0] - {TRAJECTORY}] == u.caches;
    assert CommitStep(w, u, key, 0, TRAJECTORY, head.sequence, head.lastEventHash, ps, env);
    OneMoreStep(w, u, key);
  }

  /** Unless it reaches a multiple of 50, the store is small again. */
  lemma NextIsSmall(t: Tables, key: Option<string>, head: Snapshot, payload: Payload)
    requires Small(t, key, head) && Handle(head, NextEvent(t, key, head, payload), 0).Success?
    requires (|Log(t, TRAJECTORY)| + 1) % 50 != 0
    ensures Small(CommitNext(t, key, head, payload).0, key, Handle(head, NextEvent(t, key, head, payload), 0).value)
  {
    hide Reached, CommitNext, ValidTables, Fold, Handle, Log, Named, KeysAppended, SameElsewhere, Seal, RowsAppended;
    CommitNextIff(t, key, head, payload);
    NextLog(t, key, head, payload);
    var (u, r) := CommitNext(t, key, head, payload);
    NextId(t, key, head, payload);
    AppendedLog(t, u, TRAJECTORY, [Ask(|Log(t, TRAJECTORY)|, payload)], r.value);
    NextIsReached(t, key, head, payload);
    NextIsNamed(t, u, [Ask(|Log(t, TRAJECTORY)|, payload)], r.value, NextEvent(t, key, head, payload));
    assert CheckpointsOf(u, TRAJECTORY) == CheckpointsOf(t, TRAJECTORY);
  }

  // ----- a signed trajectory that reaches 50 -----

  const NOTE := ActionCommittedPayload("note", [])

  /** A reachable store with n notes, under any key. */
  lemma {:induction false} Notes(key: Option<string>, n: nat) returns (t: Tables, head: Snapshot)
    requires n < 50
    ensures Small(t, key, head) && |Log(t, TRAJECTORY)| == n
  {
    hide Small, CommitNext, NextEvent, Log;
    if n == 0 {
      NewStoreIsSmall(key);
      t, head := NewStore(), START;
    } else {
      var before, last := Notes(key, n - 1);
      NextId(before, key, last, NOTE);
      NoteAccepted(last, NextEvent(before, key, last, NOTE));
      NextLog(before, key, last, NOTE);
      NextIsSmall(before, key, last, NOTE);
      t, head := CommitNext(before, key, last, NOTE).0, Handle(last, NextEvent(before, key, last, NOTE), 0).value;
    }
  }

  /** A signed store of 49 events takes a 50th, and after it no commit of anything by anybody. */
  lemma SignedStoreBlocks(secret: string) returns (t: Tables, head: Snapshot)
    ensures Small(t, Some(secret), head) && |Log(t, TRAJECTORY)| == 49
    ensures var (u, r) := CommitNext(t, Some(secret), head, NOTE);
      && r.Success? && Reached(Instance(u), Some(secret)) && |Log(u, TRAJECTORY)| == 50
      && forall sequence, hash, ps, env :: ps != [] ==>
           Commit(u, Some(secret), TRAJECTORY, sequence, hash, ps, env) == (u, Failure(CommitFailed))
  {
    hide Reached, Commit, ValidTables, Fold, Log, Named, Handle;
    var key := Some(secret);
    t, head := Notes(key, 49);
    CommitNextIff(t, key, head, NOTE);
    NoteAccepted(head, NextEvent(t, key, head, NOTE));
    NextIsReached(t, key, head, NOTE);
    NextLog(t, key, head, NOTE);
    var (u, r) := CommitNext(t, key, head, NOTE);
    TrajectoryValid(u, key);
    FiftiethCheckpoint(t, u, [Ask(|Log(t, TRAJECTORY)|, NOTE)], r.value);
    var row :| row in CheckpointsOf(u, TRAJECTORY) && row.sequence == 50;
    forall sequence, hash, ps, env | ps != []
      ensures Commit(u, key, TRAJECTORY, sequence, hash, ps, env) == (u, Failure(CommitFailed))
    {
      SignedCheckpointBlocks(u, key, TRAJECTORY, row, sequence, hash, ps, env);
    }
  }

  lemma NoteAccepted(s: Snapshot, e: HarnessEvent)
    requires e.payload == NOTE
    ensures Handle(s, e, 0).Success?
  {
  }

  lemma FiftiethCheckpoint(t: Tables, u: Tables, ps: seq<ProposedEvent>, r: CommitResult)
    requires Appends(t, u, TRAJECTORY, ps, r) && |Log(u, TRAJECTORY)| == 50
    ensures exists row :: row in CheckpointsOf(u, TRAJECTORY) && row.sequence == 50
  {
    hide RowsAppended, KeysAppended, SameElsewhere;
    var row :| CheckpointsOf(u, TRAJECTORY) == CheckpointsOf(t, TRAJECTORY) + [row] && row.sequence == 50;
    assert row in CheckpointsOf(u, TRAJECTORY);
  }

  // ----- a batch of many proposals -----

  /** The i-th proposal gets the i-th id. */
  function Counting(): Env {
    Env(i => if i >= 0 then Tally(i) else "", i => i, Still(0))
  }

  function NoteBatch(n: nat): seq<ProposedEvent> {
    seq(n, i requires 0 <= i < n => Ask(i, NOTE))
  }

  lemma NoteBatchFresh(n: nat)
    ensures !KeyAmong(NoteBatch(n), Ask(n, NOTE).idempotencyKey) && NoteBatch(n + 1) == NoteBatch(n) + [Ask(n, NOTE)]
  {
    forall i | 0 <= i < n ensures NoteBatch(n)[i].idempotencyKey != Ask(n, NOTE).idempotencyKey {
      assert |NoteBatch(n)[i].idempotencyKey| == i;
    }
  }

  /** The reducer takes any number of notes, one event each. */
  lemma {:induction false} NotesAccepted(key: Option<string>, n: nat)
    ensures var events := SealedBatch(START, TRAJECTORY, key, NoteBatch(n), Counting());
      && |events| == n && Fold(START, events, Still(0)).Success?
      && (key.Some? && n > 0 ==> Fold(START, events, Still(0)).value.lastSignature.Some?)
  {
    hide Fold, SealedBatch, SealedNext, Seal, KeyAmong, Handle, WellChained;
    if n == 0 {
      SealedNone(START, TRAJECTORY, key, Counting());
      FoldNone(START, Still(0));
      assert NoteBatch(0) == [];
    } else {
      NotesAccepted(key, n - 1);
      NoteBatchFresh(n - 1);
      var before := SealedBatch(START, TRAJECTORY, key, NoteBatch(n - 1), Counting());
      var p := Ask(n - 1, NOTE);
      var e := SealedNext(START, before, TRAJECTORY, key, p, n - 1, Counting());
      SealedSnoc(START, TRAJECTORY, key, NoteBatch(n - 1), p, Counting());
      OneMoreNote(before, key, p, n - 1, e);
    }
  }

  lemma OneMoreNote(before: seq<HarnessEvent>, key: Option<string>, p: ProposedEvent, i: nat, e: HarnessEvent)
    requires Fold(START, before, Still(0)).Success? && |before| == i
    requires key.Some? && i > 0 ==> Fold(START, before, Still(0)).value.lastSignature.Some?
    requires p == Ask(i, NOTE) && e == SealedNext(START, before, TRAJECTORY, key, p, i, Counting())
    ensures var r := Fold(START, before + [e], Still(0));
      r.Success? && (key.Some? ==> r.value.lastSignature.Some?)
  {
    hide Fold, SealedNext, Handle, ReduceEvent, ValidateEnvelope, AnswersAs, VerifySignature, WellFormedEvent;
    var s := Fold(START, before, Still(0)).value;
    FoldNumbering(START, before, Still(0));
    FoldWellChained(START, before, Still(0));
    SealedNextLinks(START, before, Still(0), TRAJECTORY, key, p, i, Counting());
    SealFitsHead(s, key, p, i, Counting(), 0);
    SealAnswers(s.sequence + 1, s.lastEventHash, s.lastSignature, TRAJECTORY, key, p, i, Counting());
    SealedFields(s.sequence + 1, s.lastEventHash, s.lastSignature, TRAJECTORY, key, p, i, Counting());
    NoteAccepted(s, e);
    FoldSnoc(START, before, e, Still(0));
    ReduceEnvelope(s, e, 0);
  }

  lemma NoteBatchRequests(n: nat)
    ensures OneRequestPerKey(NoteBatch(n)) && |NoteBatch(n)| == n
    ensures !SomeKeyUsed(KeysOf(NewStore(), TRAJECTORY), NoteBatch(n))
  {
    hide ComputeRequestHash;
    var ps := NoteBatch(n);
    forall i | 0 <= i < n ensures |ps[i].idempotencyKey| == i {}
  }

  lemma NewStoreIdsFree(id: string)
    ensures !EventIdTaken(NewStore(), id)
  {
  }

  /** A batch of any number of notes with different keys is committed to a new store, in one go. */
  lemma NoteBatchCommits(key: Option<string>, n: nat)
    requires n > 0
    ensures var r := Commit(NewStore(), key, TRAJECTORY, 0, None, NoteBatch(n), Counting()).1;
      r.Success? && |r.value.committedEvents| == n
  {
    hide Commit, Fold, SealedBatch, NewStore, Reached, ValidTables, Named, SomeKeyUsed, LoadHead, OneRequestPerKey,
      FreshEventIds, AnswerBatch, EventIdTaken, Log, WellChained;
    var ps, t := NoteBatch(n), NewStore();
    NewStoreIsSmall(key);
    SmallHead(t, key, START);
    NotesAccepted(key, n);
    NoteBatchRequests(n);
    SealedIsAnswer(START, TRAJECTORY, key, ps, Counting());
    forall i | 0 <= i < n ensures !EventIdTaken(t, Counting().ids(i)) { NewStoreIdsFree(Counting().ids(i)); }
    forall i, j | 0 <= i < j < n ensures Counting().ids(i) != Counting().ids(j) {
      assert |Counting().ids(i)| == i && |Counting().ids(j)| == j;
    }
    DistinctIdsSuffice(t, SealedBatch(START, TRAJECTORY, key, ps, Counting()), START, TRAJECTORY, key, ps, Counting());
    CommitSucceedsIff(t, key, TRAJECTORY, 0, None, ps, Counting());
  }

  // ----- a retry that takes the lock -----

  /** The commit of the first note, from an empty database. */
  function FirstNote(key: Option<string>): (Tables, Result<CommitResult, StoreError>) {
    CommitNext(NewStore(), key, START, NOTE)
  }

  lemma FirstNoteFacts(key: Option<string>)
    ensures Handle(START, NextEvent(NewStore(), key, START, NOTE), 0).Success?
    ensures var (t, r) := FirstNote(key);
      && Small(t, key, Handle(START, NextEvent(NewStore(), key, START, NOTE), 0).value)
      && r == Commit(NewStore(), key, TRAJECTORY, 0, None, [Ask(0, NOTE)], At(0)).1
      && t == Commit(NewStore(), key, TRAJECTORY, 0, None, [Ask(0, NOTE)], At(0)).0
      && r.Success? && ValidTables(NewStore(), key)
  {
    hide Commit, Log, Handle, NewStore, Reached, ValidTables, Named, Fold;
    NewStoreIsSmall(key);
    NextId(NewStore(), key, START, NOTE);
    NoteAccepted(START, NextEvent(NewStore(), key, START, NOTE));
    CommitNextIff(NewStore(), key, START, NOTE);
    NextIsSmall(NewStore(), key, START, NOTE);
  }

  /** Repeating it succeeds, with the receipts of the first time and no new event. */
  lemma RetrySucceeds(key: Option<string>)
    ensures var (t, first) := FirstNote(key);
      var (u, again) := Commit(t, key, TRAJECTORY, 0, None, [Ask(0, NOTE)], At(1));
      && first.Success? && again.Success? && u == t && again.value.receipts == first.value.receipts
      && SomeKeyUsed(KeysOf(t, TRAJECTORY), [Ask(0, NOTE)])
  {
    hide Commit, FirstNote, NewStore, ValidTables, LoadHead, Log, Handle, NextEvent, Extends, Reached, Named, Fold,
      CheckpointSafe, SomeKeyUsed, ReceiptsMatch, WellChained;
    var (t, first) := FirstNote(key);
    FirstNoteFacts(key);
    ExtendsSelf(t);
    SmallHead(t, key, Handle(START, NextEvent(NewStore(), key, START, NOTE), 0).value);
    RetryIsIdempotent(NewStore(), key, TRAJECTORY, 0, None, [Ask(0, NOTE)], At(0), t, 0, None, At(1));
    FirstCommitReceipts(NewStore(), key, TRAJECTORY, 0, None, [Ask(0, NOTE)], At(0));
    UsedOnce(t, [Ask(0, NOTE)], first.value.receipts);
  }

  /** In the machine the retry leaves the write lock taken: nothing is written until the instance is closed. */
  lemma RetryLocks(key: Option<string>) returns (w: World)
    ensures var t := FirstNote(key).0;
      && Reached(Instance(t), key)
      && Commit(t, key, TRAJECTORY, 0, None, [Ask(0, NOTE)], At(1)).1.Success?
      && CommitStep(Instance(t), w, key, 0, TRAJECTORY, 0, None, [Ask(0, NOTE)], At(1))
    ensures Reached(w, key) && w.writer == Some(0)
    ensures forall u :: Next(w, u, key) ==> u.tables == w.tables && (u.writer == Some(0) || CloseStep(w, u, 0))
  {
    hide Reached, Commit, ValidTables, Log, Named, Handle, Next, CloseStep, FirstNote, SomeKeyUsed, Fold, Ask, At;
    var t := FirstNote(key).0;
    FirstNoteFacts(key);
    RetrySucceeds(key);
    w := World(t, [map[]], Some(0), []);
    assert CommitStep(Instance(t), w, key, 0, TRAJECTORY, 0, None, [Ask(0, NOTE)], At(1));
    CommitIsNext(Instance(t), w, key, 0, TRAJECTORY, 0, None, [Ask(0, NOTE)], At(1));
    OneMoreStep(Instance(t), w, key);
    forall u | Next(w, u, key) ensures u.tables == w.tables && (u.writer == Some(0) || CloseStep(w, u, 0)) {
      LockedUntilClosed(w, u, key);
    }
  }

  lemma CommitIsNext(
    w: World, u: World, key: Option<string>, i: int, tid: string, sequence: int, hash: Option<Hash>,
    ps: seq<ProposedEvent>, env: Env)
    requires CommitStep(w, u, key, i, tid, sequence, hash, ps, env)
    ensures Next(w, u, key)
  {
    hide CommitStep;
  }

  lemma UsedOnce(t: Tables, ps: seq<ProposedEvent>, receipts: seq<CommitReceipt>)
    requires ReceiptsMatch(receipts, ps, KeysOf(t, TRAJECTORY)) && ps != []
    ensures SomeKeyUsed(KeysOf(t, TRAJECTORY), ps)
  {
    assert ps[0].idempotencyKey in KeysOf(t, TRAJECTORY);
  }

  // ----- a log that another clock refuses, and one that no clock does -----

  const CREATE := ClaimCreatedPayload("claim", TRAJECTORY, "first")
  const REVISE := ClaimRevisedPayload("claim", Some("second"), None)

  lemma OneClaim() returns (t: Tables, head: Snapshot)
    ensures Small(t, None, head) && |Log(t, TRAJECTORY)| == 1 && "claim" in ClaimIds(head.claims)
  {
    hide Small, CommitNext, NextEvent, Log, Handle, ClaimIds, NewStore, GenesisSnapshot;
    NewStoreIsSmall(None);
    NextId(NewStore(), None, START, CREATE);
    head := ClaimAccepted(NextEvent(NewStore(), None, START, CREATE));
    NextLog(NewStore(), None, START, CREATE);
    NextIsSmall(NewStore(), None, START, CREATE);
    t := CommitNext(NewStore(), None, START, CREATE).0;
  }

  /** A reachable unsigned store of two events: a claim, and a revision of it, which reads the clock. */
  lemma RevisedClaim() returns (t: Tables, head: Snapshot)
    ensures Small(t, None, head) && |Log(t, TRAJECTORY)| == 2
    ensures Log(t, TRAJECTORY)[1].payload == REVISE
  {
    hide Small, CommitNext, NextEvent, Log, Handle, ClaimIds;
    var before, s := OneClaim();
    NextId(before, None, s, REVISE);
    RevisionAccepted(s, NextEvent(before, None, s, REVISE));
    NextLog(before, None, s, REVISE);
    NextIsSmall(before, None, s, REVISE);
    t, head := CommitNext(before, None, s, REVISE).0, Handle(s, NextEvent(before, None, s, REVISE), 0).value;
  }

  lemma ClaimAccepted(e: HarnessEvent) returns (s: Snapshot)
    requires e.payload == CREATE
    ensures Handle(START, e, 0) == Success(s) && "claim" in ClaimIds(s.claims)
  {
    s := Handle(START, e, 0).value;
    assert ClaimIds(s.claims)[0] == "claim";
  }

  lemma RevisionAccepted(s: Snapshot, e: HarnessEvent)
    requires e.payload == REVISE && "claim" in ClaimIds(s.claims)
    ensures Handle(s, e, 0).Success?
  {
  }

  /** The checkpoint event of a state is accepted in that state. */
  function CheckpointOf(s: Snapshot): Payload {
    SnapshotCheckpointedPayload(s.sequence, ComputeStateHash(s))
  }

  lemma CheckpointAccepted(s: Snapshot, e: HarnessEvent)
    requires e.payload == CheckpointOf(s)
    ensures Handle(s, e, 0).Success?
  {
  }

  /** The log of claim, revision and checkpoint event is in a reachable store, where it loads, and at any
    other reading of the clock it does not load. */
  lemma CheckpointSplitsClocks(now: Time) returns (t: Tables, head: Snapshot)
    requires now != 0
    ensures Small(t, None, head)
    ensures LoadHead(t, None, TRAJECTORY, Still(0)) == Success(head)
    ensures LoadHead(t, None, TRAJECTORY, Still(now)).Failure?
  {
    hide Small, CommitNext, NextEvent, Log, Handle, LoadHead, Fold, ComputeStateHash;
    var before, s := RevisedClaim();
    NextId(before, None, s, CheckpointOf(s));
    CheckpointAccepted(s, NextEvent(before, None, s, CheckpointOf(s)));
    NextLog(before, None, s, CheckpointOf(s));
    NextIsSmall(before, None, s, CheckpointOf(s));
    t := CommitNext(before, None, s, CheckpointOf(s)).0;
    head := Handle(s, NextEvent(before, None, s, CheckpointOf(s)), 0).value;
    var log := Log(t, TRAJECTORY);
    assert log[1].payload == REVISE && log[2].payload == CheckpointOf(s);
    SmallLoads(t, head);
    SmallLoadsByFolding(t, head, Still(now));
    assert ReadsClock(log[1]) && !CheckpointSafe(log);
    if Fold(START, log, Still(now)).Success? {
      UnsafeLogSplitsReplays(START, log, Still(0), Still(now));
    }
  }

  lemma SmallLoads(t: Tables, head: Snapshot)
    requires Small(t, None, head)
    ensures LoadHead(t, None, TRAJECTORY, Still(0)) == Success(head)
    ensures Fold(START, Log(t, TRAJECTORY), Still(0)) == Success(head)
  {
    hide LoadHead, Fold, Reached, ValidTables;
    SmallHead(t, None, head);
  }

  lemma SmallLoadsByFolding(t: Tables, head: Snapshot, clock: Clock)
    requires Small(t, None, head)
    ensures LoadHead(t, None, TRAJECTORY, clock) == Lift(Fold(START, Log(t, TRAJECTORY), clock))
  {
    hide LoadHead, Fold, Reached, ValidTables;
    LoadsByFolding(t, None, clock);
  }

  // ----- save_snapshot -----

  /** The head of a small store with events can be saved, whatever event_count comes with it. */
  lemma SaveIsAccepted(t: Tables, key: Option<string>, head: Snapshot, eventCount: int)
    requires Small(t, key, head) && Log(t, TRAJECTORY) != []
    ensures head.trajectoryId == TRAJECTORY && SaveSnapshot(t, head, eventCount).Success?
  {
    hide Reached, ValidTables, Fold, Named, ComputeStateHash, LoadHead, WellChained, KeysMatch, Authentic,
      RequestHashed,
      Accepted, FreshSnapshot, ValidCheckpoint, FoldsTo;
    SmallHead(t, key, head);
    GenesisFirst(t, key);
    FoldNumbering(START, Log(t, TRAJECTORY), Still(0));
    var rows := RowsOf(t, TRAJECTORY);
    assert rows[|rows| - 1].event == Log(t, TRAJECTORY)[|rows| - 1];
  }

  /** A save with a wrong event_count passes, and no reading of the trajectory ever succeeds again. */
  lemma WrongCountBlocks(eventCount: int) returns (t: Tables, head: Snapshot)
    requires eventCount != 1
    ensures Small(t, None, head) && |Log(t, TRAJECTORY)| == 1
    ensures head.trajectoryId == TRAJECTORY && SaveSnapshot(t, head, eventCount).Success?
    ensures var u := SaveSnapshot(t, head, eventCount).value;
      && !SometimesLoads(u, None, TRAJECTORY)
      && forall sequence, hash, ps, env :: Commit(u, None, TRAJECTORY, sequence, hash, ps, env).1.Failure?
  {
    hide Reached, ValidTables, Fold, Named, LoadHead, WellChained, SaveSnapshot, ValidTrajectory, Log, CommitLoop;
    t, head := Notes(None, 1);
    SaveIsAccepted(t, None, head, eventCount);
    SmallHead(t, None, head);
    LogLength(t, TRAJECTORY);
    var u := SaveSnapshot(t, head, eventCount).value;
    forall c: Clock ensures LoadHead(u, None, TRAJECTORY, c).Failure? {
      SavedSnapshotReadableIff(t, None, head, eventCount, c);
    }
    forall sequence, hash, ps, env ensures Commit(u, None, TRAJECTORY, sequence, hash, ps, env).1.Failure? {
      assert LoadHead(u, None, TRAJECTORY, env.clock).Failure?;
    }
  }

  lemma SmallUnsigned(t: Tables, head: Snapshot)
    requires Small(t, None, head) && Log(t, TRAJECTORY) != []
    ensures head.lastSignature.None?
  {
    hide Reached, ValidTables, Fold, Named, LoadHead, WellChained, KeysMatch, RequestHashed, Accepted, FreshSnapshot,
      ValidCheckpoint, FoldsTo;
    SmallHead(t, None, head);
    FoldNumbering(START, Log(t, TRAJECTORY), Still(0));
  }

  /** The store of RevisedClaim after its head has been saved. */
  lemma SavedRevision(t: Tables, head: Snapshot) returns (u: Tables)
    requires Small(t, None, head) && |Log(t, TRAJECTORY)| == 2
    ensures Reached(Instance(u), None) && ValidTables(u, None) && TRAJECTORY in u.trajectories && Named(u)
    ensures RowsOf(u, TRAJECTORY) == RowsOf(t, TRAJECTORY)
    ensures CheckpointsOf(u, TRAJECTORY)
         == CheckpointsOf(t, TRAJECTORY) + [CheckpointRowFor(head, 2, CheckpointId(TRAJECTORY, 2))]
    ensures LoadHead(u, None, TRAJECTORY, Still(0)) == Success(head)
  {
    hide Reached, ValidTables, Fold, LoadHead, WellChained, CheckpointRowFor, ValidTrajectory, HeadProjection, Next,
      FoldsTo;
    SaveIsAccepted(t, None, head, 2);
    SmallHead(t, None, head);
    SmallUnsigned(t, head);
    LogLength(t, TRAJECTORY);
    u := SaveSnapshot(t, head, 2).value;
    SavedSnapshotReadableIff(t, None, head, 2, Still(0));
    HeadFoldIsPrefixFold(t, None, TRAJECTORY, head);
    SaveKeepsTablesValid(t, None, head, 2);
    assert SaveStep(Instance(t), Instance(u), head);
    SaveIsNext(Instance(t), Instance(u), None, head);
    SaveKeepsNames(t, head);
    OneMoreStep(Instance(t), Instance(u), None);
  }

  lemma SaveKeepsNames(t: Tables, s: Snapshot)
    requires Named(t) && SaveSnapshot(t, s, 2).Success?
    ensures Named(SaveSnapshot(t, s, 2).value)
  {
    hide HeadProjection, CheckpointRowFor;
    var u := SaveSnapshot(t, s, 2).value;
    assert forall x :: RowsOf(u, x) == RowsOf(t, x);
    assert Log(u, TRAJECTORY) == Log(t, TRAJECTORY) && KeysOf(u, TRAJECTORY) == KeysOf(t, TRAJECTORY);
  }

  lemma SaveIsNext(w: World, u: World, key: Option<string>, s: Snapshot)
    requires SaveStep(w, u, s)
    ensures Next(w, u, key)
  {
    hide SaveStep;
  }

  /** It takes the checkpoint event of the saved head, and replays nothing else than that event. */
  lemma CheckpointBehindSave(before: Tables, saved: Tables, head: Snapshot) returns (t: Tables)
    requires Small(before, None, head) && |Log(before, TRAJECTORY)| == 2
    requires Reached(Instance(saved), None) && ValidTables(saved, None) && TRAJECTORY in saved.trajectories
      && Named(saved)
    requires RowsOf(saved, TRAJECTORY) == RowsOf(before, TRAJECTORY)
    requires CheckpointsOf(saved, TRAJECTORY)
          == CheckpointsOf(before, TRAJECTORY) + [CheckpointRowFor(head, 2, CheckpointId(TRAJECTORY, 2))]
    requires LoadHead(saved, None, TRAJECTORY, Still(0)) == Success(head)
    ensures Reached(Instance(t), None) && TRAJECTORY in t.trajectories
    ensures |Log(t, TRAJECTORY)| == 3 && Log(t, TRAJECTORY)[..2] == Log(before, TRAJECTORY)
    ensures Log(t, TRAJECTORY)[2].payload == CheckpointOf(head)
    ensures CheckpointsOf(t, TRAJECTORY) == CheckpointsOf(saved, TRAJECTORY)
  {
    hide Reached, Fold, LoadHead, WellChained, CheckpointRowFor, ValidTrajectory, Commit, Handle, Seal, Committable,
      SomeKeyUsed, HeadHash, RowsAppended, KeysAppended, SameElsewhere, Named, SealedBatch, AcceptedOnHead, NextEvent,
      ComputeStateHash;
    var p, e := CheckpointOf(head), NextEvent(saved, None, head, CheckpointOf(head));
    var ps := [Ask(2, p)];
    SmallHead(before, None, head);
    assert Log(saved, TRAJECTORY) == Log(before, TRAJECTORY);
    LogLength(saved, TRAJECTORY);
    NextId(saved, None, head, p);
    CheckpointAccepted(head, e);
    CommittableBehind(saved, None, head, p);
    NextSealed(saved, None, head, p);
    NextKeyFree(saved, p);
    CommitSucceedsIff(saved, None, TRAJECTORY, head.sequence, head.lastEventHash, ps, At(2));
    AppendedCommit(saved, None, TRAJECTORY, head.sequence, head.lastEventHash, ps, At(2));
    var (u, r) := CommitNext(saved, None, head, p);
    t := u;
    NextIsReached(saved, None, head, p);
    AppendedLog(saved, t, TRAJECTORY, ps, r.value);
    CommitStaysInTrajectories(saved, None, TRAJECTORY, head.sequence, head.lastEventHash, ps, At(2));
  }

  lemma ReplaysOneEvent(t: Tables, row: CheckpointRow, first: seq<CheckpointRow>)
    requires |Log(t, TRAJECTORY)| == 3 && CheckpointsOf(t, TRAJECTORY) == first + [row] && row.sequence == 2
    requires forall q :: q in first ==> q.sequence < 2
    ensures CheckpointSafe(ReplayedEvents(t, TRAJECTORY, 3))
  {
    hide LatestCheckpoint, Log;
    NewestCheckpoint(first, row);
    SameNewest(first + [row], 2, 3);
    assert |ReplayedEvents(t, TRAJECTORY, 3)| == 1;
  }

  /** With the saved revision between, the log of CheckpointSplitsClocks loads under every clock: the stamps
    before the checkpoint are frozen. */
  lemma SavedRevisionLoadsAlways() returns (t: Tables)
    ensures Reached(Instance(t), None) && TRAJECTORY in t.trajectories
    ensures !CheckpointSafe(Log(t, TRAJECTORY)) && AlwaysLoads(t, None, TRAJECTORY)
  {
    hide Reached, ValidTables, Fold, Named, LoadHead, WellChained, SaveSnapshot, ValidTrajectory, Log, Commit, Handle,
      Next,
      NextEvent, CheckpointSafe, ReplayedEvents, CheckpointRowFor, ComputeStateHash;
    var before, s := RevisedClaim();
    var saved := SavedRevision(before, s);
    t := CheckpointBehindSave(before, saved, s);
    assert Log(t, TRAJECTORY)[..2][1] == Log(t, TRAJECTORY)[1];
    UnsafeThree(Log(t, TRAJECTORY));
    GenesisOnly(before, s);
    SavedAtTwo(s);
    SmallHead(before, None, s);
    LogLength(before, TRAJECTORY);
    ReplaysOneEvent(t, CheckpointRowFor(s, 2, CheckpointId(TRAJECTORY, 2)), CheckpointsOf(before, TRAJECTORY));
    ReachedLoads(t);
    AlwaysLoadsIff(t, None, TRAJECTORY);
  }

  lemma GenesisOnly(t: Tables, head: Snapshot)
    requires Small(t, None, head)
    ensures forall q :: q in CheckpointsOf(t, TRAJECTORY) ==> q.sequence == 0
  {
    hide Reached, ValidTrajectory, Named, Fold;
    TrajectoryValid(t, None);
    GenesisFirst(t, None);
  }

  lemma GenesisFirst(t: Tables, key: Option<string>)
    requires ValidTrajectory(t, key, TRAJECTORY)
    ensures CheckpointsOf(t, TRAJECTORY) != [] && CheckpointsOf(t, TRAJECTORY)[0].sequence == 0
  {
    hide FoldsTo, KeysMatch, Authentic, RequestHashed, ValidCheckpoint, FreshSnapshot, Accepted;
  }

  lemma SavedAtTwo(s: Snapshot)
    ensures CheckpointRowFor(s, 2, CheckpointId(TRAJECTORY, 2)).sequence == s.sequence
  {
  }

  lemma UnsafeThree(log: seq<HarnessEvent>)
    requires |log| == 3 && log[1].payload == REVISE && log[2].payload.SnapshotCheckpointedPayload?
    ensures !CheckpointSafe(log)
  {
    assert ReadsClock(log[1]);
  }

  /** A reachable unsigned trajectory loads at some time. */
  lemma ReachedLoads(t: Tables)
    requires Reached(Instance(t), None) && TRAJECTORY in t.trajectories
    ensures ValidTrajectory(t, None, TRAJECTORY) && SometimesLoads(t, None, TRAJECTORY)
  {
    hide Next, ValidTrajectory, LoadHead, Replay, Log, CacheOk;
    var ws :| Run(ws, None) && ws[|ws| - 1] == Instance(t);
    ReachableIsValid(ws, None, |ws| - 1);
    ReachableReplaysIff(ws, None, |ws| - 1, TRAJECTORY, |Log(t, TRAJECTORY)|);
    var c: Clock :| Replay(t, None, TRAJECTORY, Some(|Log(t, TRAJECTORY)|), c).Success?;
    LoadHeadIsReplay(t, None, TRAJECTORY, c);
    assert LoadHead(t, None, TRAJECTORY, c).Success?;
  }

  // ----- a validated action that the reducer refuses -----

  const SUBMISSION := SubmissionRecordedPayload("submission", "text", [])
  const RESUBMIT := Submit("submission", "text", [])

  /** A profile without restrictions. */
  function Open(): Profile {
    Profile(None, path => true, c => false)
  }

  lemma SubmissionAccepted(e: HarnessEvent) returns (s: Snapshot)
    requires e.payload == SUBMISSION
    ensures Handle(START, e, 0) == Success(s)
    ensures "submission" in SubmissionIds(s.submissions) && s.budget == START.budget && s.trajectoryId == TRAJECTORY
  {
    s := Handle(START, e, 0).value;
    assert SubmissionIds(s.submissions)[0] == "submission";
  }

  lemma ResubmissionValid(s: Snapshot)
    requires "submission" in SubmissionIds(s.submissions) && s.budget == START.budget
    ensures ValidateAction(RESUBMIT, s, Open(), 0).None? && !NewIdsFresh(RESUBMIT, s, "again")
  {
    assert !Blank("text", Open()) by { assert !Open().isSpace("text"[0]); }
  }

  lemma ResubmissionRefused(s: Snapshot, e: HarnessEvent)
    requires "submission" in SubmissionIds(s.submissions) && e.payload == SUBMISSION
    ensures Handle(s, e, 0) == Failure(DuplicateId("submission"))
  {
  }

  /** The plan of a resubmission, behind a head of one event. */
  lemma ResubmissionSealed(head: Snapshot, key: Option<string>)
    requires head.trajectoryId == TRAJECTORY && "submission" in SubmissionIds(head.submissions)
    requires WellChained(head) && (key.Some? && head.sequence > 0 ==> head.lastSignature.Some?)
    ensures var ps := PlanEvents(RESUBMIT, head, "again", "actor");
      |ps| == 1 && |ps[0].idempotencyKey| > 1
      && Fold(head, SealedBatch(head, TRAJECTORY, key, ps, At(1)), Still(0)).Failure?
  {
    hide SealedBatch, Handle, WellChained, Fold;
    var ps := PlanEvents(RESUBMIT, head, "again", "actor");
    assert ps == [] + [ps[0]];
    SealedSnoc(head, TRAJECTORY, key, [], ps[0], At(1));
    SealedNone(head, TRAJECTORY, key, At(1));
    var e := SealedNext(head, [], TRAJECTORY, key, ps[0], 0, At(1));
    assert [] + [e] == [e];
    SealFitsHead(head, key, ps[0], 0, At(1), 0);
    OneFolds(head, e, Still(0));
    ResubmissionRefused(head, e);
  }

  lemma LongKeyFree(t: Tables, ps: seq<ProposedEvent>)
    requires Named(t) && |Log(t, TRAJECTORY)| == 1 && |ps| == 1 && |ps[0].idempotencyKey| > 1
    ensures !SomeKeyUsed(KeysOf(t, TRAJECTORY), ps)
  {
  }

  /** Submitting the same submission twice: the action validates against the head, and its commit at that
    very head is refused by the reducer. */
  lemma ValidatedActionRefused(key: Option<string>) returns (t: Tables, head: Snapshot)
    ensures Small(t, key, head) && |Log(t, TRAJECTORY)| == 1
    ensures ValidateAction(RESUBMIT, head, Open(), 0).None? && !NewIdsFresh(RESUBMIT, head, "again")
    ensures var ps := PlanEvents(RESUBMIT, head, "again", "actor");
      var (u, r) := Commit(t, key, TRAJECTORY, head.sequence, head.lastEventHash, ps, At(1));
      u == t && r.Failure?
  {
    hide Reached, ValidTables, Fold, Named, LoadHead, WellChained, Commit, Handle, NextEvent, CommitNext, NewStore,
      ValidateAction, PlanEvents, SealedBatch, SomeKeyUsed, Log, FreshEventIds, OneRequestPerKey, ReceiptsMatch;
    NewStoreIsSmall(key);
    NextId(NewStore(), key, START, SUBMISSION);
    head := SubmissionAccepted(NextEvent(NewStore(), key, START, SUBMISSION));
    NextLog(NewStore(), key, START, SUBMISSION);
    NextIsSmall(NewStore(), key, START, SUBMISSION);
    t := CommitNext(NewStore(), key, START, SUBMISSION).0;
    ResubmissionValid(head);
    SmallHead(t, key, head);
    ResubmissionSealed(head, key);
    var ps := PlanEvents(RESUBMIT, head, "again", "actor");
    LongKeyFree(t, ps);
    CommitSucceedsIff(t, key, TRAJECTORY, head.sequence, head.lastEventHash, ps, At(1));
    UnappendedCommit(t, key, TRAJECTORY, head.sequence, head.lastEventHash, ps, At(1));
  }

  // ----- the same retry, on the objects -----

  /** Two instances over a new database: after the first has repeated its commit, the other cannot commit. */
  method RetryThenCommit(next: seq<ProposedEvent>, env: Env)
    returns (first: Result<CommitResult, StoreError>, retry: Result<CommitResult, StoreError>,
      later: Result<CommitResult, StoreError>)
    requires next != []
    ensures first.Success? && retry.Success? && retry.value.receipts == first.value.receipts
    ensures later == Failure(DatabaseLocked)
  {
    hide Commit, InitTrajectory, SomeKeyUsed, Fold, Handle, Log, Named, Reached, ValidTables;
    FirstNoteFacts(None);
    RetrySucceeds(None);
    var db := new Database();
    var one := new SQLiteEventStore(db, None);
    var two := new SQLiteEventStore(db, None);
    var created := one.InitNewTrajectory(TRAJECTORY, "epoch", None, 0);
    InitFromCreated(CREATED.(caches := [] + [map[]]));
    assert db.Content() == NewStore();
    first := one.CommitEvents(TRAJECTORY, 0, None, [Ask(0, NOTE)], At(0));
    FirstKeysFree();
    retry := one.CommitEvents(TRAJECTORY, 0, None, [Ask(0, NOTE)], At(1));
    later := two.CommitEvents(TRAJECTORY, 0, None, next, env);
  }

  lemma FirstKeysFree()
    ensures !SomeKeyUsed(KeysOf(NewStore(), TRAJECTORY), [Ask(0, NOTE)])
  {
  }
}
