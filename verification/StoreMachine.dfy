/** The store as a machine: one database, from its creation on, and any number of instances over it.

  Instances come and go, each with its head cache and any number of threads that read through it.
  Every operation of the store is a step, and any order of steps is a run. What the other modules
  ask of the tables holds in every state of every run.
 */
module StoreMachine {
  import opened Results
  import opened Schema
  import opened Reducer
  import opened FoldFacts
  import opened ClockIndependence
  import opened Consistency
  import opened StoreTables
  import opened StoreFacts
  import opened CommitFacts
  import opened CommitOutcome
  import opened StoreTheorems
  import opened EventStore

  // ----- the machine -----

  /** A thread inside the thread-safe read: what it saw when it began. */
  datatype Reading = Reading(instance: nat, tid: string, cache: Cache, tables: Tables, clock: Clock)

  /** `writer` is the instance that has a write transaction open between two steps. */
  datatype World = World(tables: Tables, caches: seq<Cache>, writer: Option<nat>, readings: seq<Reading>)

  const CREATED := World(Tables(map[], map[], map[], map[]), [], None, [])

  ghost predicate OpenStep(w: World, u: World) {
    u == w.(caches := w.caches + [map[]])
  }

  /** Closing an instance rolls back what it has open, which after a retry is nothing. */
  ghost predicate CloseStep(w: World, u: World, i: int) {
    && 0 <= i < |w.caches|
    && u == w.(caches := w.caches[i := map[]], writer := if w.writer == Some(i) then None else w.writer)
  }

  ghost predicate InitStep(w: World, u: World, tid: string, epochId: string, budget: Option<BudgetLedger>, now: Time) {
    var r := InitTrajectory(w.tables, tid, epochId, budget, now);
    u == if w.writer.None? && r.Success? then w.(tables := r.value) else w
  }

  /** save_snapshot as its documentation asks: a snapshot that was read at some time, with its sequence. */
  ghost predicate SaveStep(w: World, u: World, s: Snapshot) {
    && s.trajectoryId in w.tables.trajectories && PrefixFold(w.tables, s.trajectoryId, s)
    && var r := SaveSnapshot(w.tables, s, s.sequence);
       u == if w.writer.None? && r.Success? then w.(tables := r.value) else w
  }

  /** commit_events with any arguments. A successful retry keeps the write lock. */
  ghost predicate CommitStep(
    w: World, u: World, key: Option<string>, i: int, tid: string, sequence: int, hash: Option<Hash>,
    ps: seq<ProposedEvent>, env: Env)
  {
    && 0 <= i < |w.caches|
    && if ps == [] || w.writer.Some? then u == w
       else
         var (t, r) := Commit(w.tables, key, tid, sequence, hash, ps, env);
         var retry := SomeKeyUsed(KeysOf(w.tables, tid), ps);
         && u.tables == t && u.readings == w.readings
         && u.writer == (if r.Success? && retry then Some(i) else None)
         && u.caches == if r.Success? && !retry then w.caches[i := w.caches[i] - {tid}] else w.caches
  }

  ghost predicate LatestStep(w: World, u: World, key: Option<string>, i: int, tid: string, clock: Clock) {
    && 0 <= i < |w.caches|
    && u == w.(caches := w.caches[i := LatestSnapshot(w.caches[i], w.tables, key, tid, clock).0])
  }

  ghost predicate BeginReadingStep(w: World, u: World, i: int, tid: string, clock: Clock) {
    && 0 <= i < |w.caches|
    && u == w.(readings := w.readings + [Reading(i, tid, w.caches[i], w.tables, clock)])
  }

  /** What a reading returns, and the cache it leaves, when it ends now. */
  function EndOfReading(w: World, key: Option<string>, q: Reading): (Cache, Result<Snapshot, StoreError>)
    requires q.instance < |w.caches|
  {
    ThreadSafeSnapshot(q.cache, w.caches[q.instance], q.tables, key, q.tid, q.clock)
  }

  ghost predicate EndReadingStep(w: World, u: World, key: Option<string>, j: int) {
    && 0 <= j < |w.readings| && w.readings[j].instance < |w.caches|
    && var q := w.readings[j];
       u == w.(caches := w.caches[q.instance := EndOfReading(w, key, q).0],
               readings := w.readings[..j] + w.readings[j + 1..])
  }

  ghost predicate Next(w: World, u: World, key: Option<string>) {
    || OpenStep(w, u)
    || (exists i :: CloseStep(w, u, i))
    || (exists tid, epochId, budget, now :: InitStep(w, u, tid, epochId, budget, now))
    || (exists s :: SaveStep(w, u, s))
    || (exists i, tid, sequence, hash, ps, env :: CommitStep(w, u, key, i, tid, sequence, hash, ps, env))
    || (exists i, tid, clock :: LatestStep(w, u, key, i, tid, clock))
    || (exists i, tid, clock :: BeginReadingStep(w, u, i, tid, clock))
    || (exists j :: EndReadingStep(w, u, key, j))
  }

  ghost predicate Run(ws: seq<World>, key: Option<string>) {
    ws != [] && ws[0] == CREATED && forall i :: 0 <= i < |ws| - 1 ==> Next(ws[i], ws[i + 1], key)
  }

  // ----- what can be read from a checkpoint -----

  /** Some clock accepted the events between the newest checkpoint at or below n and n. */
  ghost predicate TailAccepted(checkpoints: seq<CheckpointRow>, log: seq<HarnessEvent>, n: int) {
    var row := LatestCheckpoint(checkpoints, Some(n));
    && row.Some? && 0 <= row.value.sequence <= n <= |log|
    && exists c: Clock :: Fold(row.value.snapshot, log[row.value.sequence..n], c).Success?
  }

  ghost predicate Replayable(checkpoints: seq<CheckpointRow>, log: seq<HarnessEvent>) {
    forall n :: 0 <= n <= |log| ==> TailAccepted(checkpoints, log, n)
  }

  lemma {:induction false} LaterCheckpoint(rows: seq<CheckpointRow>, row: CheckpointRow, n: int)
    requires n < row.sequence
    ensures LatestCheckpoint(rows + [row], Some(n)) == LatestCheckpoint(rows, Some(n))
  {
    if rows == [] {
      assert ([row])[1..] == [];
    } else {
      assert (rows + [row])[1..] == rows[1..] + [row];
      LaterCheckpoint(rows[1..], row, n);
    }
  }

  lemma NewestCheckpoint(rows: seq<CheckpointRow>, row: CheckpointRow)
    requires forall q :: q in rows ==> q.sequence < row.sequence
    ensures LatestCheckpoint(rows + [row], Some(row.sequence)) == Some(row)
  {
    var r := LatestCheckpoint(rows + [row], Some(row.sequence));
    assert row in rows + [row];
    assert r.value in rows + [row];
  }

  lemma {:induction false} SameNewest(rows: seq<CheckpointRow>, m: int, n: int)
    requires m <= n && forall q :: q in rows ==> q.sequence <= m
    ensures LatestCheckpoint(rows, Some(n)) == LatestCheckpoint(rows, Some(m))
  {
    if rows != [] {
      SameNewest(rows[1..], m, n);
    }
  }

  /** A log that grows by events accepted on its head, under the clock that loaded the head. */
  lemma GrownReplayable(
    checkpoints: seq<CheckpointRow>, log: seq<HarnessEvent>, added: seq<HarnessEvent>, row: CheckpointRow,
    head: Snapshot, clock: Clock)
    requires Replayable(checkpoints, log) && forall q :: q in checkpoints ==> q.sequence <= |log|
    requires LatestCheckpoint(checkpoints, Some(|log|)) == Some(row) && 0 <= row.sequence <= |log|
    requires Fold(row.snapshot, log[row.sequence..], clock) == Success(head)
    requires Fold(head, added, clock).Success?
    ensures Replayable(checkpoints, log + added)
  {
    hide Fold, LatestCheckpoint;
    var all, k := log + added, row.sequence;
    FoldConcat(row.snapshot, log[k..], added, clock);
    assert all[k..] == log[k..] + added;
    forall n | 0 <= n <= |all| ensures TailAccepted(checkpoints, all, n) {
      if n <= |log| {
        assert TailAccepted(checkpoints, log, n);
        var first := LatestCheckpoint(checkpoints, Some(n)).value;
        assert all[first.sequence..n] == log[first.sequence..n];
      } else {
        SameNewest(checkpoints, |log|, n);
        FoldPrefix(row.snapshot, all[k..], n - k, clock);
        assert all[k..][..n - k] == all[k..n];
      }
    }
  }

  /** A checkpoint of the head leaves nothing to fold. */
  lemma CheckpointedReplayable(checkpoints: seq<CheckpointRow>, log: seq<HarnessEvent>, row: CheckpointRow)
    requires forall n :: 0 <= n < |log| ==> TailAccepted(checkpoints, log, n)
    requires row.sequence == |log| && forall q :: q in checkpoints ==> q.sequence < row.sequence
    ensures Replayable(checkpoints + [row], log)
  {
    hide LatestCheckpoint;
    forall n | 0 <= n <= |log| ensures TailAccepted(checkpoints + [row], log, n) {
      if n < |log| {
        assert TailAccepted(checkpoints, log, n);
        LaterCheckpoint(checkpoints, row, n);
      } else {
        NewestCheckpoint(checkpoints, row);
        var clock: Clock := k => 0;
        assert Fold(row.snapshot, log[n..n], clock) == Success(row.snapshot);
      }
    }
  }

  ghost predicate AllReplayable(t: Tables) {
    forall tid :: tid in t.trajectories ==> Replayable(CheckpointsOf(t, tid), Log(t, tid))
  }

  /** The loaded head is the fold from the newest checkpoint. */
  lemma LoadedHead(t: Tables, key: Option<string>, tid: string, clock: Clock) returns (row: CheckpointRow)
    requires tid in t.trajectories && ValidTrajectory(t, key, tid) && LoadHead(t, key, tid, clock).Success?
    ensures var log := Log(t, tid);
      && LatestCheckpoint(CheckpointsOf(t, tid), Some(|log|)) == Some(row) && 0 <= row.sequence <= |log|
      && Fold(row.snapshot, log[row.sequence..], clock) == Success(LoadHead(t, key, tid, clock).value)
  {
    hide ValidTrajectory, Fold, LoadHead, LatestCheckpoint, Log;
    var log := Log(t, tid);
    LoadHeadIsReplay(t, key, tid, clock);
    ReplayFromCheckpoint(t, key, tid, |log|, clock);
    row := LatestCheckpoint(CheckpointsOf(t, tid), Some(|log|)).value;
    assert log[row.sequence..|log|] == log[row.sequence..];
  }

  /** A commit that appends was accepted on the head that it loaded, so its events can be replayed. */
  lemma AppendedReplayable(
    t: Tables, u: Tables, key: Option<string>, tid: string, ps: seq<ProposedEvent>, r: CommitResult, clock: Clock)
    requires tid in t.trajectories && ValidTrajectory(t, key, tid) && Replayable(CheckpointsOf(t, tid), Log(t, tid))
    requires Appends(t, u, tid, ps, r) && AcceptedOnHead(t, key, tid, r.committedEvents, clock)
    ensures Replayable(CheckpointsOf(u, tid), Log(u, tid))
  {
    hide ValidTrajectory, Replayable, Fold, LoadHead, LatestCheckpoint, KeysAppended, SameElsewhere, AllCarry,
      NewProposals;
    var checkpoints, log := CheckpointsOf(t, tid), Log(t, tid);
    CheckpointsWithinLog(t, key, tid);
    LogLength(t, tid);
    var row := LoadedHead(t, key, tid, clock);
    GrownReplayable(checkpoints, log, r.committedEvents, row, LoadHead(t, key, tid, clock).value, clock);
    AppendedLog(t, u, tid, ps, r);
    if CheckpointsOf(u, tid) != checkpoints {
      var last :| CheckpointsOf(u, tid) == checkpoints + [last] && last.sequence == |RowsOf(u, tid)|;
      assert forall n :: 0 <= n < |Log(u, tid)| ==> TailAccepted(checkpoints, Log(u, tid), n) by {
        ReplayableEverywhere(checkpoints, Log(u, tid));
      }
      CheckpointedReplayable(checkpoints, Log(u, tid), last);
    }
  }

  lemma ReplayableEverywhere(checkpoints: seq<CheckpointRow>, log: seq<HarnessEvent>)
    requires Replayable(checkpoints, log)
    ensures forall n :: 0 <= n <= |log| ==> TailAccepted(checkpoints, log, n)
  {
    hide TailAccepted;
  }

  lemma AppendedLog(t: Tables, u: Tables, tid: string, ps: seq<ProposedEvent>, r: CommitResult)
    requires RowsAppended(RowsOf(t, tid), RowsOf(u, tid), tid, ps, r)
    ensures Log(u, tid) == Log(t, tid) + r.committedEvents && |Log(t, tid)| < |Log(u, tid)| == |RowsOf(u, tid)|
  {
    hide AllCarry, NewProposals;
    var n := |RowsOf(t, tid)|;
    forall i | 0 <= i < n ensures Log(u, tid)[i] == Log(t, tid)[i] {
      assert RowsOf(u, tid)[..n][i] == RowsOf(t, tid)[i];
    }
  }

  // ----- event ids -----

  /** No two events of the whole store have the same id. */
  ghost predicate UniqueEventIds(t: Tables) {
    forall x, i, y, j ::
      0 <= i < |RowsOf(t, x)| && 0 <= j < |RowsOf(t, y)|
      && RowsOf(t, x)[i].event.header.eventId == RowsOf(t, y)[j].event.header.eventId ==>
        x == y && i == j
  }

  lemma SameRowsUnique(t: Tables, u: Tables)
    requires UniqueEventIds(t) && u.events == t.events
    ensures UniqueEventIds(u)
  {
    assert forall x :: RowsOf(u, x) == RowsOf(t, x);
  }

  lemma CommitKeepsUniqueIds(
    t: Tables, key: Option<string>, tid: string, sequence: int, hash: Option<Hash>, ps: seq<ProposedEvent>, env: Env)
    requires ValidTables(t, key) && UniqueEventIds(t)
    ensures UniqueEventIds(Commit(t, key, tid, sequence, hash, ps, env).0)
  {
    hide Commit, ValidTrajectory, SomeKeyUsed, Appends, AcceptedOnHead, ReceiptsMatch, FreshEventIds, SealedBatch,
      LoadHead,
      UniqueEventIds, HeadHash, OneRequestPerKey, KeyAnswers, Fold;
    var (u, r) := Commit(t, key, tid, sequence, hash, ps, env);
    UnappendedCommit(t, key, tid, sequence, hash, ps, env);
    if u != t {
      AppendedCommit(t, key, tid, sequence, hash, ps, env);
      CommitSucceedsIff(t, key, tid, sequence, hash, ps, env);
      AppendedUnique(t, u, tid, ps, r.value);
    }
  }

  /** A row is an old one in its place, or holds a committed event. */
  lemma RowOrigin(t: Tables, u: Tables, tid: string, ps: seq<ProposedEvent>, r: CommitResult, x: string, i: nat)
    requires Appends(t, u, tid, ps, r) && i < |RowsOf(u, x)|
    ensures var n, m := |RowsOf(t, x)|, |RowsOf(t, tid)|;
      if i < n then RowsOf(u, x)[i] == RowsOf(t, x)[i]
      else x == tid && i - m < |r.committedEvents| && RowsOf(u, x)[i].event == r.committedEvents[i - m]
  {
    hide AllCarry, KeysAppended, CheckpointAppended, NewProposals;
    if x == tid {
      var n := |RowsOf(t, tid)|;
      if i < n {
        assert RowsOf(u, tid)[..n][i] == RowsOf(t, tid)[i];
      } else {
        assert RowsOf(u, tid)[n..][i - n] == RowsOf(u, tid)[i];
      }
    }
  }

  lemma AppendedUnique(t: Tables, u: Tables, tid: string, ps: seq<ProposedEvent>, r: CommitResult)
    requires UniqueEventIds(t) && Appends(t, u, tid, ps, r) && FreshEventIds(t, r.committedEvents)
    ensures UniqueEventIds(u)
  {
    hide Appends, EventIdTaken, RowsOf;
    forall x, i, y, j |
      0 <= i < |RowsOf(u, x)| && 0 <= j < |RowsOf(u, y)|
      && RowsOf(u, x)[i].event.header.eventId == RowsOf(u, y)[j].event.header.eventId
      ensures x == y && i == j
    {
      RowOrigin(t, u, tid, ps, r, x, i);
      RowOrigin(t, u, tid, ps, r, y, j);
      if i < |RowsOf(t, x)| { RowTaken(t, x, i); }
      if j < |RowsOf(t, y)| { RowTaken(t, y, j); }
    }
  }

  lemma RowTaken(t: Tables, x: string, i: nat)
    requires i < |RowsOf(t, x)|
    ensures EventIdTaken(t, RowsOf(t, x)[i].event.header.eventId)
  {
    assert x in t.events && t.events[x][i] == RowsOf(t, x)[i];
  }

  // ----- the invariant -----

  ghost predicate GoodReading(w: World, key: Option<string>, q: Reading) {
    && q.instance < |w.caches|
    && ValidTables(q.tables, key) && Extends(q.tables, w.tables) && CacheOk(q.cache, q.tables)
  }

  ghost predicate Good(w: World, key: Option<string>) {
    && ValidTables(w.tables, key) && AllReplayable(w.tables) && UniqueEventIds(w.tables)
    && (forall i :: 0 <= i < |w.caches| ==> CacheOk(w.caches[i], w.tables))
    && (forall j :: 0 <= j < |w.readings| ==> GoodReading(w, key, w.readings[j]))
    && (w.writer.Some? ==> w.writer.value < |w.caches|)
  }

  lemma ExtendsSelf(t: Tables)
    ensures Extends(t, t)
  {
  }

  /** New tables that are valid and only grown keep everything that was read from the old ones. */
  lemma TablesGrow(w: World, t: Tables, key: Option<string>)
    requires Good(w, key) && Extends(w.tables, t)
    requires ValidTables(t, key) && AllReplayable(t) && UniqueEventIds(t)
    ensures Good(w.(tables := t), key)
  {
    hide ValidTables, AllReplayable, UniqueEventIds, Extends, CacheOk;
    forall i | 0 <= i < |w.caches| ensures CacheOk(w.caches[i], t) {
      CacheSurvives(w.caches[i], w.tables, t);
    }
    forall j | 0 <= j < |w.readings| ensures GoodReading(w.(tables := t), key, w.readings[j]) {
      assert GoodReading(w, key, w.readings[j]);
      ExtendsTransitive(w.readings[j].tables, w.tables, t);
    }
  }

  /** Another cache in one place, and some of the readings. */
  lemma CacheChanges(w: World, u: World, key: Option<string>, i: int, cache: Cache)
    requires Good(w, key) && 0 <= i < |w.caches| && CacheOk(cache, w.tables)
    requires u.tables == w.tables && u.caches == w.caches[i := cache]
    requires forall j :: 0 <= j < |u.readings| ==> u.readings[j] in w.readings
    requires u.writer.Some? ==> u.writer.value < |u.caches|
    ensures Good(u, key)
  {
    hide ValidTables, AllReplayable, UniqueEventIds, Extends, CacheOk;
    forall j | 0 <= j < |u.readings| ensures GoodReading(u, key, u.readings[j]) {
      assert u.readings[j] in w.readings;
      var k :| 0 <= k < |w.readings| && w.readings[k] == u.readings[j];
      assert GoodReading(w, key, w.readings[k]);
    }
  }

  lemma EmptyCacheOk(t: Tables)
    ensures CacheOk(map[], t)
  {
  }

  lemma OpenIsGood(w: World, u: World, key: Option<string>)
    requires Good(w, key) && OpenStep(w, u)
    ensures Good(u, key)
  {
    hide ValidTables, AllReplayable, UniqueEventIds, Extends, CacheOk;
    EmptyCacheOk(w.tables);
    forall j | 0 <= j < |u.readings| ensures GoodReading(u, key, u.readings[j]) {
      assert GoodReading(w, key, w.readings[j]);
    }
  }

  lemma CloseIsGood(w: World, u: World, key: Option<string>, i: int)
    requires Good(w, key) && CloseStep(w, u, i)
    ensures Good(u, key)
  {
    hide ValidTables, AllReplayable, UniqueEventIds, Extends, CacheOk, GoodReading;
    EmptyCacheOk(w.tables);
    CacheChanges(w, u, key, i, map[]);
  }

  // ----- tables that grow -----

  lemma SameReplayable(t: Tables, u: Tables, tid: string)
    requires RowsOf(u, tid) == RowsOf(t, tid) && CheckpointsOf(u, tid) == CheckpointsOf(t, tid)
    requires Replayable(CheckpointsOf(t, tid), Log(t, tid))
    ensures Replayable(CheckpointsOf(u, tid), Log(u, tid))
  {
    hide Replayable;
  }

  lemma InitReplayable(
    t: Tables, key: Option<string>, tid: string, epochId: string, budget: Option<BudgetLedger>, now: Time)
    requires ValidTables(t, key) && AllReplayable(t) && InitTrajectory(t, tid, epochId, budget, now).Success?
    ensures AllReplayable(InitTrajectory(t, tid, epochId, budget, now).value)
  {
    hide ValidTrajectory, Replayable, ComputeStateHash;
    var u := InitTrajectory(t, tid, epochId, budget, now).value;
    assert CheckpointsOf(t, tid) == [] && RowsOf(t, tid) == [];
    var row := u.checkpoints[tid][0];
    assert CheckpointsOf(u, tid) == [] + [row] && Log(u, tid) == [] && row.sequence == 0;
    CheckpointedReplayable([], Log(u, tid), row);
    forall x | x in u.trajectories && x != tid ensures Replayable(CheckpointsOf(u, x), Log(u, x)) {
      SameReplayable(t, u, x);
    }
  }

  lemma SaveReplayable(t: Tables, key: Option<string>, s: Snapshot)
    requires ValidTables(t, key) && AllReplayable(t) && s.trajectoryId in t.trajectories
    requires SaveSnapshot(t, s, s.sequence).Success?
    ensures AllReplayable(SaveSnapshot(t, s, s.sequence).value)
  {
    hide ValidTrajectory, Replayable, ComputeStateHash, ValidateCheckpoint;
    var tid, u := s.trajectoryId, SaveSnapshot(t, s, s.sequence).value;
    SavedRowUsableIff(t, key, s, s.sequence);
    CheckpointsBefore(t, key, s, s.sequence);
    var row := CheckpointRowFor(s, s.sequence, CheckpointId(tid, s.sequence));
    assert CheckpointsOf(u, tid) == CheckpointsOf(t, tid) + [row] && Log(u, tid) == Log(t, tid);
    ReplayableEverywhere(CheckpointsOf(t, tid), Log(t, tid));
    CheckpointedReplayable(CheckpointsOf(t, tid), Log(t, tid), row);
    forall x | x in u.trajectories && x != tid ensures Replayable(CheckpointsOf(u, x), Log(u, x)) {
      SameReplayable(t, u, x);
    }
  }

  lemma CommitReplayable(
    t: Tables, key: Option<string>, tid: string, sequence: int, hash: Option<Hash>, ps: seq<ProposedEvent>, env: Env)
    requires ValidTables(t, key) && AllReplayable(t)
    ensures AllReplayable(Commit(t, key, tid, sequence, hash, ps, env).0)
  {
    hide Commit, ValidTrajectory, Replayable, SomeKeyUsed, Appends, SameElsewhere, AcceptedOnHead, ReceiptsMatch;
    var (u, r) := Commit(t, key, tid, sequence, hash, ps, env);
    UnappendedCommit(t, key, tid, sequence, hash, ps, env);
    if u != t {
      AppendedCommit(t, key, tid, sequence, hash, ps, env);
      AppendedReplayable(t, u, key, tid, ps, r.value, env.clock);
      AppendsSameElsewhere(t, u, tid, ps, r.value);
      forall x | x in u.trajectories && x != tid ensures Replayable(CheckpointsOf(u, x), Log(u, x)) {
        ReplayableElsewhere(t, u, tid, x);
      }
      CommitStaysInTrajectories(t, key, tid, sequence, hash, ps, env);
    }
  }

  lemma ReplayableElsewhere(t: Tables, u: Tables, tid: string, x: string)
    requires SameElsewhere(t, u, tid) && x != tid && x in u.trajectories && AllReplayable(t)
    ensures Replayable(CheckpointsOf(u, x), Log(u, x))
  {
    hide Replayable;
    SameReplayable(t, u, x);
  }

  lemma InitKeepsEvents(t: Tables, tid: string, epochId: string, budget: Option<BudgetLedger>, now: Time)
    ensures var r := InitTrajectory(t, tid, epochId, budget, now); r.Success? ==> r.value.events == t.events
  {
    hide GenesisSnapshot, CheckpointRowFor;
  }

  lemma SaveKeepsEvents(t: Tables, s: Snapshot)
    ensures var r := SaveSnapshot(t, s, s.sequence); r.Success? ==> r.value.events == t.events
  {
    hide CheckpointRowFor, HeadProjection;
  }

  lemma InitIsGood(
    w: World, u: World, key: Option<string>, tid: string, epochId: string, budget: Option<BudgetLedger>, now: Time)
    requires Good(w, key) && InitStep(w, u, tid, epochId, budget, now)
    ensures Good(u, key) && Extends(w.tables, u.tables)
  {
    hide ValidTables, AllReplayable, UniqueEventIds, Extends, CacheOk, GoodReading, InitTrajectory, CheckpointsOf;
    ExtendsSelf(w.tables);
    if u != w {
      InitKeepsTablesValid(w.tables, key, tid, epochId, budget, now);
      InitExtends(w.tables, key, tid, epochId, budget, now);
      InitReplayable(w.tables, key, tid, epochId, budget, now);
      InitKeepsEvents(w.tables, tid, epochId, budget, now);
      SameRowsUnique(w.tables, u.tables);
      TablesGrow(w, u.tables, key);
    }
  }

  lemma SaveIsGood(w: World, u: World, key: Option<string>, s: Snapshot)
    requires Good(w, key) && SaveStep(w, u, s)
    ensures Good(u, key) && Extends(w.tables, u.tables)
  {
    hide ValidTables, AllReplayable, UniqueEventIds, Extends, CacheOk, GoodReading, SaveSnapshot, PrefixFold;
    ExtendsSelf(w.tables);
    if u != w {
      SavedIsWholeLog(w.tables, key, s);
      SaveKeepsTablesValid(w.tables, key, s, s.sequence);
      SaveExtends(w.tables, s, s.sequence);
      SaveReplayable(w.tables, key, s);
      SaveKeepsEvents(w.tables, s);
      SameRowsUnique(w.tables, u.tables);
      TablesGrow(w, u.tables, key);
    }
  }

  /** save_snapshot checks that the snapshot sits at the head, so what was read earlier is still the head. */
  lemma SavedIsWholeLog(t: Tables, key: Option<string>, s: Snapshot)
    requires ValidTables(t, key) && s.trajectoryId in t.trajectories && PrefixFold(t, s.trajectoryId, s)
    requires SaveSnapshot(t, s, s.sequence).Success?
    ensures CheckpointsOf(t, s.trajectoryId) != []
    ensures FoldsTo(Genesis(t, s.trajectoryId), Log(t, s.trajectoryId), s)
  {
    hide ValidTrajectory, FoldsTo, CheckpointRowFor;
    ProjectionMeansWholeLog(t, key, s.trajectoryId, s);
  }

  lemma CommitIsGood(
    w: World, u: World, key: Option<string>, i: int, tid: string, sequence: int, hash: Option<Hash>,
    ps: seq<ProposedEvent>, env: Env)
    requires Good(w, key) && CommitStep(w, u, key, i, tid, sequence, hash, ps, env)
    ensures Good(u, key) && Extends(w.tables, u.tables)
  {
    hide ValidTables, AllReplayable, UniqueEventIds, Extends, CacheOk, GoodReading, Commit, SomeKeyUsed;
    ExtendsSelf(w.tables);
    if u != w {
      CommitKeepsTablesValid(w.tables, key, tid, sequence, hash, ps, env);
      CommitExtends(w.tables, key, tid, sequence, hash, ps, env);
      CommitReplayable(w.tables, key, tid, sequence, hash, ps, env);
      CommitKeepsUniqueIds(w.tables, key, tid, sequence, hash, ps, env);
      TablesGrow(w, u.tables, key);
      SmallerCache(w.caches[i], tid, u.tables);
      var grown := w.(tables := u.tables);
      CacheChanges(grown, u, key, i, if u.caches == w.caches then w.caches[i] else w.caches[i] - {tid});
    }
  }

  lemma SmallerCache(cache: Cache, tid: string, t: Tables)
    ensures CacheOk(cache, t) ==> CacheOk(cache - {tid}, t)
  {
    hide PrefixFold;
  }

  // ----- readings -----

  lemma LatestIsGood(w: World, u: World, key: Option<string>, i: int, tid: string, clock: Clock)
    requires Good(w, key) && LatestStep(w, u, key, i, tid, clock)
    ensures Good(u, key)
  {
    hide AllReplayable, UniqueEventIds, Extends, CacheOk, GoodReading, LatestSnapshot, ValidTables, LoadHead,
      CheckpointSafe, FoldsTo;
    LatestSnapshotIsWholeLog(w.caches[i], w.tables, key, tid, clock);
    CacheChanges(w, u, key, i, LatestSnapshot(w.caches[i], w.tables, key, tid, clock).0);
  }

  lemma BeginReadingIsGood(w: World, u: World, key: Option<string>, i: int, tid: string, clock: Clock)
    requires Good(w, key) && BeginReadingStep(w, u, i, tid, clock)
    ensures Good(u, key)
  {
    hide AllReplayable, UniqueEventIds, Extends, CacheOk, ValidTables;
    ExtendsSelf(w.tables);
    forall j | 0 <= j < |u.readings| ensures GoodReading(u, key, u.readings[j]) {
      if j < |w.readings| { assert GoodReading(w, key, w.readings[j]); }
    }
  }

  lemma EndReadingIsGood(w: World, u: World, key: Option<string>, j: int)
    requires Good(w, key) && EndReadingStep(w, u, key, j)
    ensures Good(u, key)
  {
    hide AllReplayable, UniqueEventIds, Extends, CacheOk, ValidTables, ThreadSafeSnapshot, PrefixFold;
    var q := w.readings[j];
    assert GoodReading(w, key, q);
    ThreadSafeSnapshotIsPrefix(q.cache, w.caches[q.instance], q.tables, w.tables, key, q.tid, q.clock);
    CacheChanges(w, u, key, q.instance, EndOfReading(w, key, q).0);
  }

  // ----- every run -----

  lemma CreatedIsGood(key: Option<string>)
    ensures Good(CREATED, key)
  {
  }

  /** Every step keeps the invariant, and the tables only grow. */
  lemma NextIsGood(w: World, u: World, key: Option<string>)
    requires Good(w, key) && Next(w, u, key)
    ensures Good(u, key) && Extends(w.tables, u.tables)
  {
    hide Good, OpenStep, CloseStep, InitStep, SaveStep, CommitStep, LatestStep, BeginReadingStep, EndReadingStep,
      Extends;
    if OpenStep(w, u) {
      OpenIsGood(w, u, key);
      QuietStep(w, u, key);
    } else if i :| CloseStep(w, u, i) {
      CloseIsGood(w, u, key, i);
      QuietStep(w, u, key);
    } else if tid, epochId, budget, now :| InitStep(w, u, tid, epochId, budget, now) {
      InitIsGood(w, u, key, tid, epochId, budget, now);
    } else if s :| SaveStep(w, u, s) {
      SaveIsGood(w, u, key, s);
    } else if i, tid, sequence, hash, ps, env :| CommitStep(w, u, key, i, tid, sequence, hash, ps, env) {
      CommitIsGood(w, u, key, i, tid, sequence, hash, ps, env);
    } else if i, tid, clock :| LatestStep(w, u, key, i, tid, clock) {
      LatestIsGood(w, u, key, i, tid, clock);
      QuietStep(w, u, key);
    } else if i, tid, clock :| BeginReadingStep(w, u, i, tid, clock) {
      BeginReadingIsGood(w, u, key, i, tid, clock);
      QuietStep(w, u, key);
    } else {
      var j :| EndReadingStep(w, u, key, j);
      EndReadingIsGood(w, u, key, j);
      QuietStep(w, u, key);
    }
  }

  ghost predicate Quiet(w: World, u: World, key: Option<string>) {
    || OpenStep(w, u)
    || (exists i :: CloseStep(w, u, i))
    || (exists i, tid, clock :: LatestStep(w, u, key, i, tid, clock))
    || (exists i, tid, clock :: BeginReadingStep(w, u, i, tid, clock))
    || (exists j :: EndReadingStep(w, u, key, j))
  }

  /** Opening, closing and reading write nothing. */
  lemma QuietStep(w: World, u: World, key: Option<string>)
    requires Quiet(w, u, key)
    ensures u.tables == w.tables && Extends(w.tables, u.tables)
  {
    hide LatestSnapshot, EndOfReading, Extends;
    ExtendsSelf(w.tables);
  }

  lemma {:induction false} RunIsGood(ws: seq<World>, key: Option<string>, i: nat)
    requires Run(ws, key) && i < |ws|
    ensures Good(ws[i], key)
  {
    hide Next, Good;
    if i == 0 {
      CreatedIsGood(key);
    } else {
      RunIsGood(ws, key, i - 1);
      assert Next(ws[i - 1], ws[i - 1 + 1], key);
      NextIsGood(ws[i - 1], ws[i], key);
    }
  }

  /** In every state of every run the tables are valid and every cached snapshot was the head at some time. */
  lemma ReachableIsValid(ws: seq<World>, key: Option<string>, i: nat)
    requires Run(ws, key) && i < |ws|
    ensures ValidTables(ws[i].tables, key)
    ensures forall k :: 0 <= k < |ws[i].caches| ==> CacheOk(ws[i].caches[k], ws[i].tables)
  {
    hide Run, ValidTables, CacheOk, AllReplayable, GoodReading;
    RunIsGood(ws, key, i);
  }

  /** Nor do two events of the store ever have one id, in whatever trajectories they are. */
  lemma ReachableIdsUnique(ws: seq<World>, key: Option<string>, i: nat, x: string, m: nat, y: string, n: nat)
    requires Run(ws, key) && i < |ws|
    requires m < |Log(ws[i].tables, x)| && n < |Log(ws[i].tables, y)|
    requires Log(ws[i].tables, x)[m].header.eventId == Log(ws[i].tables, y)[n].header.eventId
    ensures x == y && m == n
  {
    hide Run, ValidTables, CacheOk, AllReplayable, GoodReading;
    RunIsGood(ws, key, i);
  }

  /** History is never rewritten. */
  lemma {:induction false} HistoryGrows(ws: seq<World>, key: Option<string>, i: nat, j: nat)
    requires Run(ws, key) && i <= j < |ws|
    ensures Extends(ws[i].tables, ws[j].tables)
    decreases j
  {
    hide Next, Good, Extends;
    if i == j {
      ExtendsSelf(ws[i].tables);
    } else {
      HistoryGrows(ws, key, i, j - 1);
      RunIsGood(ws, key, j - 1);
      assert Next(ws[j - 1], ws[j - 1 + 1], key);
      NextIsGood(ws[j - 1], ws[j], key);
      ExtendsTransitive(ws[i].tables, ws[j - 1].tables, ws[j].tables);
    }
  }

  /** A trajectory can be read up to n, at some time, exactly if its store is unsigned or no checkpoint past
    genesis lies at or below n. */
  lemma ReachableReplaysIff(ws: seq<World>, key: Option<string>, i: nat, tid: string, n: nat)
    requires Run(ws, key) && i < |ws| && tid in ws[i].tables.trajectories && n <= |Log(ws[i].tables, tid)|
    ensures var t := ws[i].tables;
      SometimesReplays(t, key, tid, n) <==>
      key.None? || forall row :: row in CheckpointsOf(t, tid) && row.sequence <= n ==> row.sequence <= 0
  {
    hide Run, Fold, ValidTrajectory, Replay, AllReplayable, Replayable, GoodReading, CacheOk;
    RunIsGood(ws, key, i);
    var t := ws[i].tables;
    TrajectoryReplayable(t, tid, n);
    var row := LatestCheckpoint(CheckpointsOf(t, tid), Some(n)).value;
    forall c: Clock
      ensures Replay(t, key, tid, Some(n), c) ==
              if key.Some? && row.sequence > 0 then Failure(BadCheckpoint)
              else Lift(Fold(row.snapshot, Log(t, tid)[row.sequence..n], c))
    {
      ReplayFromCheckpoint(t, key, tid, n, c);
    }
    if key.None? || row.sequence <= 0 {
      var c: Clock :| Fold(row.snapshot, Log(t, tid)[row.sequence..n], c).Success?;
      assert Replay(t, key, tid, Some(n), c).Success?;
    }
  }

  lemma TrajectoryReplayable(t: Tables, tid: string, n: nat)
    requires AllReplayable(t) && tid in t.trajectories && n <= |Log(t, tid)|
    ensures TailAccepted(CheckpointsOf(t, tid), Log(t, tid), n)
  {
    hide TailAccepted;
    assert Replayable(CheckpointsOf(t, tid), Log(t, tid));
  }

  /** In every reachable unsigned store every replay up to n succeeds exactly if no checkpoint event follows
    a clock-reading one after the newest checkpoint at or below n; whatever a replay returns is the fold of
    the first n events from genesis under any clock that accepts them, up to the stamps, and exactly that
    fold if none of them reads the clock. */
  lemma ReachableReplay(ws: seq<World>, i: nat, tid: string, n: nat, clock: Clock, c: Clock)
    requires Run(ws, None) && i < |ws| && tid in ws[i].tables.trajectories && n <= |Log(ws[i].tables, tid)|
    ensures CheckpointsOf(ws[i].tables, tid) != []
    ensures var t := ws[i].tables; AlwaysReplays(t, None, tid, n) <==> CheckpointSafe(ReplayedEvents(t, tid, n))
    ensures var t := ws[i].tables;
      var r, f := Replay(t, None, tid, Some(n), clock), Fold(Genesis(t, tid), Log(t, tid)[..n], c);
      r.Success? && f.Success? ==>
        && SameUpToStamps(f.value, r.value, RevisedIds(Log(t, tid)[..n]))
        && (ClockFree(Log(t, tid)[..n]) ==> r.value == f.value)
  {
    hide Run, ValidTrajectory, Fold, Replay, SameUpToStamps, ReplayedEvents, CheckpointSafe, RevisedIds, ClockFree,
      SometimesReplays, AlwaysReplays, CacheOk;
    ReachableReplaysIff(ws, None, i, tid, n);
    ReachableIsValid(ws, None, i);
    HasCheckpoints(ws[i].tables, None, tid);
    AlwaysReplaysIff(ws[i].tables, None, tid, n);
    ReplayIsFoldFromGenesis(ws[i].tables, None, tid, n, clock, c);
  }

  /** Whatever instance asks, get_latest_snapshot returns the fold of the whole log as it is, and a
    thread-safe reading that ends now returns the fold of some prefix of it. */
  lemma ReachableReadings(ws: seq<World>, key: Option<string>, i: nat, k: nat, j: nat, tid: string, clock: Clock)
    requires Run(ws, key) && i < |ws| && k < |ws[i].caches| && j < |ws[i].readings|
    ensures var r := LatestSnapshot(ws[i].caches[k], ws[i].tables, key, tid, clock).1;
      r.Success? ==>
        tid in ws[i].tables.trajectories && CheckpointsOf(ws[i].tables, tid) != []
        && FoldsTo(Genesis(ws[i].tables, tid), Log(ws[i].tables, tid), r.value)
    ensures var q := ws[i].readings[j];
      q.instance < |ws[i].caches|
      && var r := EndOfReading(ws[i], key, q).1;
         r.Success? ==> q.tid in ws[i].tables.trajectories && PrefixFold(ws[i].tables, q.tid, r.value)
  {
    hide Run, ValidTables, AllReplayable, LatestSnapshot, ThreadSafeSnapshot, CacheOk, Extends, LoadHead, FoldsTo,
      CheckpointSafe, PrefixFold;
    RunIsGood(ws, key, i);
    var w := ws[i];
    LatestSnapshotIsWholeLog(w.caches[k], w.tables, key, tid, clock);
    HasCheckpoints(w.tables, key, tid);
    var q := w.readings[j];
    assert GoodReading(w, key, q);
    ThreadSafeSnapshotIsPrefix(q.cache, w.caches[q.instance], q.tables, w.tables, key, q.tid, q.clock);
  }

  lemma HasCheckpoints(t: Tables, key: Option<string>, tid: string)
    requires ValidTables(t, key)
    ensures tid in t.trajectories ==> CheckpointsOf(t, tid) != []
  {
    hide FoldsTo, KeysMatch, Authentic, RequestHashed, ValidCheckpoint, FreshSnapshot, Accepted;
    if tid in t.trajectories { assert ValidTrajectory(t, key, tid); }
  }

  /** Whatever happens after a successful commit, repeating it, by any instance and under any expected head,
    changes nothing and returns the same receipts as long as the head loads. */
  lemma ReachableRetry(
    ws: seq<World>, key: Option<string>, i: nat, j: nat, x: int, tid: string, sequence: int, hash: Option<Hash>,
    ps: seq<ProposedEvent>, env: Env, sequence1: int, hash1: Option<Hash>, env1: Env)
    requires Run(ws, key) && i + 1 <= j < |ws|
    requires CommitStep(ws[i], ws[i + 1], key, x, tid, sequence, hash, ps, env) && ws[i].writer.None?
    requires Commit(ws[i].tables, key, tid, sequence, hash, ps, env).1.Success?
    ensures var first := Commit(ws[i].tables, key, tid, sequence, hash, ps, env).1.value;
      var (u, r) := Commit(ws[j].tables, key, tid, sequence1, hash1, ps, env1);
      && u == ws[j].tables
      && (LoadHead(u, key, tid, env1.clock).Success? ==>
            r.Success? && r.value.receipts == first.receipts && r.value.committedEvents == [])
      && (LoadHead(u, key, tid, env1.clock).Failure? ==> r == Failure(CommitFailed))
  {
    hide Run, ValidTables, Commit, Extends, LoadHead, SomeKeyUsed, CacheOk, CheckpointSafe;
    ReachableIsValid(ws, key, i);
    ReachableIsValid(ws, key, j);
    HistoryGrows(ws, key, i + 1, j);
    SuccessNeedsProposals(ws[i].tables, key, tid, sequence, hash, ps, env);
    RetryIsIdempotent(ws[i].tables, key, tid, sequence, hash, ps, env, ws[j].tables, sequence1, hash1, env1);
  }

  lemma SuccessNeedsProposals(
    t: Tables, key: Option<string>, tid: string, sequence: int, hash: Option<Hash>, ps: seq<ProposedEvent>, env: Env)
    requires Commit(t, key, tid, sequence, hash, ps, env).1.Success?
    ensures ps != []
  {
    hide LoadHead, CommitLoop, AutoCheckpoint, RetryReceipts, SomeKeyUsed;
  }

  /** Once a retry has left its transaction open, nothing is written until that very instance is closed. */
  lemma LockedUntilClosed(w: World, u: World, key: Option<string>)
    requires Next(w, u, key) && w.writer.Some?
    ensures u.tables == w.tables && (u.writer == w.writer || CloseStep(w, u, w.writer.value))
  {
    hide LatestSnapshot, ThreadSafeSnapshot, Commit, InitTrajectory, SaveSnapshot, PrefixFold;
  }

  /** So between the retry and the closing no step of any instance writes anything. */
  lemma {:induction false} NothingWrittenWhileLocked(ws: seq<World>, key: Option<string>, i: nat, j: nat)
    requires Run(ws, key) && i <= j < |ws| && ws[i].writer.Some?
    requires forall k :: i <= k < j ==> !CloseStep(ws[k], ws[k + 1], ws[i].writer.value)
    ensures ws[j].tables == ws[i].tables && ws[j].writer == ws[i].writer
    decreases j
  {
    hide Next, CloseStep;
    if i < j {
      NothingWrittenWhileLocked(ws, key, i, j - 1);
      assert Next(ws[j - 1], ws[j - 1 + 1], key);
      assert !CloseStep(ws[j - 1], ws[j - 1 + 1], ws[i].writer.value);
      LockedUntilClosed(ws[j - 1], ws[j], key);
    }
  }
}
