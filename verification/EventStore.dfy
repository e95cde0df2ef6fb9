/** The store object: connections that share one database, transactions, and the head cache.

  Each method is tied to the function over tables that specifies it, and the facts of
  StoreFacts, CommitFacts and StoreTheorems are about those functions.
 */
module EventStore {
  import opened Results
  import opened Schema
  import opened Reducer
  import opened FoldFacts
  import opened Consistency
  import opened ClockIndependence
  import opened StoreTables
  import opened StoreFacts
  import opened CommitFacts
  import opened StoreTheorems

  // ----- the head cache, as functions -----

  type Cache = map<string, Snapshot>

  function Refill(
    cache: Cache, t: Tables, key: Option<string>, tid: string, clock: Clock): (Cache, Result<Snapshot, StoreError>)
  {
    match Replay(t, key, tid, None, clock)
    case Success(s) => (cache[tid := s], Success(s))
    case Failure(error) => (cache, Failure(error))
  }

  /** get_latest_snapshot: the cached head if it is still the head, otherwise a replay. */
  function LatestSnapshot(
    cache: Cache, t: Tables, key: Option<string>, tid: string, clock: Clock): (Cache, Result<Snapshot, StoreError>)
  {
    if tid in cache then
      match HeadProjection(t, tid)
      case Failure(error) => (cache, Failure(error))
      case Success(head) =>
        if AtProjection(cache[tid], head) then (cache, Success(cache[tid]))
        else Refill(cache - {tid}, t, key, tid, clock)
    else Refill(cache, t, key, tid, clock)
  }

  /** _get_latest_snapshot_thread_safe: whatever is cached; otherwise a load, which may find at its end
    that another thread has filled the cache in the meantime (`later`). */
  function ThreadSafeSnapshot(cache: Cache, later: Cache, t: Tables, key: Option<string>, tid: string, clock: Clock)
    : (Cache, Result<Snapshot, StoreError>)
  {
    if tid in cache then (later, Success(cache[tid]))
    else
      match LoadHead(t, key, tid, clock)
      case Failure(error) => (later, Failure(error))
      case Success(s) =>
        if tid in later && AtProjection(later[tid], (s.sequence, s.lastEventHash, s.lastSignature))
        then (later, Success(later[tid]))
        else (later[tid := s], Success(s))
  }

  /** The snapshot is a fold of the first `sequence` events of the trajectory. */
  ghost predicate PrefixFold(t: Tables, tid: string, s: Snapshot) {
    && CheckpointsOf(t, tid) != []
    && 0 <= s.sequence <= |Log(t, tid)|
    && FoldsTo(Genesis(t, tid), Log(t, tid)[..s.sequence], s)
  }

  /** Every cached snapshot was the head at some time, in whichever store instance. */
  ghost predicate CacheOk(cache: Cache, t: Tables) {
    forall tid :: tid in cache ==> tid in t.trajectories && PrefixFold(t, tid, cache[tid])
  }

  lemma PrefixFoldSurvives(t: Tables, u: Tables, tid: string, s: Snapshot)
    requires TrajectoryExtends(t, u, tid) && PrefixFold(t, tid, s)
    ensures PrefixFold(u, tid, s)
  {
    hide FoldsTo;
    assert Genesis(u, tid) == Genesis(t, tid);
    assert Log(u, tid)[..s.sequence] == Log(t, tid)[..s.sequence];
  }

  /** Commits by other instances cannot falsify a cache, they can only make it old. */
  lemma CacheSurvives(cache: Cache, t: Tables, u: Tables)
    requires CacheOk(cache, t) && Extends(t, u)
    ensures CacheOk(cache, u)
  {
    hide PrefixFold;
    forall tid | tid in cache ensures tid in u.trajectories && PrefixFold(u, tid, cache[tid]) {
      assert TrajectoryExtends(t, u, tid);
      PrefixFoldSurvives(t, u, tid, cache[tid]);
    }
  }

  lemma HeadFoldIsPrefixFold(t: Tables, key: Option<string>, tid: string, s: Snapshot)
    requires ValidTrajectory(t, key, tid) && FoldsTo(Genesis(t, tid), Log(t, tid), s)
    ensures PrefixFold(t, tid, s)
  {
    hide FoldsTo, KeysMatch, Authentic, RequestHashed, ValidCheckpoint;
    HeadSequence(t, tid, key, s);
    assert Log(t, tid)[..|Log(t, tid)|] == Log(t, tid);
  }

  /** A snapshot that sits at the head of the log is a fold of the whole log. */
  lemma ProjectionMeansWholeLog(t: Tables, key: Option<string>, tid: string, s: Snapshot)
    requires tid in t.trajectories && ValidTrajectory(t, key, tid) && PrefixFold(t, tid, s)
    requires AtProjection(s, HeadProjection(t, tid).value)
    ensures FoldsTo(Genesis(t, tid), Log(t, tid), s)
  {
    hide FoldsTo, KeysMatch, Authentic, RequestHashed, ValidCheckpoint;
    LogNumbered(t, key, tid);
    assert s.sequence == |Log(t, tid)|;
    assert Log(t, tid)[..|Log(t, tid)|] == Log(t, tid);
  }

  lemma RefillIsWholeLog(cache: Cache, t: Tables, key: Option<string>, tid: string, clock: Clock)
    requires ValidTables(t, key) && CacheOk(cache, t)
    ensures var (after, r) := Refill(cache, t, key, tid, clock);
      && CacheOk(after, t)
      && (r.Success? ==> tid in t.trajectories && FoldsTo(Genesis(t, tid), Log(t, tid), r.value))
  {
    hide FoldsTo, ValidTrajectory, PrefixFold, LoadHead, Fold;
    if tid in t.trajectories && Replay(t, key, tid, None, clock).Success? {
      LoadHeadIsReplay(t, key, tid, clock);
      LoadHeadIsFold(t, key, tid, clock);
      HeadFoldIsPrefixFold(t, key, tid, Replay(t, key, tid, None, clock).value);
    }
  }

  /** get_latest_snapshot returns the fold of the whole log as it is now, however many other instances
    have committed since the cache was filled, and leaves a good cache. It succeeds whenever the head loads,
    and so always in an unsigned store with a checkpoint-safe log. */
  lemma LatestSnapshotIsWholeLog(cache: Cache, t: Tables, key: Option<string>, tid: string, clock: Clock)
    requires ValidTables(t, key) && CacheOk(cache, t)
    ensures var (after, r) := LatestSnapshot(cache, t, key, tid, clock);
      && CacheOk(after, t)
      && (r.Success? ==> tid in t.trajectories && FoldsTo(Genesis(t, tid), Log(t, tid), r.value))
      && (LoadHead(t, key, tid, clock).Success? ==> r.Success?)
      && (tid in t.trajectories && key.None? && CheckpointSafe(Log(t, tid)) ==> r.Success?)
  {
    hide FoldsTo, ValidTrajectory, PrefixFold, Replay, LoadHead, CheckpointSafe;
    RefillIsWholeLog(cache, t, key, tid, clock);
    RefillIsWholeLog(cache - {tid}, t, key, tid, clock);
    LoadHeadNeedsTrajectory(t, key, tid, clock);
    if tid in t.trajectories {
      LoadHeadIsReplay(t, key, tid, clock);
      LoadHeadIsFold(t, key, tid, clock);
    }
    if tid in cache && AtProjection(cache[tid], HeadProjection(t, tid).value) {
      ProjectionMeansWholeLog(t, key, tid, cache[tid]);
    }
  }

  /** The thread-safe path returns the fold of some prefix of the log: possibly old, never wrong. */
  lemma ThreadSafeSnapshotIsPrefix(
    cache: Cache, later: Cache, t: Tables, u: Tables, key: Option<string>, tid: string, clock: Clock)
    requires ValidTables(t, key) && ValidTables(u, key) && Extends(t, u)
    requires CacheOk(cache, t) && CacheOk(later, u)
    ensures var (after, r) := ThreadSafeSnapshot(cache, later, t, key, tid, clock);
      && CacheOk(after, u)
      && (r.Success? ==> tid in u.trajectories && PrefixFold(u, tid, r.value))
  {
    hide FoldsTo, ValidTrajectory, PrefixFold, LoadHead, TrajectoryExtends;
    CacheSurvives(cache, t, u);
    if tid !in cache && LoadHead(t, key, tid, clock).Success? {
      LoadHeadNeedsTrajectory(t, key, tid, clock);
      var s := LoadHead(t, key, tid, clock).value;
      LoadHeadIsFold(t, key, tid, clock);
      HeadFoldIsPrefixFold(t, key, tid, s);
      assert TrajectoryExtends(t, u, tid);
      TrajectoryStays(t, u, tid);
      PrefixFoldSurvives(t, u, tid, s);
    }
  }

  /** A successful reading of the head leaves it in the cache and every other entry alone; a cached head that is
    still the head is returned as it is, and an old one is not. */
  lemma LatestCacheEffect(cache: Cache, t: Tables, key: Option<string>, tid: string, clock: Clock)
    requires tid in t.trajectories ==> ValidTrajectory(t, key, tid)
    ensures var (after, r) := LatestSnapshot(cache, t, key, tid, clock);
      && (r.Success? ==> tid in after && after[tid] == r.value)
      && (forall x :: x != tid ==> (x in after <==> x in cache) && (x in cache ==> after[x] == cache[x]))
      && (tid in cache && tid in t.trajectories && AtHead(cache[tid], RowsOf(t, tid)) ==> r == Success(cache[tid]))
      && (tid in t.trajectories && (tid in cache ==> !AtHead(cache[tid], RowsOf(t, tid))) ==>
            r == Replay(t, key, tid, None, clock))
  {
    hide Replay, FoldsTo, KeysMatch, RequestHashed, Accepted, FreshSnapshot, ValidCheckpoint, Authentic;
    if tid in t.trajectories { LogNumbered(t, key, tid); }
  }

  /** The snapshot has the sequence, hash and signature of the last event, or none if there is none. */
  ghost predicate AtHead(s: Snapshot, rows: seq<EventRow>) {
    && s.sequence == |rows| && s.lastEventHash == HeadHash(rows)
    && s.lastSignature == if rows == [] then None else rows[|rows| - 1].event.header.signature
  }

  /** The thread-safe path returns a cached entry as it is, at its beginning or of the same head at its end;
    otherwise it leaves what it loaded in the cache. */
  lemma ThreadSafeCacheEffect(
    cache: Cache, later: Cache, t: Tables, key: Option<string>, tid: string, clock: Clock)
    ensures var (after, r) := ThreadSafeSnapshot(cache, later, t, key, tid, clock);
        var loaded := LoadHead(t, key, tid, clock);
      && (tid in cache ==> r == Success(cache[tid]) && after == later)
      && (tid !in cache && loaded.Failure? ==> r == loaded && after == later)
      && (tid !in cache && loaded.Success? ==>
            && r.Success? && tid in after && after[tid] == r.value
            && r.value.sequence == loaded.value.sequence && r.value.lastEventHash == loaded.value.lastEventHash
            && r.value.lastSignature == loaded.value.lastSignature
            && (r == loaded || (tid in later && r == Success(later[tid])))
            && forall x :: x != tid ==> (x in after <==> x in later) && (x in later ==> after[x] == later[x]))
  {
    hide LoadHead;
  }

  lemma TrajectoryStays(t: Tables, u: Tables, tid: string)
    requires TrajectoryExtends(t, u, tid)
    ensures tid in u.trajectories
  {
  }

  // ----- errors in a loop are final -----

  lemma {:induction false} ReplayRowsFail(s: Snapshot, rows: seq<EventRow>, key: Option<string>, clock: Clock, i: nat)
    requires i <= |rows| && ReplayRows(s, rows[..i], key, clock).Failure?
    ensures ReplayRows(s, rows, key, clock) == ReplayRows(s, rows[..i], key, clock)
    decreases |rows|
  {
    hide ReduceEvent, ReadableRow;
    if i == |rows| {
      assert rows[..i] == rows;
    } else {
      assert rows[..|rows| - 1][..i] == rows[..i];
      ReplayRowsFail(s, rows[..|rows| - 1], key, clock, i);
    }
  }

  // ----- the objects -----

  /** The SQLite file: four tables, the image that a rollback restores, and the holder of the write lock. */
  class Database {
    var trajectories: map<string, TrajectoryRow>
    var events: map<string, seq<EventRow>>
    var keys: map<string, map<string, KeyRow>>
    var checkpoints: map<string, seq<CheckpointRow>>
    var saved: Tables
    var writer: SQLiteEventStore?

    function Content(): Tables
      reads this
    {
      Tables(trajectories, events, keys, checkpoints)
    }

    constructor ()
      ensures Content() == Tables(map[], map[], map[], map[]) && writer == null
    {
      trajectories, events, keys, checkpoints := map[], map[], map[], map[];
      saved := Tables(map[], map[], map[], map[]);
      writer := null;
    }

    /** BEGIN IMMEDIATE fails while any connection, this one included, has a write transaction open. */
    method Begin(connection: SQLiteEventStore) returns (ok: bool)
      modifies this
      ensures ok == (old(writer) == null)
      ensures Content() == old(Content())
      ensures ok ==> writer == connection && saved == old(Content())
      ensures !ok ==> unchanged(this)
    {
      ok := writer == null;
      if ok {
        saved, writer := Content(), connection;
      }
    }

    method CommitTransaction()
      modifies this
      ensures Content() == old(Content()) && writer == null
    {
      writer := null;
    }

    method Rollback()
      modifies this
      ensures Content() == old(saved) && writer == null
    {
      trajectories, events, keys, checkpoints := saved.trajectories, saved.events, saved.keys, saved.checkpoints;
      writer := null;
    }

    method InsertEventRow(tid: string, row: EventRow) returns (ok: bool)
      modifies this`events
      ensures ok == InsertEvent(old(Content()), tid, row).Success?
      ensures Content() == if ok then InsertEvent(old(Content()), tid, row).value else old(Content())
      ensures ok <==>
        && (forall x :: x in old(events) ==> forall i :: 0 <= i < |old(events)[x]| ==>
              old(events)[x][i].event.header.eventId != row.event.header.eventId)
        && (tid in old(events) ==> forall i :: 0 <= i < |old(events)[tid]| ==>
              && old(events)[tid][i].event.header.sequence != row.event.header.sequence
              && old(events)[tid][i].event.header.idempotencyKey != row.event.header.idempotencyKey)
      ensures ok ==> events == old(events)[tid := (if tid in old(events) then old(events)[tid] else []) + [row]]
    {
      ok := InsertEvent(Content(), tid, row).Success?;
      if ok {
        events := events[tid := RowsOf(Content(), tid) + [row]];
      }
    }

    method UpsertKey(tid: string, idempotencyKey: string, row: KeyRow)
      modifies this`keys
      ensures keys == old(keys)[tid := KeysOf(old(Content()), tid)[idempotencyKey := row]]
    {
      keys := keys[tid := KeysOf(Content(), tid)[idempotencyKey := row]];
    }

    method InsertCheckpointRow(tid: string, row: CheckpointRow) returns (ok: bool)
      modifies this`checkpoints
      ensures ok == InsertCheckpoint(old(Content()), tid, row).Success?
      ensures Content() == if ok then InsertCheckpoint(old(Content()), tid, row).value else old(Content())
      ensures ok <==> tid in old(checkpoints) ==> forall i :: 0 <= i < |old(checkpoints)[tid]| ==>
                        old(checkpoints)[tid][i].sequence != row.sequence
      ensures ok ==>
                checkpoints ==
                    old(checkpoints)[tid := (if tid in old(checkpoints) then old(checkpoints)[tid] else []) + [row]]
    {
      var rows := CheckpointsOf(Content(), tid);
      ok := !exists q :: q in rows && q.sequence == row.sequence;
      if ok {
        checkpoints := checkpoints[tid := rows + [row]];
      }
    }
  }

  /** One store instance: a connection to the database, its signing key and its head cache. */
  class SQLiteEventStore {
    const db: Database
    const signingKey: Option<string>
    var cache: Cache

    constructor (db: Database, signingKey: Option<string>)
      ensures this.db == db && this.signingKey == signingKey && cache == map[]
    {
      this.db := db;
      this.signingKey := signingKey;
      cache := map[];
    }

    /** Closing the connection rolls back whatever transaction it still has open. */
    method Close()
      modifies db
      ensures old(db.writer) == this ==> db.Content() == old(db.saved) && db.writer == null
      ensures old(db.writer) != this ==> unchanged(db)
    {
      if db.writer == this {
        db.Rollback();
      }
    }

    method ReplayEventRows(start: Snapshot, rows: seq<EventRow>, clock: Clock) returns (r: Result<Snapshot, StoreError>)
      ensures r == ReplayRows(start, rows, signingKey, clock)
    {
      hide ReduceEvent, WellFormedEvent, VerifySignature;
      var snapshot := start;
      var i := 0;
      while i < |rows|
        invariant 0 <= i <= |rows|
        invariant ReplayRows(start, rows[..i], signingKey, clock) == Success(snapshot)
      {
        assert rows[..i + 1][..i] == rows[..i];
        if !ReadableRow(rows[i], signingKey) {
          ReplayRowsFail(start, rows, signingKey, clock, i + 1);
          return Failure(IntegrityFailure);
        }
        var next := ReduceEvent(snapshot, rows[i].event, clock(rows[i].event.header.sequence));
        if next.Failure? {
          ReplayRowsFail(start, rows, signingKey, clock, i + 1);
          return Failure(ReducerRefused(next.error));
        }
        snapshot := next.value;
        i := i + 1;
      }
      assert rows[..i] == rows;
      r := Success(snapshot);
    }

    method LoadTrajectoryHead(tid: string, clock: Clock) returns (r: Result<Snapshot, StoreError>)
      ensures r == LoadHead(db.Content(), signingKey, tid, clock)
    {
      hide ReplayRows, ValidateCheckpoint, LatestCheckpoint, RowsAfter;
      var t := db.Content();
      if tid !in t.trajectories {
        return Failure(TrajectoryNotFound);
      }
      var row := LatestCheckpoint(CheckpointsOf(t, tid), None);
      if row.None? {
        return Failure(NoCheckpoint);
      }
      if !ValidateCheckpoint(row.value, RowsOf(t, tid)) {
        return Failure(BadCheckpoint);
      }
      r := ReplayEventRows(row.value.snapshot, RowsAfter(RowsOf(t, tid), row.value.snapshot.sequence), clock);
    }

    method ReplayTrajectory(tid: string, upTo: Option<int>, clock: Clock) returns (r: Result<Snapshot, StoreError>)
      ensures r == Replay(db.Content(), signingKey, tid, upTo, clock)
    {
      hide ReplayRows, ValidateCheckpoint, LatestCheckpoint, RowsAfter, RowsUntil, ReadableRow;
      var t := db.Content();
      if tid !in t.trajectories {
        return Failure(TrajectoryNotFound);
      }
      var row := LatestCheckpoint(CheckpointsOf(t, tid), upTo);
      if row.None? {
        return Failure(NoCheckpoint);
      }
      if !ValidateCheckpoint(row.value, RowsOf(t, tid)) {
        return Failure(BadCheckpoint);
      }
      var rows := RowsAfter(RowsOf(t, tid), row.value.snapshot.sequence);
      if exists e :: e in rows && !ReadableRow(e, signingKey) {
        return Failure(IntegrityFailure);
      }
      r := ReplayEventRows(row.value.snapshot, RowsUntil(rows, upTo), clock);
    }

    method GetLatestSnapshot(tid: string, clock: Clock) returns (r: Result<Snapshot, StoreError>)
      modifies this`cache
      ensures (cache, r) == LatestSnapshot(old(cache), db.Content(), signingKey, tid, clock)
    {
      hide Replay;
      if tid in cache {
        var head := HeadProjection(db.Content(), tid);
        if head.Failure? {
          return Failure(head.error);
        }
        if AtProjection(cache[tid], head.value) {
          return Success(cache[tid]);
        }
        cache := cache - {tid};
      }
      r := ReplayTrajectory(tid, None, clock);
      if r.Success? {
        cache := cache[tid := r.value];
      }
    }

    method GetLatestSnapshotThreadSafe(tid: string, clock: Clock) returns (r: Result<Snapshot, StoreError>)
      modifies this`cache
      ensures (cache, r) == ThreadSafeSnapshot(old(cache), old(cache), db.Content(), signingKey, tid, clock)
    {
      hide LoadHead;
      if tid in cache {
        return Success(cache[tid]);
      }
      r := LoadTrajectoryHead(tid, clock);
      if r.Success? {
        cache := cache[tid := r.value];
      }
    }

    method InitNewTrajectory(tid: string, epochId: string, budget: Option<BudgetLedger>, now: Time)
      returns (r: Result<Snapshot, StoreError>)
      modifies db
      ensures old(db.writer) != null ==> r == Failure(DatabaseLocked) && unchanged(db)
      ensures old(db.writer) == null ==>
                var s := InitTrajectory(old(db.Content()), tid, epochId, budget, now);
                && db.writer == null
                && db.Content() == (if s.Success? then s.value else old(db.Content()))
                && (s.Success? <==> r.Success?)
                && (s.Success? ==> r.value == GenesisSnapshot(tid, epochId, InitialBudget(tid, budget), now))
    {
      var snapshot := GenesisSnapshot(tid, epochId, InitialBudget(tid, budget), now);
      var ok := db.Begin(this);
      if !ok {
        return Failure(DatabaseLocked);
      }
      if tid in db.trajectories {
        db.Rollback();
        return Failure(TrajectoryExists);
      }
      db.trajectories := db.trajectories[tid := TrajectoryRow(now, epochId)];
      ok := db.InsertCheckpointRow(tid, CheckpointRowFor(snapshot, 0, GenesisId(tid)));
      if !ok {
        db.Rollback();
        return Failure(TrajectoryExists);
      }
      db.CommitTransaction();
      r := Success(snapshot);
    }

    method SaveCheckpoint(snapshot: Snapshot, eventCount: int) returns (r: Result<(), StoreError>)
      modifies db
      ensures old(db.writer) != null ==> r == Failure(DatabaseLocked) && unchanged(db)
      ensures old(db.writer) == null ==>
                var s := SaveSnapshot(old(db.Content()), snapshot, eventCount);
                && db.writer == null
                && db.Content() == (if s.Success? then s.value else old(db.Content()))
                && r == (if s.Success? then Success(()) else Failure(s.error))
    {
      hide HeadProjection, CheckpointRowFor;
      var ok := db.Begin(this);
      if !ok {
        return Failure(DatabaseLocked);
      }
      var head := HeadProjection(db.Content(), snapshot.trajectoryId);
      if head.Failure? {
        db.Rollback();
        return Failure(head.error);
      }
      if !AtProjection(snapshot, head.value) {
        db.Rollback();
        return Failure(BadCheckpoint);
      }
      ok := db.InsertCheckpointRow(
        snapshot.trajectoryId,
        CheckpointRowFor(snapshot, eventCount, CheckpointId(snapshot.trajectoryId, snapshot.sequence)));
      if !ok {
        db.Rollback();
        return Failure(CheckpointConflict);
      }
      db.CommitTransaction();
      r := Success(());
    }

    /** The receipts of a batch of which some key is used. */
    method CollectReceipts(used: map<string, KeyRow>, proposed: seq<ProposedEvent>)
      returns (r: Result<seq<CommitReceipt>, StoreError>)
      ensures r == RetryReceipts(used, proposed)
    {
      var receipts := [];
      var i := 0;
      while i < |proposed|
        invariant 0 <= i <= |proposed|
        invariant RetryReceipts(used, proposed[..i]) == Success(receipts)
      {
        assert proposed[..i + 1][..i] == proposed[..i];
        var k := proposed[i].idempotencyKey;
        if k !in used {
          RetryReceiptsFail(used, proposed, i + 1);
          return Failure(CommitFailed);
        }
        if used[k].requestHash != ComputeRequestHash(proposed[i]) {
          RetryReceiptsFail(used, proposed, i + 1);
          return Failure(IdempotencyConflict);
        }
        receipts := receipts + [ReceiptOf(k, used[k])];
        i := i + 1;
      }
      assert proposed[..i] == proposed;
      r := Success(receipts);
    }

    /** One turn of the commit loop, inside the open transaction. */
    method CommitProposal(
      b: Batch, tid: string, p: ProposedEvent, i: int, env: Env) returns (r: Result<Batch, StoreError>)
      requires b.tables == db.Content()
      modifies db`events, db`keys
      ensures r == CommitOne(b, tid, signingKey, p, i, env)
      ensures r.Success? ==> db.Content() == r.value.tables
    {
      hide ReduceEvent, WellFormedEvent, EventIdTaken, SealEvent;
      var requestHash := ComputeRequestHash(p);
      var used := KeysOf(db.Content(), tid);
      if p.idempotencyKey in used {
        var row := used[p.idempotencyKey];
        if row.requestHash != requestHash {
          return Failure(IdempotencyConflict);
        }
        return Success(b.(receipts := b.receipts + [ReceiptOf(p.idempotencyKey, row)]));
      }
      var e := SealEvent(b, tid, signingKey, p, i, env);
      if !WellFormedEvent(e) {
        return Failure(CommitFailed);
      }
      var next := ReduceEvent(b.head, e, env.clock(e.header.sequence));
      if next.Failure? {
        return Failure(CommitFailed);
      }
      var ok := db.InsertEventRow(tid, EventRow(e, requestHash));
      if !ok {
        return Failure(CommitFailed);
      }
      var row := KeyRow(requestHash, e.header.eventId, b.nextSequence, e.header.eventHash);
      db.UpsertKey(tid, p.idempotencyKey, row);
      r := Success(Batch(db.Content(), next.value, b.nextSequence + 1, Some(e.header.eventHash), e.header.signature,
                         b.committed + [e], b.receipts + [ReceiptOf(p.idempotencyKey, row)]));
    }

    /** commit_events. A refused batch is rolled back; an idempotent retry returns with its transaction
      still open, so that this connection keeps the write lock. */
    method CommitEvents(
      tid: string, expectedSequence: int, expectedHeadHash: Option<Hash>, proposed: seq<ProposedEvent>, env: Env)
      returns (r: Result<CommitResult, StoreError>)
      modifies this`cache, db
      ensures proposed == [] ==> r == Failure(NoProposals) && unchanged(db)
      ensures proposed != [] && old(db.writer) != null ==> r == Failure(DatabaseLocked) && unchanged(db)
      ensures proposed != [] && old(db.writer) == null ==>
                && (db.Content(), r) ==
                     Commit(old(db.Content()), signingKey, tid, expectedSequence, expectedHeadHash, proposed, env)
                && db.writer ==
                     (if r.Success? && SomeKeyUsed(KeysOf(old(db.Content()), tid), proposed) then this else null)
                && cache == (if r.Success? && !SomeKeyUsed(KeysOf(old(db.Content()), tid), proposed)
                             then old(cache) - {tid} else old(cache))
      ensures proposed == [] || old(db.writer) != null ==> cache == old(cache)
    {
      hide CommitOne, LoadHead, CheckpointRowFor, RetryReceipts;
      if proposed == [] {
        return Failure(NoProposals);
      }
      var ok := db.Begin(this);
      if !ok {
        return Failure(DatabaseLocked);
      }
      var loaded := LoadTrajectoryHead(tid, env.clock);
      if loaded.Failure? {
        db.Rollback();
        return Failure(CommitFailed);
      }
      var used := KeysOf(db.Content(), tid);
      if SomeKeyUsed(used, proposed) {
        var receipts := CollectReceipts(used, proposed);
        if receipts.Failure? {
          db.Rollback();
          return Failure(receipts.error);
        }
        var head := loaded.value;
        return Success(CommitResult(tid, head.sequence, head.sequence, head.lastEventHash, [], receipts.value));
      }
      if loaded.value.sequence != expectedSequence || loaded.value.lastEventHash != expectedHeadHash {
        db.Rollback();
        return Failure(StaleContext);
      }
      var batch := StartBatch(db.Content(), loaded.value);
      ghost var start := batch;
      var i := 0;
      while i < |proposed|
        invariant 0 <= i <= |proposed|
        invariant CommitLoop(start, tid, signingKey, proposed[..i], env) == Success(batch)
        invariant db.Content() == batch.tables
        invariant db.saved == old(db.Content()) && cache == old(cache)
      {
        assert proposed[..i + 1][..i] == proposed[..i];
        var step := CommitProposal(batch, tid, proposed[i], i, env);
        if step.Failure? {
          CommitLoopFails(start, tid, signingKey, proposed, i + 1, env);
          db.Rollback();
          return Failure(step.error);
        }
        batch := step.value;
        i := i + 1;
      }
      assert proposed[..i] == proposed;
      if batch.head.sequence > 0 && batch.head.sequence % 50 == 0 {
        ok := db.InsertCheckpointRow(
          tid, CheckpointRowFor(batch.head, |RowsOf(db.Content(), tid)|, CheckpointId(tid, batch.head.sequence)));
        if !ok {
          db.Rollback();
          return Failure(CommitFailed);
        }
      }
      db.CommitTransaction();
      cache := cache - {tid};
      r := Success(ResultOf(tid, batch));
    }

    /** A retry succeeds exactly when the head loads and every key was used for the same request. After it no
      connection can commit until this one is closed. */
    method CommitAfterRetry(
      other: SQLiteEventStore, tid: string, proposed: seq<ProposedEvent>, env: Env, next: seq<ProposedEvent>, env2: Env)
      returns (first: Result<CommitResult, StoreError>, second: Result<CommitResult, StoreError>)
      requires other.db == db && db.writer == null
      requires proposed != [] && next != []
      requires SomeKeyUsed(KeysOf(db.Content(), tid), proposed)
      modifies this`cache, other`cache, db
      ensures first.Success? <==>
              && LoadHead(old(db.Content()), signingKey, tid, env.clock).Success?
              && forall i :: 0 <= i < |proposed| ==> KeyAnswers(KeysOf(old(db.Content()), tid), proposed[i])
      ensures first.Success? ==>
                second == Failure(DatabaseLocked) && db.writer == this && db.Content() == old(db.Content())
    {
      hide SomeKeyUsed, LoadHead, KeyAnswers;
      ghost var t := db.Content();
      RetryReceiptsIff(KeysOf(t, tid), proposed);
      UnappendedCommit(t, signingKey, tid, 0, None, proposed, env);
      first := CommitEvents(tid, 0, None, proposed, env);
      second := other.CommitEvents(tid, 0, None, next, env2);
    }
  }
}
